# A verified model of socanmatic

socanmatic is a CANopen client library with `can402`, a daemon that drives servo motors. This
project models its client-side protocols in Dafny and proves what they promise, step by step and
over whole runs, against devices that may abort, fail or lose any transfer.

| file | models |
|---|---|
| `Can.dfy` | frames, little-endian data, COB-IDs, process data frames |
| `SdoCodec.dfy` | the expedited SDO encoder and decoder |
| `SdoBytes.dfy` | the frames byte by byte, and the requests of every call of the library |
| `SdoClient.dfy` | the query loop and the typed calls, against servers and other traffic |
| `SdoPending.dfy` | what the typed calls hear when answers of earlier calls are pending |
| `ObjDict.dfy`, `DictSearch.dfy` | object descriptions, the table generator, the two binary searches |
| `Bus.dfy` | one node behind a bus on which a transfer may be refused, left unacknowledged, or answered by an older answer |
| `Pdo.dfy`, `PdoSafety.dfy` | PDO reconfiguration and what the device sees of it |
| `PdoEntries.dfy` | the transfers of a reconfiguration, one by one, and its result in the entries of the dictionary |
| `PdoProbe.dfy` | reading a PDO configuration back |
| `Ds402.dfy` | drive state, control words, init, start, stop, operation mode |
| `Ds402Safety.dfy`, `Ds402Live.dfy`, `Ds402Mirror.dfy` | safety of start, its liveness, the control-word mirror over sequences of calls |
| `Ds402Words.dfy`, `Ds402Init.dfy` | what every call sends, in the words and numbers of the profile, and how it ends |
| `BusOverSdo.dfy`, `WireSafety.dfy` | the node of `Bus` behind the SDO wire, and the PDO and drive results there |
| `WirePending.dfy`, `RemapExact.dfy`, `MirrorExact.dfy` | exactly which pending answers break these results |
| `PosLimit.dfy` | the position limiter and the saturation of velocities |
| `Startup.dfy`, `StartupOrder.dfy` | start-up of the daemon, and the order of its transfers |
| `Mapping.dfy` | what start-up maps, and what a device makes of its maps |
| `Can402.dfy`, `Can402Safety.dfy` | halting and reference messages of the daemon, and its safety over all runs |
| `DaemonRuns.dfy` | every PDO of the daemon: where it comes from, and what a failed send leaves |
| `Feedback.dfy` | demultiplexing of feedback frames |
| `RingBuffer.dfy` | the ring buffer of frames |

## How to read the model

Imperative C code is a method, on a class or an array, that is proved equal to a function of the
state before; the properties are lemmas about that function. The array of drive structures of the
daemon is an `array<Drive>`, and a pointer to a drive is such an array with a position.

The interface is modelled on two levels. `SdoClient` works on frames: a `Script` decides what traffic
surrounds an answer, whether sends and receives fail, what the server refuses, which objects a device
changes by itself, and what uninitialised buffers hold. `Bus`, on which the PDO and drive modules
stand, works on transfers: an `Env` decides the outcome of every transfer and every status word from
all events before. A transfer can be acknowledged and done, refused, done without the client learning
of it (`Unacked`), or taken for done because of an older answer although the device refused it
(`Mistaken`). A statement for all `Env` covers all of these; one that asks for `Truthful` events
excludes the last kind.

`BusOverSdo` connects the two. Whatever is pending on the queue, a transfer of `Bus` in the
environment of a network has the status and the value of the typed call over frames, and the registers
of the node stay those of the device of `Bus` (`BusIsWire`, `WireTracks`). With no answer of the node
pending, a run is truthful up to its first failure (`WireTruthful`), and `WireSafety` carries the PDO
and drive results to runs that start that way.

What a pending answer does depends on the call, and the conditions are exact. Over all surroundings in
which every frame arrives, with any refusals and failed sends:

- calls to a node act as its register file exactly if none is pending (`SdoPending.TruthfulExactly`);
- a control word keeps the mirror right exactly if none is pending or the word does not change
  (`MirrorExact.CtrlMirrorsExactly`);
- a remap of a PDO in use is atomic exactly if none is pending, or the oldest does not pass for the
  COB-ID, or it always reads as that of a valid PDO and the second does not pass
  (`RemapExact.RemapAtomicExactly`; for the order of the writes see `RemapOrderedExactly`).

The liveness of start allows for an outdated status word from the first poll on; only one that shows
Operation Enabled at the first poll is excluded, because it ends start at once
(`Ds402Live.OutdatedMisleads`).

Words on the wire are ints in their C range; control and status words are `bv16`, so that masks are
the masks of the source. Doubles are reals with explicit infinities where the code divides by zero.

## Where the code does less than one might expect

The model follows the code in these places, and lemmas say exactly when it works.

- Answers are matched by COB-ID only. After one lost receive every later upload of the same type
  replies what belongs to the one before (`SdoPending.LostReceiveShiftsRun`), an upload after a
  download succeeds with uninitialised data (`SdoPending.LostAckGivesGarbage`), and a refused download
  is reported done exactly if the oldest pending answer passes for its own
  (`SdoPending.MistakenExactly`). One lost receive of a download or of a four-byte upload lets the next
  remap zero the count of a PDO that is still valid (`RemapExact.LostReceiveBreaksRemap`), with a
  refused disabling write (`RefusalBreaks`) or, if the answer reads with bit 31 set, with none
  (`SkipBreaks`). A stop that follows a failed start can take a refused control word into the mirror, or
  leave an accepted one out of it (`MirrorExact.StopFooled`).
- The mapping loop counts with a `uint8_t`: it ends exactly for counts below 255 (`Pdo.LoopEnds`).
- The inhibit time goes through an 8-bit cast: the device gets the requested one exactly up to 255
  (`PdoSafety.InhibitTimeKept`).
- A Void with data is encoded and then refused by the decoder (`SdoCodec.EncodeThenDecode`).
- PDO number 4 runs into the SDO identifiers, and no other number does (`Can.PdoHitsSdo`).
- At exactly the hard maximum the limiter drives at full speed into the stop
  (`PosLimit.WrongWayExactlyAtHardMax`).
- A change of mode zeroes the target in the drive but not its mirror
  (`Ds402Mirror.ModeChangeLeavesTargetStale`), so start-up hands over right mirrors exactly if no
  drive changed its mode while it held a target (`Startup.StartupOrderly`).
- The command line lets a node be given twice. The send suppression is then right for a message exactly
  if for every shared object the last drive gets a new target or none before it does
  (`Can402Safety.SuppressionExactly`, with a fleet that fails it in `SharedNodeBreaksCache`), so the
  daemon's properties over runs ask for different nodes.
- The generator sorts names by `upper()` and the search compares with `strcasecmp`. Every name is found
  exactly if the two order every pair of names alike (`DictSearch.NamesFoundExactly`); an underscore
  can break that (`UnderscoreIsMissed`).

## Model

| member | source | states |
|---|---|---|
| Can.StoreThenLoad | include/socanmatic/byteorder.h:74-100 | loading gives back the stored word, whatever bytes follow |
| Can.LoadThenStore | include/socanmatic/byteorder.h:74-100 | storing a loaded word gives the bytes back |
| Can.CobIdBits | include/socanmatic/pdo.h:132-133 | the OR of function code, number and node is the closed sum used in the model |
| Can.PdoIdsInjective | include/socanmatic/pdo.h:132-133 | node and number are determined by a PDO identifier, and no RPDO is a TPDO |
| Can.PdoHitsSdo | include/socanmatic/pdo.h:132-133 | a PDO identifier of a node is one of its SDO identifiers exactly for number 4; requests and responses never collide |
| Can.FillRpdo | src/pdo.c:141-150 | identifier, length and data bytes are set and the rest of the frame is kept |
| Can.RpdoCarriesValue | include/socanmatic/pdo.h:123-133 | the frame goes out as 0x200 + 0x100 number + node, and a receiver of the two-byte frame reads the signed value that was sent |
| SdoCodec.CmdRoundTrip | include/socanmatic/sdo.h:165-179 | unpacking inverts packing of the command byte; packing inverts unpacking exactly if the reserved bit is clear |
| SdoCodec.EncodeSdo | src/sdo.c:54-117 | the frame written in place is the one that FrameAddress, DataFrame and PlainFrame give byte by byte; on an error it holds the identifier and index bytes already written |
| SdoCodec.DecodeSdo | src/sdo.c:123-205 | the message filled in place is the one that DecodedBytes gives; on an error it holds the fields already set |
| SdoCodec.EncodeThenDecode | src/sdo.c:54-205 | encoding and decoding deliver the message exactly for 7-bit nodes and data-free commands or sized data; data-free ones arrive as Void of length 0 |
| SdoCodec.DecodeThenEncode | src/sdo.c:54-205 | re-encoding an accepted full frame with data reproduces identifier and first 4 + length bytes exactly if the identifier is plain and the command byte has size and expedited set and reserved clear |
| SdoBytes.FrameAddress | src/sdo.c:58-64 | identifier 0x600 or 0x580 plus the low seven bits of the node, index low byte first, subindex, for every message and prior buffer, refused ones included |
| SdoBytes.FrameAccepted | src/sdo.c:69-116 | exactly the commands 1 and 2 of requests and 2 and 3 of answers are encoded, with a supported type if they carry data; a refused message leaves length, command and data bytes |
| SdoBytes.DataFrame | src/sdo.c:75-112 | command byte 2F, 2B, 23 or 4F, 4B, 43 by size, data bytes low first, the rest of the buffer kept |
| SdoBytes.PlainFrame | src/sdo.c:70-74 | command byte 40 or 60 and four zero bytes |
| SdoBytes.DecodesOnlySdo | src/sdo.c:126-137 | frames shorter than four bytes or with another function code are refused and write nothing |
| SdoBytes.DecodedBytes | src/sdo.c:139-204 | every other frame, short ones included: which command bits are read as what, and type, length, address, data and status that come out |
| SdoBytes.UploadRequests | include/socanmatic/sdo.h:194-237 | every upload of the library as the bytes of its request, with the type of its answer |
| SdoBytes.DownloadRequests | include/socanmatic/sdo.h:194-237 | every download of the library as the bytes of its request, its value included |
| SdoClient.SdoQuery | src/sdo.c:209-233 | the query sends once and takes the first frame with the COB-ID of the answer, or the first failure |
| SdoClient.SdoTyped | include/socanmatic/sdo.h:194-237 | a typed call gives the value, the abort code or the error of its query |
| SdoClient.UnionRoundTrip | include/socanmatic/sdo.h:194-237 | a union member gives back the value written exactly if it is of the member's type |
| SdoClient.PerformIsRegister | src/sdo.c:209-253 | a typed call to a node that the queue is quiet about is one step of a register file, consumes the queue exactly up to its own answer, and an answer that is no failure carries the index and subindex of the call |
| SdoClient.WireRefinesRegisters | src/sdo.c:209-253 | whole runs of typed calls give the replies of the register file and leave no answer behind, whatever sends fail, the servers refuse or the devices change, and with any traffic but responses of the nodes addressed |
| SdoClient.UploadReturnsLastDownload | include/socanmatic/sdo.h:194-237 | over the wire a successful upload returns the value of the last accepted download to the object, negative ones included, unless the device changed it by itself |
| SdoClient.QueryTakesOldest | src/sdo.c:219-231 | a query that hears anything hears its own answer, and leaves none behind, exactly if none of the node was pending, and otherwise the oldest |
| SdoClient.AnswersAreFifo | src/sdo.c:209-233 | over runs with failed sends and receives answers are conserved and heard in the order of the requests, late by as many queries as answers were pending at first |
| SdoPending.TruthfulExactly | src/sdo.c:209-253 | runs of calls to a node reply like the register file, for all surroundings and refusals, exactly if no answer of the node is pending at first |
| SdoPending.MistakenExactly | src/sdo.c:219-231 | a download can be reported done although it was refused exactly if an answer is pending and the oldest passes for an acknowledgement |
| SdoPending.LostReceiveShiftsRun | src/sdo.c:219-231 | after one lost receive every upload of the run, of the same type, replies what the register file gives for the upload before it |
| SdoPending.LostAckGivesGarbage | src/sdo.c:147-151 | an upload after a download whose acknowledgement was lost succeeds with the data of its uninitialised buffer |
| Pdo.RemapPdo | src/pdo.c:53-139 | the step-by-step code, with its early returns, makes exactly the run that RemapAsks and RemapEntries describe and whose atomicity and ordering are proved |
| Pdo.LoopEnds | src/pdo.c:101-109 | the uint8_t counter of SetMap passes the count exactly for counts below 255, which is what the loop asks for |
| PdoSafety.RemapAtomic | src/pdo.c:83-138 | after any events of a run, none of them mistaken, a valid PDO holds the old or the whole new configuration; it is valid exactly before the first effective write, if it was, or after the last of a complete request; new is requested exactly if the inhibit time fits in eight bits |
| PdoSafety.RemapOrdered | src/pdo.c:89-136 | no run, as long as no answer is mistaken, writes map entries, count, options or COB-ID bits in a state in which the server forbids it, nor any other index |
| PdoSafety.RemapSuccess | src/pdo.c:70-138 | success, no answer mistaken, leaves the new configuration valid, the lower COB-ID bits conserved and all other indices unchanged; it is the requested one exactly if the inhibit time fits in eight bits |
| PdoSafety.RemapTakesPrefix | src/pdo.c:83-138 | after any events, none mistaken, the device has taken in a prefix of the plan as long as the number of effective writes |
| PdoSafety.InhibitTimeKept | src/pdo.c:117-121 | after a successful run the device holds the inhibit time of the call exactly if it fits in eight bits |
| PdoEntries.RemapEntries | src/pdo.c:70-138 | success, no answer mistaken: COB-ID, options, count and words of 0x1800 and 0x1A00 plus the number for a TPDO, 0x1400 and 0x1600 for an RPDO, are as requested, and no other entry has changed |
| PdoEntries.RemapAsks | src/pdo.c:83-138 | every run, with any outcomes, makes exactly the transfers of the list, in order, up to the first that fails, and reports its status |
| PdoEntries.RemapTouches | src/pdo.c:70-136 | every transfer of every run is for one of the two records of its PDO and direction |
| PdoEntries.RemapRefuses | src/pdo.c:59-78 | a run makes no transfer exactly if a parameter is out of range or the direction is none |
| PdoEntries.RemapResult | src/pdo.c:100-109 | if all transfers succeed the run does exactly if all objects can be mapped; otherwise it leaves the PDO disabled with a count of zero |
| PdoProbe.ProbePdo | src/probe.c:51-141 | the nested loops give exactly the report that ProbeReads and RemapThenProbe are about; an aborted record is skipped, any other failure ends the probe |
| PdoProbe.ProbeReads | src/probe.c:55-136 | probing changes nothing, and as long as no answer is mistaken every section shows the record and mapping held |
| PdoProbe.ProbeReports | src/probe.c:55-140 | a successful probe has opened the records of RPDO 0 to 7 in order and reports exactly those it could read; an abort of an opening is the only failure it survives, and any other ends it with its status |
| PdoProbe.SplitMapWord | src/probe.c:128-133 | splitting a map word gives back index, subindex and bit size |
| PdoProbe.RemapThenProbe | src/probe.c:106-134 | after a successful remap, no answer of either mistaken, the probe decodes exactly the requested list in order, and if the device answers it does report it |
| Ds402.StateMatchesPattern | src/ds402.c:49-71 | a state is decoded exactly if its status bit pattern matches, whatever the order of the tests |
| Ds402.DownloadCtrlMask | src/ds402.c:98-105 | the masked word is written, and the mirror takes it only on success |
| Ds402.StartDrive | src/ds402.c:176-231 | the counted loop makes exactly the run that TurnSends, StartSafe and StartLives are about, and changes no other drive |
| Ds402.StopDrive | src/ds402.c:233-235 | stop makes the run that StopSends and StopShutsDown are about, and changes no other drive |
| Ds402.InitDrive | src/ds402.c:111-164 | init makes the run that InitUploads and InitMirrors are about, and changes no other drive |
| Ds402.SetOpModeOf | src/ds402.c:245-295 | the mode call makes the run that ModeRefused, ModeGoesOn and SetOpModeSuccess are about; a failed remap does not keep it from writing the control word |
| Ds402Safety.StartSafe | src/ds402.c:176-231 | for every status stream and every outcome, mistaken ones included: operation is enabled only right after Switched On, a fault reset follows a successful word without the reset bit, only bits 0 to 3 and 7 change, at most 100 polls, Ok only in Operation Enabled |
| Ds402Safety.ResetIsRisingEdge | include/socanmatic/ds402.h:85-109 | at a fault-reset write the device's own word has the reset bit clear, exactly unless the word before was refused, taken for acknowledged, and the bit was set before |
| Ds402Words.CommandWords | include/socanmatic/ds402.h:85-109 | the control word that each command makes of the current one, in numbers |
| Ds402Words.TurnSends | src/ds402.c:184-225 | what start sends in each state: an NMT start when not ready, shutdown, NMT start and reset on a fault, the word of the next command in the others, nothing when operation is enabled or no state is shown |
| Ds402Words.StartResult | src/ds402.c:176-231 | for every status stream and every failure start ends with the status of a last failed transfer, or Ok on Operation Enabled, or a protocol error on no state, or a device error after exactly 100 polls |
| Ds402Words.StopSends | src/ds402.c:233-235 | stop sends the shutdown word and reports its outcome |
| Ds402Words.ModeRefused | src/ds402.c:248-272 | the mode call sends nothing exactly if the RPDO is no 8-bit number, the mode is not 2, or it would change without HALT, and says which |
| Ds402Words.ChangeModeSends | src/ds402.c:268-281 | a change writes the mode, and once that has succeeded a zero reference |
| Ds402Words.ModeGoesOn | src/ds402.c:284-294 | once the mode is right the ramp word always goes out last, and its failure is reported before that of the remap |
| Ds402Init.InitUploads | src/ds402.c:111-164 | init makes its eight uploads in order up to the first failure, changes nothing in the device, and loads exactly what it has uploaded, the limits at the end |
| Ds402Live.CommandsHelp | src/ds402.c:184-221 | a command on a current status brings the drive one rank nearer, on an outdated one it does no harm |
| Ds402Live.TurnPays | src/ds402.c:182-228 | every poll that does not end the loop uses up one of the polls needed |
| Ds402Live.StartLives | src/ds402.c:176-231 | a conformant drive in any state, with f faults and s polls with an outdated status or a delayed transition, the first included, is brought to Operation Enabled if 6 f + s + 5 <= 100 |
| Ds402Live.OutdatedMisleads | src/ds402.c:182-228 | an outdated first status of Operation Enabled makes start report Ok without a command, one of no state a protocol error |
| Ds402Live.SomeDriveConforms | src/ds402.c:176-231 | there is a conformant environment for every drive and every disturbance |
| Ds402Live.StopShutsDown | src/ds402.c:233-235 | an acknowledged stop takes a drive that is on back to Ready To Switch On |
| Ds402Mirror.CallsKeepHalt | src/ds402.c:233-295 | over any run of start, stop and mode calls, with any failures and mistaken answers, the device's HALT bit never changes and the mode is written only while it is set |
| Ds402Mirror.DlCtrlMirrors | src/ds402.c:98-105 | a download keeps the mirror right exactly unless a changed word is applied unacknowledged, or refused and taken for acknowledged |
| Ds402Mirror.CallsMirror | src/ds402.c:176-295 | the mirror equals the device after any run of calls in which no control word was applied unacknowledged or mistaken for acknowledged, whatever becomes of the other transfers |
| Ds402Mirror.InitMirrors | src/ds402.c:111-164 | a successful init without mistaken answers makes mirror, target and feedback equal to the device and nests the limits by the margin |
| Ds402Mirror.SetOpModeSuccess | src/ds402.c:245-295 | success, no answer mistaken, means velocity mode, target zeroed on a change made under HALT, an event-driven RPDO mapped to the target velocity alone, ramp bits set |
| Ds402Mirror.ModeChangeLeavesTargetStale | src/ds402.c:268-281 | after a change of mode the target mirror is right exactly if it was zero |
| BusOverSdo.BusIsWire | src/sdo.c:209-253 | with anything pending, a transfer of Bus has the status and value of the typed call over frames, and the registers of the node go on holding the device of Bus |
| BusOverSdo.LoadedIsGiven | src/ds402.c:121-138 | what init loads into the drive structure is the number that the upload gives, mistaken answers included |
| BusOverSdo.WordIsGiven | src/ds402.c:115-116 | and so is the control word |
| BusOverSdo.WireTracks | src/sdo.c:209-253 | so after every log that a client can produce over the wire |
| BusOverSdo.WireTruthful | src/sdo.c:219-231 | with no answer pending at first, a log that stops at the first failure holds no mistaken answer |
| BusOverSdo.NetOfReaches | src/sdo.c:209-253 | every device whose entries fit their types can be behind the wire, with no answer pending |
| WireSafety.WireRemap | src/pdo.c:53-139 | over the wire with no answer pending at first: the registers are atomic and ordered after any transfer, and success leaves the new configuration |
| WireSafety.WireStart | src/ds402.c:176-231 | over the wire with no answer pending at first: at every fault-reset write the register has the reset bit clear, and the mirror is right in the end unless the last control word went unacknowledged |
| WireSafety.WireSetOpMode | src/ds402.c:245-295 | over the wire with no answer pending at first: a successful mode call has left the registers in velocity mode, if the client knew the mode before, with map, ramp bits and mirror as they should be |
| WireSafety.WireKeepsHalt | src/ds402.c:233-295 | over the wire, with anything pending, no run of calls changes the HALT bit of the register |
| RemapExact.RemapAtomicExactly | src/pdo.c:83-138 | over the wire, the remap of a PDO in use is atomic after every transfer in all fair surroundings exactly if the pending answers do not endanger it |
| RemapExact.RemapOrderedExactly | src/pdo.c:83-138 | it writes only what the server allows in its state exactly if, besides, the oldest answer, if it passes, reads as the COB-ID held |
| RemapExact.SafeRemap | src/pdo.c:83-138 | answers that do not endanger it leave the remap atomic, whatever the PDO holds and whatever is requested |
| RemapExact.SkipBreaks | src/pdo.c:83-99 | an oldest answer that can read with bit 31 set makes the run skip the disabling write and zero the count of a valid PDO, with a server that consents to everything |
| RemapExact.RefusalBreaks | src/pdo.c:83-99 | any other endangering answer does so when the server refuses the disabling write |
| RemapExact.LostCallEndangers | src/sdo.c:219-231 | the answer that one lost receive leaves endangers the next remap exactly if the call was a download or an upload of four bytes |
| RemapExact.LostReceiveBreaksRemap | src/pdo.c:53-139 | so after one lost receive the remap of a PDO in use is always atomic exactly if the call was an upload of fewer than four bytes |
| MirrorExact.CtrlMirrorsExactly | src/ds402.c:98-105 | over the wire, a control word keeps the mirror right in all fair surroundings exactly if no answer is pending or the word does not change |
| MirrorExact.StopFooled | src/can402.c:664-666 | with an answer pending, a refused stop reports success if that passes, and an accepted stop reports an error if not; the mirror is wrong in both |
| MirrorExact.WireCallsMirror | src/ds402.c:176-295 | from no answer pending and as long as every frame arrives, the mirror is right after any run of start, stop and mode calls, failed remaps included |
| MirrorExact.ModeMirrorsWhen | src/ds402.c:286-295 | after a mode call with any losses before its control word, the mirror is right exactly if the word is unchanged or not sent, no answer was left, or the oldest passes just when the word is accepted |
| Startup.BootDrive | src/can402.c:294-390 | the calls of init for one drive, up to the first failure, make the run that BootInOrder, BootMaps and BootMirrors are about, and change no other drive |
| Startup.BootMirrors | src/can402.c:294-390 | a successful start-up of a drive leaves the control mirror right and the target mirror right exactly if the mode had not to change or the target was zero |
| Startup.StartupOrderly | src/can402.c:294-390 | start-up hands over the order that RunSafe starts from exactly if that holds of every drive |
| StartupOrder.BootInOrder | src/can402.c:294-390 | start-up of a drive, whatever fails: the uploads of init, the first maps, mode and user RPDO, then start; no phase begins before the one before is done, and only a start-up that reaches the last succeeds |
| Mapping.BootMaps | src/can402.c:324-375 | a successful start-up with different PDO numbers, no answer mistaken: control RPDO mapped to 6040, user RPDO to 6042, user TPDO to 6064 then 606C with event timer 10, status TPDO to 6041 if wanted; inhibit times, RPDO timers and all other entries unchanged |
| Mapping.FeedbackArrives | src/can402.c:644-654 | the TPDO that a started drive builds by reading the words of its own map sets the raw position and velocity to those of the drive |
| Mapping.ReferenceArrives | src/pdo.c:141-150 | from the frame of a reference or control word, a started drive takes by its own map exactly that value |
| PosLimit.LimitExactly | src/can402.c:467-493 | the limited reference in every band, with the distance by which it is pushed back |
| PosLimit.LimitShifts | src/can402.c:467-493 | the push does not depend on the reference |
| PosLimit.TargetExactly | src/can402.c:519-531 | the target is the limited reference scaled, clamped at 32767 and cut towards zero |
| PosLimit.LimitAntitone | src/can402.c:467-493 | a larger position gives no larger limited value exactly unless it is the hard maximum and the smaller one is not a full-speed position; then no larger target either |
| PosLimit.LimitEnds | src/can402.c:467-531 | the reference passes inside the soft band, rounded towards zero; beyond the hard limits the target is full speed back |
| PosLimit.WrongWayExactlyAtHardMax | src/can402.c:471-480 | above the soft limit the offset is positive exactly at the hard maximum, and then the target is full speed outwards |
| PosLimit.StopsForward | src/can402.c:478-492 | the limited reference v is not positive exactly from (soft + v hard)/(1 + v) on, and then no smaller reference moves forward |
| PosLimit.SaturatedMonotone | src/can402.c:522-531 | scaling and clamping keep the order and the range of 32767 |
| Can402.Daemon.SetHalt | src/can402.c:560-585 | the loop over the drives with its self-call terminates in the state that the halting lemmas are about |
| Can402.Daemon.ProcessMessage | src/can402.c:499-557 | an expired message changes nothing; every other leads to the state that RunSafe, VelocitiesSent and OffsetsPublished are about, velocities only after un-halting |
| DaemonRuns.HaltSent | src/can402.c:560-585 | halting, with any failed sends: exactly the drives not halted are sent their word with bit 8 set, in order, and a mirror takes it exactly if its send worked |
| DaemonRuns.UnhaltSent | src/can402.c:560-585 | un-halting sends the halted drives their word with bit 8 clear, in order, up to the first failed send, and is from there a halt of all drives |
| DaemonRuns.ExpiredInvisible | src/can402.c:503-507 | any run is the run without its expired messages |
| DaemonRuns.ReferencesStem | src/can402.c:499-557 | every reference PDO of any run was given by an unexpired velocity message to that drive |
| DaemonRuns.VelocitiesSent | src/can402.c:519-547 | with any failed sends, exactly the drives with a new target are sent it, in order, and a mirror takes it exactly if its send worked |
| DaemonRuns.OffsetsPublished | src/can402.c:549-552 | a message of offsets moves the published positions by them, sends nothing and changes no later target |
| DaemonRuns.SendFeedback | src/can402.c:598-604 | the numbers published are those of OffsetsPublished, for every drive in order |
| Can402Safety.UnhaltAllOrNothing | src/can402.c:560-585 | un-halting clears all drives and the flag, or after a failed send halts every drive or loses its halting word; only HALT bits change |
| Can402Safety.HaltAttempts | src/can402.c:560-585 | after halting every drive is halted or its halting word was sent in vain |
| Can402Safety.RunSafe | src/can402.c:499-585 | in every reachable state a clear flag means no drive is halted, both mirrors equal what last reached the drives, and every reference was sent while no drive had HALT set |
| Can402Safety.SuppressionInvisible | src/can402.c:532-545 | while sends work, any run leaves the same drives as the loop that always sends |
| Can402Safety.MessageReachesDrives | src/can402.c:515-548 | a message with working sends un-halts every drive and gives it the limited, saturated reference |
| Can402Safety.SuppressionExactly | src/can402.c:532-545 | for any drives with right mirrors, nodes given twice included, suppressing and always sending leave the same exactly if for every shared object the last drive gets a new target or none before it does |
| Can402Safety.SharedNodeBreaksCache | src/can402.c:216-226 | a node given twice, with references 5 and 0: the suppressing and the sending loop leave different targets |
| Feedback.FeedbackRecv | src/can402.c:624-662 | the receive loop, failed receives skipped, leaves the drives as HeardIsLast describes |
| Feedback.FilterDropsNothing | src/can402.c:639-645 | the range filter passes a drive's identifier exactly for 8-bit PDO numbers |
| Feedback.HeardIsLast | src/can402.c:624-662 | after any stream a drive's raw feedback is that of the last full frame with its identifier; a drive whose TPDO number has more than eight bits hears nothing |
| Feedback.FrameCarriesFeedback | src/can402.c:644-654 | a frame of position and velocity with identifier 0x180 + 0x100 number + node sets exactly these, with their signs |
| Feedback.UpdateFeedback | src/can402.c:587-596 | position and velocity times the factors are the raw values, for every drive, and nothing else changes |
| DictSearch.SearchIndex | src/dict.c:78-83 | a sorted table is searched for index and subindex: an entry with them is returned exactly if there is one |
| DictSearch.CompareIndex | src/dict.c:59-63 | the difference of keys fits in an int32_t |
| DictSearch.KeyOrder | src/dict.c:59-80 | the comparator orders by index and then by subindex |
| DictSearch.CompareIsLexicographic | src/dict.c:53-57 | the comparison is the lexicographic order of the folded names, a proper prefix first |
| DictSearch.GeneratedTables | canmatc:222-260 | the generator lists the objects in key order and every object once in the name table, in upper-case order |
| DictSearch.SortObjsStable | canmatc:228-229 | objects with one key keep the order of the sections |
| DictSearch.IndexSearchIsScan | src/dict.c:78-83 | over any generated table, with duplicate keys, the search agrees with a scan |
| DictSearch.CompareFoldsAgree | canmatc:231-235 | names without the six characters compare alike under upper-case and lower-case folding |
| DictSearch.FindName | src/dict.c:65-76 | the loop gives the position that NameSearchIsScan is about, reached through the name table |
| DictSearch.NameSearchIsScan | src/dict.c:53-76 | over any generated table whose names both foldings order alike, any name is found exactly if some object carries it up to case, and that object does |
| DictSearch.PlainNamesFound | src/dict.c:53-76 | so in particular for names without the six characters between Z and a |
| DictSearch.FoundMeansSorted | src/dict.c:53-76 | if every entry of an interval finds itself by binary search, the interval is in strict strcasecmp order |
| DictSearch.NamesFoundExactly | canmatc:231-235 | in a dictionary generated from names distinct up to case, every name is found exactly if upper() and strcasecmp order every pair of names alike |
| DictSearch.UnderscoreIsMissed | canmatc:231-235 | a table that fails the condition of NamesFoundExactly: with an underscore a name that is in it is not found |
| RingBuffer.MaskIsRemainder | include/socanmatic/can_buffer.h:54-62 | the mask equals the remainder for every size_t |
| RingBuffer.CanBuf.PushFrame | src/can_buffer.c:58-80 | push in place appends the frame to the queue of contents, or refuses exactly at 256 frames |
| RingBuffer.CanBuf.PopFrame | src/can_buffer.c:113-130 | pop in place drops the oldest frame, or fails exactly if there is none |
| RingBuffer.CanBuf.ClearAll | src/can_buffer.c:42-45 | clear in place leaves no contents |
| RingBuffer.CanBuf.HeadFrame | src/can_buffer.c:83-95 | the frame returned is the oldest of the contents |
| RingBuffer.CanBuf.TailFrame | src/can_buffer.c:98-110 | the frame returned is the newest of the contents |
| RingBuffer.EndsRefine | src/can_buffer.c:83-110 | head and tail are the first and last frame of the queue |
| RingBuffer.RingIsQueue | src/can_buffer.c:42-130 | over all sequences of operations the ring is a first-in first-out queue of at most 256 frames |

## Left out

- Sockets, drivers and `dlopen`: an interface is its sequence of outcomes; a receive on an exhausted queue, which would block, counts as a failure.
- Segmented and block transfers, `canmat_pdo_process` and `canmat_402_probe_pdo`, which the source does not implement.
- `canmat_obj_ul` and `canmat_obj_dl`: the typed SDO calls with a check of the object type around them; they only add the check.
- Printing, string tables, the command line, messaging channels, clocks and threads; a message carries a flag that says whether it is expired.
- The names that the probe prints for mapped objects, and the partial output for a PDO whose reading fails midway.
- The check by which the probe refuses an acknowledgement in place of a value: such a mistaken answer is one more failed outcome.
- RemapExact.RemapAtomicExactly: the breaking half is stated for a PDO that is valid with something mapped and for a request that maps something; the safe half (SafeRemap) is for all.
- RemapExact.RemapOrderedExactly: stated for the same PDOs and requests.
- Over the wire, devices change by themselves only objects that `Bus.Device` does not hold, such as the status word; a position that moves between two uploads of init is not modelled.
- The order in which start-up takes the drives phase by phase: every drive has its own line, so its own calls are in the order of the source. The stop of all drives and the exit after a failure are left out.
- The fields `abort_code` and `actual_cur` of the drive structure, which no modelled decision reads.
- Rounding of doubles and the value of pi: the limiter's margin is a parameter. The unit factors, constants in the program, are parameters that are not zero.
- The two bytes of the NMT start command: `Bus` has one event for it.
- The state message of the daemon beyond the positions and velocities in it.
- The order of relaxed atomic loads and stores between the feedback and the main thread: each store is one step.
- `canmat_typed_parse`, enum descriptions and the parsing of EDS files; the generator model starts from the parsed sections.
- DictSearch.SearchIndex: which of several entries with the same key is returned is not stated, because bsearch does not promise it.
