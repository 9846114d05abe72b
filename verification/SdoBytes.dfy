/** The SDO frames byte by byte (section 7.2.4.3 of CiA 301), and the calls of the library as the
    frames that a node sees. */
module SdoBytes {
  import opened Can
  import opened SdoCodec
  import opened SdoClient
  import Bus
  import BusOverSdo

  // ----- encoding -----

  /** The numbers of bytes of the types that carry data. */
  lemma Sizes(t: DataType)
    ensures Size(t) == match t
                       case Integer8 | Unsigned8 => 1
                       case Integer16 | Unsigned16 => 2
                       case Integer32 | Unsigned32 | Real32 => 4
                       case Void | Unsupported => 0
  {
  }

  /** What a message puts into a frame: identifier, index and subindex in any case. */
  lemma FrameAddress(prior: Frame, m: Msg, isTx: bool)
    ensures var f := Sdo2Can(prior, m, isTx).1;
            && f.id == (if isTx then 0x580 else 0x600) + m.node % 0x80
            && f.data[1] == m.index % 0x100 && f.data[2] == m.index / 0x100 && f.data[3] == m.subindex
  {
  }

  /** The encoder accepts exactly these commands; otherwise nothing but the address is written. */
  lemma FrameAccepted(prior: Frame, m: Msg, isTx: bool)
    ensures var (r, f) := Sdo2Can(prior, m, isTx);
            && (r == Ok <==> m.cs == (if isTx then 3 else 2)
                             || (m.cs == (if isTx then 2 else 1) && m.dtype != Unsupported))
            && (r == Ok || r == ErrParam)
            && (r == Ok ==> f.dlc == 8)
            && (r != Ok ==> f.dlc == prior.dlc && f.data[0] == prior.data[0] && f.data[4..] == prior.data[4..])
  {
  }

  /** The data bytes of a word, low byte first, in front of what the buffer held. */
  predicate DataBytes(data: seq<u8>, n: nat, u: u32, prior: seq<u8>)
    requires |data| == 8 == |prior| && n <= 4
  {
    && (n >= 1 ==> data[4] == u % 0x100)
    && (n >= 2 ==> data[5] == u / 0x100 % 0x100)
    && (n >= 3 ==> data[6] == u / 0x1_0000 % 0x100)
    && (n >= 4 ==> data[7] == u / 0x100_0000)
    && data[4 + n..] == prior[4 + n..]
  }

  /** The command byte of a frame with data: 2F, 2B and 23 for downloads, 4F, 4B and 43 for the
      answers to uploads, of one, two and four bytes. */
  function DataCommand(n: nat, isTx: bool): u8
  {
    if isTx then (if n == 1 then 0x4F else if n == 2 then 0x4B else 0x43)
    else if n == 1 then 0x2F else if n == 2 then 0x2B else 0x23
  }

  /** Download requests and upload answers: command byte and data. */
  lemma DataFrame(prior: Frame, m: Msg, isTx: bool)
    requires m.cs == (if isTx then 2 else 1) && m.dtype != Unsupported
    ensures var (r, f) := Sdo2Can(prior, m, isTx);
            && r == Ok && f.data[0] == DataCommand(Size(m.dtype), isTx)
            && DataBytes(f.data, Size(m.dtype), m.data, prior.data)
  {
    hide PackCmd, Layout, Payload, DataBytes;
    var n := Size(m.dtype);
    var f := Sdo2Can(prior, m, isTx).1;
    DataCommandIs(m.cs, n, isTx, m.dtype);
    PayloadBytes(f.data, m.dtype, m.data, prior.data);
  }

  lemma DataCommandIs(cs: u3, n: nat, isTx: bool, t: DataType)
    requires cs == (if isTx then 2 else 1) && n == Size(t)
    ensures PackCmd(Cmd(1, 1, (4 - n) % 4, cs)) == DataCommand(n, isTx)
  {
  }

  lemma PayloadBytes(data: seq<u8>, t: DataType, u: u32, prior: seq<u8>)
    requires |data| == 8 == |prior| && data[4..] == Payload(t, u) + prior[4 + Size(t)..]
    ensures DataBytes(data, Size(t), u, prior)
  {
    WordBytes(u);
    var n := Size(t);
    var tail := Payload(t, u) + prior[4 + n..];
    assert data[4..][n..] == prior[4 + n..];
    assert forall i | 0 <= i < n :: data[4 + i] == tail[i];
  }

  lemma WordBytes(u: u32)
    ensures u % 0x1_0000 % 0x100 == u % 0x100 && u % 0x1_0000 / 0x100 == u / 0x100 % 0x100
  {
    Digit(u % 0x100, u / 0x100);
    var q := u / 0x1_0000;
    assert u == 0x1_0000 * q + u % 0x1_0000;
    assert u / 0x100 == 0x100 * q + u % 0x1_0000 / 0x100;
  }

  /** Upload requests, download acknowledgements and aborts. */
  lemma PlainFrame(prior: Frame, m: Msg, isTx: bool)
    requires m.cs == (if isTx then 3 else 2)
    ensures var (r, f) := Sdo2Can(prior, m, isTx);
            r == Ok && f.data[0] == (if isTx then 0x60 else 0x40) && f.data[4..] == [0, 0, 0, 0]
  {
  }

  lemma AbortBytes(key: ObjKey, code: u32)
    ensures var f := AbortFrame(key, code);
            && f.id == 0x580 + key.node % 0x80 && f.dlc == 8 && f.data[0] == 0x80
            && f.data[1] == key.index % 0x100 && f.data[2] == key.index / 0x100 && f.data[3] == key.subindex
            && f.data[4] == code % 0x100 && f.data[5] == code / 0x100 % 0x100
            && f.data[6] == code / 0x1_0000 % 0x100 && f.data[7] == code / 0x100_0000
  {
    var f := AbortFrame(key, code);
    assert f.data[4..] == Stle32(code);
    assert forall i | 0 <= i < 4 :: f.data[4 + i] == f.data[4..][i];
  }

  // ----- decoding -----

  /** The data bytes of a frame as a number, low byte first. */
  function Number(data: seq<u8>, n: nat): int
    requires |data| == 8 && n <= 4
  {
    (if n >= 1 then data[4] as int else 0) + (if n >= 2 then 0x100 * (data[5] as int) else 0)
    + (if n >= 3 then 0x1_0000 * (data[6] as int) else 0) + (if n >= 4 then 0x100_0000 * (data[7] as int) else 0)
  }

  /** Frames that are too short or no SDO are refused, with nothing written. */
  lemma DecodesOnlySdo(stale: Msg, f: Frame, dtype: DataType)
    ensures var func := f.id % 0x1_0000 / 0x80;
            f.dlc < 4 || (func != 0xB && func != 0xC) ==> Can2Sdo(stale, f, dtype) == (ErrProto, stale)
  {
    FuncLiteral(f.id);
  }

  lemma FuncLiteral(id: u32)
    ensures FuncBits(id) == 0x580 <==> id % 0x1_0000 / 0x80 == 0xB
    ensures FuncBits(id) == 0x600 <==> id % 0x1_0000 / 0x80 == 0xC
    ensures NodeBits(id) == id % 0x80
  {
    var q := id / 0x1_0000;
    assert id == 0x1_0000 * q + id % 0x1_0000;
    assert id % 0x80 == id % 0x1_0000 % 0x80;
  }

  /** The length of a frame with data: from the size bits if the size bit is set, otherwise what the
      frame has behind the address. */
  function DataLength(b: u8, dlc: u8): int { if b % 2 == 1 then 4 - b / 4 % 4 else dlc - 4 }

  /** What the decoder makes of an SDO frame, by its command byte: the upper three bits are 4 for an
      abort, 3 in an answer for an acknowledgement, 2 for an upload; 1 and 2 in a request for a
      download and an upload; all others are refused with the command noted. */
  lemma DecodedBytes(stale: Msg, f: Frame, dtype: DataType)
    requires f.dlc >= 4 && (f.id % 0x1_0000 / 0x80 == 0xB || f.id % 0x1_0000 / 0x80 == 0xC)
    ensures var (r, m) := Can2Sdo(stale, f, dtype);
            var answer, cs := f.id % 0x1_0000 / 0x80 == 0xB, f.data[0] / 0x20;
            var addressed := stale.(cs := cs, node := f.id % 0x80, subindex := f.data[3],
                                    index := f.data[1] as int + 0x100 * (f.data[2] as int),
                                    dtype := m.dtype, length := m.length, data := m.data);
            if cs == 4 then
              && m == addressed && m.dtype == Unsigned32 && m.length == 4
              && (if f.dlc < 8 then r == ErrProto && m.data == stale.data
                  else r == ErrAbort && m.data == Number(f.data, 4))
            else if cs == (if answer then 3 else 2) then
              r == Ok && m == addressed && m.dtype == Void && m.length == 0 && m.data == stale.data
            else if cs == (if answer then 2 else 1) then
              && m == addressed && m.dtype == dtype && m.length == DataLength(f.data[0], f.dlc)
              && DataDecoded(stale, f, dtype, r, m)
            else
              r == ErrProto && m == stale.(cs := cs)
  {
    hide UnpackCmd, FuncBits, NodeBits, Ldle16, LoadData, Number;
    FuncLiteral(f.id);
    HeadBytes(f);
    var answer, cmd := FuncBits(f.id) == FUNC_SDO_TX, UnpackCmd(f.data[0]);
    match Shape(answer, cmd, f.dlc, dtype)
    case Some((t, n)) =>
      DecodeShaped(stale, f, dtype, answer, t, n);
      LoadBytes(stale.(cs := cmd.cs, dtype := t, length := n, node := NodeBits(f.id),
                       index := Ldle16(f.data[1..]), subindex := f.data[3]), f);
    case None =>
  }

  /** The parts of the first four bytes. */
  lemma HeadBytes(f: Frame)
    ensures var b := f.data[0]; UnpackCmd(b).cs == b / 0x20 && UnpackCmd(b).s == b % 2 && UnpackCmd(b).n == b / 4 % 4
    ensures Ldle16(f.data[1..]) == f.data[1] as int + 0x100 * (f.data[2] as int)
  {
    assert f.data[1..][0] == f.data[1] && f.data[1..][1] == f.data[2];
  }

  /** Loading the data of a message whose command, type and length are known. */
  lemma LoadBytes(m: Msg, f: Frame)
    ensures var (r, got) := LoadData(m, f);
            && got == m.(data := got.data)
            && (if m.cs == CS_ABORT && r != ErrParam && r != ErrProto
                then r == ErrAbort && DataDecoded(m, f, m.dtype, Ok, got)
                else DataDecoded(m, f, m.dtype, r, got))
  {
    assert forall i | 0 <= i < 4 :: f.data[4..][i] == f.data[4 + i];
  }

  /** Data is taken exactly if the type is supported, its size is the length, and the frame is long
      enough; the bytes above it stay as they were. */
  predicate DataDecoded(stale: Msg, f: Frame, dtype: DataType, r: Status, m: Msg)
  {
    var n := Size(dtype);
    if dtype == Unsupported then r == ErrParam && m.data == stale.data
    else if m.length != n || f.dlc < 4 + n then r == ErrProto && m.data == stale.data
    else
      && r == Ok
      && (n == 1 ==> m.data == stale.data - stale.data % 0x100 + Number(f.data, 1))
      && (n == 2 ==> m.data == stale.data - stale.data % 0x1_0000 + Number(f.data, 2))
      && (n == 4 ==> m.data == Number(f.data, 4))
      && (n == 0 ==> m.data == stale.data)
  }

  // ----- the calls of the library -----

  /** The request frame of a transfer. */
  function RequestFrame(prior: Frame, node: u8, ask: Bus.Ask): Frame
    requires ask != Bus.AskNmt
  {
    Sdo2Can(prior, Request(BusOverSdo.CallOf(node, ask)), false).1
  }

  /** Command, index and subindex of a frame. */
  predicate Head(f: Frame, cmd: u8, index: u16, subindex: u8)
  {
    f.data[0] == cmd && f.data[1] == index % 0x100 && f.data[2] == index / 0x100 && f.data[3] == subindex
  }

  /** Every request goes to the node with eight bytes. */
  lemma RequestIds(prior: Frame, node: u8, ask: Bus.Ask)
    requires ask != Bus.AskNmt
    ensures RequestFrame(prior, node, ask).id == 0x600 + node % 0x80 && RequestFrame(prior, node, ask).dlc == 8
  {
    hide Sdo2Can;
    var m := Request(BusOverSdo.CallOf(node, ask));
    FrameAddress(prior, m, false);
    FrameAccepted(prior, m, false);
  }

  /** The uploads: object by object, and as which type the answer is read. */
  lemma UploadRequests(prior: Frame, node: u8, ask: Bus.Ask)
    requires ask.AskRead? || ask.AskStat? || ask.AskObj?
    ensures var f, t := RequestFrame(prior, node, ask), BusOverSdo.CallOf(node, ask).t;
            match ask
            case AskRead(e) => Head(f, 0x40, e.index, e.sub) && t == EntryType(e)
            case AskStat => Head(f, 0x40, 0x6041, 0) && t == Unsigned16
            case AskObj(CtrlWord) => Head(f, 0x40, 0x6040, 0) && t == Unsigned16
            case AskObj(OpMode) => Head(f, 0x40, 0x6060, 0) && t == Integer8
            case AskObj(TargetVelocity) => Head(f, 0x40, 0x6042, 0) && t == Integer16
            case AskObj(Position) => Head(f, 0x40, 0x6064, 0) && t == Integer32
            case AskObj(Velocity) => Head(f, 0x40, 0x606C, 0) && t == Integer32
            case AskObj(MinPos) => Head(f, 0x40, 0x607D, 1) && t == Integer32
            case AskObj(MaxPos) => Head(f, 0x40, 0x607D, 2) && t == Integer32
            case _ => false
  {
    hide Sdo2Can;
    var m := Request(BusOverSdo.CallOf(node, ask));
    FrameAddress(prior, m, false);
    PlainFrame(prior, m, false);
  }

  /** The types with which the library accesses the records of PDOs: the COB-ID and the map words
      have four bytes, the inhibit time and the event timer two, counts and the transmission type
      one. */
  function EntryType(e: Bus.Entry): DataType
  {
    var isCom := 0x1400 <= e.index < 0x1600 || 0x1800 <= e.index < 0x1A00;
    var isMap := 0x1600 <= e.index < 0x1800 || 0x1A00 <= e.index < 0x1C00;
    if isCom && (e.sub == 3 || e.sub == 5) then Unsigned16
    else if (isCom && e.sub != 1) || (isMap && e.sub == 0) then Unsigned8
    else Unsigned32
  }

  /** The downloads, with their values. */
  lemma DownloadRequests(prior: Frame, node: u8, ask: Bus.Ask)
    requires BusOverSdo.Writes(ask)
    ensures var f := RequestFrame(prior, node, ask);
            match ask
            case AskCtrl(w) => Head(f, 0x2B, 0x6040, 0) && Number(f.data, 2) == w as int
            case AskMode(v) => Head(f, 0x2F, 0x6060, 0) && Number(f.data, 1) == (if v >= 0 then v else v + 0x100)
            case AskTarget(v) => Head(f, 0x2B, 0x6042, 0) && Number(f.data, 2) == (if v >= 0 then v else v + 0x1_0000)
            case AskWrite(e, v) =>
              var n := Size(EntryType(e));
              && Head(f, if n == 1 then 0x2F else if n == 2 then 0x2B else 0x23, e.index, e.sub)
              && (Bus.Fits(e, v) ==> Number(f.data, n) == v)
            case _ => false
  {
    hide Sdo2Can, DataBytes, Number, Head, ToUnion, Bus.Width;
    var op := BusOverSdo.CallOf(node, ask);
    DownloadBytes(prior, op);
    match ask
    case AskWrite(e, v) =>
      EntryTypes(e);
      if Bus.Fits(e, v) {
        BusOverSdo.WrittenReads(node, ask);
      }
    case AskCtrl(w) =>
      BusOverSdo.WordInRange(w);
      UnionBits(op.t, op.v);
    case AskMode(v) => UnionBits(op.t, v);
    case AskTarget(v) => UnionBits(op.t, v);
  }

  lemma EntryTypes(e: Bus.Entry)
    ensures BusOverSdo.TypeOf(e) == EntryType(e)
  {
  }

  /** A number of a type and the bits that stand for it. */
  lemma UnionBits(t: DataType, v: int)
    requires Typed(t) && InRange(t, v)
    ensures ToUnion(t, v) == if v >= 0 then v else v + (if Size(t) == 1 then 0x100 else if Size(t) == 2 then 0x1_0000
                                                       else 0x1_0000_0000)
  {
  }

  /** A download: the command byte of its type, and the bits of its value. */
  lemma DownloadBytes(prior: Frame, op: Op)
    requires op.Dl? && Typed(op.t)
    ensures var f := Sdo2Can(prior, Request(op), false).1;
            && Head(f, DataCommand(Size(op.t), false), op.index, op.subindex)
            && Number(f.data, Size(op.t)) == ToUnion(op.t, op.v)
  {
    hide Sdo2Can, DataBytes, ToUnion, Number;
    var m := Request(op);
    FrameAddress(prior, m, false);
    DataFrame(prior, m, false);
    NumberRead(Sdo2Can(prior, m, false).1.data, Size(op.t), m.data, prior.data);
    UnionRoundTrip(op.t, op.v);
  }

  /** Data bytes read as the number that was stored, if that fits. */
  lemma NumberRead(data: seq<u8>, n: nat, u: u32, prior: seq<u8>)
    requires |data| == 8 == |prior| && (n == 1 || n == 2 || n == 4) && DataBytes(data, n, u, prior)
    ensures Number(data, n) == Low(n, u)
  {
    StoreThenLoad(u, []);
    WordBytes(u);
    Rejoin(u);
  }

  lemma Rejoin(u: u32)
    ensures u % 0x100 + 0x100 * (u / 0x100 % 0x100) == u % 0x1_0000
    ensures u % 0x100 + 0x100 * (u / 0x100 % 0x100) + 0x1_0000 * (u / 0x1_0000 % 0x100)
            + 0x100_0000 * (u / 0x100_0000) == u
  {
    var q := u / 0x100;
    assert u == 0x100 * q + u % 0x100;
    assert u / 0x1_0000 == q / 0x100 && u / 0x100_0000 == q / 0x1_0000;
    assert q == 0x100 * (q / 0x100) + q % 0x100;
    assert u % 0x1_0000 == 0x100 * (q % 0x100) + u % 0x100;
  }
}
