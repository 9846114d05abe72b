/** The expedited SDO codec (section 7.2.4.3 of CiA 301): canmat_sdo2can and canmat_can2sdo. */
module SdoCodec {
  import opened Can

  /** The data types that the codec tells apart; every other type is Unsupported. */
  datatype DataType =
    | Integer8 | Integer16 | Integer32
    | Unsigned8 | Unsigned16 | Unsigned32
    | Real32 | Void | Unsupported

  predicate Sized(t: DataType) { !t.Void? && !t.Unsupported? }

  function Size(t: DataType): (n: nat)
    ensures Sized(t) <==> n == 1 || n == 2 || n == 4
    ensures n <= 4
  {
    match t
    case Integer8 | Unsigned8 => 1
    case Integer16 | Unsigned16 => 2
    case Integer32 | Unsigned32 | Real32 => 4
    case Void | Unsupported => 0
  }

  /** The low `n` bytes of a word. */
  function Low(n: nat, u: u32): u32
    requires n <= 4
  {
    match n
    case 0 => 0
    case 1 => u % 0x100
    case 2 => u % 0x1_0000
    case 3 => u % 0x100_0000
    case _ => u
  }

  type u3 = x: int | 0 <= x < 8

  /** struct canmat_sdo_msg; `data` holds the four bytes of the scalar union. */
  datatype Msg = Msg(index: u16, subindex: u8, node: u8, cs: u3, dtype: DataType, length: u8, data: u32)

  const CCS_EX_DL: u3 := 1
  const CCS_EX_UL: u3 := 2
  const SCS_EX_UL: u3 := 2
  const SCS_EX_DL: u3 := 3
  const CS_ABORT: u3 := 4

  /** Upload requests and download responses carry no data. */
  predicate DataFree(isTx: bool, cs: u3) { cs == if isTx then SCS_EX_DL else CCS_EX_UL }

  /** Upload responses and download requests carry data. */
  predicate Carries(isTx: bool, cs: u3) { cs == if isTx then SCS_EX_UL else CCS_EX_DL }

  // ----- the command byte -----

  type bit = x: int | 0 <= x < 2
  type u2 = x: int | 0 <= x < 4

  datatype Cmd = Cmd(s: bit, e: bit, n: u2, cs: u3)

  function PackCmd(c: Cmd): u8 { c.s as int + 2 * (c.e as int) + 4 * (c.n as int) + 0x20 * (c.cs as int) }

  function UnpackCmd(b: u8): Cmd { Cmd(b % 2, b / 2 % 2, b / 4 % 4, b / 0x20) }

  /** Bit 4, which packing clears and unpacking ignores. */
  function ReservedBit(b: u8): bit { b / 0x10 % 2 }

  /** Unpacking inverts packing; packing inverts unpacking exactly on bytes whose reserved
      bit is clear. */
  lemma CmdRoundTrip(c: Cmd, b: u8)
    ensures UnpackCmd(PackCmd(c)) == c
    ensures PackCmd(UnpackCmd(b)) == b <==> ReservedBit(b) == 0
  {
    PackedBits(c);
    assert b / 4 == b / 2 / 2 && b / 0x10 == b / 4 / 4 && b / 0x20 == b / 0x10 / 2;
  }

  lemma PackedBits(c: Cmd)
    ensures UnpackCmd(PackCmd(c)) == c
  {
    var p := PackCmd(c);
    var high: int := c.n as int + 8 * (c.cs as int);
    assert p == c.s as int + 2 * (c.e as int + 2 * high);
    assert p / 2 == c.e as int + 2 * high;
    assert p / 4 == high;
  }

  // ----- encoding -----

  function Payload(t: DataType, data: u32): (b: seq<u8>)
    ensures |b| == Size(t)
  {
    match Size(t)
    case 4 => Stle32(data)
    case 2 => Stle16(data % 0x1_0000)
    case 1 => [data % 0x100]
    case _ => []
  }

  /** The data bytes of an SDO frame: command, index, subindex and four data bytes. */
  function Layout(cmd: u8, index: u16, subindex: u8, tail: seq<u8>): (d: seq<u8>)
    requires |tail| == 4
    ensures |d| == 8
    ensures d[0] == cmd && d[1..3] == Stle16(index) && d[3] == subindex && d[4..] == tail
  {
    [cmd] + Stle16(index) + [subindex] + tail
  }

  /** canmat_sdo2can as a function of what the frame buffer held before.  On an error the
      identifier and the index bytes are already written. */
  function Sdo2Can(prior: Frame, m: Msg, isTx: bool): (Status, Frame)
  {
    var id := if isTx then SdoRespId(m.node) else SdoReqId(m.node);
    if DataFree(isTx, m.cs) then
      (Ok, RawFrame(id, 8, Layout(PackCmd(Cmd(0, 0, 0, m.cs)), m.index, m.subindex, [0, 0, 0, 0])))
    else if Carries(isTx, m.cs) && m.dtype != Unsupported then
      var n := Size(m.dtype);
      (Ok, RawFrame(id, 8, Layout(PackCmd(Cmd(1, 1, (4 - n) % 4, m.cs)), m.index, m.subindex,
                                  Payload(m.dtype, m.data) + prior.data[4 + n..])))
    else
      (ErrParam, RawFrame(id, prior.dlc, Layout(prior.data[0], m.index, m.subindex, prior.data[4..])))
  }

  // ----- decoding -----

  /** The type and length that an accepted frame is read with; None for a transfer the
      decoder does not handle. */
  function Shape(isTx: bool, cmd: Cmd, dlc: u8, dtype: DataType): Option<(DataType, u8)>
    requires dlc >= 4
  {
    if cmd.cs == CS_ABORT then Some((Unsigned32, 4))
    else if DataFree(isTx, cmd.cs) then Some((Void, 0))
    else if Carries(isTx, cmd.cs) then Some((dtype, if cmd.s == 1 then 4 - cmd.n else dlc - 4))
    else None
  }

  /** The last part of the decoder: check the length against the type and load the data. */
  function LoadData(m: Msg, f: Frame): (Status, Msg)
  {
    var ok := if m.cs == CS_ABORT then ErrAbort else Ok;
    var n := Size(m.dtype);
    if m.dtype == Unsupported then (ErrParam, m)
    else if m.length != n || f.dlc < 4 + n then (ErrProto, m)
    else
      match n
      case 4 => (ok, m.(data := Ldle32(f.data[4..])))
      case 2 => (ok, m.(data := m.data - m.data % 0x1_0000 + Ldle16(f.data[4..])))
      case 1 => (ok, m.(data := m.data - m.data % 0x100 + f.data[4]))
      case _ => (ok, m)
  }

  /** canmat_can2sdo as a function of what the message held before. */
  function Can2Sdo(prior: Msg, f: Frame, dtype: DataType): (Status, Msg)
  {
    var func := FuncBits(f.id);
    if f.dlc < 4 || (func != FUNC_SDO_TX && func != FUNC_SDO_RX) then (ErrProto, prior)
    else
      var isTx := func == FUNC_SDO_TX;
      var cmd := UnpackCmd(f.data[0]);
      var m := prior.(cs := cmd.cs);
      match Shape(isTx, cmd, f.dlc, dtype)
      case None => (ErrProto, m)
      case Some((t, n)) =>
        LoadData(m.(dtype := t, length := n, node := NodeBits(f.id),
                    index := Ldle16(f.data[1..]), subindex := f.data[3]), f)
  }

  // ----- round trips -----

  /** What decoding must give back: the address and command, and the data in the bytes of
      its type; a message without data becomes a Void of length 0. */
  ghost predicate Delivered(sent: Msg, isTx: bool, got: Msg)
  {
    && got.index == sent.index && got.subindex == sent.subindex && got.node == sent.node && got.cs == sent.cs
    && if DataFree(isTx, sent.cs)
       then got.dtype == Void && got.length == 0
       else got.dtype == sent.dtype && got.length == Size(sent.dtype)
            && Low(got.length, got.data) == Low(got.length, sent.data)
  }

  lemma EncodedIds(node: u8)
    ensures FuncBits(SdoReqId(node)) == FUNC_SDO_RX && FuncBits(SdoRespId(node)) == FUNC_SDO_TX
    ensures NodeBits(SdoReqId(node)) == node % 0x80 == NodeBits(SdoRespId(node))
  {
  }

  /** The address bytes of a frame read back as they were laid out. */
  lemma LayoutReads(cmd: u8, index: u16, subindex: u8, tail: seq<u8>)
    requires |tail| == 4
    ensures Ldle16(Layout(cmd, index, subindex, tail)[1..]) == index
  {
  }

  /** The parts of an encoded frame that the decoder looks at. */
  lemma EncodedBytes(prior: Frame, m: Msg, isTx: bool)
    requires Sdo2Can(prior, m, isTx).0 == Ok
    ensures var f := Sdo2Can(prior, m, isTx).1;
            var n := Size(m.dtype);
            && f.dlc == 8
            && Ldle16(f.data[1..]) == m.index && f.data[3] == m.subindex
            && UnpackCmd(f.data[0]).cs == m.cs
            && (!DataFree(isTx, m.cs) ==>
                  UnpackCmd(f.data[0]) == Cmd(1, 1, (4 - n) % 4, m.cs)
                  && f.data[4..4 + n] == Payload(m.dtype, m.data))
  {
    var n := Size(m.dtype);
    if DataFree(isTx, m.cs) {
      PackedBits(Cmd(0, 0, 0, m.cs));
      LayoutReads(PackCmd(Cmd(0, 0, 0, m.cs)), m.index, m.subindex, [0, 0, 0, 0]);
    } else {
      var tail := Payload(m.dtype, m.data) + prior.data[4 + n..];
      var cmd := PackCmd(Cmd(1, 1, (4 - n) % 4, m.cs));
      PackedBits(Cmd(1, 1, (4 - n) % 4, m.cs));
      LayoutReads(cmd, m.index, m.subindex, tail);
      assert Layout(cmd, m.index, m.subindex, tail)[4..4 + n] == tail[..n];
    }
  }

  lemma SetLow(u: int, w: int)
    ensures 0 <= w < 0x100 ==> (u - u % 0x100 + w) % 0x100 == w
    ensures 0 <= w < 0x1_0000 ==> (u - u % 0x1_0000 + w) % 0x1_0000 == w
  {
    var q, p := u / 0x100, u / 0x1_0000;
    assert u - u % 0x100 == 0x100 * q && u - u % 0x1_0000 == 0x1_0000 * p;
    assert 0 <= w < 0x100 ==> (0x100 * q + w) / 0x100 == q;
    assert 0 <= w < 0x1_0000 ==> (0x1_0000 * p + w) / 0x1_0000 == p;
  }

  /** Loading payload bytes as any type of the same size gives the low bytes of the data
      back, whatever the message held before. */
  lemma PayloadLoads(m: Msg, f: Frame, t: DataType, data: u32)
    requires Sized(t) && Size(m.dtype) == m.length == Size(t) && f.dlc == 8 && m.cs != CS_ABORT
    requires f.data[4..4 + Size(t)] == Payload(t, data)
    ensures var (r, got) := LoadData(m, f);
            && r == Ok && got == m.(data := got.data) && Low(Size(t), got.data) == Low(Size(t), data)
            && (m.data == 0 ==> got.data == Low(Size(t), data))
  {
    var n := Size(t);
    assert f.data[4..] == Payload(t, data) + f.data[4 + n..];
    if n == 4 {
      StoreThenLoad(data, f.data[4 + n..]);
    } else if n == 2 {
      StoreThenLoad(data % 0x1_0000, f.data[4 + n..]);
      SetLow(m.data, data % 0x1_0000);
    } else {
      assert f.data[4] == f.data[4..][0] == data % 0x100;
      SetLow(m.data, data % 0x100);
    }
  }

  /** The message that the decoder has built for an encoded frame when it turns to the data. */
  function Addressed(stale: Msg, m: Msg, t: DataType, length: u8): Msg
  {
    stale.(cs := m.cs, dtype := t, length := length, node := m.node % 0x80,
           index := m.index, subindex := m.subindex)
  }

  lemma DecodeShaped(stale: Msg, f: Frame, dtype: DataType, isTx: bool, t: DataType, length: u8)
    requires f.dlc >= 4 && FuncBits(f.id) == if isTx then FUNC_SDO_TX else FUNC_SDO_RX
    requires Shape(isTx, UnpackCmd(f.data[0]), f.dlc, dtype) == Some((t, length))
    ensures Can2Sdo(stale, f, dtype) ==
            LoadData(stale.(cs := UnpackCmd(f.data[0]).cs, dtype := t, length := length, node := NodeBits(f.id),
                            index := Ldle16(f.data[1..]), subindex := f.data[3]), f)
  {
  }

  /** The length that the decoder reads off an encoded command byte: a Void comes out as 4. */
  function EncodedLength(m: Msg, isTx: bool): u8
  {
    if DataFree(isTx, m.cs) then 0 else if m.dtype == Void then 4 else Size(m.dtype)
  }

  lemma EncodedShape(c: Cmd, m: Msg, isTx: bool, dtype: DataType)
    requires DataFree(isTx, m.cs) || (Carries(isTx, m.cs) && m.dtype != Unsupported)
    requires c.cs == m.cs && (!DataFree(isTx, m.cs) ==> c == Cmd(1, 1, (4 - Size(m.dtype)) % 4, m.cs))
    ensures Shape(isTx, c, 8, dtype) ==
            Some((if DataFree(isTx, m.cs) then Void else dtype, EncodedLength(m, isTx)))
  {
  }

  /** Decoding an encoded frame as `dtype` comes down to loading the data. */
  lemma DecodeEncoded(prior: Frame, stale: Msg, m: Msg, isTx: bool, dtype: DataType)
    requires Sdo2Can(prior, m, isTx).0 == Ok
    ensures var f := Sdo2Can(prior, m, isTx).1;
            Can2Sdo(stale, f, dtype) ==
            LoadData(Addressed(stale, m, if DataFree(isTx, m.cs) then Void else dtype, EncodedLength(m, isTx)), f)
  {
    var f := Sdo2Can(prior, m, isTx).1;
    EncodedIds(m.node);
    EncodedBytes(prior, m, isTx);
    EncodedShape(UnpackCmd(f.data[0]), m, isTx, dtype);
    DecodeShaped(stale, f, dtype, isTx, if DataFree(isTx, m.cs) then Void else dtype, EncodedLength(m, isTx));
  }

  /** An encoded message without data decodes to a Void of length 0. */
  lemma AckDecodes(scratch: Frame, stale: Msg, m: Msg, isTx: bool, dtype: DataType)
    requires DataFree(isTx, m.cs)
    ensures var (r, f) := Sdo2Can(scratch, m, isTx);
            r == Ok && f.id == (if isTx then SdoRespId(m.node) else SdoReqId(m.node))
            && Can2Sdo(stale, f, dtype) == (Ok, Addressed(stale, m, Void, 0))
  {
    DecodeEncoded(scratch, stale, m, isTx, dtype);
  }

  /** An encoded message with data, decoded as any sized type: the low bytes when the sizes
      agree, a protocol error when they do not. */
  lemma DataDecodes(scratch: Frame, stale: Msg, m: Msg, isTx: bool, dtype: DataType)
    requires Sized(m.dtype) && Sized(dtype) && Carries(isTx, m.cs)
    ensures var (r, f) := Sdo2Can(scratch, m, isTx);
            var (r', got) := Can2Sdo(stale, f, dtype);
            && r == Ok && f.id == (if isTx then SdoRespId(m.node) else SdoReqId(m.node))
            && if Size(dtype) != Size(m.dtype) then r' == ErrProto
               else r' == Ok && Low(Size(dtype), got.data) == Low(Size(dtype), m.data)
                    && (stale.data == 0 ==> got.data == Low(Size(dtype), m.data))
                    && got == Addressed(stale, m, dtype, Size(dtype)).(data := got.data)
  {
    var f := Sdo2Can(scratch, m, isTx).1;
    DecodeEncoded(scratch, stale, m, isTx, dtype);
    EncodedBytes(scratch, m, isTx);
    if Size(dtype) == Size(m.dtype) {
      PayloadLoads(Addressed(stale, m, dtype, Size(dtype)), f, m.dtype, m.data);
    }
  }

  /** Encoding and decoding succeed and deliver the message exactly when the node fits in
      seven bits and the command either carries no data or data of a sized type; a Void with
      data is encoded but refused by the decoder. */
  lemma EncodeThenDecode(prior: Frame, stale: Msg, m: Msg, isTx: bool)
    ensures var (r, f) := Sdo2Can(prior, m, isTx);
            var (r', got) := Can2Sdo(stale, f, m.dtype);
            (r == Ok && r' == Ok && Delivered(m, isTx, got))
            <==> m.node < 0x80 && (DataFree(isTx, m.cs) || (Carries(isTx, m.cs) && Sized(m.dtype)))
  {
    hide PackCmd, UnpackCmd, Layout, Payload, Can2Sdo;
    var (r, f) := Sdo2Can(prior, m, isTx);
    if r == Ok {
      DecodeEncoded(prior, stale, m, isTx, m.dtype);
      EncodedBytes(prior, m, isTx);
      if Carries(isTx, m.cs) && Sized(m.dtype) {
        PayloadLoads(Addressed(stale, m, m.dtype, Size(m.dtype)), f, m.dtype, m.data);
      }
    }
  }

  /** Storing loaded data gives the payload bytes back. */
  lemma LoadedPayload(m: Msg, f: Frame)
    requires Sized(m.dtype) && f.dlc == 8 && LoadData(m, f).0 == Ok
    ensures var got := LoadData(m, f).1;
            && m.length == Size(m.dtype) && got == m.(data := got.data)
            && Payload(m.dtype, got.data) == f.data[4..4 + Size(m.dtype)]
  {
    var n, b := Size(m.dtype), f.data[4..];
    var data := LoadData(m, f).1.data;
    assert b[..n] == f.data[4..4 + n];
    if n == 4 {
      assert Stle32(data) == b[..4] by { LoadThenStore(b); }
    } else if n == 2 {
      assert data % 0x1_0000 == Ldle16(b) by { SetLow(m.data, Ldle16(b)); }
      assert Stle16(data % 0x1_0000) == b[..2] by { LoadThenStore(b); }
    } else {
      assert data % 0x100 == b[0] by { SetLow(m.data, b[0]); }
    }
  }

  /** What acceptance of a full-length frame with data tells about the frame and the message. */
  lemma AcceptedData(stale: Msg, f: Frame, dtype: DataType)
    requires f.dlc == 8 && dtype != Void
    requires Can2Sdo(stale, f, dtype).0 == Ok
    requires Carries(FuncBits(f.id) == FUNC_SDO_TX, UnpackCmd(f.data[0]).cs)
    ensures var m := Can2Sdo(stale, f, dtype).1;
            var cmd := UnpackCmd(f.data[0]);
            && Sized(dtype) && m.dtype == dtype && m.length == Size(dtype)
            && (cmd.s == 1 ==> cmd.n == (4 - Size(dtype)) % 4)
            && m.cs == cmd.cs && m.node == NodeBits(f.id)
            && m.index == Ldle16(f.data[1..]) && m.subindex == f.data[3]
            && Payload(dtype, m.data) == f.data[4..4 + Size(dtype)]
  {
    hide Payload, Ldle16, Ldle32;
    var cmd := UnpackCmd(f.data[0]);
    var length: u8 := if cmd.s == 1 then 4 - cmd.n else f.dlc - 4;
    var m0 := stale.(cs := cmd.cs, dtype := dtype, length := length, node := NodeBits(f.id),
                     index := Ldle16(f.data[1..]), subindex := f.data[3]);
    DecodeShaped(stale, f, dtype, FuncBits(f.id) == FUNC_SDO_TX, dtype, length);
    assert Can2Sdo(stale, f, dtype) == LoadData(m0, f);
    LoadedPayload(m0, f);
  }

  /** Frames agree on their first 4 + n bytes when they agree part by part. */
  lemma PrefixByParts(f: Frame, g: Frame, n: nat)
    requires n <= 4
    requires f.data[1..3] == g.data[1..3] && f.data[3] == g.data[3] && f.data[4..4 + n] == g.data[4..4 + n]
    ensures f.data[..4 + n] == g.data[..4 + n] <==> f.data[0] == g.data[0]
  {
  }

  /** Re-encoding an accepted full-length frame that carries data gives back its identifier
      and its first 4 + length bytes exactly when the identifier is a plain 16-bit one and the
      command byte has the size and expedited bits set and the reserved bit clear. */
  lemma DecodeThenEncode(prior: Frame, stale: Msg, f: Frame, dtype: DataType)
    requires f.dlc == 8 && dtype != Void
    requires Can2Sdo(stale, f, dtype).0 == Ok
    requires Carries(FuncBits(f.id) == FUNC_SDO_TX, UnpackCmd(f.data[0]).cs)
    ensures var m := Can2Sdo(stale, f, dtype).1;
            var (r, g) := Sdo2Can(prior, m, FuncBits(f.id) == FUNC_SDO_TX);
            var cmd := UnpackCmd(f.data[0]);
            r == Ok && m.length == Size(dtype)
            && ((g.id == f.id && g.data[..4 + m.length] == f.data[..4 + m.length])
                <==> f.id < 0x1_0000 && cmd.s == 1 && cmd.e == 1 && ReservedBit(f.data[0]) == 0)
  {
    var isTx := FuncBits(f.id) == FUNC_SDO_TX;
    var n := Size(dtype);
    AcceptedData(stale, f, dtype);
    var m := Can2Sdo(stale, f, dtype).1;
    var g := Sdo2Can(prior, m, isTx).1;
    assert g.data[4..4 + n] == f.data[4..4 + n] by {
      EncodedBytes(prior, m, isTx);
    }
    assert g.data[1..3] == f.data[1..3] by {
      LoadThenStore(f.data[1..]);
      assert f.data[1..][..2] == f.data[1..3];
    }
    PrefixByParts(f, g, n);
    ReencodedCmd(f.data[0], n);
    ReencodedId(f.id);
  }

  /** The re-encoded command byte is the old one exactly when the old one was canonical. */
  lemma ReencodedCmd(b: u8, n: nat)
    requires n == 1 || n == 2 || n == 4
    requires UnpackCmd(b).s == 1 ==> UnpackCmd(b).n == (4 - n) % 4
    ensures PackCmd(Cmd(1, 1, (4 - n) % 4, UnpackCmd(b).cs)) == b
            <==> UnpackCmd(b).s == 1 && UnpackCmd(b).e == 1 && ReservedBit(b) == 0
  {
    var c := UnpackCmd(b);
    var canon := Cmd(1, 1, (4 - n) % 4, c.cs);
    CmdRoundTrip(canon, b);
  }

  lemma ReencodedId(id: u32)
    requires FuncBits(id) == FUNC_SDO_TX || FuncBits(id) == FUNC_SDO_RX
    ensures FuncBits(id) == FUNC_SDO_TX ==> (SdoRespId(NodeBits(id)) == id <==> id < 0x1_0000)
    ensures FuncBits(id) == FUNC_SDO_RX ==> (SdoReqId(NodeBits(id)) == id <==> id < 0x1_0000)
  {
  }

  // ----- the buffers the C functions write -----

  /** The message struct as a decoder target. */
  class MsgBuffer {
    var msg: Msg

    constructor (m: Msg) ensures msg == m { msg := m; }
  }

  method StoreData(dst: FrameBuffer, t: DataType, data: u32)
    requires dst.Valid() && t != Unsupported
    modifies dst.data
    ensures dst.data[..] == old(dst.data[..4]) + Payload(t, data) + old(dst.data[4 + Size(t)..])
  {
    var b := Payload(t, data);
    match Size(t)
    case 4 => dst.data[4], dst.data[5], dst.data[6], dst.data[7] := b[0], b[1], b[2], b[3];
    case 2 => dst.data[4], dst.data[5] := b[0], b[1];
    case 1 => dst.data[4] := b[0];
    case _ =>
  }

  /** Indices and subindex, written before the command is looked at. */
  method StoreAddress(dst: FrameBuffer, index: u16, subindex: u8)
    requires dst.Valid()
    modifies dst.data
    ensures dst.data[..] == Layout(old(dst.data[0]), index, subindex, old(dst.data[4..]))
  {
    dst.data[1] := index % 0x100;
    dst.data[2] := index / 0x100;
    dst.data[3] := subindex;
  }

  /** The switch on command and type: write the data bytes and choose the command bits. */
  method StoreBody(dst: FrameBuffer, src: Msg, isTx: bool) returns (cmd: Option<Cmd>)
    requires dst.Valid()
    modifies dst.data
    ensures dst.data[..4] == old(dst.data[..4])
    ensures cmd == if DataFree(isTx, src.cs) then Some(Cmd(0, 0, 0, src.cs))
                   else if Carries(isTx, src.cs) && src.dtype != Unsupported
                   then Some(Cmd(1, 1, (4 - Size(src.dtype)) % 4, src.cs)) else None
    ensures dst.data[4..] ==
            if DataFree(isTx, src.cs) then [0, 0, 0, 0]
            else if Carries(isTx, src.cs) && src.dtype != Unsupported
            then Payload(src.dtype, src.data) + old(dst.data[4 + Size(src.dtype)..])
            else old(dst.data[4..])
  {
    if DataFree(isTx, src.cs) {
      StoreData(dst, Unsigned32, 0);
      assert dst.data[4..] == Stle32(0);
      return Some(Cmd(0, 0, 0, src.cs));
    } else if Carries(isTx, src.cs) {
      if src.dtype == Unsupported {
        return None;
      }
      StoreData(dst, src.dtype, src.data);
      return Some(Cmd(1, 1, (4 - Size(src.dtype)) % 4, src.cs));
    } else {
      return None;
    }
  }

  /** canmat_sdo2can, writing the frame in place. */
  method EncodeSdo(dst: FrameBuffer, src: Msg, isTx: bool) returns (r: Status)
    requires dst.Valid() && src.length <= 4
    modifies dst, dst.data
    ensures (r, dst.Value()) == Sdo2Can(old(dst.Value()), src, isTx)
  {
    ghost var prior := dst.Value();
    dst.id := if isTx then SdoRespId(src.node) else SdoReqId(src.node);
    StoreAddress(dst, src.index, src.subindex);
    ghost var d := dst.data[..];
    assert forall k | 4 <= k <= 8 :: d[k..] == prior.data[k..] by {
      assert d[4..] == prior.data[4..];
      assert forall k | 4 <= k <= 8 :: d[k..] == d[4..][k - 4..] && prior.data[k..] == prior.data[4..][k - 4..];
    }
    var cmd := StoreBody(dst, src, isTx);
    ghost var tail := dst.data[4..];
    assert dst.data[..] == d[..4] + tail;
    if cmd.None? {
      return ErrParam;
    }
    dst.data[0] := PackCmd(cmd.value);
    dst.dlc := 8;
    assert dst.data[..] == Layout(PackCmd(cmd.value), src.index, src.subindex, tail);
    return Ok;
  }

  /** The validation of the command: set command, type and length, or refuse. */
  method DecodeCommand(dst: MsgBuffer, isTx: bool, cmd: Cmd, dlc: u8, dtype: DataType) returns (ok: bool)
    requires dlc >= 4
    modifies dst
    ensures ok == Shape(isTx, cmd, dlc, dtype).Some?
    ensures dst.msg == match Shape(isTx, cmd, dlc, dtype)
                       case None => old(dst.msg).(cs := cmd.cs)
                       case Some((t, n)) => old(dst.msg).(cs := cmd.cs, dtype := t, length := n)
  {
    dst.msg := dst.msg.(cs := cmd.cs);
    if cmd.cs == CS_ABORT {
      dst.msg := dst.msg.(dtype := Unsigned32, length := 4);
    } else if DataFree(isTx, cmd.cs) {
      dst.msg := dst.msg.(length := 0);
      dst.msg := dst.msg.(dtype := Void);
    } else if Carries(isTx, cmd.cs) {
      dst.msg := dst.msg.(dtype := dtype);
      dst.msg := dst.msg.(length := if cmd.s == 1 then 4 - cmd.n else dlc - 4);
    } else {
      return false;
    }
    return true;
  }

  /** canmat_can2sdo, filling the message step by step. */
  method DecodeSdo(dst: MsgBuffer, src: FrameBuffer, dtype: DataType) returns (r: Status)
    requires src.Valid()
    modifies dst
    ensures (r, dst.msg) == Can2Sdo(old(dst.msg), src.Value(), dtype)
  {
    var f := src.Value();
    var func := FuncBits(src.id);
    if src.dlc < 4 || (func != FUNC_SDO_TX && func != FUNC_SDO_RX) {
      return ErrProto;
    }
    var ok := DecodeCommand(dst, func == FUNC_SDO_TX, UnpackCmd(src.data[0]), src.dlc, dtype);
    if !ok {
      return ErrProto;
    }
    DecodeShaped(old(dst.msg), f, dtype, func == FUNC_SDO_TX, dst.msg.dtype, dst.msg.length);
    dst.msg := dst.msg.(node := NodeBits(src.id), index := Ldle16(f.data[1..]), subindex := src.data[3]);
    var (status, msg) := LoadData(dst.msg, f);
    dst.msg := msg;
    return status;
  }
}
