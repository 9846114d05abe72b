/** CAN frames, little-endian data and the CANopen identifiers built from them.

    Machine words of the wire are ints in the range of their C type, so that signed and
    unsigned views can be compared.  A C expression `a | b` over disjoint bits is written
    `a + b`, and masks and shifts by constants are written with `%` and `/`. */
module Can {

  type u8 = x: int | 0 <= x < 0x100
  type u16 = x: int | 0 <= x < 0x1_0000
  type u32 = x: int | 0 <= x < 0x1_0000_0000

  datatype Option<+T> = None | Some(value: T)

  /** The statuses that the modelled functions can return. */
  datatype Status = Ok | ErrOs | ErrParam | ErrProto | ErrAbort | ErrDev | ErrMotion

  type Failure = s: Status | s != Ok witness ErrOs

  datatype RawFrame = RawFrame(id: u32, dlc: u8, data: seq<u8>)

  type Frame = f: RawFrame | |f.data| == 8
    witness RawFrame(0, 0, [0, 0, 0, 0, 0, 0, 0, 0])

  // ----- little-endian store and load -----

  function Stle16(u: u16): (b: seq<u8>)
    ensures |b| == 2
  {
    [u % 0x100, u / 0x100]
  }

  function Stle32(u: u32): (b: seq<u8>)
    ensures |b| == 4
  {
    [u % 0x100, u / 0x100 % 0x100, u / 0x1_0000 % 0x100, u / 0x100_0000]
  }

  function Ldle16(b: seq<u8>): u16
    requires |b| >= 2
  {
    b[0] as int + 0x100 * (b[1] as int)
  }

  function Ldle32(b: seq<u8>): u32
    requires |b| >= 4
  {
    b[0] as int + 0x100 * (b[1] as int) + 0x1_0000 * (b[2] as int) + 0x100_0000 * (b[3] as int)
  }

  /** Loading what was stored gives the word back, whatever bytes follow it. */
  lemma StoreThenLoad(u: u32, rest: seq<u8>)
    ensures Ldle32(Stle32(u) + rest) == u
    ensures u < 0x1_0000 ==> Ldle16(Stle16(u) + rest) == u
  {
    assert u / 0x1_0000 == u / 0x100 / 0x100;
    assert u / 0x100_0000 == u / 0x1_0000 / 0x100;
  }

  lemma Digits(b0: int, b1: int, b2: int, b3: int)
    requires 0 <= b0 < 0x100 && 0 <= b1 < 0x100 && 0 <= b2 < 0x100 && 0 <= b3 < 0x100
    ensures var u := b0 + 0x100 * b1 + 0x1_0000 * b2 + 0x100_0000 * b3;
            u % 0x100 == b0 && u / 0x100 % 0x100 == b1 && u / 0x1_0000 % 0x100 == b2 && u / 0x100_0000 == b3
    ensures var w := b0 + 0x100 * b1; w % 0x100 == b0 && w / 0x100 == b1
  {
    var high := b2 + 0x100 * b3;
    var u := b0 + 0x100 * (b1 + 0x100 * high);
    Digit(b0, b1);
    Digit(b0, b1 + 0x100 * high);
    Digit(b1, high);
    Digit(b2, b3);
    assert u / 0x1_0000 == u / 0x100 / 0x100 && u / 0x100_0000 == u / 0x1_0000 / 0x100;
  }

  lemma Digit(low: int, high: int)
    requires 0 <= low < 0x100
    ensures (low + 0x100 * high) % 0x100 == low && (low + 0x100 * high) / 0x100 == high
  {
  }

  /** Storing what was loaded gives the bytes back. */
  lemma LoadThenStore(b: seq<u8>)
    requires |b| >= 4
    ensures Stle32(Ldle32(b)) == b[..4]
    ensures Stle16(Ldle16(b)) == b[..2]
  {
    Digits(b[0], b[1], b[2], b[3]);
  }

  /** The signed reading of the low `8 * size` bits of a word, as the union members
      i8, i16 and i32 give it. */
  function Signed(u: u32, size: nat): int
    requires size == 1 || size == 2 || size == 4
  {
    var m := if size == 1 then 0x100 else if size == 2 then 0x1_0000 else 0x1_0000_0000;
    if u % m < m / 2 then u % m else u % m - m
  }

  // ----- identifiers -----

  /** The node bits of an identifier. */
  function NodeBits(id: u32): u8 { id % 0x80 }

  /** The function-code bits of an identifier, within 16 bits. */
  function FuncBits(id: u32): u16 { id % 0x1_0000 - id % 0x80 }

  const FUNC_SDO_TX: u16 := 0x580
  const FUNC_SDO_RX: u16 := 0x600

  function SdoReqId(node: u8): u32 { FUNC_SDO_RX + node % 0x80 }

  function SdoRespId(node: u8): u32 { FUNC_SDO_TX + node % 0x80 }

  /** 0x200 + (num << 8) has eight clear low bits, so OR-ing the node in adds it. */
  function RpdoCobId(node: u8, num: u8): u32 { 0x200 + 0x100 * num + node }

  /** 0x180 + (num << 8) has bit 7 set, so OR-ing the node in adds its low seven bits. */
  function TpdoCobId(node: u8, num: u8): u32 { 0x180 + 0x100 * num + node % 0x80 }

  /** The two closed forms above are what the bit operations of the macros give. */
  lemma CobIdBits(node: bv32, num: bv32)
    requires node < 0x100 && num < 0x100
    ensures (0x200 + (num << 8)) | node == 0x200 + 0x100 * num + node
    ensures (0x180 + (num << 8)) | node == 0x180 + 0x100 * num + (node & 0x7F)
  {
  }

  /** Node and number can be read off a PDO identifier, for every 7-bit node, so PDO
      identifiers of different nodes or numbers differ; and no RPDO is ever a TPDO. */
  lemma PdoIdsInjective(n: u8, p: u8, m: u8, q: u8)
    requires n < 0x80 && m < 0x80
    ensures RpdoCobId(n, p) == RpdoCobId(m, q) <==> n == m && p == q
    ensures TpdoCobId(n, p) == TpdoCobId(m, q) <==> n == m && p == q
    ensures RpdoCobId(n, p) != TpdoCobId(m, q)
  {
  }

  /** Exactly the PDO number 4 runs into the SDO identifiers: a TPDO 4 of a node is that
      node's SDO response, and an RPDO 4 is its SDO request.  The numbers 0 to 3 are safe. */
  lemma PdoHitsSdo(n: u8, p: u8, m: u8)
    requires n < 0x80
    ensures TpdoCobId(n, p) == SdoRespId(m) <==> p == 4 && n == m % 0x80
    ensures RpdoCobId(n, p) == SdoReqId(m) <==> p == 4 && n == m % 0x80
    ensures TpdoCobId(n, p) != SdoReqId(m) && RpdoCobId(n, p) != SdoRespId(m) && SdoReqId(n) != SdoRespId(m)
  {
  }

  // ----- frame buffers -----

  /** struct can_frame. */
  class FrameBuffer {
    var id: u32
    var dlc: u8
    const data: array<u8>

    constructor ()
      ensures Valid() && fresh(this) && fresh(data)
    {
      data := new u8[8];
    }

    ghost predicate Valid() { data.Length == 8 }

    function Value(): Frame
      requires Valid()
      reads this, data
    {
      RawFrame(id, dlc, data[..])
    }

    method Assign(f: Frame)
      requires Valid()
      modifies this, data
      ensures Value() == f
    {
      id, dlc := f.id, f.dlc;
      forall i | 0 <= i < 8 { data[i] := f.data[i]; }
    }
  }

  // ----- process data -----

  /** The frame of canmat_rpdo_send: identifier, length and the first `|bytes|` data bytes
      are set, the rest of the buffer keeps what it held. */
  function RpdoFrame(prior: Frame, node: u8, num: u8, bytes: seq<u8>): Frame
    requires |bytes| <= 8
  {
    RawFrame(RpdoCobId(node, num), |bytes|, bytes + prior.data[|bytes|..])
  }

  /** The 16-bit pattern of a signed value. */
  function Bits16(v: int): u16 { v % 0x1_0000 }

  /** A receiver of the two-byte frame reads back the value that was sent, negative ones
      included. */
  lemma RpdoCarriesValue(prior: Frame, node: u8, num: u8, v: int)
    requires -0x8000 <= v < 0x8000
    ensures var f := RpdoFrame(prior, node, num, Stle16(Bits16(v)));
            f.id == 0x200 + 0x100 * num + node && f.dlc == 2 && Signed(Ldle16(f.data), 2) == v
  {
  }

  /** canmat_rpdo_send up to the send: fill the frame with the bytes of a PDO. */
  method FillRpdo(can: FrameBuffer, node: u8, num: u8, bytes: seq<u8>)
    requires can.Valid() && |bytes| <= 8
    modifies can, can.data
    ensures can.Value() == RpdoFrame(old(can.Value()), node, num, bytes)
  {
    can.dlc := |bytes|;
    can.id := RpdoCobId(node, num);
    forall i | 0 <= i < |bytes| { can.data[i] := bytes[i]; }
    assert can.data[..] == bytes + old(can.data[..])[|bytes|..];
  }
}
