/** The ring buffer of tagged CAN frames. */
module RingBuffer {
  import opened Can

  datatype Tagged = Tagged(frame: Frame, sequenceNo: int)

  const MAX_SIZE: nat := 256

  /** Masking with MAX_SIZE - 1. */
  function Wrap(x: nat): (r: nat)
    ensures r < MAX_SIZE
  {
    x % MAX_SIZE
  }

  /** The mask of a power of two minus one is the remainder, for every size_t. */
  lemma MaskIsRemainder(x: bv64)
    ensures x & (256 - 1) == x % 256
  {
  }

  /** struct can_buf. */
  datatype Ring = Ring(head: nat, size: nat, data: seq<Tagged>)

  predicate Valid(r: Ring) { r.head < MAX_SIZE && r.size <= MAX_SIZE && |r.data| == MAX_SIZE }

  /** The frames in the buffer, oldest first. */
  function Contents(r: Ring): (q: seq<Tagged>)
    requires Valid(r)
    ensures |q| == r.size
  {
    seq(r.size, i requires 0 <= i < r.size => r.data[Wrap(r.head + i)])
  }

  function Push(r: Ring, x: Tagged): (bool, Ring)
    requires Valid(r)
  {
    if r.size >= MAX_SIZE then (false, r)
    else (true, Ring(r.head, r.size + 1, r.data[Wrap(r.head + (r.size + 1) - 1) := x]))
  }

  function Pop(r: Ring): (bool, Ring)
    requires Valid(r)
  {
    if r.size == 0 then (false, r) else (true, r.(head := Wrap(r.head + 1), size := r.size - 1))
  }

  function Head(r: Ring): Option<Tagged>
    requires Valid(r)
  {
    if r.size == 0 then None else Some(r.data[r.head])
  }

  function Tail(r: Ring): Option<Tagged>
    requires Valid(r)
  {
    if r.size == 0 then None else Some(r.data[Wrap(r.head + r.size - 1)])
  }

  function Clear(r: Ring): Ring { r.(head := 0, size := 0) }

  // ----- a bounded queue as the specification -----

  datatype BufOp = OpPush(x: Tagged) | OpPop | OpClear

  function Act(r: Ring, op: BufOp): (bool, Ring)
    requires Valid(r)
  {
    match op
    case OpPush(x) => Push(r, x)
    case OpPop => Pop(r)
    case OpClear => (true, Clear(r))
  }

  function ActQueue(q: seq<Tagged>, op: BufOp): (bool, seq<Tagged>)
  {
    match op
    case OpPush(x) => if |q| >= 256 then (false, q) else (true, q + [x])
    case OpPop => if q == [] then (false, q) else (true, q[1..])
    case OpClear => (true, [])
  }

  lemma WrapApart(a: nat, i: nat, j: nat)
    requires i < j < i + MAX_SIZE
    ensures Wrap(a + i) != Wrap(a + j)
  {
  }

  lemma WrapAgain(a: nat, i: nat)
    ensures Wrap(Wrap(a + 1) + i) == Wrap(a + (i + 1))
  {
  }

  /** One operation on the ring is one operation on the queue of its contents. */
  lemma ActRefines(r: Ring, op: BufOp)
    requires Valid(r)
    ensures var (ok, r') := Act(r, op);
            Valid(r') && (ok, Contents(r')) == ActQueue(Contents(r), op)
  {
    hide Wrap;
    var (ok, r') := Act(r, op);
    match op {
      case OpPush(x) =>
        if ok {
          forall i | 0 <= i < r.size
            ensures Contents(r')[i] == Contents(r)[i]
          {
            WrapApart(r.head, i, r.size);
          }
          assert Contents(r') == Contents(r) + [x];
        }
      case OpPop =>
        if ok {
          forall i | 0 <= i < r.size - 1
            ensures Contents(r')[i] == Contents(r)[i + 1]
          {
            WrapAgain(r.head, i);
          }
          assert Contents(r') == Contents(r)[1..];
        }
      case OpClear =>
    }
  }

  /** Head and tail are the first and the last element of the queue. */
  lemma EndsRefine(r: Ring)
    requires Valid(r)
    ensures Head(r) == (if Contents(r) == [] then None else Some(Contents(r)[0]))
    ensures Tail(r) == (if Contents(r) == [] then None else Some(Contents(r)[r.size - 1]))
  {
    assert Wrap(r.head) == r.head;
    assert r.head + r.size - 1 == r.head + (r.size - 1);
  }

  /** The object that holds the buffer. */
  class CanBuf {
    var head: nat
    var size: nat
    const data: array<Tagged>

    constructor (data: array<Tagged>)
      requires data.Length == MAX_SIZE
      ensures this.data == data && IsValid() && View() == Ring(0, 0, data[..])
    {
      this.head, this.size, this.data := 0, 0, data;
    }

    ghost predicate IsValid()
      reads this, data
    {
      Valid(View())
    }

    function View(): Ring
      reads this, data
    {
      Ring(head, size, data[..])
    }

    method PushFrame(frame: Frame, sequenceNo: int) returns (ok: bool)
      requires IsValid()
      modifies this, data
      ensures IsValid() && ok == (|old(Contents(View()))| < 256)
      ensures Contents(View()) == old(Contents(View())) + if ok then [Tagged(frame, sequenceNo)] else []
    {
      ghost var before := View();
      ActRefines(before, OpPush(Tagged(frame, sequenceNo)));
      if size >= MAX_SIZE {
        assert Contents(before) + [] == Contents(before);
        return false;
      }
      size := size + 1;
      data[Wrap(head + size - 1)] := Tagged(frame, sequenceNo);
      assert View() == Push(before, Tagged(frame, sequenceNo)).1;
      return true;
    }

    method PopFrame() returns (ok: bool)
      requires IsValid()
      modifies this
      ensures IsValid() && ok == (old(Contents(View())) != [])
      ensures Contents(View()) == old(Contents(View()))[if ok then 1 else 0..]
    {
      ghost var before := View();
      ActRefines(before, OpPop);
      if size == 0 {
        return false;
      }
      head := Wrap(head + 1);
      size := size - 1;
      assert View() == Pop(before).1;
      return true;
    }

    method HeadFrame() returns (x: Option<Tagged>)
      requires IsValid()
      ensures x == if Contents(View()) == [] then None else Some(Contents(View())[0])
    {
      EndsRefine(View());
      if size == 0 {
        return None;
      }
      return Some(data[head]);
    }

    method TailFrame() returns (x: Option<Tagged>)
      requires IsValid()
      ensures x == if Contents(View()) == [] then None else Some(Contents(View())[|Contents(View())| - 1])
    {
      EndsRefine(View());
      if size == 0 {
        return None;
      }
      return Some(data[Wrap(head + size - 1)]);
    }

    method ClearAll()
      requires IsValid()
      modifies this
      ensures IsValid() && Contents(View()) == []
    {
      head := 0;
      size := 0;
    }
  }

  function RunRing(r: Ring, ops: seq<BufOp>): (seq<bool>, Ring)
    requires Valid(r)
    decreases |ops|
  {
    if ops == [] then ([], r)
    else
      ActRefines(r, ops[0]);
      var (ok, r1) := Act(r, ops[0]);
      var (oks, r2) := RunRing(r1, ops[1..]);
      ([ok] + oks, r2)
  }

  function RunQueue(q: seq<Tagged>, ops: seq<BufOp>): (seq<bool>, seq<Tagged>)
    decreases |ops|
  {
    if ops == [] then ([], q)
    else
      var (ok, q1) := ActQueue(q, ops[0]);
      var (oks, q2) := RunQueue(q1, ops[1..]);
      ([ok] + oks, q2)
  }

  /** The ring buffer refines a first-in first-out queue of at most 256 frames over all
      sequences of operations. */
  lemma {:induction false} RingIsQueue(r: Ring, ops: seq<BufOp>)
    requires Valid(r)
    ensures var (oks, r') := RunRing(r, ops);
            Valid(r') && (oks, Contents(r')) == RunQueue(Contents(r), ops)
    decreases |ops|
  {
    hide Contents, Act, ActQueue;
    if ops != [] {
      ActRefines(r, ops[0]);
      RingIsQueue(Act(r, ops[0]).1, ops[1..]);
    }
  }
}
