/** One CANopen node as its client sees it: the objects the library touches, and a bus on
    which every transfer may be refused, applied without the client learning of it, or answered
    by an older answer. */
module Bus {
  import opened Can

  type CommIndex = x: u16 | 0x1000 <= x < 0x2000 witness 0x1000

  /** An entry of the communication profile area of the object dictionary. */
  datatype Entry = Entry(index: CommIndex, sub: u8)

  type Dict = map<Entry, u32>

  function Get(d: Dict, e: Entry): u32
  {
    if e in d then d[e] else 0
  }

  /** The communication and the mapping parameters of RPDOs and TPDOs. */
  predicate IsPdoCom(e: Entry) { 0x1400 <= e.index < 0x1600 || 0x1800 <= e.index < 0x1A00 }

  predicate IsPdoMap(e: Entry) { 0x1600 <= e.index < 0x1800 || 0x1A00 <= e.index < 0x1C00 }

  /** The width in bytes of an entry, as the library accesses it. */
  function Width(e: Entry): (n: nat)
    ensures n == 1 || n == 2 || n == 4
  {
    if IsPdoMap(e) then (if e.sub == 0 then 1 else 4)
    else if IsPdoCom(e) then (if e.sub == 1 then 4 else if e.sub == 3 || e.sub == 5 then 2 else 1)
    else 4
  }

  /** The value fits the entry. */
  predicate Fits(e: Entry, v: u32)
  {
    v < if Width(e) == 1 then 0x100 else if Width(e) == 2 then 0x1_0000 else 0x1_0000_0000
  }

  type i8 = x: int | -0x80 <= x < 0x80
  type i16 = x: int | -0x8000 <= x < 0x8000
  type i32 = x: int | -0x8000_0000 <= x < 0x8000_0000

  /** The device: its communication objects, and the device-profile objects controlword
      (6040), modes of operation (6060), vl target velocity (6042), position and velocity
      actual values (6064, 606C) and software position limits (607D). */
  datatype Device = Device(dict: Dict, ctrl: bv16, mode: i8, target: i16,
                           position: i32, velocity: i32, minPos: i32, maxPos: i32)

  /** The objects that are only read by the client. */
  datatype Readable = CtrlWord | Position | Velocity | TargetVelocity | OpMode | MinPos | MaxPos

  /** What the client asks of the node. */
  datatype Ask =
    | AskRead(e: Entry)
    | AskWrite(e: Entry, v: u32)
    | AskStat
    | AskObj(obj: Readable)
    | AskCtrl(ctrl: bv16)
    | AskMode(mode: i8)
    | AskTarget(target: i16)
    | AskNmt

  /** What becomes of one transfer: done and acknowledged; refused or lost on the way to the
      device; done by the device without the client learning of it; or taken for successful
      because of an older answer, which reads as `seen`, while the device has refused it or
      holds another value. */
  datatype Outcome = Done | Refused(err: Failure) | Unacked(err: Failure) | Mistaken(seen: u32)

  function StatusOf(out: Outcome): Status
  {
    match out
    case Done | Mistaken(_) => Ok
    case Refused(e) => e
    case Unacked(e) => e
  }

  predicate Applied(out: Outcome) { out.Done? || out.Unacked? }

  /** What an upload delivers, given what the device holds. */
  function Heard(out: Outcome, held: u32): u32 { if out.Mistaken? then out.seen else held }

  datatype Event =
    | Read(e: Entry, out: Outcome)
    | Write(e: Entry, v: u32, out: Outcome)
    | ReadStat(word: bv16, out: Outcome)
    | ReadObj(obj: Readable, out: Outcome)
    | WriteCtrl(ctrl: bv16, out: Outcome)
    | WriteMode(mode: i8, out: Outcome)
    | WriteTarget(target: i16, out: Outcome)
    | SendNmt(out: Outcome)

  function AskOf(ev: Event): Ask
  {
    match ev
    case Read(e, _) => AskRead(e)
    case Write(e, v, _) => AskWrite(e, v)
    case ReadStat(_, _) => AskStat
    case ReadObj(obj, _) => AskObj(obj)
    case WriteCtrl(c, _) => AskCtrl(c)
    case WriteMode(m, _) => AskMode(m)
    case WriteTarget(t, _) => AskTarget(t)
    case SendNmt(_) => AskNmt
  }

  /** The environment decides every outcome from all that happened before and from what is
      asked now, and every status word from all that happened before. */
  datatype Env = Env(out: (seq<Event>, Ask) -> Outcome, stat: seq<Event> -> bv16)

  datatype Line = Line(dev: Device, log: seq<Event>)

  function Apply(dev: Device, ev: Event): Device
  {
    if !Applied(ev.out) then dev
    else match ev
      case Write(e, v, _) => dev.(dict := dev.dict[e := v])
      case WriteCtrl(c, _) => dev.(ctrl := c)
      case WriteMode(m, _) => dev.(mode := m)
      case WriteTarget(t, _) => dev.(target := t)
      case _ => dev
  }

  /** One transfer: the device reacts and the event is logged. */
  function Step(l: Line, ev: Event): Line
  {
    Line(Apply(l.dev, ev), l.log + [ev])
  }

  function ReadEntry(env: Env, l: Line, e: Entry): (Status, u32, Line)
  {
    var out := env.out(l.log, AskRead(e));
    (StatusOf(out), Heard(out, Get(l.dev.dict, e)), Step(l, Read(e, out)))
  }

  function WriteEntry(env: Env, l: Line, e: Entry, v: u32): (Status, Line)
  {
    var out := env.out(l.log, AskWrite(e, v));
    (StatusOf(out), Step(l, Write(e, v, out)))
  }

  /** The state of the device after a stretch of events. */
  function Replay(dev: Device, log: seq<Event>): Device
    decreases |log|
  {
    if log == [] then dev else Replay(Apply(dev, log[0]), log[1..])
  }

  lemma {:induction false} ReplayConcat(dev: Device, log: seq<Event>, more: seq<Event>)
    ensures Replay(dev, log + more) == Replay(Replay(dev, log), more)
    decreases |log|
  {
    if log == [] {
      assert log + more == more;
    } else {
      assert (log + more)[1..] == log[1..] + more;
      ReplayConcat(Apply(dev, log[0]), log[1..], more);
    }
  }

  lemma ReplayOne(dev: Device, ev: Event)
    ensures Replay(dev, [ev]) == Apply(dev, ev)
  {
    assert [ev][1..] == [];
  }

  /** The client saw the transfer succeed. */
  predicate Succeeded(ev: Event) { StatusOf(ev.out) == Ok }

  /** The events by which a line has grown. */
  function Since(l: Line, l': Line): seq<Event>
  {
    if |l.log| <= |l'.log| then l'.log[|l.log|..] else []
  }

  /** No answer was mistaken for another. */
  predicate Truthful(evs: seq<Event>)
  {
    forall ev | ev in evs :: !ev.out.Mistaken?
  }

  lemma TruthfulParts(ev: Event, later: seq<Event>)
    requires Truthful([ev] + later)
    ensures !ev.out.Mistaken? && Truthful(later)
  {
    assert ev in [ev] + later;
    assert forall x | x in later :: x in [ev] + later;
  }

  /** The event is what the environment decided after the log. */
  predicate Decided(env: Env, log: seq<Event>, ev: Event)
  {
    ev.out == env.out(log, AskOf(ev)) && (ev.ReadStat? ==> ev.word == env.stat(log))
  }

  /** The environment decided every event from `lo` on. */
  predicate Genuine(env: Env, log: seq<Event>, lo: nat)
  {
    forall i | lo <= i < |log| :: Decided(env, log[..i], log[i])
  }

  /** A line grown from another by transfers in the environment. */
  predicate Grown(env: Env, l: Line, l': Line)
  {
    && l.log <= l'.log && l'.dev == Replay(l.dev, Since(l, l'))
    && Genuine(env, l'.log, |l.log|)
  }

  lemma GrownRefl(env: Env, l: Line)
    ensures Grown(env, l, l) && Since(l, l) == []
  {
  }

  lemma GrownStep(env: Env, l: Line, ev: Event)
    requires Decided(env, l.log, ev)
    ensures Grown(env, l, Step(l, ev)) && Since(l, Step(l, ev)) == [ev]
  {
    hide Apply, Decided;
    assert (l.log + [ev])[..|l.log|] == l.log;
    assert Since(l, Step(l, ev)) == [ev];
    ReplayOne(l.dev, ev);
  }

  lemma GenuineTrans(env: Env, p: seq<Event>, q: seq<Event>, lo: nat)
    requires p <= q && Genuine(env, p, lo) && Genuine(env, q, |p|)
    ensures Genuine(env, q, lo)
  {
    hide Decided;
    forall i | lo <= i < |q|
      ensures Decided(env, q[..i], q[i])
    {
      if i < |p| {
        assert q[i] == p[i] && q[..i] == p[..i];
      }
    }
  }

  lemma GrownTrans(env: Env, a: Line, b: Line, c: Line)
    requires Grown(env, a, b) && Grown(env, b, c)
    ensures Grown(env, a, c) && Since(a, c) == Since(a, b) + Since(b, c)
  {
    hide Replay, Genuine;
    assert Since(a, c) == Since(a, b) + Since(b, c);
    ReplayConcat(a.dev, Since(a, b), Since(b, c));
    GenuineTrans(env, b.log, c.log, |a.log|);
  }

  /** Every transfer, the last one excepted, was successful for the client. */
  predicate Prompt(evs: seq<Event>)
  {
    forall i | 0 <= i < |evs| - 1 :: Succeeded(evs[i])
  }

  predicate AllSucceeded(evs: seq<Event>) { forall ev | ev in evs :: Succeeded(ev) }

  lemma PromptJoin(evs: seq<Event>, more: seq<Event>)
    requires AllSucceeded(evs)
    ensures Prompt(more) ==> Prompt(evs + more)
    ensures AllSucceeded(more) ==> AllSucceeded(evs + more)
  {
  }

  /** The events make the transfers asked for, in order, up to the first that fails, which is then the
      last one and gives the status. */
  predicate Obeys(evs: seq<Event>, asks: seq<Ask>, r: Status)
  {
    && |evs| <= |asks| && Prompt(evs) && (forall k | 0 <= k < |evs| :: AskOf(evs[k]) == asks[k])
    && if r == Ok then |evs| == |asks| && AllSucceeded(evs)
       else evs != [] && r == StatusOf(evs[|evs| - 1].out)
  }

  lemma ObeysThen(a: seq<Event>, p: seq<Ask>, b: seq<Event>, q: seq<Ask>, r: Status)
    requires Obeys(a, p, Ok) && Obeys(b, q, r)
    ensures Obeys(a + b, p + q, r)
  {
    hide AskOf, AllSucceeded, Prompt, Succeeded;
    PromptJoin(a, b);
  }

  lemma ObeysFailed(a: seq<Event>, p: seq<Ask>, q: seq<Ask>, r: Status)
    requires Obeys(a, p, r) && r != Ok
    ensures Obeys(a, p + q, r)
  {
    hide AskOf, AllSucceeded, Prompt;
  }

  lemma ObeysOne(ev: Event)
    ensures Obeys([ev], [AskOf(ev)], StatusOf(ev.out))
    ensures Obeys([], [], Ok)
  {
    assert forall x | x in [ev] :: x == ev;
  }

  lemma ObeysNone()
    ensures Obeys([], [], Ok)
  {
  }

  lemma ObeysSize(evs: seq<Event>, asks: seq<Ask>, r: Status)
    requires Obeys(evs, asks, r)
    ensures |evs| <= |asks| && (r == Ok ==> |evs| == |asks|) && (r != Ok ==> evs != [])
  {
  }

  /** struct canmat_iface with the node behind it. */
  class Port {
    var line: Line
    const env: Env

    constructor (line: Line, env: Env)
      ensures this.line == line && this.env == env
    {
      this.line, this.env := line, env;
    }

    method Upload(e: Entry) returns (r: Status, v: u32)
      modifies this`line
      ensures (r, v, line) == ReadEntry(env, old(line), e)
    {
      var out := env.out(line.log, AskRead(e));
      v := Heard(out, Get(line.dev.dict, e));
      line := Step(line, Read(e, out));
      r := StatusOf(out);
    }

    method Download(e: Entry, v: u32) returns (r: Status)
      modifies this`line
      ensures (r, line) == WriteEntry(env, old(line), e, v)
    {
      var out := env.out(line.log, AskWrite(e, v));
      line := Step(line, Write(e, v, out));
      return StatusOf(out);
    }

    /** Any other transfer, already known up to its outcome. */
    method Transfer(ev: Event) returns (r: Status)
      requires ev.out == env.out(line.log, AskOf(ev))
      modifies this`line
      ensures line == Step(old(line), ev) && r == StatusOf(ev.out)
    {
      line := Step(line, ev);
      return StatusOf(ev.out);
    }
  }
}
