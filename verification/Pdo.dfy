/** PDO reconfiguration (sections 7.5.2.35 to 7.5.2.38 of CiA 301): canmat_pdo_remap. */
module Pdo {
  import opened Can
  import opened Bus
  import opened ObjDict

  datatype Direction = Dl | Ul | OtherDirection

  /** The parameters of canmat_pdo_remap; negative options are left alone. */
  datatype Request = Request(pdo: u8, dir: Direction, transmission: int, inhibit: int, event: int, objs: seq<Obj>)

  function ComIndex(req: Request): u16 { (if req.dir.Ul? then 0x1800 else 0x1400) + req.pdo }

  function MapIndex(req: Request): u16 { (if req.dir.Ul? then 0x1A00 else 0x1600) + req.pdo }

  /** The entry with the COB-ID and, in bit 31, the "not valid" flag. */
  function CobEntry(req: Request): Entry { Entry(ComIndex(req), 1) }

  function CountEntry(req: Request): Entry { Entry(MapIndex(req), 0) }

  function MapEntry(req: Request, i: nat): Entry
    requires i < 0xFF
  {
    Entry(MapIndex(req), i + 1)
  }

  const NOT_VALID: u32 := 0x8000_0000

  function Disabled(comm: u32): u32 { comm % NOT_VALID + NOT_VALID }

  function Enabled(comm: u32): u32 { comm % NOT_VALID }

  // ----- the writes of one run -----

  predicate Mappable(o: Obj) { BitSize(o) >= 1 && BitSize(o) % 8 == 0 }

  function MapWord(o: Obj): u32 { 0x1_0000 * o.index + 0x100 * o.subindex + BitSize(o) % 0x100 }

  /** How many objects come before the first that cannot be mapped. */
  function Leading(objs: seq<Obj>): (n: nat)
    ensures n <= |objs| && (n < |objs| ==> !Mappable(objs[n]))
    ensures forall i | 0 <= i < n :: Mappable(objs[i])
  {
    if objs == [] || !Mappable(objs[0]) then 0 else 1 + Leading(objs[1..])
  }

  datatype Put = Put(e: Entry, v: u32)

  predicate ParamsOk(req: Request)
  {
    req.transmission <= 0xFF && req.inhibit <= 0xFFFF && req.event <= 0xFFFF && !req.dir.OtherDirection?
  }

  /** Every object can be mapped, so the run is not cut short. */
  predicate Complete(req: Request) { Leading(req.objs) == |req.objs| }

  function HeadPuts(req: Request, comm: u32): seq<Put>
  {
    (if comm < NOT_VALID then [Put(CobEntry(req), Disabled(comm))] else []) + [Put(CountEntry(req), 0)]
  }

  function MapPuts(req: Request): (ps: seq<Put>)
    requires |req.objs| < 0xFF
    ensures |ps| == Leading(req.objs)
    ensures forall i | 0 <= i < |ps| :: ps[i] == Put(MapEntry(req, i), MapWord(req.objs[i]))
  {
    seq(Leading(req.objs), i requires 0 <= i < Leading(req.objs) => Put(MapEntry(req, i), MapWord(req.objs[i])))
  }

  /** The inhibit time passes through an 8-bit cast. */
  function OptionPuts(req: Request): seq<Put>
    requires ParamsOk(req)
  {
    (if req.transmission >= 0 then [Put(Entry(ComIndex(req), 2), req.transmission)] else [])
    + (if req.inhibit >= 0 then [Put(Entry(ComIndex(req), 3), req.inhibit % 0x100)] else [])
    + (if req.event >= 0 then [Put(Entry(ComIndex(req), 5), req.event)] else [])
  }

  function TailPuts(req: Request, comm: u32): seq<Put>
    requires |req.objs| < 0xFF
  {
    [Put(CountEntry(req), |req.objs|), Put(CobEntry(req), Enabled(comm))]
  }

  /** All writes of a run that read `comm`, in order. */
  function Plan(req: Request, comm: u32): seq<Put>
    requires ParamsOk(req) && |req.objs| < 0xFF
  {
    HeadPuts(req, comm) + MapPuts(req) + (if Complete(req) then OptionPuts(req) + TailPuts(req, comm) else [])
  }

  /** Perform writes until one is not acknowledged. */
  function RunPuts(env: Env, l: Line, ps: seq<Put>): (Status, Line)
    decreases |ps|
  {
    if ps == [] then (Ok, l)
    else
      var (r, l1) := WriteEntry(env, l, ps[0].e, ps[0].v);
      if r != Ok then (r, l1) else RunPuts(env, l1, ps[1..])
  }

  /** canmat_pdo_remap. */
  function Remap(env: Env, l: Line, req: Request): (Status, Line)
    requires |req.objs| < 0xFF
  {
    if !ParamsOk(req) then (ErrParam, l)
    else
      var (r, comm, l1) := ReadEntry(env, l, CobEntry(req));
      if r != Ok then (r, l1)
      else
        var (r', l2) := RunPuts(env, l1, Plan(req, comm));
        (if r' == Ok && !Complete(req) then ErrParam else r', l2)
  }

  /** One checked download: the first of the writes still to do. */
  method Put1(cif: Port, e: Entry, v: u32, ghost todo: seq<Put>) returns (r: Status)
    requires todo != [] && todo[0] == Put(e, v)
    modifies cif`line
    ensures RunPuts(cif.env, old(cif.line), todo)
            == if r != Ok then (r, cif.line) else RunPuts(cif.env, cif.line, todo[1..])
  {
    r := cif.Download(e, v);
  }

  /** Disable the PDO and zero the count; `rest` is what follows in the plan. */
  method SetHead(cif: Port, req: Request, comm: u32, ghost rest: seq<Put>) returns (r: Status)
    modifies cif`line
    ensures RunPuts(cif.env, old(cif.line), HeadPuts(req, comm) + rest)
            == if r != Ok then (r, cif.line) else RunPuts(cif.env, cif.line, rest)
  {
    ghost var todo := HeadPuts(req, comm) + rest;
    if comm < NOT_VALID {
      r := Put1(cif, CobEntry(req), Disabled(comm), todo);
      if r != Ok { return; }
      todo := todo[1..];
    }
    r := Put1(cif, CountEntry(req), 0, todo);
    assert todo[1..] == rest;
  }

  /** The uint8_t counter of the mapping loop after k increments. */
  function Counter(k: nat): u8 { (1 + k) % 0x100 }

  /** The mapping loop, left to run, ends exactly for counts below 255. */
  lemma LoopEnds(cnt: u8)
    ensures (exists k: nat :: Counter(k) > cnt) <==> cnt < 0xFF
  {
    if cnt < 0xFF {
      assert Counter(0xFE) > cnt;
    }
  }

  /** The mapping loop; it gives up at the first object that cannot be mapped.  The counts that
      it asks for are those for which it ends. */
  method SetMap(cif: Port, req: Request, ghost rest: seq<Put>) returns (r: Status)
    requires |req.objs| < 0xFF
    requires Complete(req) || rest == []
    modifies cif`line
    ensures var (r', l') := RunPuts(cif.env, old(cif.line), MapPuts(req) + rest);
            if r == Ok then Complete(req) && (r', l') == RunPuts(cif.env, cif.line, rest)
            else (r, cif.line) == (if r' == Ok && !Complete(req) then ErrParam else r', l')
  {
    hide RunPuts, MapWord;
    ghost var puts := MapPuts(req);
    ghost var todo := puts + rest;
    var i: u8 := 1;
    ghost var k := 0;
    while i <= |req.objs|
      invariant i == Counter(k) && k <= |puts|
      invariant todo == puts[k..] + rest
      invariant RunPuts(cif.env, old(cif.line), puts + rest) == RunPuts(cif.env, cif.line, todo)
    {
      var obj := req.objs[i - 1];
      if BitSize(obj) < 1 || BitSize(obj) % 8 != 0 {
        assert todo == [];
        NothingToRun(cif.env, cif.line);
        return ErrParam;
      }
      assert todo[1..] == puts[k + 1..] + rest;
      r := Put1(cif, Entry(MapIndex(req), i), MapWord(obj), todo);
      if r != Ok { return; }
      todo := todo[1..];
      i, k := (i + 1) % 0x100, k + 1;
    }
    assert todo == rest;
    r := Ok;
  }

  lemma NothingToRun(env: Env, l: Line)
    ensures RunPuts(env, l, []) == (Ok, l)
  {
  }

  /** The three optional writes; `rest` is what follows them in the plan. */
  method SetOptions(cif: Port, req: Request, ghost rest: seq<Put>) returns (r: Status)
    requires ParamsOk(req)
    modifies cif`line
    ensures RunPuts(cif.env, old(cif.line), OptionPuts(req) + rest)
            == if r != Ok then (r, cif.line) else RunPuts(cif.env, cif.line, rest)
  {
    hide RunPuts;
    var com := ComIndex(req);
    ghost var todo := OptionPuts(req) + rest;
    r := Ok;
    if req.transmission >= 0 {
      r := Put1(cif, Entry(com, 2), req.transmission, todo);
      if r != Ok { return; }
      todo := todo[1..];
    }
    if req.inhibit >= 0 {
      r := Put1(cif, Entry(com, 3), req.inhibit % 0x100, todo);
      if r != Ok { return; }
      todo := todo[1..];
    }
    if req.event >= 0 {
      r := Put1(cif, Entry(com, 5), req.event, todo);
      if r != Ok { return; }
      todo := todo[1..];
    }
    assert todo == rest;
  }

  /** Set the count and clear the "not valid" flag. */
  method SetTail(cif: Port, req: Request, comm: u32) returns (r: Status)
    requires |req.objs| < 0xFF
    modifies cif`line
    ensures RunPuts(cif.env, old(cif.line), TailPuts(req, comm)) == (r, cif.line)
  {
    hide RunPuts;
    ghost var todo := TailPuts(req, comm);
    r := Put1(cif, CountEntry(req), |req.objs|, todo);
    if r != Ok { return; }
    todo := todo[1..];
    r := Put1(cif, CobEntry(req), Enabled(comm), todo);
    NothingToRun(cif.env, cif.line);
    assert todo[1..] == [];
  }

  /** canmat_pdo_remap, step by step. */
  method RemapPdo(cif: Port, req: Request) returns (r: Status)
    requires |req.objs| < 0xFF
    modifies cif`line
    ensures (r, cif.line) == Remap(cif.env, old(cif.line), req)
  {
    hide RunPuts, HeadPuts, MapPuts, OptionPuts, TailPuts;
    if req.transmission > 0xFF || req.inhibit > 0xFFFF || req.event > 0xFFFF || req.dir.OtherDirection? {
      return ErrParam;
    }
    var comm;
    r, comm := cif.Upload(CobEntry(req));
    if r != Ok { return; }
    ghost var rest := if Complete(req) then OptionPuts(req) + TailPuts(req, comm) else [];
    assert Plan(req, comm) == HeadPuts(req, comm) + (MapPuts(req) + rest);
    r := SetHead(cif, req, comm, MapPuts(req) + rest);
    if r != Ok { return; }
    r := SetMap(cif, req, rest);
    if r != Ok { return; }
    r := SetOptions(cif, req, TailPuts(req, comm));
    if r != Ok { return; }
    r := SetTail(cif, req, comm);
  }
}
