/** Every program of calls on the gateway and the manager, each run without interruption, is a
    run of the step system: what is proved of all runs holds of every such program. */
module Refinement {
  import opened Ledger
  import opened Protocol
  import opened Conservation
  import opened Guarantees
  import opened Manager

  /** The calls, with the outside conditions under which each is made. A restart loses what is
      in memory. */
  datatype Call =
    | BeginCall(r: int, id: Id)
    | AdmitCall(r: int, now: int, clock: int, readable: bool, calls: nat)
    | RecordCall(r: int, requestTokens: int, responseTokens: int, charged: int)
    | EndCall(r: int)
    | BootstrapCall(keys: seq<LegacyKey>)
    | FlushCall(now: int, readable: bool, calls: nat)
    | RestartCall(now: int, readable: bool)

  /** What the calls act on. */
  datatype Server = Server(cache: Cache, store: Store, requests: map<int, Request>)

  function ServerOf(s: State): Server {
    Server(s.cache, s.store, s.requests)
  }

  predicate Allowed(cfg: Config, m: Server, call: Call) {
    match call
    case BeginCall(r, id) =>
      r !in m.requests && id in cfg.keys && |ActiveOf(m.requests, id)| < ConcurrencyLimit(cfg)
    case AdmitCall(r, _, _, _, _) => r in m.requests && m.requests[r].stage.Begun? && m.requests[r].id in cfg.keys
    case RecordCall(r, _, _, _) => r in m.requests && m.requests[r].stage.Waiting?
    case EndCall(r) => r in m.requests
    case _ => true
  }

  /** The effect of a call, by the outcome that the method's contract states. */
  function Perform(cfg: Config, m: Server, call: Call): Server
    requires Allowed(cfg, m, call)
  {
    match call
    case BeginCall(r, id) => m.(requests := m.requests[r := Request(id, Begun)])
    case AdmitCall(r, now, clock, readable, calls) =>
      var id := m.requests[r].id;
      var o := AdmitOutcome(m.cache, m.store, cfg.keys[id], now, clock, cfg.offset, readable, calls);
      Server(
        o.cache, o.store,
        if o.decision.Admitted? then m.requests[r := Request(id, Waiting(now, o.decision.bindings))] else m.requests)
    case RecordCall(r, requestTokens, responseTokens, charged) =>
      var q := m.requests[r];
      Server(
        RecordCache(
          m.cache, q.id, requestTokens + responseTokens, charged, q.stage.at, cfg.offset, q.stage.bindings),
        m.store, m.requests[r := Request(q.id, Recorded)])
    case EndCall(r) => m.(requests := m.requests - {r})
    case BootstrapCall(keys) => m.(cache := BootstrapCache(m.cache, keys))
    case FlushCall(now, readable, calls) =>
      var o := FlushOutcome(m.cache, m.store, now, cfg.offset, readable, calls);
      Server(o.cache, o.store, m.requests)
    case RestartCall(now, readable) =>
      Server(if readable then ConnectedCache(EMPTY_CACHE, m.store, now, cfg.offset) else EMPTY_CACHE, m.store, map[])
  }

  // ------------------------------------------------------------- the steps of a call

  function TakeSteps(c: Cache, calls: nat): seq<Step> {
    [Take] + if c.pending == 0 then []
             else if |c.dirtyTotals| + |c.dirtyBuckets| + 2 <= calls then [Commit] else [Fail]
  }

  function BootstrapSteps(keys: seq<LegacyKey>): seq<Step> {
    if keys == [] then [] else [Bootstrap(keys[0])] + BootstrapSteps(keys[1..])
  }

  predicate ConnectsFirst(c: Cache, key: ApiKey, readable: bool) {
    match Normalize(key.limits)
    case Invalid(_) => false
    case Limits(limits) => HasIndependent(limits) && !c.connected && readable
  }

  function AdmitSteps(
    m: Server, key: ApiKey, r: int, now: int, clock: int, offset: int, readable: bool, calls: nat): seq<Step> {
    if ConnectsFirst(m.cache, key, readable)
    then [Connect(clock)]
      + [AdmitStep(r, now, Writable(ConnectedCache(m.cache, m.store, clock, offset), key, now, calls))]
    else [AdmitStep(r, now, Writable(m.cache, key, now, calls))]
  }

  function StepsOf(cfg: Config, m: Server, call: Call): seq<Step>
    requires Allowed(cfg, m, call)
  {
    match call
    case BeginCall(r, id) => [Begin(r, id)]
    case AdmitCall(r, now, clock, readable, calls) =>
      AdmitSteps(m, cfg.keys[m.requests[r].id], r, now, clock, cfg.offset, readable, calls)
    case RecordCall(r, requestTokens, responseTokens, charged) => [Record(r, requestTokens + responseTokens, charged)]
    case EndCall(r) => [End(r)]
    case BootstrapCall(keys) => BootstrapSteps(keys)
    case FlushCall(now, readable, calls) =>
      if !m.cache.connected && !readable then []
      else [Connect(now)] + TakeSteps(ConnectedCache(m.cache, m.store, now, cfg.offset), calls)
    case RestartCall(now, readable) => [Crash] + if readable then [Connect(now)] else []
  }

  /** The steps can be taken, and lead to the server, with nothing in transit. */
  ghost predicate LeadsTo(cfg: Config, s: State, steps: seq<Step>, m: Server) {
    && Feasible(cfg, s, steps)
    && ServerOf(Run(cfg, s, steps)) == m
    && Run(cfg, s, steps).transit.None?
  }

  lemma OneStep(cfg: Config, s: State, e: Step)
    requires Enabled(cfg, s, e)
    ensures Feasible(cfg, s, [e]) && Run(cfg, s, [e]) == Apply(cfg, s, e)
  {
    hide Enabled, Apply;
    assert [e][1..] == [];
    assert Feasible(cfg, Apply(cfg, s, e), []);
  }

  lemma {:induction false} RunConcat(cfg: Config, s: State, x: seq<Step>, y: seq<Step>)
    requires Feasible(cfg, s, x) && Feasible(cfg, Run(cfg, s, x), y)
    ensures Feasible(cfg, s, x + y) && Run(cfg, s, x + y) == Run(cfg, Run(cfg, s, x), y)
    decreases |x|
  {
    hide Enabled, Apply;
    if x == [] {
      assert x + y == y;
    } else {
      RunConcat(cfg, Apply(cfg, s, x[0]), x[1..], y);
      assert (x + y)[1..] == x[1..] + y;
    }
  }

  lemma Chain(cfg: Config, s: State, x: seq<Step>, y: seq<Step>, m: Server)
    requires Feasible(cfg, s, x) && LeadsTo(cfg, Run(cfg, s, x), y, m)
    ensures LeadsTo(cfg, s, x + y, m)
  {
    hide Feasible, Run;
    RunConcat(cfg, s, x, y);
  }

  lemma Single(cfg: Config, s: State, e: Step, m: Server)
    requires Enabled(cfg, s, e) && ServerOf(Apply(cfg, s, e)) == m && Apply(cfg, s, e).transit.None?
    ensures LeadsTo(cfg, s, [e], m)
  {
    hide Enabled, Apply;
    OneStep(cfg, s, e);
  }

  lemma Nothing(cfg: Config, s: State)
    requires s.transit.None?
    ensures LeadsTo(cfg, s, [], ServerOf(s))
  {
  }

  lemma Connected(cfg: Config, s: State, now: int)
    requires s.transit.None?
    ensures var t := Apply(cfg, s, Connect(now));
      ServerOf(t) == Server(ConnectedCache(s.cache, s.store, now, cfg.offset), s.store, s.requests) && t.transit.None?
  {
  }

  lemma TakeIsARun(cfg: Config, s: State, calls: nat)
    requires s.transit.None? && s.cache.connected
    ensures var c := s.cache; var written := |c.dirtyTotals| + |c.dirtyBuckets| + 2 <= calls;
      LeadsTo(cfg, s, TakeSteps(c, calls),
              if c.pending == 0 then Server(TakenCache(c), s.store, s.requests)
              else if written then Server(TakenCache(c), CommittedStore(s.store, TakenBatch(c)), s.requests)
              else Server(RestoredCache(TakenCache(c), TakenBatch(c)), s.store, s.requests))
  {
    hide TakenCache, RestoredCache, CommittedStore, LeadsTo;
    var t := Apply(cfg, s, Take);
    if s.cache.pending == 0 {
      assert [Take] + [] == [Take];
      Single(cfg, s, Take, Server(TakenCache(s.cache), s.store, s.requests));
    } else {
      var written := |s.cache.dirtyTotals| + |s.cache.dirtyBuckets| + 2 <= calls;
      var last := if written then Commit else Fail;
      OneStep(cfg, s, Take);
      Single(cfg, t, last, ServerOf(Apply(cfg, t, last)));
      Chain(cfg, s, [Take], [last], ServerOf(Apply(cfg, t, last)));
    }
  }

  lemma FlushIsARun(cfg: Config, s: State, now: int, readable: bool, calls: nat)
    requires s.transit.None?
    ensures var call := FlushCall(now, readable, calls);
      LeadsTo(cfg, s, StepsOf(cfg, ServerOf(s), call), Perform(cfg, ServerOf(s), call))
  {
    if !s.cache.connected && !readable {
      Nothing(cfg, s);
    } else {
      var c := ConnectedCache(s.cache, s.store, now, cfg.offset);
      ConnectedStays(s.cache, s.store, now, cfg.offset);
      Connected(cfg, s, now);
      OneStep(cfg, s, Connect(now));
      TakeIsARun(cfg, Apply(cfg, s, Connect(now)), calls);
      hide ConnectedCache, TakenCache, TakenBatch, RestoredCache, CommittedStore, TakeSteps, Apply, LeadsTo, Run;
      hide Feasible;
      Chain(cfg, s, [Connect(now)], TakeSteps(c, calls), Perform(cfg, ServerOf(s), FlushCall(now, readable, calls)));
    }
  }

  /** A server on which the admission step has decided. */
  function Decided(cfg: Config, m: Server, r: int, now: int, writable: bool): Server
    requires r in m.requests && m.requests[r].id in cfg.keys
  {
    var id := m.requests[r].id;
    var d := Admit(m.cache, cfg.keys[id], now, cfg.offset, writable);
    if d.Admitted?
    then Server(OpenedCache(m.cache, d.changes), OpenedStore(m.store, d.changes),
      m.requests[r := Request(id, Waiting(now, d.bindings))])
    else m
  }

  lemma DecideIsARun(cfg: Config, s: State, r: int, now: int, writable: bool)
    requires Enabled(cfg, s, AdmitStep(r, now, writable))
    ensures LeadsTo(cfg, s, [AdmitStep(r, now, writable)], Decided(cfg, ServerOf(s), r, now, writable))
  {
    var e := AdmitStep(r, now, writable);
    DecideApplied(cfg, s, r, now, writable);
    hide Apply, LeadsTo, Decided;
    Single(cfg, s, e, Decided(cfg, ServerOf(s), r, now, writable));
  }

  lemma DecideApplied(cfg: Config, s: State, r: int, now: int, writable: bool)
    requires Enabled(cfg, s, AdmitStep(r, now, writable))
    ensures var t := Apply(cfg, s, AdmitStep(r, now, writable));
      t.transit.None? && ServerOf(t) == Decided(cfg, ServerOf(s), r, now, writable)
  {
    hide Admit;
  }

  /** The outcome of an admission is decided on the connected cache if it connects. */
  lemma AdmitDecidesOn(cfg: Config, m: Server, r: int, now: int, clock: int, readable: bool, calls: nat)
    requires Allowed(cfg, m, AdmitCall(r, now, clock, readable, calls))
    ensures var key := cfg.keys[m.requests[r].id];
      var c :=
        if ConnectsFirst(m.cache, key, readable) then ConnectedCache(m.cache, m.store, clock, cfg.offset) else m.cache;
      Perform(cfg, m, AdmitCall(r, now, clock, readable, calls))
        == Decided(cfg, m.(cache := c), r, now, Writable(c, key, now, calls))
  {
    ConnectedStays(m.cache, m.store, clock, cfg.offset);
    hide Admit, Writable, Normalize, HasIndependent, OpenedCache, OpenedStore, ConnectedCache;
  }

  lemma AdmitIsARun(cfg: Config, s: State, r: int, now: int, clock: int, readable: bool, calls: nat)
    requires s.transit.None? && Allowed(cfg, ServerOf(s), AdmitCall(r, now, clock, readable, calls))
    ensures var call := AdmitCall(r, now, clock, readable, calls);
      LeadsTo(cfg, s, StepsOf(cfg, ServerOf(s), call), Perform(cfg, ServerOf(s), call))
  {
    var key := cfg.keys[s.requests[r].id];
    AdmitDecidesOn(cfg, ServerOf(s), r, now, clock, readable, calls);
    hide AdmitOutcome, Writable, ConnectsFirst, ConnectedCache, Decided, LeadsTo, Run, Feasible, Perform;
    if ConnectsFirst(s.cache, key, readable) {
      var t := Apply(cfg, s, Connect(clock));
      var writable := Writable(t.cache, key, now, calls);
      Connected(cfg, s, clock);
      OneStep(cfg, s, Connect(clock));
      DecideIsARun(cfg, t, r, now, writable);
      Chain(cfg, s, [Connect(clock)], [AdmitStep(r, now, writable)], Decided(cfg, ServerOf(t), r, now, writable));
    } else {
      DecideIsARun(cfg, s, r, now, Writable(s.cache, key, now, calls));
    }
  }

  lemma {:induction false} BootstrapIsARun(cfg: Config, s: State, keys: seq<LegacyKey>)
    requires s.transit.None?
    ensures LeadsTo(cfg, s, BootstrapSteps(keys), Server(BootstrapCache(s.cache, keys), s.store, s.requests))
    decreases |keys|
  {
    hide BootstrapOne, LeadsTo;
    if keys == [] {
      Nothing(cfg, s);
    } else {
      var e := Bootstrap(keys[0]);
      BootstrapIsARun(cfg, Apply(cfg, s, e), keys[1..]);
      OneStep(cfg, s, e);
      Chain(cfg, s, [e], BootstrapSteps(keys[1..]), Server(BootstrapCache(s.cache, keys), s.store, s.requests));
    }
  }

  lemma RestartIsARun(cfg: Config, s: State, now: int, readable: bool)
    ensures var call := RestartCall(now, readable);
      LeadsTo(cfg, s, StepsOf(cfg, ServerOf(s), call), Perform(cfg, ServerOf(s), call))
  {
    var t := Apply(cfg, s, Crash);
    assert t.transit.None? && ServerOf(t) == Server(EMPTY_CACHE, s.store, map[]);
    if readable {
      Connected(cfg, t, now);
      OneStep(cfg, s, Crash);
      hide ConnectedCache, Apply, LeadsTo, Run, Feasible;
      Single(cfg, t, Connect(now), Perform(cfg, ServerOf(s), RestartCall(now, readable)));
      Chain(cfg, s, [Crash], [Connect(now)], Perform(cfg, ServerOf(s), RestartCall(now, readable)));
    } else {
      assert [Crash] + [] == [Crash];
      Single(cfg, s, Crash, ServerOf(t));
    }
  }

  /** Each call is a run of its steps. */
  lemma CallIsARun(cfg: Config, s: State, call: Call)
    requires s.transit.None? && Allowed(cfg, ServerOf(s), call)
    ensures LeadsTo(cfg, s, StepsOf(cfg, ServerOf(s), call), Perform(cfg, ServerOf(s), call))
  {
    hide LeadsTo, RecordCache, FlushOutcome, AdmitOutcome, ConnectedCache, AdmitSteps, TakeSteps;
    match call
    case BeginCall(r, id) => Single(cfg, s, Begin(r, id), Perform(cfg, ServerOf(s), call));
    case AdmitCall(r, now, clock, readable, calls) => AdmitIsARun(cfg, s, r, now, clock, readable, calls);
    case RecordCall(r, x, y, charged) => Single(cfg, s, Record(r, x + y, charged), Perform(cfg, ServerOf(s), call));
    case EndCall(r) => Single(cfg, s, End(r), Perform(cfg, ServerOf(s), call));
    case BootstrapCall(keys) => BootstrapIsARun(cfg, s, keys);
    case FlushCall(now, readable, calls) => FlushIsARun(cfg, s, now, readable, calls);
    case RestartCall(now, readable) => RestartIsARun(cfg, s, now, readable);
  }

  // ------------------------------------------------------------------------ programs

  predicate Program(cfg: Config, m: Server, calls: seq<Call>)
    decreases |calls|
  {
    calls == [] || (Allowed(cfg, m, calls[0]) && Program(cfg, Perform(cfg, m, calls[0]), calls[1..]))
  }

  function PerformAll(cfg: Config, m: Server, calls: seq<Call>): Server
    requires Program(cfg, m, calls)
    decreases |calls|
  {
    if calls == [] then m else PerformAll(cfg, Perform(cfg, m, calls[0]), calls[1..])
  }

  function ProgramSteps(cfg: Config, m: Server, calls: seq<Call>): seq<Step>
    requires Program(cfg, m, calls)
    decreases |calls|
  {
    if calls == [] then [] else StepsOf(cfg, m, calls[0]) + ProgramSteps(cfg, Perform(cfg, m, calls[0]), calls[1..])
  }

  lemma {:induction false} ProgramLeadsTo(cfg: Config, s: State, calls: seq<Call>)
    requires s.transit.None? && Program(cfg, ServerOf(s), calls)
    ensures LeadsTo(cfg, s, ProgramSteps(cfg, ServerOf(s), calls), PerformAll(cfg, ServerOf(s), calls))
    decreases |calls|
  {
    hide Allowed, Perform, StepsOf, ServerOf, Feasible, Run;
    if calls == [] {
      Nothing(cfg, s);
    } else {
      var steps := StepsOf(cfg, ServerOf(s), calls[0]);
      CallIsARun(cfg, s, calls[0]);
      var t := Run(cfg, s, steps);
      ProgramLeadsTo(cfg, t, calls[1..]);
      hide LeadsTo;
      assert Feasible(cfg, s, steps) by { LeadsToIsFeasible(cfg, s, steps, ServerOf(t)); }
      Chain(cfg, s, steps, ProgramSteps(cfg, ServerOf(t), calls[1..]), PerformAll(cfg, ServerOf(s), calls));
    }
  }

  lemma LeadsToIsFeasible(cfg: Config, s: State, steps: seq<Step>, m: Server)
    requires LeadsTo(cfg, s, steps, m)
    ensures Feasible(cfg, s, steps)
  {
  }

  /** Charges are 64-bit integers. */
  predicate MachineCall(call: Call) {
    call.RecordCall? ==> MachineStep(Record(call.r, 0, call.charged))
  }

  lemma {:induction false} BootstrapIsMachine(keys: seq<LegacyKey>)
    ensures forall i :: 0 <= i < |BootstrapSteps(keys)| ==> MachineStep(BootstrapSteps(keys)[i])
  {
    if keys != [] {
      BootstrapIsMachine(keys[1..]);
    }
  }

  lemma CallIsMachine(cfg: Config, m: Server, call: Call)
    requires Allowed(cfg, m, call) && MachineCall(call)
    ensures AllMachine(StepsOf(cfg, m, call))
  {
    hide Allowed, Writable, ConnectsFirst, ConnectedCache, BootstrapSteps;
    if call.BootstrapCall? {
      BootstrapIsMachine(call.keys);
    }
  }

  ghost predicate AllMachine(steps: seq<Step>) {
    forall i :: 0 <= i < |steps| ==> MachineStep(steps[i])
  }

  lemma MachineConcat(x: seq<Step>, y: seq<Step>)
    requires AllMachine(x) && AllMachine(y)
    ensures AllMachine(x + y)
  {
  }

  lemma {:induction false} ProgramIsMachine(cfg: Config, m: Server, calls: seq<Call>)
    requires Program(cfg, m, calls) && forall i :: 0 <= i < |calls| ==> MachineCall(calls[i])
    ensures AllMachine(ProgramSteps(cfg, m, calls))
    decreases |calls|
  {
    hide Perform, Allowed, StepsOf, MachineCall, MachineStep;
    if calls != [] {
      var next := Perform(cfg, m, calls[0]);
      CallIsMachine(cfg, m, calls[0]);
      ProgramIsMachine(cfg, next, calls[1..]);
      MachineConcat(StepsOf(cfg, m, calls[0]), ProgramSteps(cfg, next, calls[1..]));
    }
  }

  /** Every program of calls from a starting server is a run from its starting state that ends
      with the server the program leaves. */
  lemma ProgramIsARun(cfg: Config, s: State, calls: seq<Call>)
    requires ValidConfig(cfg) && Initial(s) && Program(cfg, ServerOf(s), calls)
    requires forall i :: 0 <= i < |calls| ==> MachineCall(calls[i])
    ensures var steps := ProgramSteps(cfg, ServerOf(s), calls);
      Reaches(cfg, s, steps) && ServerOf(Run(cfg, s, steps)) == PerformAll(cfg, ServerOf(s), calls)
  {
    ProgramLeadsTo(cfg, s, calls);
    ProgramIsMachine(cfg, ServerOf(s), calls);
    hide Program, ProgramSteps, PerformAll, ValidConfig, Initial, MachineStep;
  }
}
