/** How far usage can run past a quota. A quota is checked when a request is admitted and
    charged when it completes, so it is soft; the per-key concurrency limit makes it finite. */
module Overshoot {
  import opened Counters
  import opened Calendar
  import opened Ledger
  import opened Protocol
  import opened Windows
  import opened Conservation
  import opened Guarantees

  function Owner(a: Account): Id {
    match a case Total(id) => id case Bucket(k) => k.id
  }

  /** The request, once recorded, will be charged to the account. */
  predicate WillCharge(cfg: Config, q: Request, a: Account) {
    && q.stage.Waiting?
    && match a
       case Total(id) => q.id == id
       case Bucket(k) => k in Touched(q.id, q.stage.at, cfg.offset, q.stage.bindings)
  }

  /** Admitted requests that have still to be charged to the account. */
  function InFlight(cfg: Config, requests: map<int, Request>, a: Account): set<int> {
    set r | r in requests && WillCharge(cfg, requests[r], a)
  }

  /** q is the positive quota that the key's configuration sets for the account. */
  ghost predicate IsQuota(cfg: Config, a: Account, d: Dimension, q: int) {
    && q > 0 && Owner(a) in cfg.keys
    && match a
       case Total(id) => KeyQuota(cfg.keys[id], d) == q
       case Bucket(k) =>
         var n := Normalize(cfg.keys[k.id].limits);
         n.Limits? && exists i :: 0 <= i < |n.limits| && n.limits[i].window == k.window && Quota(n.limits[i], d) == q
  }

  /** No single request is charged more than cap. */
  predicate Capped(e: Step, d: Dimension, cap: int) {
    e.Record? ==> Measure(Counter(1, e.tokens, Max(0, e.charged)), d) <= cap
  }

  /** What connecting or bootstrapping has added to the cached counter in this process:
      before the key's first admission, and after it. */
  datatype Tally = Tally(early: int, late: int, admitted: bool)

  const NO_TALLY := Tally(0, 0, false)

  function Raised(s: State, t: State, a: Account, d: Dimension): int {
    Max(0, Measure(CacheAt(t.cache, a), d) - Measure(CacheAt(s.cache, a), d))
  }

  function TallyStep(cfg: Config, s: State, e: Step, a: Account, d: Dimension, y: Tally): Tally
    requires Enabled(cfg, s, e)
  {
    var t := Apply(cfg, s, e);
    if e.Crash? then NO_TALLY
    else if e.Connect? || e.Bootstrap? then
      if y.admitted then y.(late := y.late + Raised(s, t, a, d)) else y.(early := y.early + Raised(s, t, a, d))
    else if e.AdmitStep? && t.requests[e.r].stage.Waiting? && s.requests[e.r].id == Owner(a) then y.(admitted := true)
    else y
  }

  ghost function TallyRun(cfg: Config, s: State, steps: seq<Step>, a: Account, d: Dimension, y: Tally): Tally
    requires Feasible(cfg, s, steps)
    decreases |steps|
  {
    if steps == [] then y
    else TallyRun(cfg, Apply(cfg, s, steps[0]), steps[1..], a, d, TallyStep(cfg, s, steps[0], a, d, y))
  }

  /** Recorded usage plus the most the admitted requests can still add. */
  function Exposure(cfg: Config, s: State, a: Account, d: Dimension, cap: int): int {
    Measure(CacheAt(s.cache, a), d) + cap * |InFlight(cfg, s.requests, a)|
  }

  function Allowance(cfg: Config, q: int, cap: int): int {
    q - 1 + cap * ConcurrencyLimit(cfg)
  }

  ghost predicate Bounded(cfg: Config, s: State, a: Account, d: Dimension, q: int, cap: int, y: Tally) {
    && y.early >= 0 && y.late >= 0
    && (!y.admitted ==> y.late == 0 && InFlight(cfg, s.requests, a) == {} && Measure(CacheAt(s.cache, a), d) <= y.early)
    && Exposure(cfg, s, a, d, cap) <= Max(Allowance(cfg, q, cap), y.early) + y.late
  }

  ghost predicate Throttled(cfg: Config, s: State) {
    forall id :: |ActiveOf(s.requests, id)| <= ConcurrencyLimit(cfg)
  }

  lemma SubsetSize<T>(a: set<T>, b: set<T>)
    requires a <= b
    ensures |a| <= |b|
  {
    assert b == a + (b - a);
  }

  /** A step starts at most one request, and never changes whose request one is. */
  lemma RequestsAfter(cfg: Config, s: State, e: Step, r: int)
    requires Enabled(cfg, s, e) && r in Apply(cfg, s, e).requests
    ensures var t := Apply(cfg, s, e);
      (e.Begin? && r == e.r && t.requests[r].id == e.id) || (r in s.requests && t.requests[r].id == s.requests[r].id)
  {
    hide Admit, OpenedStore, OpenedCache, AppendStarts, RecordCache, ConnectedCache, BootstrapOne, RestoredCache;
    hide CommittedStore;
  }

  lemma StepKeepsThrottle(cfg: Config, s: State, e: Step)
    requires Throttled(cfg, s) && Enabled(cfg, s, e)
    ensures Throttled(cfg, Apply(cfg, s, e))
  {
    var t := Apply(cfg, s, e);
    hide Apply;
    forall r | r in t.requests {
      RequestsAfter(cfg, s, e, r);
    }
    forall id ensures |ActiveOf(t.requests, id)| <= ConcurrencyLimit(cfg) {
      var before, after := ActiveOf(s.requests, id), ActiveOf(t.requests, id);
      if e.Begin? && e.id == id {
        assert after <= before + {e.r};
        SubsetSize(after, before + {e.r});
      } else {
        assert after <= before;
        SubsetSize(after, before);
      }
    }
  }

  // ---------------------------------------------------- the check at admission

  lemma {:induction false} NoViolation(statuses: seq<Status>, i: nat, d: Dimension)
    requires FirstViolation(statuses).None? && i < |statuses|
    ensures !Exhausts(statuses[i], d)
  {
    if i > 0 {
      NoViolation(statuses[1..], i - 1, d);
    }
  }

  lemma StatusReadsCharged(
    s: State, id: Id, limits: seq<Limit>, now: int, offset: int, bindings: map<Window, int>,
    changes: map<WindowKey, Span>, i: nat, k: BucketKey)
    requires WindowsOk(s) && IsAdmission(s, id, limits, now, bindings, changes)
    requires i < |limits| && limits[i].window == k.window
    requires k in Touched(id, now, offset, bindings)
    ensures StatusOf(s.cache, id, limits[i], now, offset).used == At(s.cache.buckets, k)
  {
    var w := k.window;
    if Independent(w) {
      assert w in IndependentWindows(limits);
      if Opens(s.cache, id, w, now) {
        ChangesOpen(s.cache, id, limits, now);
        var wk := WindowKey(id, w);
        assert k == BucketKey(wk.id, wk.window, changes[wk].start);
        FreshBuckets(s, id, limits, now, bindings, changes, k);
      }
    }
  }

  /** A request is admitted only while every counter it will be charged to is below its quota. */
  lemma AdmittedBelowQuota(cfg: Config, s: State, r: int, now: int, writable: bool, a: Account, d: Dimension, q: int)
    requires ValidConfig(cfg) && WindowsOk(s) && Enabled(cfg, s, AdmitStep(r, now, writable)) && IsQuota(cfg, a, d, q)
    requires ApplyAdmit(cfg, s, r, now, writable).requests[r].stage.Waiting?
    requires WillCharge(cfg, ApplyAdmit(cfg, s, r, now, writable).requests[r], a)
    ensures Measure(CacheAt(s.cache, a), d) <= q - 1
  {
    var key := cfg.keys[s.requests[r].id];
    AdmittedIsAdmission(s, key, now, cfg.offset, writable);
    var Admitted(bindings, changes) := Admit(s.cache, key, now, cfg.offset, writable);
    var limits := Normalize(key.limits).limits;
    match a
    case Total(id) =>
    case Bucket(k) =>
      var i :| 0 <= i < |limits| && limits[i].window == k.window && Quota(limits[i], d) == q;
      StatusReadsCharged(s, key.id, limits, now, cfg.offset, bindings, changes, i, k);
      NoViolation(Statuses(s.cache, key.id, limits, now, cfg.offset), i, d);
  }

  // ------------------------------------------------------------ step by step

  lemma ScaleMonotone(cap: int, a: int, b: int)
    requires cap >= 0 && a <= b
    ensures cap * a <= cap * b
  {
  }

  lemma FewerInFlight(cfg: Config, s: State, t: State, a: Account, d: Dimension, q: int, cap: int, y: Tally)
    requires Bounded(cfg, s, a, d, q, cap, y) && cap >= 0
    requires InFlight(cfg, t.requests, a) <= InFlight(cfg, s.requests, a)
    requires Measure(CacheAt(t.cache, a), d) <= Measure(CacheAt(s.cache, a), d)
    ensures Bounded(cfg, t, a, d, q, cap, y)
  {
    SubsetSize(InFlight(cfg, t.requests, a), InFlight(cfg, s.requests, a));
    ScaleMonotone(cap, |InFlight(cfg, t.requests, a)|, |InFlight(cfg, s.requests, a)|);
  }

  lemma ImportKeepsBound(cfg: Config, s: State, t: State, a: Account, d: Dimension, q: int, cap: int, y: Tally)
    requires Bounded(cfg, s, a, d, q, cap, y) && cap >= 0 && t.requests == s.requests
    ensures var more := Raised(s, t, a, d);
      Bounded(cfg, t, a, d, q, cap, if y.admitted then y.(late := y.late + more) else y.(early := y.early + more))
  {
  }

  lemma InFlightIsActive(cfg: Config, requests: map<int, Request>, a: Account)
    ensures InFlight(cfg, requests, a) <= ActiveOf(requests, Owner(a))
    ensures |InFlight(cfg, requests, a)| <= |ActiveOf(requests, Owner(a))|
  {
    forall r | r in InFlight(cfg, requests, a) ensures r in ActiveOf(requests, Owner(a)) {
    }
    SubsetSize(InFlight(cfg, requests, a), ActiveOf(requests, Owner(a)));
  }

  lemma AdmissionRequests(cfg: Config, s: State, r: int, now: int, writable: bool, a: Account)
    requires Enabled(cfg, s, AdmitStep(r, now, writable))
    ensures var t := ApplyAdmit(cfg, s, r, now, writable);
      && CacheAt(t.cache, a) == CacheAt(s.cache, a)
      && r in t.requests && t.requests[r].id == s.requests[r].id
      && ActiveOf(t.requests, Owner(a)) == ActiveOf(s.requests, Owner(a))
      && (!WillCharge(cfg, t.requests[r], a) ==> InFlight(cfg, t.requests, a) == InFlight(cfg, s.requests, a))
      && (WillCharge(cfg, t.requests[r], a) ==> s.requests[r].id == Owner(a))
  {
    hide Admit, OpenedStore, AppendStarts, BucketStart;
  }

  lemma AdmissionKeepsBound(
    cfg: Config, s: State, r: int, now: int, writable: bool, a: Account, d: Dimension, q: int, cap: int, y: Tally)
    requires ValidConfig(cfg) && WindowsOk(s) && Throttled(cfg, s) && Enabled(cfg, s, AdmitStep(r, now, writable))
    requires IsQuota(cfg, a, d, q) && cap >= 0 && Bounded(cfg, s, a, d, q, cap, y)
    requires ApplyAdmit(cfg, s, r, now, writable).requests[r].stage.Waiting?
    ensures Bounded(cfg, ApplyAdmit(cfg, s, r, now, writable), a, d, q, cap,
                    if s.requests[r].id == Owner(a) then y.(admitted := true) else y)
  {
    var t := ApplyAdmit(cfg, s, r, now, writable);
    AdmissionRequests(cfg, s, r, now, writable, a);
    hide WindowsOk, IsQuota, ApplyAdmit;
    if WillCharge(cfg, t.requests[r], a) {
      AdmittedBelowQuota(cfg, s, r, now, writable, a, d, q);
      InFlightIsActive(cfg, t.requests, a);
      ScaleMonotone(cap, |InFlight(cfg, t.requests, a)|, ConcurrencyLimit(cfg));
    }
  }

  lemma MeasurePlus(x: Counter, delta: Counter, d: Dimension)
    requires Valid(x) && Valid(delta)
    ensures Measure(Plus(x, delta), d) <= Measure(x, d) + Measure(delta, d)
  {
  }

  /** Recording moves a request's share from the requests in flight into the counter. */
  lemma RecordShifts(cfg: Config, s: State, r: int, tokens: int, charged: Int64, a: Account, d: Dimension, cap: int)
    requires LedgerOk(s) && r in s.requests && s.requests[r].stage.Waiting?
    requires Capped(Record(r, tokens, charged), d, cap) && cap >= 0
    ensures var t := ApplyRecord(cfg, s, r, tokens, charged);
      var more := if WillCharge(cfg, s.requests[r], a) then cap else 0;
      Measure(CacheAt(t.cache, a), d) <= Measure(CacheAt(s.cache, a), d) + more
  {
    var p := s.requests[r];
    var charge := RequestCharge(p.id, tokens, charged, p.stage.at, cfg.offset, p.stage.bindings);
    if p.id != "" {
      AccountsValid(s, a);
      ChargeAt(s.cache, charge, a);
      MeasurePlus(CacheAt(s.cache, a), charge.delta, d);
      hide Plus, LedgerOk;
      PlusZero(CacheAt(s.cache, a));
      assert Hits(charge, a) <==> WillCharge(cfg, p, a);
    }
  }

  lemma RecordLeavesFlight(cfg: Config, s: State, r: int, tokens: int, charged: int, a: Account)
    requires r in s.requests && s.requests[r].stage.Waiting?
    ensures var before, after :=
      InFlight(cfg, s.requests, a), InFlight(cfg, ApplyRecord(cfg, s, r, tokens, charged).requests, a);
      |after| == |before| - if WillCharge(cfg, s.requests[r], a) then 1 else 0
  {
    var before, after :=
      InFlight(cfg, s.requests, a), InFlight(cfg, ApplyRecord(cfg, s, r, tokens, charged).requests, a);
    assert after == before - {r};
  }

  lemma RecordKeepsBound(
    cfg: Config, s: State, r: int, tokens: int, charged: Int64, a: Account, d: Dimension, q: int, cap: int, y: Tally)
    requires LedgerOk(s) && r in s.requests && s.requests[r].stage.Waiting?
    requires cap >= 0 && Bounded(cfg, s, a, d, q, cap, y) && Capped(Record(r, tokens, charged), d, cap)
    ensures Bounded(cfg, ApplyRecord(cfg, s, r, tokens, charged), a, d, q, cap, y)
  {
    hide LedgerOk, ApplyRecord, WillCharge;
    RecordShifts(cfg, s, r, tokens, charged, a, d, cap);
    RecordLeavesFlight(cfg, s, r, tokens, charged, a);
    assert r in InFlight(cfg, s.requests, a) <==> WillCharge(cfg, s.requests[r], a);
    hide InFlight, CacheAt;
    var before := |InFlight(cfg, s.requests, a)|;
    assert cap * (before - 1) == cap * before - cap;
  }

  lemma AdmitStepKeepsBound(
    cfg: Config, s: State, r: int, now: int, writable: bool, a: Account, d: Dimension, q: int, cap: int, y: Tally)
    requires ValidConfig(cfg) && WindowsOk(s) && Throttled(cfg, s) && Enabled(cfg, s, AdmitStep(r, now, writable))
    requires IsQuota(cfg, a, d, q) && cap >= 0 && Bounded(cfg, s, a, d, q, cap, y)
    ensures var e := AdmitStep(r, now, writable);
      Bounded(cfg, Apply(cfg, s, e), a, d, q, cap, TallyStep(cfg, s, e, a, d, y))
  {
    hide WindowsOk, Bounded, Admit, ApplyAdmission, IsQuota, Throttled, ValidConfig, InFlight, CacheAt;
    AdmissionRequests(cfg, s, r, now, writable, a);
    if ApplyAdmit(cfg, s, r, now, writable).requests[r].stage.Waiting? {
      AdmissionKeepsBound(cfg, s, r, now, writable, a, d, q, cap, y);
    } else {
      AdmitDoesNothing(cfg, s, r, now, writable);
    }
  }

  lemma ImportStepKeepsBound(cfg: Config, s: State, e: Step, a: Account, d: Dimension, q: int, cap: int, y: Tally)
    requires Enabled(cfg, s, e) && (e.Connect? || e.Bootstrap?)
    requires cap >= 0 && Bounded(cfg, s, a, d, q, cap, y)
    ensures Bounded(cfg, Apply(cfg, s, e), a, d, q, cap, TallyStep(cfg, s, e, a, d, y))
  {
    hide Bounded, ConnectedCache, BootstrapOne, Raised;
    ImportKeepsBound(cfg, s, Apply(cfg, s, e), a, d, q, cap, y);
  }

  lemma StepKeepsBound(cfg: Config, s: State, e: Step, a: Account, d: Dimension, q: int, cap: int, y: Tally)
    requires ValidConfig(cfg) && Inv(s) && Throttled(cfg, s) && Enabled(cfg, s, e) && MachineStep(e)
    requires IsQuota(cfg, a, d, q) && cap >= 0 && Capped(e, d, cap) && Bounded(cfg, s, a, d, q, cap, y)
    ensures Bounded(cfg, Apply(cfg, s, e), a, d, q, cap, TallyStep(cfg, s, e, a, d, y))
  {
    assert q > 0;
    hide WindowsOk, LedgerOk, Bounded, IsQuota, Throttled, ValidConfig, Capped, ApplyAdmit, ApplyRecord, ApplyConnect;
    hide ApplyBootstrap, ApplyTake, ApplyCommit, ApplyFail, ApplyCrash;
    match e
    case AdmitStep(r, now, writable) => AdmitStepKeepsBound(cfg, s, r, now, writable, a, d, q, cap, y);
    case Record(r, tokens, charged) => RecordKeepsBound(cfg, s, r, tokens, charged, a, d, q, cap, y);
    case Connect(_) => ImportStepKeepsBound(cfg, s, e, a, d, q, cap, y);
    case Bootstrap(_) => ImportStepKeepsBound(cfg, s, e, a, d, q, cap, y);
    case Crash => AfterCrash(cfg, s, a, d, q, cap);
    case _ => QuietKeepsBound(cfg, s, e, a, d, q, cap, y);
  }

  lemma QuietKeepsBound(cfg: Config, s: State, e: Step, a: Account, d: Dimension, q: int, cap: int, y: Tally)
    requires Enabled(cfg, s, e) && (e.Begin? || e.End? || e.Take? || e.Commit? || e.Fail?)
    requires cap >= 0 && Bounded(cfg, s, a, d, q, cap, y)
    ensures Bounded(cfg, Apply(cfg, s, e), a, d, q, cap, TallyStep(cfg, s, e, a, d, y))
  {
    hide Bounded, Apply, InFlight, CacheAt;
    FewerRequests(cfg, s, e, a);
    FewerInFlight(cfg, s, Apply(cfg, s, e), a, d, q, cap, y);
  }

  lemma AdmitDoesNothing(cfg: Config, s: State, r: int, now: int, writable: bool)
    requires Enabled(cfg, s, AdmitStep(r, now, writable))
    requires !ApplyAdmit(cfg, s, r, now, writable).requests[r].stage.Waiting?
    ensures ApplyAdmit(cfg, s, r, now, writable) == s
  {
  }

  lemma AfterCrash(cfg: Config, s: State, a: Account, d: Dimension, q: int, cap: int)
    requires q > 0 && cap >= 0
    ensures Bounded(cfg, ApplyCrash(s), a, d, q, cap, NO_TALLY)
  {
    assert InFlight(cfg, ApplyCrash(s).requests, a) == {};
    ScaleMonotone(cap, 0, ConcurrencyLimit(cfg));
  }

  lemma FewerRequests(cfg: Config, s: State, e: Step, a: Account)
    requires Enabled(cfg, s, e) && (e.Begin? || e.End? || e.Take? || e.Commit? || e.Fail?)
    ensures InFlight(cfg, Apply(cfg, s, e).requests, a) <= InFlight(cfg, s.requests, a)
    ensures CacheAt(Apply(cfg, s, e).cache, a) == CacheAt(s.cache, a)
  {
  }

  lemma {:induction false} RunKeepsBound(
    cfg: Config, s: State, steps: seq<Step>, a: Account, d: Dimension, q: int, cap: int, y: Tally)
    requires ValidConfig(cfg) && Inv(s) && Throttled(cfg, s) && Feasible(cfg, s, steps)
    requires forall i :: 0 <= i < |steps| ==> MachineStep(steps[i]) && Capped(steps[i], d, cap)
    requires IsQuota(cfg, a, d, q) && cap >= 0 && Bounded(cfg, s, a, d, q, cap, y)
    ensures Bounded(cfg, Run(cfg, s, steps), a, d, q, cap, TallyRun(cfg, s, steps, a, d, y))
    decreases |steps|
  {
    hide Inv, Apply, TallyStep, Bounded, Throttled, IsQuota;
    if steps != [] {
      StepKeepsInv(cfg, s, steps[0]);
      StepKeepsThrottle(cfg, s, steps[0]);
      StepKeepsBound(cfg, s, steps[0], a, d, q, cap, y);
      RunKeepsBound(cfg, Apply(cfg, s, steps[0]), steps[1..], a, d, q, cap, TallyStep(cfg, s, steps[0], a, d, y));
    }
  }

  // ---------------------------------------------------------------- theorems

  lemma InitialBound(cfg: Config, s: State, a: Account, d: Dimension, q: int, cap: int)
    requires Initial(s) && q > 0 && cap >= 0
    ensures Throttled(cfg, s) && Bounded(cfg, s, a, d, q, cap, NO_TALLY)
  {
    assert InFlight(cfg, s.requests, a) == {};
    forall id ensures ActiveOf(s.requests, id) == {} {
    }
    ScaleMonotone(cap, 0, ConcurrencyLimit(cfg));
  }

  /** The bound over every run: recorded usage plus what admitted requests can still add
      stays within quota - 1 + concurrency * cap, or within what was already there when the
      process first admitted a request, plus only what was imported after that. */
  lemma OvershootBound(cfg: Config, s: State, steps: seq<Step>, a: Account, d: Dimension, q: int, cap: int)
    requires Reaches(cfg, s, steps)
    requires forall i :: 0 <= i < |steps| ==> Capped(steps[i], d, cap)
    requires IsQuota(cfg, a, d, q) && cap >= 0
    ensures var t := Run(cfg, s, steps); var y := TallyRun(cfg, s, steps, a, d, NO_TALLY);
      Exposure(cfg, t, a, d, cap) <= Max(Allowance(cfg, q, cap), y.early) + y.late
  {
    InitialInv(s);
    InitialBound(cfg, s, a, d, q, cap);
    hide Inv, Throttled, IsQuota, Initial;
    RunKeepsBound(cfg, s, steps, a, d, q, cap, NO_TALLY);
  }

  predicate SteadyStep(e: Step) {
    !e.Crash? && !e.Bootstrap?
  }

  lemma {:induction false} SteadyTally(cfg: Config, s: State, steps: seq<Step>, a: Account, d: Dimension, y: Tally)
    requires s.cache.connected && Feasible(cfg, s, steps)
    requires forall i :: 0 <= i < |steps| ==> SteadyStep(steps[i])
    ensures var z := TallyRun(cfg, s, steps, a, d, y); z.early == y.early && z.late == y.late
    decreases |steps|
  {
    if steps != [] {
      StaysConnected(cfg, s, steps[0], a, d);
      SteadyTally(cfg, Apply(cfg, s, steps[0]), steps[1..], a, d, TallyStep(cfg, s, steps[0], a, d, y));
    }
  }

  lemma StaysConnected(cfg: Config, s: State, e: Step, a: Account, d: Dimension)
    requires s.cache.connected && Enabled(cfg, s, e) && SteadyStep(e)
    ensures Apply(cfg, s, e).cache.connected
    ensures e.Connect? ==> Raised(s, Apply(cfg, s, e), a, d) == 0
  {
  }

  /** A server that is connected before it serves keeps the plain bound: with no request in
      flight at first, usage never exceeds quota - 1 + concurrency * cap unless it already did. */
  lemma ConnectedServerBound(cfg: Config, s: State, steps: seq<Step>, a: Account, d: Dimension, q: int, cap: int)
    requires ValidConfig(cfg) && Inv(s) && s.cache.connected && s.requests == map[] && Feasible(cfg, s, steps)
    requires forall i :: 0 <= i < |steps| ==> MachineStep(steps[i]) && Capped(steps[i], d, cap) && SteadyStep(steps[i])
    requires IsQuota(cfg, a, d, q) && cap >= 0
    ensures Exposure(cfg, Run(cfg, s, steps), a, d, cap) <= Max(Allowance(cfg, q, cap), Measure(CacheAt(s.cache, a), d))
  {
    var n := Measure(CacheAt(s.cache, a), d);
    var y := Tally(Max(0, n), 0, false);
    assert InFlight(cfg, s.requests, a) == {};
    forall id ensures ActiveOf(s.requests, id) == {} {
    }
    ScaleMonotone(cap, 0, ConcurrencyLimit(cfg));
    assert Bounded(cfg, s, a, d, q, cap, y);
    hide Inv, IsQuota;
    SteadyTally(cfg, s, steps, a, d, y);
    RunKeepsBound(cfg, s, steps, a, d, q, cap, y);
  }

  /** The key cannot be admitted without the database: a first-use limit asks for it (and
      malformed limits admit nobody). */
  predicate NeedsDatabase(cfg: Config, id: Id) {
    id in cfg.keys && match Normalize(cfg.keys[id].limits)
      case Invalid(_) => true
      case Limits(limits) => HasIndependent(limits)
  }

  function Serving(e: Step, serving: bool): bool {
    if e.Crash? then false else serving || e.AdmitStep?
  }

  /** Every process imports legacy totals before it serves: no bootstrap comes after an
      admission was asked for. */
  predicate BootstrapsFirst(steps: seq<Step>, serving: bool)
    decreases |steps|
  {
    steps == [] || ((steps[0].Bootstrap? ==> !serving) && BootstrapsFirst(steps[1..], Serving(steps[0], serving)))
  }

  /** Nothing is imported late into the account, since whoever was admitted had the manager
      connected. */
  ghost predicate NotLate(s: State, y: Tally, serving: bool) {
    y.late == 0 && (y.admitted ==> s.cache.connected && serving)
  }

  lemma StepNotLate(cfg: Config, s: State, e: Step, a: Account, d: Dimension, y: Tally, serving: bool)
    requires ValidConfig(cfg) && Enabled(cfg, s, e) && NeedsDatabase(cfg, Owner(a)) && NotLate(s, y, serving)
    requires e.Bootstrap? && a.Total? ==> !serving
    ensures NotLate(Apply(cfg, s, e), TallyStep(cfg, s, e, a, d, y), Serving(e, serving))
  {
    hide NeedsDatabase, ValidConfig, Admit, CommittedStore, AddTo, Merge, Touched, CacheAt;
    match e
    case AdmitStep(r, now, writable) =>
      if s.requests[r].id == Owner(a) {
        AdmittedNeedsDatabase(cfg, s, r, now, writable);
      }
    case Bootstrap(b) =>
      if a.Bucket? {
        BootstrapSparesBuckets(s, b, a.key);
      }
    case _ =>
  }

  lemma BootstrapSparesBuckets(s: State, b: LegacyKey, k: BucketKey)
    ensures CacheAt(ApplyBootstrap(s, b).cache, Bucket(k)) == CacheAt(s.cache, Bucket(k))
  {
  }

  lemma AdmittedNeedsDatabase(cfg: Config, s: State, r: int, now: int, writable: bool)
    requires ValidConfig(cfg) && Enabled(cfg, s, AdmitStep(r, now, writable)) && NeedsDatabase(cfg, s.requests[r].id)
    ensures ApplyAdmit(cfg, s, r, now, writable).requests[r].stage.Waiting? ==> s.cache.connected
  {
    hide Admit, ApplyAdmission;
    AdmittedIsAdmission(s, cfg.keys[s.requests[r].id], now, cfg.offset, writable);
  }

  lemma {:induction false} RunNotLate(
    cfg: Config, s: State, steps: seq<Step>, a: Account, d: Dimension, y: Tally, serving: bool)
    requires ValidConfig(cfg) && Feasible(cfg, s, steps) && NeedsDatabase(cfg, Owner(a)) && NotLate(s, y, serving)
    requires a.Bucket? || BootstrapsFirst(steps, serving)
    ensures TallyRun(cfg, s, steps, a, d, y).late == 0
    decreases |steps|
  {
    hide NeedsDatabase, Apply, TallyStep, Serving;
    if steps != [] {
      var e := steps[0];
      StepNotLate(cfg, s, e, a, d, y, serving);
      RunNotLate(cfg, Apply(cfg, s, e), steps[1..], a, d, TallyStep(cfg, s, e, a, d, y), Serving(e, serving));
    }
  }

  ghost predicate CappedRun(cfg: Config, s: State, steps: seq<Step>, d: Dimension, cap: int) {
    Reaches(cfg, s, steps) && forall i :: 0 <= i < |steps| ==> Capped(steps[i], d, cap)
  }

  /** Usage and what is still in flight stay within quota - 1 + concurrency * cap, or within
      what was already there when the process first admitted a request. */
  ghost predicate WithinBound(cfg: Config, s: State, steps: seq<Step>, a: Account, d: Dimension, q: int, cap: int)
    requires Feasible(cfg, s, steps)
  {
    Exposure(cfg, Run(cfg, s, steps), a, d, cap)
      <= Max(Allowance(cfg, q, cap), TallyRun(cfg, s, steps, a, d, NO_TALLY).early)
  }

  /** The bound of a window quota holds over every run and for every instance of the window. */
  ghost predicate WindowAlwaysBounded(cfg: Config, id: Id, w: Window, d: Dimension, q: int, cap: int) {
    forall s: State, steps: seq<Step>, start: int ::
      CappedRun(cfg, s, steps, d, cap) ==> WithinBound(cfg, s, steps, Bucket(BucketKey(id, w, start)), d, q, cap)
  }

  /** The bound of a lifetime quota holds over every run whose processes bootstrap first. */
  ghost predicate TotalAlwaysBounded(cfg: Config, id: Id, d: Dimension, q: int, cap: int) {
    forall s: State, steps: seq<Step> ::
      CappedRun(cfg, s, steps, d, cap) && BootstrapsFirst(steps, false) ==>
        WithinBound(cfg, s, steps, Total(id), d, q, cap)
  }

  /** For a key with a first-use limit the bound needs no assumption on when the server
      connects, for its windows and for its lifetime quotas. */
  lemma FirstUseKeyBound(cfg: Config, s: State, steps: seq<Step>, a: Account, d: Dimension, q: int, cap: int)
    requires CappedRun(cfg, s, steps, d, cap) && NeedsDatabase(cfg, Owner(a))
    requires a.Bucket? || BootstrapsFirst(steps, false)
    requires IsQuota(cfg, a, d, q) && cap >= 0
    ensures WithinBound(cfg, s, steps, a, d, q, cap)
  {
    OvershootBound(cfg, s, steps, a, d, q, cap);
    hide IsQuota, Initial, NeedsDatabase;
    RunNotLate(cfg, s, steps, a, d, NO_TALLY, false);
  }
}
