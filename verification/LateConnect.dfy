/** Where the overshoot bound fails: a server that starts while its database is unreadable.
    The exact condition on a key under which every run keeps the bound, for window quotas and
    for lifetime quotas. */
module LateConnect {
  import opened Counters
  import opened Calendar
  import opened Ledger
  import opened Options
  import opened Protocol
  import opened Conservation
  import opened Guarantees
  import opened RateLimits
  import opened Overshoot

  /** A key whose limits all follow the calendar is admitted against empty counters when the
      database has not been read yet. */
  lemma EmptyAdmits(key: ApiKey, now: int, offset: int)
    requires Normalize(key.limits).Limits? && !HasIndependent(Normalize(key.limits).limits)
    requires KeyProblem(key, key.used, now).None?
    ensures Admit(EMPTY_CACHE, key, now, offset, true) == Admitted(map[], map[])
  {
    var limits := Normalize(key.limits).limits;
    var statuses := Statuses(EMPTY_CACHE, key.id, limits, now, offset);
    hide Normalize, KeyProblem, WindowBounds;
    forall i, d | 0 <= i < |statuses| ensures !Exhausts(statuses[i], d) {
      assert statuses[i] == StatusOf(EMPTY_CACHE, key.id, limits[i], now, offset);
      assert statuses[i].used == ZERO;
    }
    FirstViolationIsFirst(statuses);
    assert IndependentWindows(limits) == {};
    assert OpeningKeys(EMPTY_CACHE, key.id, limits, now) == {};
  }

  /** A database with usage already stored for the key, in its total and in the bucket. */
  function LateStore(k: BucketKey, n: int): Store {
    Store(map[k.id := Counter(n, n, n)], map[k := Counter(n, n, n)], map[])
  }

  predicate IsLate(k: BucketKey, a: Account) {
    a == Bucket(k) || a == Total(k.id)
  }

  function LateState(k: BucketKey, n: int, requests: map<int, Request>): State {
    State(LateStore(k, n), EMPTY_CACHE, None, requests, InitialHistory(LateStore(k, n)))
  }

  lemma LateBegin(cfg: Config, k: BucketKey, n: int)
    requires k.id in cfg.keys
    ensures Enabled(cfg, LateState(k, n, map[]), Begin(0, k.id))
    ensures Apply(cfg, LateState(k, n, map[]), Begin(0, k.id)) == LateState(k, n, map[0 := Request(k.id, Begun)])
  {
    assert ActiveOf(LateState(k, n, map[]).requests, k.id) == {};
  }

  ghost predicate AdmitsUnread(cfg: Config, id: Id, now: int) {
    id in cfg.keys && Admit(EMPTY_CACHE, cfg.keys[id], now, cfg.offset, true) == Admitted(map[], map[])
  }

  lemma LateAdmit(cfg: Config, k: BucketKey, n: int, now: int)
    requires AdmitsUnread(cfg, k.id, now)
    ensures var s := LateState(k, n, map[0 := Request(k.id, Begun)]);
      && Enabled(cfg, s, AdmitStep(0, now, true))
      && Apply(cfg, s, AdmitStep(0, now, true)) == LateState(k, n, map[0 := Request(k.id, Waiting(now, map[]))])
  {
    hide Admit, InitialHistory;
    assert OpenedStore(LateStore(k, n), map[]) == LateStore(k, n);
    assert OpenedCache(EMPTY_CACHE, map[]) == EMPTY_CACHE;
    assert OpenedKeys(map[]) == {};
  }

  lemma LateConnect(cfg: Config, k: BucketKey, a: Account, n: int, now: int, d: Dimension, cap: int)
    requires !Independent(k.window) && k.start == Bounds(k.window, now, cfg.offset).start
    requires IsLate(k, a) && 0 <= n <= MAX_INT64
    ensures var s := LateState(k, n, map[0 := Request(k.id, Waiting(now, map[]))]);
      Enabled(cfg, s, Connect(now)) && Exposure(cfg, Apply(cfg, s, Connect(now)), a, d, cap) == n + cap
  {
    var s := LateState(k, n, map[0 := Request(k.id, Waiting(now, map[]))]);
    var t := Apply(cfg, s, Connect(now));
    assert SUPPORTED[Rank(k.window)] == k.window;
    hide Bounds, InitialHistory, SkippedBuckets;
    if a.Bucket? {
      assert LoadedBuckets(LateStore(k, n), now, cfg.offset)[k] == Counter(n, n, n);
      assert k in Touched(k.id, now, cfg.offset, map[]);
    }
    assert CacheAt(t.cache, a) == Counter(n, n, n);
    assert InFlight(cfg, t.requests, a) == {0};
  }

  lemma LateStart(k: BucketKey, n: int)
    requires 0 <= n <= MAX_INT64
    ensures Initial(LateState(k, n, map[]))
  {
    hide InitialHistory;
  }

  lemma ThreeSteps(cfg: Config, s0: State, e0: Step, s1: State, e1: Step, s2: State, e2: Step, s3: State)
    requires ValidConfig(cfg) && Initial(s0) && MachineStep(e0) && MachineStep(e1) && MachineStep(e2)
    requires Enabled(cfg, s0, e0) && Apply(cfg, s0, e0) == s1
    requires Enabled(cfg, s1, e1) && Apply(cfg, s1, e1) == s2
    requires Enabled(cfg, s2, e2) && Apply(cfg, s2, e2) == s3
    ensures Reaches(cfg, s0, [e0, e1, e2]) && Run(cfg, s0, [e0, e1, e2]) == s3
  {
    hide Enabled, Apply, ValidConfig, Initial, MachineStep;
    assert [e0, e1, e2][1..] == [e1, e2] && [e1, e2][1..] == [e2] && [e2][1..] == [];
    assert Feasible(cfg, s3, []) && Run(cfg, s3, []) == s3;
    assert Feasible(cfg, s2, [e2]) && Run(cfg, s2, [e2]) == s3;
    assert Feasible(cfg, s1, [e1, e2]) && Run(cfg, s1, [e1, e2]) == s3;
  }

  lemma ThreeTallies(cfg: Config, s0: State, e0: Step, e1: Step, e2: Step, a: Account, d: Dimension)
    requires Feasible(cfg, s0, [e0, e1, e2])
    ensures var s1 := Apply(cfg, s0, e0);
      && Enabled(cfg, s1, e1) && Enabled(cfg, Apply(cfg, s1, e1), e2)
      && TallyRun(cfg, s0, [e0, e1, e2], a, d, NO_TALLY) ==
         TallyStep(cfg, Apply(cfg, s1, e1), e2, a, d,
           TallyStep(cfg, s1, e1, a, d, TallyStep(cfg, s0, e0, a, d, NO_TALLY)))
  {
    var s1 := Apply(cfg, s0, e0);
    var s2 := Apply(cfg, s1, e1);
    assert [e0, e1, e2][1..] == [e1, e2] && [e1, e2][1..] == [e2] && [e2][1..] == [];
    hide Enabled, Apply, TallyStep;
    assert Feasible(cfg, s1, [e1, e2]) && Feasible(cfg, s2, [e2]);
    var y0 := TallyStep(cfg, s0, e0, a, d, NO_TALLY);
    var y1 := TallyStep(cfg, s1, e1, a, d, y0);
    assert TallyRun(cfg, s2, [e2], a, d, y1) == TallyStep(cfg, s2, e2, a, d, y1);
    assert TallyRun(cfg, s1, [e1, e2], a, d, y0) == TallyRun(cfg, s2, [e2], a, d, y1);
  }

  function LateSteps(k: BucketKey, now: int): seq<Step> {
    [Begin(0, k.id), AdmitStep(0, now, true), Connect(now)]
  }

  /** Whatever is imported by the three steps arrives after the admission. */
  lemma LateTally(cfg: Config, k: BucketKey, a: Account, n: int, now: int, d: Dimension)
    requires AdmitsUnread(cfg, k.id, now) && IsLate(k, a)
    requires Feasible(cfg, LateState(k, n, map[]), LateSteps(k, now))
    ensures TallyRun(cfg, LateState(k, n, map[]), LateSteps(k, now), a, d, NO_TALLY).early == 0
  {
    ThreeTallies(cfg, LateState(k, n, map[]), Begin(0, k.id), AdmitStep(0, now, true), Connect(now), a, d);
    LateBegin(cfg, k, n);
    LateAdmit(cfg, k, n, now);
    hide Apply, Enabled, InFlight, LateStore, AdmitsUnread, Raised;
  }

  lemma LateBootstraps(k: BucketKey, now: int)
    ensures BootstrapsFirst(LateSteps(k, now), false)
  {
    assert LateSteps(k, now)[1..][1..][1..] == [];
    assert BootstrapsFirst([], true);
    assert BootstrapsFirst(LateSteps(k, now)[1..][1..], true);
    assert BootstrapsFirst(LateSteps(k, now)[1..], false);
  }

  /** A run that breaks the bound of the window and of the lifetime quota alike: one request is
      admitted before the database is read, and the usage stored there arrives on top. */
  lemma LateRun(cfg: Config, k: BucketKey, a: Account, n: int, now: int, d: Dimension, q: int, cap: int)
    requires ValidConfig(cfg) && AdmitsUnread(cfg, k.id, now) && IsLate(k, a)
    requires !Independent(k.window) && k.start == Bounds(k.window, now, cfg.offset).start
    requires n == Allowance(cfg, q, cap) && 0 <= n <= MAX_INT64 && cap >= 1
    ensures var s, steps := LateState(k, n, map[]), LateSteps(k, now);
      && CappedRun(cfg, s, steps, d, cap) && BootstrapsFirst(steps, false)
      && !WithinBound(cfg, s, steps, a, d, q, cap)
  {
    var s0, s1 := LateState(k, n, map[]), LateState(k, n, map[0 := Request(k.id, Begun)]);
    var s2 := LateState(k, n, map[0 := Request(k.id, Waiting(now, map[]))]);
    LateStart(k, n);
    LateBegin(cfg, k, n);
    LateAdmit(cfg, k, n, now);
    LateConnect(cfg, k, a, n, now, d, cap);
    LateBootstraps(k, now);
    var e0, e1, e2 := Begin(0, k.id), AdmitStep(0, now, true), Connect(now);
    assert MachineStep(e0) && MachineStep(e1) && MachineStep(e2);
    assert Capped(e0, d, cap) && Capped(e1, d, cap) && Capped(e2, d, cap);
    LateBroken(cfg, k, a, n, now, d, q, cap, s0, s1, s2);
  }

  lemma LateBroken(
    cfg: Config, k: BucketKey, a: Account, n: int, now: int, d: Dimension, q: int, cap: int, s0: State, s1: State,
    s2: State)
    requires ValidConfig(cfg) && AdmitsUnread(cfg, k.id, now) && IsLate(k, a)
    requires s0 == LateState(k, n, map[]) && Initial(s0)
    requires Enabled(cfg, s0, Begin(0, k.id)) && Apply(cfg, s0, Begin(0, k.id)) == s1
    requires Enabled(cfg, s1, AdmitStep(0, now, true)) && Apply(cfg, s1, AdmitStep(0, now, true)) == s2
    requires Enabled(cfg, s2, Connect(now)) && Exposure(cfg, Apply(cfg, s2, Connect(now)), a, d, cap) == n + cap
    requires n == Allowance(cfg, q, cap) >= 0 && cap >= 1
    ensures CappedRun(cfg, s0, LateSteps(k, now), d, cap) && !WithinBound(cfg, s0, LateSteps(k, now), a, d, q, cap)
  {
    hide Enabled, Apply, LateState, Exposure, Allowance, AdmitsUnread, ValidConfig, Initial, TallyRun, Run, Feasible;
    ThreeSteps(cfg, s0, Begin(0, k.id), s1, AdmitStep(0, now, true), s2, Connect(now), Apply(cfg, s2, Connect(now)));
    LateTally(cfg, k, a, n, now, d);
  }

  /** Exactly which window quotas are safe from a server that starts while its database is
      unreadable. Only a first-use limit makes an admission read the database first; without
      one on the key, a run breaks the bound (for any key that is usable at some time). */
  lemma WindowBoundIffFirstUseLimit(cfg: Config, id: Id, w: Window, d: Dimension, q: int, cap: int, now: int)
    requires ValidConfig(cfg) && id in cfg.keys && cap >= 1 && Allowance(cfg, q, cap) <= MAX_INT64
    requires IsQuota(cfg, Bucket(BucketKey(id, w, 0)), d, q)
    requires KeyProblem(cfg.keys[id], cfg.keys[id].used, now).None?
    ensures WindowAlwaysBounded(cfg, id, w, d, q, cap) <==> NeedsDatabase(cfg, id)
  {
    hide WithinBound, CappedRun, KeyProblem, NeedsDatabase;
    if NeedsDatabase(cfg, id) {
      forall s: State, steps: seq<Step>, start: int | CappedRun(cfg, s, steps, d, cap)
        ensures Feasible(cfg, s, steps) && WithinBound(cfg, s, steps, Bucket(BucketKey(id, w, start)), d, q, cap)
      {
        CappedIsFeasible(cfg, s, steps, d, cap);
        QuotaOfWindow(cfg, id, w, 0, start, d, q);
        FirstUseKeyBound(cfg, s, steps, Bucket(BucketKey(id, w, start)), d, q, cap);
      }
    } else {
      var k := BucketKey(id, w, Bounds(w, now, cfg.offset).start);
      QuotaWindowIsListed(cfg, id, w, d, q);
      Unread(cfg, id, now);
      ScaleMonotone(cap, 0, ConcurrencyLimit(cfg));
      LateRun(cfg, k, Bucket(k), Allowance(cfg, q, cap), now, d, q, cap);
    }
  }

  /** The same for the key's lifetime quotas. */
  lemma TotalBoundIffFirstUseLimit(cfg: Config, id: Id, d: Dimension, q: int, cap: int, now: int)
    requires ValidConfig(cfg) && id in cfg.keys && cap >= 1 && Allowance(cfg, q, cap) <= MAX_INT64
    requires IsQuota(cfg, Total(id), d, q)
    requires KeyProblem(cfg.keys[id], cfg.keys[id].used, now).None?
    ensures TotalAlwaysBounded(cfg, id, d, q, cap) <==> NeedsDatabase(cfg, id)
  {
    hide WithinBound, CappedRun, KeyProblem, NeedsDatabase, KeyQuota;
    if NeedsDatabase(cfg, id) {
      forall s: State, steps: seq<Step> | CappedRun(cfg, s, steps, d, cap) && BootstrapsFirst(steps, false)
        ensures Feasible(cfg, s, steps) && WithinBound(cfg, s, steps, Total(id), d, q, cap)
      {
        CappedIsFeasible(cfg, s, steps, d, cap);
        FirstUseKeyBound(cfg, s, steps, Total(id), d, q, cap);
      }
    } else {
      var k := BucketKey(id, Hour1, Bounds(Hour1, now, cfg.offset).start);
      Unread(cfg, id, now);
      ScaleMonotone(cap, 0, ConcurrencyLimit(cfg));
      LateRun(cfg, k, Total(id), Allowance(cfg, q, cap), now, d, q, cap);
    }
  }

  lemma Unread(cfg: Config, id: Id, now: int)
    requires id in cfg.keys && !NeedsDatabase(cfg, id) && KeyProblem(cfg.keys[id], cfg.keys[id].used, now).None?
    ensures AdmitsUnread(cfg, id, now)
  {
    hide Normalize, KeyProblem, Admit;
    EmptyAdmits(cfg.keys[id], now, cfg.offset);
  }

  lemma CappedIsFeasible(cfg: Config, s: State, steps: seq<Step>, d: Dimension, cap: int)
    requires CappedRun(cfg, s, steps, d, cap)
    ensures Feasible(cfg, s, steps)
  {
  }

  lemma QuotaOfWindow(cfg: Config, id: Id, w: Window, x: int, y: int, d: Dimension, q: int)
    requires IsQuota(cfg, Bucket(BucketKey(id, w, x)), d, q)
    ensures IsQuota(cfg, Bucket(BucketKey(id, w, y)), d, q)
  {
  }

  lemma QuotaWindowIsListed(cfg: Config, id: Id, w: Window, d: Dimension, q: int)
    requires IsQuota(cfg, Bucket(BucketKey(id, w, 0)), d, q)
    ensures q > 0 && Normalize(cfg.keys[id].limits).Limits?
    ensures Independent(w) ==> NeedsDatabase(cfg, id)
  {
    hide Normalize;
  }
}
