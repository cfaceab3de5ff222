/** The quota bound is exact: a run in which every request that the throttle lets in is admitted
    one request short of the quota. */
module FullLoad {
  import opened Counters
  import opened Calendar
  import opened Ledger
  import opened Options
  import opened Protocol
  import opened Conservation
  import opened Overshoot
  import opened LateConnect

  const KEY := "key"

  /** A key whose one quota is q in this dimension. */
  function KeyWith(d: Dimension, q: int): ApiKey {
    ApiKey(KEY, "active", false, None, if d.Requests? then q else 0, if d.Tokens? then q else 0,
           if d.Cost? then q else 0, ZERO, [])
  }

  function Loaded(d: Dimension, q: int, max: int): Config {
    Config(map[KEY := KeyWith(d, q)], 0, max)
  }

  function Row(now: int): BucketKey {
    BucketKey(KEY, Hour1, Bounds(Hour1, now, 0).start)
  }

  /** The first i requests have been admitted and are not yet recorded. */
  function Waiters(i: nat, now: int): map<int, Request> {
    if i == 0 then map[] else Waiters(i - 1, now)[i - 1 := Request(KEY, Waiting(now, map[]))]
  }

  lemma {:induction false} WaitersAre(i: nat, now: int)
    ensures forall r :: r in Waiters(i, now) <==> 0 <= r < i
    ensures forall r :: 0 <= r < i ==> Waiters(i, now)[r] == Request(KEY, Waiting(now, map[]))
    ensures |ActiveOf(Waiters(i, now), KEY)| == i
  {
    if i == 0 {
      assert ActiveOf(Waiters(i, now), KEY) == {};
    } else {
      WaitersAre(i - 1, now);
      assert ActiveOf(Waiters(i, now), KEY) == ActiveOf(Waiters(i - 1, now), KEY) + {i - 1};
    }
  }

  function Connected(d: Dimension, q: int, max: int, now: int): State {
    ApplyConnect(Loaded(d, q, max), LateState(Row(now), q - 1, map[]), now)
  }

  function Filled(d: Dimension, q: int, max: int, now: int, i: nat): State {
    Connected(d, q, max, now).(requests := Waiters(i, now))
  }

  function Begun1(d: Dimension, q: int, max: int, now: int, i: nat): State {
    Connected(d, q, max, now).(requests := Waiters(i, now)[i := Request(KEY, Begun)])
  }

  lemma ConnectedHas(d: Dimension, q: int, max: int, now: int)
    requires 0 <= q - 1 <= MAX_INT64
    ensures var s := Connected(d, q, max, now);
      && s.transit.None? && s.requests == map[]
      && KEY in s.cache.totals && s.cache.totals[KEY] == Counter(q - 1, q - 1, q - 1)
  {
    hide Bounds, InitialHistory, SkippedBuckets, LoadedBuckets;
  }

  lemma AdmitsNext(d: Dimension, q: int, max: int, now: int)
    requires 0 <= q - 1 <= MAX_INT64
    ensures Admit(Connected(d, q, max, now).cache, KeyWith(d, q), now, 0, true) == Admitted(map[], map[])
  {
    ConnectedHas(d, q, max, now);
    var c := Connected(d, q, max, now).cache;
    hide Connected;
    assert Normalize([]) == Limits([]);
    assert IndependentWindows([]) == {};
    assert OpeningKeys(c, KEY, [], now) == {};
  }

  lemma BeginNext(d: Dimension, q: int, max: int, now: int, i: nat)
    requires i < ConcurrencyLimit(Loaded(d, q, max))
    ensures var s := Filled(d, q, max, now, i);
      && Enabled(Loaded(d, q, max), s, Begin(i, KEY))
      && Apply(Loaded(d, q, max), s, Begin(i, KEY)) == Begun1(d, q, max, now, i)
  {
    WaitersAre(i, now);
    hide Connected, Waiters, ActiveOf;
  }

  lemma AdmitNext(d: Dimension, q: int, max: int, now: int, i: nat)
    requires 0 <= q - 1 <= MAX_INT64
    ensures var s := Begun1(d, q, max, now, i); var e := AdmitStep(i, now, true);
      Enabled(Loaded(d, q, max), s, e) && Apply(Loaded(d, q, max), s, e) == Filled(d, q, max, now, i + 1)
  {
    ConnectedHas(d, q, max, now);
    AdmitsNext(d, q, max, now);
    var s := Begun1(d, q, max, now, i);
    hide Connected, Admit;
    NothingOpened(s, i, now);
    assert s.requests[i := Request(KEY, Waiting(now, map[]))] == Waiters(i + 1, now);
    hide ApplyAdmission, Waiters;
  }

  lemma NothingToOpen(s: State)
    ensures OpenedStore(s.store, map[]) == s.store && OpenedCache(s.cache, map[]) == s.cache && OpenedKeys(map[]) == {}
  {
    assert s.store.windows + map[] == s.store.windows && s.cache.windows + map[] == s.cache.windows;
    assert s.store.buckets - {} == s.store.buckets;
  }

  lemma NothingOpened(s: State, r: int, now: int)
    requires r in s.requests && s.requests[r].id == KEY
    ensures ApplyAdmission(s, r, now, map[], map[]) ==
      s.(requests := s.requests[r := Request(KEY, Waiting(now, map[]))])
  {
    NothingToOpen(s);
    hide OpenedStore, OpenedCache, OpenedKeys;
    assert s.history.base.buckets - {} == s.history.base.buckets && s.history.skipped - {} == s.history.skipped;
  }

  /** The requests from i to n begin and are admitted, one after the other. */
  function FillSteps(i: nat, n: nat, now: int): seq<Step>
    decreases n - i
  {
    if i >= n then [] else [Begin(i, KEY)] + ([AdmitStep(i, now, true)] + FillSteps(i + 1, n, now))
  }

  lemma Cons(cfg: Config, s: State, e: Step, rest: seq<Step>)
    requires Enabled(cfg, s, e) && Feasible(cfg, Apply(cfg, s, e), rest)
    ensures Feasible(cfg, s, [e] + rest) && Run(cfg, s, [e] + rest) == Run(cfg, Apply(cfg, s, e), rest)
  {
    hide Enabled, Apply;
    assert ([e] + rest)[1..] == rest;
  }

  lemma {:induction false} FillRuns(d: Dimension, q: int, max: int, now: int, i: nat, n: nat)
    requires 0 <= q - 1 <= MAX_INT64 && i <= n <= ConcurrencyLimit(Loaded(d, q, max))
    ensures var cfg, s := Loaded(d, q, max), Filled(d, q, max, now, i);
      Feasible(cfg, s, FillSteps(i, n, now)) && Run(cfg, s, FillSteps(i, n, now)) == Filled(d, q, max, now, n)
    decreases n - i
  {
    if i < n {
      var cfg := Loaded(d, q, max);
      FillRuns(d, q, max, now, i + 1, n);
      AdmitNext(d, q, max, now, i);
      BeginNext(d, q, max, now, i);
      hide Enabled, Apply, Filled, Begun1, Loaded, Run, Feasible;
      Cons(cfg, Begun1(d, q, max, now, i), AdmitStep(i, now, true), FillSteps(i + 1, n, now));
      Cons(cfg, Filled(d, q, max, now, i), Begin(i, KEY), [AdmitStep(i, now, true)] + FillSteps(i + 1, n, now));
    }
  }

  lemma {:induction false} FillIsHarmless(i: nat, n: nat, now: int, dim: Dimension, cap: int, serving: bool)
    ensures var steps := FillSteps(i, n, now);
      && (forall j :: 0 <= j < |steps| ==> MachineStep(steps[j]) && Capped(steps[j], dim, cap))
      && BootstrapsFirst(steps, serving)
    decreases n - i
  {
    if i < n {
      FillIsHarmless(i + 1, n, now, dim, cap, true);
      var steps := FillSteps(i, n, now);
      assert steps[1..][1..] == FillSteps(i + 1, n, now);
      assert forall j :: 2 <= j < |steps| ==> steps[j] == FillSteps(i + 1, n, now)[j - 2];
      assert BootstrapsFirst(steps[1..], serving);
    }
  }

  lemma ExposureOf(d: Dimension, q: int, max: int, now: int, cap: int, n: nat)
    requires 0 <= q - 1 <= MAX_INT64
    ensures Exposure(Loaded(d, q, max), Filled(d, q, max, now, n), Total(KEY), d, cap) == q - 1 + cap * n
  {
    ConnectedHas(d, q, max, now);
    WaitersAre(n, now);
    var s := Filled(d, q, max, now, n);
    assert InFlight(Loaded(d, q, max), s.requests, Total(KEY)) == ActiveOf(s.requests, KEY);
    hide Connected, Waiters, InFlight, ActiveOf;
  }

  lemma RunFrom(cfg: Config, s: State, e: Step, rest: seq<Step>, d: Dimension, cap: int)
    requires ValidConfig(cfg) && Initial(s) && Enabled(cfg, s, e) && Feasible(cfg, Apply(cfg, s, e), rest)
    requires MachineStep(e) && Capped(e, d, cap)
    requires forall j :: 0 <= j < |rest| ==> MachineStep(rest[j]) && Capped(rest[j], d, cap)
    ensures CappedRun(cfg, s, [e] + rest, d, cap)
    ensures Run(cfg, s, [e] + rest) == Run(cfg, Apply(cfg, s, e), rest)
  {
    Cons(cfg, s, e, rest);
    hide Feasible, Run, ValidConfig, Initial, Enabled, Apply, MachineStep, Capped;
  }

  lemma LoadedIsValid(d: Dimension, q: int, max: int)
    requires q >= 1
    ensures ValidConfig(Loaded(d, q, max)) && IsQuota(Loaded(d, q, max), Total(KEY), d, q)
  {
  }

  lemma ConnectFirst(d: Dimension, q: int, max: int, now: int)
    requires 0 <= q - 1 <= MAX_INT64
    ensures var cfg, s := Loaded(d, q, max), LateState(Row(now), q - 1, map[]);
      Enabled(cfg, s, Connect(now)) && Apply(cfg, s, Connect(now)) == Filled(d, q, max, now, 0)
  {
    ConnectedHas(d, q, max, now);
    hide ApplyConnect, LateState, Row;
  }

  lemma ConnectIsHarmless(now: int, rest: seq<Step>, d: Dimension, cap: int)
    requires BootstrapsFirst(rest, false)
    ensures MachineStep(Connect(now)) && Capped(Connect(now), d, cap) && BootstrapsFirst([Connect(now)] + rest, false)
  {
    assert ([Connect(now)] + rest)[1..] == rest;
  }

  lemma AllowanceIs(d: Dimension, q: int, cap: int, max: int)
    ensures var cfg := Loaded(d, q, max);
      && cfg.maxConcurrent == max && ConcurrencyLimit(cfg) == (if max <= 0 then 16 else max)
      && Allowance(cfg, q, cap) == q - 1 + cap * ConcurrencyLimit(cfg)
  {
  }

  /** For every quota, every concurrency and every cap there is a run, on a database that is read
      first, after which usage and what is in flight come to exactly the bound. */
  lemma BoundIsReached(d: Dimension, q: int, cap: int, max: int, now: int)
    returns (cfg: Config, s: State, steps: seq<Step>)
    requires 0 <= q - 1 <= MAX_INT64
    ensures CappedRun(cfg, s, steps, d, cap) && BootstrapsFirst(steps, false)
    ensures cfg.maxConcurrent == max && IsQuota(cfg, Total(KEY), d, q)
    ensures Exposure(cfg, Run(cfg, s, steps), Total(KEY), d, cap) == Allowance(cfg, q, cap)
    ensures Allowance(cfg, q, cap) == q - 1 + cap * if max <= 0 then 16 else max
  {
    hide *;
    cfg, s := Loaded(d, q, max), LateState(Row(now), q - 1, map[]);
    AllowanceIs(d, q, cap, max);
    var n := ConcurrencyLimit(cfg);
    var rest := FillSteps(0, n, now);
    steps := [Connect(now)] + rest;
    LateStart(Row(now), q - 1);
    LoadedIsValid(d, q, max);
    ConnectFirst(d, q, max, now);
    FillRuns(d, q, max, now, 0, n);
    FillIsHarmless(0, n, now, d, cap, false);
    ConnectIsHarmless(now, rest, d, cap);
    RunFrom(cfg, s, Connect(now), rest, d, cap);
    ExposureOf(d, q, max, now, cap, n);
  }
}
