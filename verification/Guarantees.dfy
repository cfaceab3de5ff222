/** What the protocol's invariants mean for its users, over every run. */
module Guarantees {
  import opened Counters
  import opened Calendar
  import opened Ledger
  import opened Histories
  import opened Protocol
  import opened Windows
  import opened Conservation

  ghost predicate Reaches(cfg: Config, s: State, steps: seq<Step>) {
    && ValidConfig(cfg) && Initial(s) && Feasible(cfg, s, steps)
    && forall i :: 0 <= i < |steps| ==> MachineStep(steps[i])
  }

  /** All charges of the run that have not been lost to a crash. */
  function Surviving(s: State): seq<Charge> {
    s.history.committed + (s.history.flying + s.history.dirty)
  }

  lemma SurvivingSum(s: State, a: Account)
    requires LedgerOk(s)
    ensures ValidLog(Surviving(s))
    ensures Plus(StoreAt(s.store, a), Plus(TransitAt(s, a), DirtyAt(s.cache, a)))
         == Plus(StoreAt(s.history.base, a), SumFor(Surviving(s), a))
  {
    hide Plus;
    assert Balanced(s, a);
    AccountsValid(s, a);
    var rest := s.history.flying + s.history.dirty;
    SumConcat(s.history.flying, s.history.dirty, a);
    SumConcat(s.history.committed, rest, a);
    SumValid(s.history.committed, a);
    SumValid(rest, a);
    PlusIsCommutativeMonoid(StoreAt(s.history.base, a), SumFor(s.history.committed, a), SumFor(rest, a));
  }

  lemma CostOfSum(base: Counter, log: seq<Charge>, a: Account)
    requires Valid(base) && ValidLog(log)
    ensures Plus(base, SumFor(log, a)).cost == Min(MAX_INT64, base.cost + PlainCost(log, a))
  {
    SumIsCapped(log, a);
  }

  lemma ReachesInv(cfg: Config, s: State, steps: seq<Step>)
    requires Reaches(cfg, s, steps)
    ensures Inv(Run(cfg, s, steps))
  {
    InitialInv(s);
    RunKeepsInv(cfg, s, steps);
  }

  /** Memory shows the whole counter: database + in transit + unwritten, which is what the
      database held at first plus every surviving charge, its cost the exact sum cut off once
      at the 64-bit maximum. */
  ghost predicate Whole(t: State, a: Account) {
    var base, shown := StoreAt(t.history.base, a), CacheAt(t.cache, a);
    && shown == Plus(StoreAt(t.store, a), Plus(TransitAt(t, a), DirtyAt(t.cache, a)))
    && shown == Plus(base, SumFor(Surviving(t), a))
    && shown.cost == Min(MAX_INT64, base.cost + PlainCost(Surviving(t), a))
  }

  lemma WholeUnlessSkipped(t: State, a: Account)
    requires LedgerOk(t) && t.cache.connected && SkippedAt(t, a) == ZERO
    ensures Whole(t, a)
  {
    hide Plus;
    assert Balanced(t, a);
    SurvivingSum(t, a);
    AccountsValid(t, a);
    PlusZero(CacheAt(t.cache, a));
    CostOfSum(StoreAt(t.history.base, a), Surviving(t), a);
  }

  lemma CurrentFirstUseNeverSkipped(s: State, k: BucketKey)
    requires WindowsOk(s) && Independent(k.window) && Joined(s.store.windows, k)
    ensures k !in s.history.skipped
  {
  }

  ghost predicate Conserved(t: State, a: Account) {
    && (t.cache.connected && a.Total? ==> Whole(t, a))
    && (t.cache.connected && a.Bucket? && Independent(a.key.window) && Joined(t.store.windows, a.key) ==> Whole(t, a))
    && (!t.cache.connected ==>
      t.transit.None? && CacheAt(t.cache, a) == DirtyAt(t.cache, a) == SumFor(t.history.dirty, a))
  }

  lemma LedgerConserved(t: State, a: Account)
    requires Inv(t)
    ensures Conserved(t, a)
  {
    hide Balanced, Joined, WindowsOk, CountersValid, Whole, Plus;
    if !t.cache.connected {
      DisconnectedIsDirty(t, a);
    } else if a.Total? {
      WholeUnlessSkipped(t, a);
    } else if Independent(a.key.window) && Joined(t.store.windows, a.key) {
      CurrentFirstUseNeverSkipped(t, a.key);
      WholeUnlessSkipped(t, a);
    }
  }

  /** After every run, and once connected, memory shows the whole of every lifetime total and
      of every current first-use bucket; before that, memory is the unwritten delta. */
  lemma WriteBehindConservation(cfg: Config, s: State, steps: seq<Step>, a: Account)
    requires Reaches(cfg, s, steps)
    ensures Conserved(Run(cfg, s, steps), a)
  {
    ReachesInv(cfg, s, steps);
    LedgerConserved(Run(cfg, s, steps), a);
  }

  lemma DisconnectedIsDirty(t: State, a: Account)
    requires LedgerOk(t) && !t.cache.connected
    ensures t.transit.None? && CacheAt(t.cache, a) == DirtyAt(t.cache, a) == SumFor(t.history.dirty, a)
  {
    assert Balanced(t, a);
  }

  // -------------------------------------------------- one process after its connect

  /** A process that connects at now and then runs on without a crash. */
  ghost predicate Serves(cfg: Config, u: State, now: int, steps: seq<Step>) {
    && !u.cache.connected && Feasible(cfg, ApplyConnect(cfg, u, now), steps)
    && forall i :: 0 <= i < |steps| ==> MachineStep(steps[i]) && !steps[i].Crash?
  }

  ghost function Served(cfg: Config, u: State, now: int, steps: seq<Step>): State
    requires Serves(cfg, u, now, steps)
  {
    Run(cfg, ApplyConnect(cfg, u, now), steps)
  }

  lemma AdmissionSparesCalendar(
    s: State, id: Id, limits: seq<Limit>, now: int, bindings: map<Window, int>, changes: map<WindowKey, Span>, r: int,
    k: BucketKey)
    requires IsAdmission(s, id, limits, now, bindings, changes) && !Independent(k.window)
    ensures var t := ApplyAdmission(s, r, now, bindings, changes);
      t.cache.connected == s.cache.connected && SkippedAt(t, Bucket(k)) == SkippedAt(s, Bucket(k))
  {
    ChangesOpen(s.cache, id, limits, now);
  }

  lemma SkippedStep(cfg: Config, s: State, e: Step, k: BucketKey)
    requires s.cache.connected && Enabled(cfg, s, e) && !e.Crash? && !Independent(k.window)
    ensures var t := Apply(cfg, s, e);
      t.cache.connected && SkippedAt(t, Bucket(k)) == SkippedAt(s, Bucket(k))
  {
    hide Admit, ApplyAdmission;
    if e.AdmitStep? {
      var key := cfg.keys[s.requests[e.r].id];
      AdmittedIsAdmission(s, key, e.now, cfg.offset, e.writable);
      match Admit(s.cache, key, e.now, cfg.offset, e.writable) {
        case Refused(_) =>
        case Admitted(bindings, changes) =>
          AdmissionSparesCalendar(s, key.id, Normalize(key.limits).limits, e.now, bindings, changes, e.r, k);
      }
    }
  }

  lemma {:induction false} SkippedRun(cfg: Config, s: State, steps: seq<Step>, k: BucketKey)
    requires s.cache.connected && Feasible(cfg, s, steps) && !Independent(k.window)
    requires forall i :: 0 <= i < |steps| ==> !steps[i].Crash?
    ensures var t := Run(cfg, s, steps); t.cache.connected && SkippedAt(t, Bucket(k)) == SkippedAt(s, Bucket(k))
    decreases |steps|
  {
    hide Apply;
    if steps != [] {
      SkippedStep(cfg, s, steps[0], k);
      SkippedRun(cfg, Apply(cfg, s, steps[0]), steps[1..], k);
    }
  }

  /** The connect loads everything the database holds for the calendar bucket: its window is
      the current one, or there is no row (as for any later window, unless rows lie in the
      future). */
  predicate LoadedWhole(cfg: Config, u: State, now: int, k: BucketKey) {
    k.start == Bounds(k.window, now, cfg.offset).start || k !in u.store.buckets
  }

  lemma AtOrAfterIsLoadedWhole(cfg: Config, u: State, now: int, k: BucketKey)
    requires k.start >= Bounds(k.window, now, cfg.offset).start
    requires forall row :: row in u.store.buckets && row.window == k.window ==>
      row.start <= Bounds(k.window, now, cfg.offset).start
    ensures LoadedWhole(cfg, u, now, k)
  {
  }

  lemma ServedInv(cfg: Config, s: State, before: seq<Step>, now: int, steps: seq<Step>)
    requires Reaches(cfg, s, before) && Serves(cfg, Run(cfg, s, before), now, steps)
    ensures Inv(Served(cfg, Run(cfg, s, before), now, steps))
  {
    ReachesInv(cfg, s, before);
    var u := Run(cfg, s, before);
    StepKeepsInv(cfg, u, Connect(now));
    hide Inv;
    RunKeepsInv(cfg, ApplyConnect(cfg, u, now), steps);
  }

  lemma HiddenPart(skipped: Counter, cached: Counter, base: Counter, charged: Counter)
    requires Plus(skipped, cached) == Plus(base, charged)
    ensures cached.requests == base.requests + charged.requests <==> skipped.requests == 0
  {
  }

  lemma SkippedAtConnect(cfg: Config, u: State, now: int, k: BucketKey)
    requires !u.cache.connected && !Independent(k.window)
    ensures SkippedAt(ApplyConnect(cfg, u, now), Bucket(k)) ==
      if k.start == Bounds(k.window, now, cfg.offset).start then ZERO else At(u.store.buckets, k)
  {
    hide Bounds;
  }

  /** Memory counts all requests the database held at first and all that survived since. */
  ghost predicate RequestsShown(t: State, a: Account) {
    CacheAt(t.cache, a).requests == StoreAt(t.history.base, a).requests + SumFor(Surviving(t), a).requests
  }

  /** Over every run, from a connect until the next crash: a calendar bucket at or after the
      windows current at the connect is whole in memory; and an older one shows all its
      requests if and only if the connect found none stored. */
  lemma CalendarBucketConserved(cfg: Config, s: State, before: seq<Step>, now: int, steps: seq<Step>, k: BucketKey)
    requires Reaches(cfg, s, before) && Serves(cfg, Run(cfg, s, before), now, steps) && !Independent(k.window)
    ensures var u := Run(cfg, s, before); var t := Served(cfg, u, now, steps);
      && (LoadedWhole(cfg, u, now, k) ==> Whole(t, Bucket(k)))
      && (RequestsShown(t, Bucket(k)) <==> LoadedWhole(cfg, u, now, k) || At(u.store.buckets, k).requests == 0)
  {
    var u := Run(cfg, s, before);
    var v := ApplyConnect(cfg, u, now);
    var t := Served(cfg, u, now, steps);
    ServedInv(cfg, s, before, now, steps);
    SkippedAtConnect(cfg, u, now, k);
    SkippedRun(cfg, v, steps, k);
    hide LedgerOk, WindowsOk, Feasible, Run, Reaches, Serves, ApplyConnect, Bounds, Whole, RequestsShown;
    BucketConserved(t, Bucket(k));
  }

  lemma BalancedSum(t: State, a: Account)
    requires LedgerOk(t) && t.cache.connected
    ensures Plus(SkippedAt(t, a), CacheAt(t.cache, a)) == Plus(StoreAt(t.history.base, a), SumFor(Surviving(t), a))
  {
    SurvivingSum(t, a);
    assert Balanced(t, a);
    hide LedgerOk, Plus, SumFor, Surviving, SkippedAt;
  }

  lemma BucketConserved(t: State, a: Account)
    requires LedgerOk(t) && t.cache.connected
    ensures SkippedAt(t, a) == ZERO ==> Whole(t, a)
    ensures RequestsShown(t, a) <==> SkippedAt(t, a).requests == 0
  {
    hide LedgerOk, Whole, Plus, SumFor, Surviving, StoreAt, CacheAt, SkippedAt;
    BalancedSum(t, a);
    HiddenPart(SkippedAt(t, a), CacheAt(t.cache, a), StoreAt(t.history.base, a), SumFor(Surviving(t), a));
    if SkippedAt(t, a) == ZERO {
      WholeUnlessSkipped(t, a);
    }
  }

  // ------------------------------------------------------------------ crash

  lemma ReloadedAt(cfg: Config, s: State, now: int, a: Account)
    requires Inv(s)
    requires a.Bucket? ==> Loads(s.store, a.key, now, cfg.offset)
    ensures CacheAt(ApplyConnect(cfg, ApplyCrash(s), now).cache, a) == StoreAt(s.store, a)
  {
    hide Plus;
    AccountsValid(s, a);
    PlusZero(StoreAt(s.store, a));
  }

  /** A crash at any point, then a reconnect: the counters are exactly the committed ones, and
      what is missing of a counter that was whole in memory is exactly the batch in transit
      and the dirty delta. */
  lemma CrashLosesExactlyTheUnwritten(cfg: Config, s: State, now: int, a: Account)
    requires Inv(s)
    requires a.Bucket? ==> Loads(s.store, a.key, now, cfg.offset)
    ensures var t := ApplyConnect(cfg, ApplyCrash(s), now);
      && CacheAt(t.cache, a) == Plus(StoreAt(s.history.base, a), SumFor(s.history.committed, a))
      && (Whole(s, a) ==>
            CacheAt(s.cache, a) ==
              Plus(CacheAt(t.cache, a), Plus(SumFor(s.history.flying, a), SumFor(s.history.dirty, a))))
  {
    hide Plus;
    ReloadedAt(cfg, s, now, a);
    assert Balanced(s, a);
  }

  /** The calendar bucket a status reads was loaded whole by the process's connect, and is
      loaded again after a restart in the same windows. */
  predicate StillCurrent(cfg: Config, u: State, connectedAt: int, id: Id, w: Window, now: int, reloadedAt: int) {
    !Independent(w) ==>
      && Bounds(w, reloadedAt, cfg.offset) == Bounds(w, now, cfg.offset)
      && LoadedWhole(cfg, u, connectedAt, BucketKey(id, w, Bounds(w, now, cfg.offset).start))
  }

  lemma FlushedAt(s: State, a: Account)
    requires Inv(s) && s.cache.connected && s.transit.None? && s.cache.pending == 0 && Whole(s, a)
    ensures CacheAt(s.cache, a) == StoreAt(s.store, a)
  {
    hide Plus;
    AccountsValid(s, a);
    PlusZero(StoreAt(s.store, a));
    PlusZero(ZERO);
  }

  ghost predicate StatusIsWhole(cfg: Config, s: State, id: Id, w: Window, now: int, reloadedAt: int) {
    !Independent(w) ==>
      && Bounds(w, reloadedAt, cfg.offset) == Bounds(w, now, cfg.offset)
      && Whole(s, Bucket(BucketKey(id, w, Bounds(w, now, cfg.offset).start)))
  }

  lemma StatusSurvivesReload(cfg: Config, s: State, id: Id, limit: Limit, now: int, reloadedAt: int)
    requires Inv(s) && s.cache.connected && s.transit.None? && s.cache.pending == 0
    requires StatusIsWhole(cfg, s, id, limit.window, now, reloadedAt)
    ensures StatusOf(ApplyConnect(cfg, ApplyCrash(s), reloadedAt).cache, id, limit, now, cfg.offset)
         == StatusOf(s.cache, id, limit, now, cfg.offset)
  {
    hide Whole, LedgerOk, Bounds;
    var t := ApplyConnect(cfg, ApplyCrash(s), reloadedAt);
    var (span, state) := WindowBounds(s.cache, id, limit.window, now, cfg.offset);
    assert t.cache.windows == s.cache.windows;
    if state.Active? {
      var k := BucketKey(id, limit.window, span.start);
      if Independent(limit.window) {
        assert Joined(s.store.windows, k);
        CurrentFirstUseNeverSkipped(s, k);
        BucketConserved(s, Bucket(k));
      }
      ReloadedAt(cfg, s, reloadedAt, Bucket(k));
      FlushedAt(s, Bucket(k));
    }
  }

  lemma StatusesSurviveReload(cfg: Config, s: State, id: Id, limits: seq<Limit>, now: int, reloadedAt: int)
    requires Inv(s) && s.cache.connected && s.transit.None? && s.cache.pending == 0
    requires forall i :: 0 <= i < |limits| ==> StatusIsWhole(cfg, s, id, limits[i].window, now, reloadedAt)
    ensures Statuses(ApplyConnect(cfg, ApplyCrash(s), reloadedAt).cache, id, limits, now, cfg.offset)
         == Statuses(s.cache, id, limits, now, cfg.offset)
  {
    hide Inv, StatusIsWhole, StatusOf;
    var t := ApplyConnect(cfg, ApplyCrash(s), reloadedAt);
    forall i | 0 <= i < |limits|
      ensures StatusOf(t.cache, id, limits[i], now, cfg.offset) == StatusOf(s.cache, id, limits[i], now, cfg.offset)
    {
      StatusSurvivesReload(cfg, s, id, limits[i], now, reloadedAt);
    }
  }

  lemma CurrentIsWhole(
    cfg: Config, s: State, before: seq<Step>, connectedAt: int, steps: seq<Step>, id: Id, w: Window, now: int,
    reloadedAt: int)
    requires Reaches(cfg, s, before) && Serves(cfg, Run(cfg, s, before), connectedAt, steps)
    requires StillCurrent(cfg, Run(cfg, s, before), connectedAt, id, w, now, reloadedAt)
    ensures StatusIsWhole(cfg, Served(cfg, Run(cfg, s, before), connectedAt, steps), id, w, now, reloadedAt)
  {
    var k := BucketKey(id, w, Bounds(w, now, cfg.offset).start);
    hide Reaches, Serves, Run, Served, Bounds, Whole, LoadedWhole;
    if !Independent(w) {
      CalendarBucketConserved(cfg, s, before, connectedAt, steps, k);
    }
  }

  /** Over every run: a process that connected, ran on, and has flushed with nothing recorded
      since, shows the same statuses after a restart for every window still current. */
  lemma FlushedStatusesSurviveReload(
    cfg: Config, s: State, before: seq<Step>, connectedAt: int, steps: seq<Step>, id: Id, limits: seq<Limit>, now: int,
    reloadedAt: int)
    requires Reaches(cfg, s, before) && Serves(cfg, Run(cfg, s, before), connectedAt, steps)
    requires var t := Served(cfg, Run(cfg, s, before), connectedAt, steps); t.transit.None? && t.cache.pending == 0
    requires forall i :: 0 <= i < |limits| ==>
      StillCurrent(cfg, Run(cfg, s, before), connectedAt, id, limits[i].window, now, reloadedAt)
    ensures var t := Served(cfg, Run(cfg, s, before), connectedAt, steps);
      Statuses(ApplyConnect(cfg, ApplyCrash(t), reloadedAt).cache, id, limits, now, cfg.offset) ==
        Statuses(t.cache, id, limits, now, cfg.offset)
  {
    hide Initial, ValidConfig, Feasible, Run, Serves, Served, Inv, StatusIsWhole, StillCurrent, Statuses, ApplyConnect;
    hide ApplyCrash;
    var t := Served(cfg, Run(cfg, s, before), connectedAt, steps);
    ServedInv(cfg, s, before, connectedAt, steps);
    ServedConnected(cfg, Run(cfg, s, before), connectedAt, steps);
    forall i | 0 <= i < |limits| ensures StatusIsWhole(cfg, t, id, limits[i].window, now, reloadedAt) {
      CurrentIsWhole(cfg, s, before, connectedAt, steps, id, limits[i].window, now, reloadedAt);
    }
    StatusesSurviveReload(cfg, t, id, limits, now, reloadedAt);
  }

  lemma ServedConnected(cfg: Config, u: State, now: int, steps: seq<Step>)
    requires Serves(cfg, u, now, steps)
    ensures Served(cfg, u, now, steps).cache.connected
  {
    SkippedRun(cfg, ApplyConnect(cfg, u, now), steps, BucketKey("", Hour1, 0));
  }

  // ---------------------------------------------------------------- windows

  lemma {:induction false} StartsOnlyGrow(cfg: Config, s: State, steps: seq<Step>, wk: WindowKey)
    requires Feasible(cfg, s, steps)
    ensures StartsOf(s.history.starts, wk) <= StartsOf(Run(cfg, s, steps).history.starts, wk)
    decreases |steps|
  {
    if steps != [] {
      var t := Apply(cfg, s, steps[0]);
      if steps[0].AdmitStep? {
        var e := steps[0];
        match Admit(s.cache, cfg.keys[s.requests[e.r].id], e.now, cfg.offset, e.writable) {
          case Refused(_) =>
          case Admitted(_, changes) => StartsGrow(s.history.starts, changes, wk);
        }
      }
      StartsOnlyGrow(cfg, t, steps[1..], wk);
    }
  }

  /** Whatever clocks the admissions see and however often the server restarts, the starts
      stored for one first-use window are at least a full window apart, the last one is
      the stored window, and once connected memory agrees with the database. */
  lemma FirstUseWindowsNeverOverlap(cfg: Config, s: State, steps: seq<Step>, wk: WindowKey)
    requires Reaches(cfg, s, steps)
    ensures var t := Run(cfg, s, steps); var starts := StartsOf(t.history.starts, wk);
      && StartsOf(s.history.starts, wk) <= starts
      && Spaced(starts, Length(wk.window))
      && (starts != [] ==>
            && wk in t.store.windows
            && t.store.windows[wk] == Span(starts[|starts| - 1], starts[|starts| - 1] + Length(wk.window)))
      && (t.cache.connected ==> t.cache.windows == t.store.windows)
  {
    var t := Run(cfg, s, steps);
    InitialInv(s);
    RunKeepsInv(cfg, s, steps);
    StartsOnlyGrow(cfg, s, steps, wk);
    if wk in t.history.starts {
      assert StoredWindow(t, wk);
    }
  }

  /** No request still waiting to be recorded can be charged to the bucket. */
  ghost predicate NoRequestBound(cfg: Config, s: State, k: BucketKey) {
    forall q :: q in s.requests && s.requests[q].stage.Waiting? ==>
      k !in Touched(s.requests[q].id, s.requests[q].stage.at, cfg.offset, s.requests[q].stage.bindings)
  }

  lemma NothingCharged(s: State, k: BucketKey)
    requires WindowsOk(s) && LedgerOk(s) && !BoundTo(s.history.starts, k)
    ensures SumFor(Surviving(s), Bucket(k)) == ZERO
  {
    Unbound(s.history.starts, Surviving(s), k);
  }

  lemma NoRequestBoundTo(cfg: Config, s: State, k: BucketKey)
    requires WindowsOk(s) && !BoundTo(s.history.starts, k)
    ensures NoRequestBound(cfg, s, k)
  {
    forall q | q in s.requests && s.requests[q].stage.Waiting?
      ensures k !in Touched(s.requests[q].id, s.requests[q].stage.at, cfg.offset, s.requests[q].stage.bindings)
    {
      assert BindingsKnown(s.history.starts, s.requests[q]);
    }
  }

  lemma DeletedIsOpened(
    s: State, r: int, now: int, bindings: map<Window, int>, changes: map<WindowKey, Span>, k: BucketKey)
    requires k in s.store.buckets && k !in ApplyAdmission(s, r, now, bindings, changes).store.buckets
    ensures k in OpenedKeys(changes)
  {
  }

  lemma OpenedBucketsUncharged(
    cfg: Config, s: State, id: Id, limits: seq<Limit>, now: int, bindings: map<Window, int>,
    changes: map<WindowKey, Span>, k: BucketKey)
    requires Inv(s) && IsAdmission(s, id, limits, now, bindings, changes) && k in OpenedKeys(changes)
    ensures SumFor(Surviving(s), Bucket(k)) == ZERO
    ensures CacheAt(s.cache, Bucket(k)) == ZERO
    ensures NoRequestBound(cfg, s, k)
  {
    hide Plus;
    FreshBuckets(s, id, limits, now, bindings, changes, k);
    NothingCharged(s, k);
    NoRequestBoundTo(cfg, s, k);
  }

  /** A row an admission deletes is one no request was ever charged to, and one no admitted
      request can still be charged to. */
  lemma RotationSparesCharges(cfg: Config, s: State, r: int, now: int, writable: bool, k: BucketKey)
    requires ValidConfig(cfg) && Inv(s) && Enabled(cfg, s, AdmitStep(r, now, writable))
    ensures k in s.store.buckets && k !in ApplyAdmit(cfg, s, r, now, writable).store.buckets ==>
      && SumFor(Surviving(s), Bucket(k)) == ZERO
      && CacheAt(s.cache, Bucket(k)) == ZERO
      && NoRequestBound(cfg, s, k)
  {
    hide Plus, Admit, ApplyAdmission, WindowsOk, LedgerOk, NoRequestBound;
    var key := cfg.keys[s.requests[r].id];
    AdmittedIsAdmission(s, key, now, cfg.offset, writable);
    match Admit(s.cache, key, now, cfg.offset, writable)
    case Refused(_) =>
    case Admitted(bindings, changes) =>
      if k in s.store.buckets && k !in ApplyAdmission(s, r, now, bindings, changes).store.buckets {
        DeletedIsOpened(s, r, now, bindings, changes, k);
        OpenedBucketsUncharged(cfg, s, key.id, Normalize(key.limits).limits, now, bindings, changes, k);
      }
  }

  /** A first-use limit is bound to a window that is open now, stored, and the same in
      memory; a window that was open is kept. */
  ghost predicate BoundAndDurable(s: State, t: State, wk: WindowKey, now: int, start: int) {
    && wk in t.store.windows && wk in t.cache.windows
    && t.cache.windows[wk] == t.store.windows[wk] == Span(start, start + Length(wk.window))
    && now < start + Length(wk.window)
    && (wk in s.store.windows && now < s.store.windows[wk].end ==> t.store.windows[wk] == s.store.windows[wk])
  }

  /** Nothing but windows changes, and the only rows that can go are the key's own at the
      instant a window opens. */
  ghost predicate OnlyWindowsOpened(s: State, t: State, id: Id, windows: set<Window>, now: int) {
    && (forall wk :: wk in s.store.windows && (wk.id != id || wk.window !in windows) ==>
          wk in t.store.windows && t.store.windows[wk] == s.store.windows[wk])
    && t.store.totals == s.store.totals
    && t.cache == s.cache.(windows := t.cache.windows)
    && (forall k :: k in t.store.buckets ==> k in s.store.buckets && t.store.buckets[k] == s.store.buckets[k])
    && (forall k :: k in s.store.buckets && k !in t.store.buckets ==>
      k.id == id && k.window in windows && k.start == now)
  }

  lemma WindowBoundAndDurable(
    s: State, id: Id, limits: seq<Limit>, now: int, bindings: map<Window, int>, changes: map<WindowKey, Span>, r: int,
    w: Window)
    requires WindowsOk(s) && IsAdmission(s, id, limits, now, bindings, changes) && w in IndependentWindows(limits)
    ensures w in bindings
      && BoundAndDurable(s, ApplyAdmission(s, r, now, bindings, changes), WindowKey(id, w), now, bindings[w])
  {
    assert HasIndependent(limits);
    ChangesOpen(s.cache, id, limits, now);
    if !Opens(s.cache, id, w, now) {
      assert StoredWindow(s, WindowKey(id, w));
    }
  }

  lemma AdmissionFrame(
    s: State, id: Id, limits: seq<Limit>, now: int, bindings: map<Window, int>, changes: map<WindowKey, Span>, r: int)
    requires IsAdmission(s, id, limits, now, bindings, changes)
    ensures OnlyWindowsOpened(s, ApplyAdmission(s, r, now, bindings, changes), id, IndependentWindows(limits), now)
  {
    ChangesOpen(s.cache, id, limits, now);
  }

  /** Admission is all or nothing and durable first. */
  lemma AdmissionIsAllOrNothing(cfg: Config, s: State, r: int, now: int, writable: bool)
    requires ValidConfig(cfg) && Inv(s) && Enabled(cfg, s, AdmitStep(r, now, writable))
    ensures var key := cfg.keys[s.requests[r].id]; var t := ApplyAdmit(cfg, s, r, now, writable);
      match Admit(s.cache, key, now, cfg.offset, writable)
      case Refused(_) => t == s
      case Admitted(bindings, _) =>
        && t.requests[r].stage == Waiting(now, bindings)
        && bindings.Keys == IndependentWindows(Normalize(key.limits).limits)
        && (forall w :: w in bindings ==> BoundAndDurable(s, t, WindowKey(key.id, w), now, bindings[w]))
        && OnlyWindowsOpened(s, t, key.id, bindings.Keys, now)
  {
    hide Admit, BoundAndDurable, OnlyWindowsOpened, WindowsOk, LedgerOk;
    var key := cfg.keys[s.requests[r].id];
    AdmittedIsAdmission(s, key, now, cfg.offset, writable);
    match Admit(s.cache, key, now, cfg.offset, writable)
    case Refused(_) =>
    case Admitted(bindings, changes) =>
      var limits := Normalize(key.limits).limits;
      AdmissionFrame(s, key.id, limits, now, bindings, changes, r);
      forall w | w in bindings {
        WindowBoundAndDurable(s, key.id, limits, now, bindings, changes, r, w);
      }
  }
}
