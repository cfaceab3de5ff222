/** Write-behind conservation: no interleaving of the protocol's steps loses or
    invents a charge. */
module Conservation {
  import opened Counters
  import opened Calendar
  import opened Ledger
  import opened Histories
  import opened Protocol
  import opened Windows

  function TransitAt(s: State, a: Account): Counter {
    if s.transit.Some? then BatchAt(s.transit.value, a) else ZERO
  }

  function SkippedAt(s: State, a: Account): Counter {
    match a case Total(_) => ZERO case Bucket(k) => At(s.history.skipped, k)
  }

  ghost predicate CountersValid(s: State) {
    && ValidMap(s.store.totals) && ValidMap(s.store.buckets)
    && ValidMap(s.history.base.totals) && ValidMap(s.history.base.buckets)
    && ValidMap(s.cache.totals) && ValidMap(s.cache.buckets)
    && ValidMap(s.cache.dirtyTotals) && ValidMap(s.cache.dirtyBuckets)
    && (s.transit.Some? ==> ValidMap(s.transit.value.totals) && ValidMap(s.transit.value.buckets))
    && ValidMap(s.history.skipped)
    && ValidLog(s.history.committed) && ValidLog(s.history.flying) && ValidLog(s.history.dirty)
  }

  /** The database holds its base and the committed charges; a batch in transit and the
      dirty delta are exactly the charges they stand for; and memory, together with any
      row this process did not load, is all of them. */
  ghost predicate Balanced(s: State, a: Account) {
    && StoreAt(s.store, a) == Plus(StoreAt(s.history.base, a), SumFor(s.history.committed, a))
    && TransitAt(s, a) == SumFor(s.history.flying, a)
    && DirtyAt(s.cache, a) == SumFor(s.history.dirty, a)
    && (if s.cache.connected
        then Plus(SkippedAt(s, a), CacheAt(s.cache, a)) ==
          Plus(StoreAt(s.store, a), Plus(TransitAt(s, a), DirtyAt(s.cache, a)))
        else CacheAt(s.cache, a) == DirtyAt(s.cache, a))
  }

  /** No pending event means nothing unwritten, and every unwritten or stored total is cached. */
  ghost predicate Tracked(s: State) {
    && s.cache.pending == |s.history.dirty|
    && (s.cache.pending == 0 ==> s.cache.dirtyTotals == map[] && s.cache.dirtyBuckets == map[])
    && s.cache.dirtyTotals.Keys <= s.cache.totals.Keys
    && (s.transit.Some? ==> s.cache.connected && s.transit.value.pending == |s.history.flying| && s.history.flying != []
                            && s.transit.value.totals.Keys <= s.cache.totals.Keys)
    && (s.transit.None? ==> s.history.flying == [])
    && (s.cache.connected ==> s.store.totals.Keys <= s.cache.totals.Keys)
    && (!s.cache.connected ==> s.history.skipped == map[])
  }

  ghost predicate LedgerOk(s: State) {
    CountersValid(s) && Tracked(s) && forall a :: Balanced(s, a)
  }

  lemma AccountsValid(s: State, a: Account)
    requires CountersValid(s)
    ensures Valid(StoreAt(s.store, a)) && Valid(StoreAt(s.history.base, a)) && Valid(CacheAt(s.cache, a))
    ensures Valid(DirtyAt(s.cache, a)) && Valid(TransitAt(s, a)) && Valid(SkippedAt(s, a))
  {
  }

  // ---------------------------------------------------------- adding a charge

  lemma AddToAt<K>(m: map<K, Counter>, ks: set<K>, d: Counter, k: K)
    requires ValidMap(m) && Valid(d)
    ensures k in ks ==> At(AddTo(m, ks, d), k) == Plus(At(m, k), d)
    ensures k !in ks ==> At(AddTo(m, ks, d), k) == Plus(At(m, k), ZERO)
  {
    hide Plus;
    PlusZero(At(m, k));
  }

  lemma AddToValid<K>(m: map<K, Counter>, ks: set<K>, d: Counter)
    requires ValidMap(m) && Valid(d)
    ensures ValidMap(AddTo(m, ks, d))
  {
    forall k | k in AddTo(m, ks, d) ensures Valid(AddTo(m, ks, d)[k]) {
      PlusIsCommutativeMonoid(At(m, k), d, ZERO);
    }
  }

  lemma ChargeAt(c: Cache, charge: Charge, a: Account)
    requires ValidMap(c.totals) && ValidMap(c.buckets) && ValidMap(c.dirtyTotals) && ValidMap(c.dirtyBuckets)
    requires Valid(charge.delta)
    ensures CacheAt(ApplyCharge(c, charge), a) == Plus(CacheAt(c, a), Share(charge, a))
    ensures DirtyAt(ApplyCharge(c, charge), a) == Plus(DirtyAt(c, a), Share(charge, a))
  {
    hide Plus;
    var t := ApplyCharge(c, charge);
    match a {
      case Total(id) =>
        AddToAt(c.totals, {charge.id}, charge.delta, id);
        AddToAt(c.dirtyTotals, {charge.id}, charge.delta, id);
        assert id in {charge.id} <==> Hits(charge, a);
      case Bucket(k) =>
        AddToAt(c.buckets, charge.touched, charge.delta, k);
        AddToAt(c.dirtyBuckets, charge.touched, charge.delta, k);
    }
    if Hits(charge, a) {
      assert CacheAt(t, a) == Plus(CacheAt(c, a), charge.delta);
      assert DirtyAt(t, a) == Plus(DirtyAt(c, a), charge.delta);
    } else {
      assert CacheAt(t, a) == Plus(CacheAt(c, a), ZERO);
      assert DirtyAt(t, a) == Plus(DirtyAt(c, a), ZERO);
    }
  }

  /** Adding the same delta to memory and to the unwritten part keeps the balance. */
  lemma BalanceShift(skipped: Counter, cached: Counter, stored: Counter, taken: Counter, dirty: Counter, d: Counter)
    requires Valid(skipped) && Valid(cached) && Valid(stored) && Valid(taken) && Valid(dirty) && Valid(d)
    requires Plus(skipped, cached) == Plus(stored, Plus(taken, dirty))
    ensures Plus(skipped, Plus(cached, d)) == Plus(stored, Plus(taken, Plus(dirty, d)))
  {
    PlusIsCommutativeMonoid(skipped, cached, d);
    PlusIsCommutativeMonoid(taken, dirty, d);
    PlusIsCommutativeMonoid(stored, Plus(taken, dirty), d);
  }

  lemma RecordBalances(s: State, c: Charge, t: State, a: Account)
    requires LedgerOk(s) && Valid(c.delta)
    requires t.store == s.store && t.transit == s.transit && t.cache == ApplyCharge(s.cache, c)
    requires t.history == s.history.(dirty := s.history.dirty + [c])
    ensures Balanced(t, a)
  {
    hide Plus;
    assert Balanced(s, a);
    AccountsValid(s, a);
    ChargeAt(s.cache, c, a);
    SumSnoc(s.history.dirty, c, a);
    if s.cache.connected {
      BalanceShift(SkippedAt(s, a), CacheAt(s.cache, a), StoreAt(s.store, a), TransitAt(s, a), DirtyAt(s.cache, a),
        Share(c, a));
    }
  }

  lemma ChargeKeepsLedger(s: State, c: Charge, t: State)
    requires LedgerOk(s) && Valid(c.delta)
    requires t.store == s.store && t.transit == s.transit && t.cache == ApplyCharge(s.cache, c)
    requires t.history == s.history.(dirty := s.history.dirty + [c])
    ensures LedgerOk(t)
  {
    hide Plus;
    forall a ensures Balanced(t, a) {
      RecordBalances(s, c, t, a);
    }
    AddToValid(s.cache.totals, {c.id}, c.delta);
    AddToValid(s.cache.buckets, c.touched, c.delta);
    AddToValid(s.cache.dirtyTotals, {c.id}, c.delta);
    AddToValid(s.cache.dirtyBuckets, c.touched, c.delta);
  }

  lemma RecordKeepsLedger(cfg: Config, s: State, r: int, tokens: int, charged: Int64)
    requires LedgerOk(s) && r in s.requests && s.requests[r].stage.Waiting?
    ensures LedgerOk(ApplyRecord(cfg, s, r, tokens, charged))
  {
    hide Plus;
    var q, t := s.requests[r], ApplyRecord(cfg, s, r, tokens, charged);
    if q.id == "" {
      forall a ensures Balanced(t, a) {
        assert Balanced(s, a);
      }
    } else {
      ChargeKeepsLedger(s, RequestCharge(q.id, tokens, charged, q.stage.at, cfg.offset, q.stage.bindings), t);
    }
  }

  // --------------------------------------------------------------- bootstrap

  lemma BootstrapBalances(s: State, k: LegacyKey, a: Account)
    requires LedgerOk(s)
    ensures Balanced(ApplyBootstrap(s, k), a)
  {
    hide Plus;
    assert Balanced(s, a);
    if k.id !in s.cache.totals && a == Total(k.id) {
      var total := Counter(k.usedRequests, k.usedTokens, 0);
      var charge := Charge(k.id, total, {});
      assert DirtyAt(s.cache, a) == ZERO && TransitAt(s, a) == ZERO;
      SumSnoc(s.history.dirty, charge, a);
      PlusZero(total);
      PlusZero(ZERO);
    } else if k.id !in s.cache.totals && !Unused(k) {
      var charge := Charge(k.id, Counter(k.usedRequests, k.usedTokens, 0), {});
      SumSnoc(s.history.dirty, charge, a);
      SumValid(s.history.dirty, a);
      PlusZero(SumFor(s.history.dirty, a));
    }
  }

  lemma BootstrapTracks(s: State, k: LegacyKey)
    requires CountersValid(s) && Tracked(s)
    ensures CountersValid(ApplyBootstrap(s, k)) && Tracked(ApplyBootstrap(s, k))
  {
    var t := ApplyBootstrap(s, k);
    var total := Counter(k.usedRequests, k.usedTokens, 0);
    assert Valid(total);
    if k.id !in s.cache.totals {
      assert t.cache.totals == s.cache.totals[k.id := total];
    }
  }

  lemma BootstrapKeepsLedger(s: State, k: LegacyKey)
    requires LedgerOk(s)
    ensures LedgerOk(ApplyBootstrap(s, k))
  {
    hide Plus;
    BootstrapTracks(s, k);
    forall a ensures Balanced(ApplyBootstrap(s, k), a) {
      BootstrapBalances(s, k, a);
    }
  }

  // ------------------------------------------------------------------- flush

  /** Taking the dirty delta moves it into transit whole; a flush that returns early
      because nothing is pending drops nothing. */
  lemma TakeKeepsLedger(s: State)
    requires LedgerOk(s) && s.cache.connected && s.transit.None?
    ensures LedgerOk(ApplyTake(s))
  {
    hide Plus;
    var t := ApplyTake(s);
    forall a ensures Balanced(t, a) {
      assert Balanced(s, a);
      AccountsValid(s, a);
      PlusZero(DirtyAt(s.cache, a));
      PlusZero(ZERO);
    }
  }

  lemma UpsertIsMerge<K>(table: map<K, Counter>, rows: map<K, Counter>, k: K)
    requires ValidMap(table) && ValidMap(rows)
    ensures At(Upsert(table, rows), k) == Plus(At(table, k), At(rows, k))
  {
    hide Plus;
    if k !in rows {
      assert At(Upsert(table, rows), k) == At(table, k);
      PlusZero(At(table, k));
    } else if k in table {
      assert At(Upsert(table, rows), k) == SqlPlus(table[k], rows[k]);
      PlusIsCommutativeMonoid(table[k], rows[k], ZERO);
    } else {
      assert At(Upsert(table, rows), k) == rows[k];
      PlusZero(rows[k]);
    }
  }

  lemma UpsertValid<K>(table: map<K, Counter>, rows: map<K, Counter>)
    requires ValidMap(table) && ValidMap(rows)
    ensures ValidMap(Upsert(table, rows))
  {
    forall k | k in Upsert(table, rows) ensures Valid(Upsert(table, rows)[k]) {
      PlusIsCommutativeMonoid(At(table, k), At(rows, k), ZERO);
    }
  }

  lemma CommitBalances(s: State, a: Account)
    requires LedgerOk(s) && s.transit.Some?
    ensures Balanced(ApplyCommit(s), a)
  {
    hide Plus;
    var b, base := s.transit.value, StoreAt(s.history.base, a);
    var committed, flying, dirty := SumFor(s.history.committed, a), SumFor(s.history.flying, a), DirtyAt(s.cache, a);
    assert Balanced(s, a);
    AccountsValid(s, a);
    match a {
      case Total(id) => UpsertIsMerge(s.store.totals, b.totals, id);
      case Bucket(k) => UpsertIsMerge(s.store.buckets, b.buckets, k);
    }
    assert StoreAt(CommittedStore(s.store, b), a) == Plus(StoreAt(s.store, a), flying);
    SumConcat(s.history.committed, s.history.flying, a);
    SumValid(s.history.committed, a);
    PlusIsCommutativeMonoid(base, committed, flying);
    PlusIsCommutativeMonoid(StoreAt(s.store, a), flying, dirty);
    PlusZero(dirty);
  }

  lemma CommitKeepsLedger(s: State)
    requires LedgerOk(s) && s.transit.Some?
    ensures LedgerOk(ApplyCommit(s))
  {
    hide Plus;
    var b := s.transit.value;
    forall a ensures Balanced(ApplyCommit(s), a) {
      CommitBalances(s, a);
    }
    UpsertValid(s.store.totals, b.totals);
    UpsertValid(s.store.buckets, b.buckets);
  }

  lemma FailBalances(s: State, a: Account)
    requires LedgerOk(s) && s.transit.Some?
    ensures Balanced(ApplyFail(s), a)
  {
    hide Plus;
    var b := s.transit.value;
    assert Balanced(s, a);
    AccountsValid(s, a);
    match a {
      case Total(id) => MergeAt(s.cache.dirtyTotals, b.totals, id);
      case Bucket(k) => MergeAt(s.cache.dirtyBuckets, b.buckets, k);
    }
    SumConcat(s.history.dirty, s.history.flying, a);
    PlusIsCommutativeMonoid(TransitAt(s, a), DirtyAt(s.cache, a), ZERO);
    PlusIsCommutativeMonoid(DirtyAt(s.cache, a), TransitAt(s, a), ZERO);
    PlusZero(Plus(DirtyAt(s.cache, a), TransitAt(s, a)));
  }

  lemma FailKeepsLedger(s: State)
    requires LedgerOk(s) && s.transit.Some?
    ensures LedgerOk(ApplyFail(s))
  {
    hide Plus;
    var b := s.transit.value;
    forall a ensures Balanced(ApplyFail(s), a) {
      FailBalances(s, a);
    }
    MergeValid(s.cache.dirtyTotals, b.totals);
    MergeValid(s.cache.dirtyBuckets, b.buckets);
  }

  // ----------------------------------------------------------------- connect

  lemma OverlayAt<K>(memory: map<K, Counter>, rows: map<K, Counter>, dirty: map<K, Counter>, k: K)
    requires ValidMap(memory) && ValidMap(rows) && ValidMap(dirty)
    requires At(memory, k) == At(dirty, k)
    ensures At(Overlay(memory, rows, dirty), k) == Plus(At(rows, k), At(dirty, k))
  {
    hide Plus;
    if k in rows {
      assert At(Overlay(memory, rows, dirty), k) == Plus(rows[k], At(dirty, k));
    } else {
      assert At(Overlay(memory, rows, dirty), k) == At(dirty, k);
      PlusZero(At(dirty, k));
    }
  }

  lemma OverlayValid<K>(memory: map<K, Counter>, rows: map<K, Counter>, dirty: map<K, Counter>)
    requires ValidMap(memory) && ValidMap(rows) && ValidMap(dirty)
    ensures ValidMap(Overlay(memory, rows, dirty))
  {
    forall k | k in Overlay(memory, rows, dirty) ensures Valid(Overlay(memory, rows, dirty)[k]) {
      if k in rows {
        PlusIsCommutativeMonoid(rows[k], At(dirty, k), ZERO);
      }
    }
  }

  lemma ConnectBalances(cfg: Config, s: State, now: int, a: Account)
    requires LedgerOk(s) && !s.cache.connected
    ensures Balanced(ApplyConnect(cfg, s, now), a)
  {
    hide Plus;
    var t := ApplyConnect(cfg, s, now);
    assert Balanced(s, a);
    AccountsValid(s, a);
    var dirty := DirtyAt(s.cache, a);
    PlusZero(dirty);
    match a {
      case Total(id) =>
        OverlayAt(s.cache.totals, s.store.totals, s.cache.dirtyTotals, id);
        PlusIsCommutativeMonoid(StoreAt(s.store, a), dirty, ZERO);
        PlusZero(Plus(StoreAt(s.store, a), dirty));
      case Bucket(k) =>
        var loaded, skipped := LoadedBuckets(s.store, now, cfg.offset), SkippedBuckets(s.store, now, cfg.offset);
        OverlayAt(s.cache.buckets, loaded, s.cache.dirtyBuckets, k);
        PlusIsCommutativeMonoid(At(skipped, k), At(loaded, k), dirty);
        PlusZero(At(skipped, k));
        PlusZero(At(loaded, k));
        assert Plus(At(skipped, k), At(loaded, k)) == StoreAt(s.store, a);
    }
  }

  lemma ConnectKeepsLedger(cfg: Config, s: State, now: int)
    requires LedgerOk(s)
    ensures LedgerOk(ApplyConnect(cfg, s, now))
  {
    hide Plus;
    if !s.cache.connected {
      forall a ensures Balanced(ApplyConnect(cfg, s, now), a) {
        ConnectBalances(cfg, s, now, a);
      }
      OverlayValid(s.cache.totals, s.store.totals, s.cache.dirtyTotals);
      OverlayValid(s.cache.buckets, LoadedBuckets(s.store, now, cfg.offset), s.cache.dirtyBuckets);
    }
  }

  // --------------------------------------------------------- admit and crash

  lemma AdmissionBalances(
    s: State, id: Id, limits: seq<Limit>, now: int, bindings: map<Window, int>, changes: map<WindowKey, Span>, r: int,
    a: Account)
    requires LedgerOk(s) && WindowsOk(s) && IsAdmission(s, id, limits, now, bindings, changes)
    ensures Balanced(ApplyAdmission(s, r, now, bindings, changes), a)
  {
    hide Plus;
    var t := ApplyAdmission(s, r, now, bindings, changes);
    assert Balanced(s, a);
    if a.Bucket? && a.key in OpenedKeys(changes) {
      FreshBuckets(s, id, limits, now, bindings, changes, a.key);
      PlusZero(ZERO);
    } else {
      assert StoreAt(t.store, a) == StoreAt(s.store, a);
      assert StoreAt(t.history.base, a) == StoreAt(s.history.base, a);
      assert SkippedAt(t, a) == SkippedAt(s, a);
    }
  }

  lemma AdmissionKeepsLedger(
    s: State, id: Id, limits: seq<Limit>, now: int, bindings: map<Window, int>, changes: map<WindowKey, Span>, r: int)
    requires LedgerOk(s) && WindowsOk(s) && IsAdmission(s, id, limits, now, bindings, changes)
    ensures LedgerOk(ApplyAdmission(s, r, now, bindings, changes))
  {
    hide Plus;
    forall a ensures Balanced(ApplyAdmission(s, r, now, bindings, changes), a) {
      AdmissionBalances(s, id, limits, now, bindings, changes, r, a);
    }
  }

  lemma CrashKeepsLedger(s: State)
    requires LedgerOk(s)
    ensures LedgerOk(ApplyCrash(s))
  {
    hide Plus;
    forall a ensures Balanced(ApplyCrash(s), a) {
      assert Balanced(s, a);
    }
  }

  lemma QuietKeepsLedger(s: State, t: State)
    requires LedgerOk(s)
    requires t.store == s.store && t.cache == s.cache && t.transit == s.transit && t.history == s.history
    ensures LedgerOk(t)
  {
    hide Plus;
    forall a ensures Balanced(t, a) {
      assert Balanced(s, a);
    }
  }

  // ------------------------------------------------------------------- runs

  /** Charges are 64-bit integers. */
  predicate MachineStep(e: Step) {
    e.Record? ==> MIN_INT64 <= e.charged <= MAX_INT64
  }

  ghost predicate Inv(s: State) {
    WindowsOk(s) && LedgerOk(s)
  }

  lemma InitialInv(s: State)
    requires Initial(s)
    ensures Inv(s)
  {
    hide Plus;
    InitialWindows(s);
    forall a ensures Balanced(s, a) {
      PlusZero(StoreAt(s.store, a));
    }
  }

  lemma AdmitKeepsLedger(cfg: Config, s: State, r: int, now: int, writable: bool)
    requires ValidConfig(cfg) && Inv(s) && Enabled(cfg, s, AdmitStep(r, now, writable))
    ensures LedgerOk(ApplyAdmit(cfg, s, r, now, writable))
  {
    hide Plus, Admit;
    var key := cfg.keys[s.requests[r].id];
    AdmittedIsAdmission(s, key, now, cfg.offset, writable);
    match Admit(s.cache, key, now, cfg.offset, writable) {
      case Refused(_) =>
      case Admitted(bindings, changes) =>
        AdmissionKeepsLedger(s, key.id, Normalize(key.limits).limits, now, bindings, changes, r);
    }
  }

  lemma StepKeepsInv(cfg: Config, s: State, e: Step)
    requires ValidConfig(cfg) && Inv(s) && Enabled(cfg, s, e) && MachineStep(e)
    ensures Inv(Apply(cfg, s, e))
  {
    hide Plus;
    StepKeepsWindows(cfg, s, e);
    match e
    case Begin(_, _) => QuietKeepsLedger(s, Apply(cfg, s, e));
    case AdmitStep(r, now, writable) => AdmitKeepsLedger(cfg, s, r, now, writable);
    case Record(r, tokens, charged) => RecordKeepsLedger(cfg, s, r, tokens, charged);
    case End(_) => QuietKeepsLedger(s, Apply(cfg, s, e));
    case Take => TakeKeepsLedger(s);
    case Commit => CommitKeepsLedger(s);
    case Fail => FailKeepsLedger(s);
    case Connect(now) => ConnectKeepsLedger(cfg, s, now);
    case Bootstrap(k) => BootstrapKeepsLedger(s, k);
    case Crash => CrashKeepsLedger(s);
  }

  lemma {:induction false} RunKeepsInv(cfg: Config, s: State, steps: seq<Step>)
    requires ValidConfig(cfg) && Inv(s) && Feasible(cfg, s, steps)
    requires forall i :: 0 <= i < |steps| ==> MachineStep(steps[i])
    ensures Inv(Run(cfg, s, steps))
    decreases |steps|
  {
    hide Plus;
    if steps != [] {
      StepKeepsInv(cfg, s, steps[0]);
      RunKeepsInv(cfg, Apply(cfg, s, steps[0]), steps[1..]);
    }
  }
}
