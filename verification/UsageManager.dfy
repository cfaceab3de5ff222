/** The usage manager as it updates its maps in place. Every method is proved against the
    function of the ledger that the step system uses. */
module Manager {
  import opened Counters
  import opened Calendar
  import opened Ledger
  import opened Options
  import opened RateLimits

  // ---------------------------------------------------- loops over map entries

  lemma UpsertOne<K>(table: map<K, Counter>, rows: map<K, Counter>, rest: set<K>, k: K)
    requires k in rest && rest <= rows.Keys
    ensures var done := Upsert(table, rows - rest);
      Upsert(table, rows - (rest - {k})) == done[k := if k in done then SqlPlus(done[k], rows[k]) else rows[k]]
  {
    hide SqlPlus;
  }

  lemma UpsertNone<K>(table: map<K, Counter>, rows: map<K, Counter>)
    ensures Upsert(table, rows - rows.Keys) == table
  {
    assert rows - rows.Keys == map[];
  }

  /** One INSERT ... ON CONFLICT per row, in any order; calls is how many database calls
      still succeed. */
  method WriteRows<K(==)>(
    table: map<K, Counter>, rows: map<K, Counter>, calls: nat)
    returns (written: map<K, Counter>, left: nat, ok: bool)
    ensures ok <==> |rows| <= calls
    ensures ok ==> written == Upsert(table, rows) && left == calls - |rows|
  {
    hide Upsert, SqlPlus;
    written, left, ok := table, calls, true;
    var rest := rows.Keys;
    UpsertNone(table, rows);
    while rest != {}
      invariant rest <= rows.Keys
      invariant left == calls - (|rows| - |rest|)
      invariant written == Upsert(table, rows - rest)
      decreases rest
    {
      if left == 0 {
        ok := false;
        return;
      }
      var k :| k in rest;
      UpsertOne(table, rows, rest, k);
      written := written[k := if k in written then SqlPlus(written[k], rows[k]) else rows[k]];
      rest, left := rest - {k}, left - 1;
    }
    assert rows - {} == rows;
  }

  /** Adding every row to the entry of the same key. */
  method MergeRows<K(==)>(current: map<K, Counter>, rows: map<K, Counter>) returns (merged: map<K, Counter>)
    ensures merged == Merge(current, rows)
  {
    hide Plus;
    merged := current;
    var rest := rows.Keys;
    while rest != {}
      invariant rest <= rows.Keys
      invariant merged.Keys == current.Keys + (rows.Keys - rest)
      invariant forall k :: k in merged ==>
        merged[k] == if k in rows.Keys - rest then Plus(At(current, k), rows[k]) else current[k]
      decreases rest
    {
      var k :| k in rest;
      merged := merged[k := Plus(At(merged, k), rows[k])];
      rest := rest - {k};
    }
  }

  /** Loaded rows replace cached entries, each with its unwritten delta on top. */
  method OverlayRows<K(==)>(
    memory: map<K, Counter>, rows: map<K, Counter>, dirty: map<K, Counter>)
    returns (overlaid: map<K, Counter>)
    ensures overlaid == Overlay(memory, rows, dirty)
  {
    hide Plus;
    overlaid := memory;
    var rest := rows.Keys;
    while rest != {}
      invariant rest <= rows.Keys
      invariant overlaid.Keys == memory.Keys + (rows.Keys - rest)
      invariant forall k :: k in overlaid ==>
        overlaid[k] == if k in rows.Keys - rest then Plus(rows[k], At(dirty, k)) else memory[k]
      decreases rest
    {
      var k :| k in rest;
      overlaid := overlaid[k := Plus(rows[k], At(dirty, k))];
      rest := rest - {k};
    }
  }

  lemma AllSupported(w: Window)
    ensures w in SUPPORTED
  {
    assert SUPPORTED[Rank(w)] == w;
  }

  /** The scan of usage_buckets at connect: calendar rows of the current window and
      first-use rows of a stored window. */
  method LoadBuckets(s: Store, now: int, offset: int) returns (loaded: map<BucketKey, Counter>)
    ensures loaded == LoadedBuckets(s, now, offset)
  {
    hide Bounds;
    var currentStarts: map<Window, int> := map[];
    for i := 0 to |SUPPORTED|
      invariant currentStarts.Keys == set w | w in SUPPORTED[..i]
      invariant forall w :: w in currentStarts ==> currentStarts[w] == Bounds(w, now, offset).start
    {
      currentStarts := currentStarts[SUPPORTED[i] := Bounds(SUPPORTED[i], now, offset).start];
    }
    assert SUPPORTED[..|SUPPORTED|] == SUPPORTED;
    loaded := map[];
    var rest := s.buckets.Keys;
    while rest != {}
      invariant rest <= s.buckets.Keys
      invariant loaded == s.buckets - (rest + set k | k in s.buckets && !Loads(s, k, now, offset))
      decreases rest
    {
      var k :| k in rest;
      rest := rest - {k};
      AllSupported(k.window);
      var joined := WindowKey(k.id, k.window) in s.windows && s.windows[WindowKey(k.id, k.window)].start == k.start;
      if (!Independent(k.window) || joined) && !(!Independent(k.window) && currentStarts[k.window] != k.start) {
        assert Loads(s, k, now, offset);
        loaded := loaded[k := s.buckets[k]];
      } else {
        assert !Loads(s, k, now, offset);
      }
    }
  }

  lemma AddToOne<K>(m: map<K, Counter>, ks: set<K>, d: Counter, k: K)
    requires k !in ks
    ensures AddTo(m, ks + {k}, d) == AddTo(m, ks, d)[k := Plus(At(AddTo(m, ks, d), k), d)]
  {
    hide Plus;
  }

  lemma AddToNone<K>(m: map<K, Counter>, d: Counter)
    ensures AddTo(m, {}, d) == m
  {
  }

  lemma AddToSingle<K>(m: map<K, Counter>, d: Counter, k: K)
    ensures AddTo(m, {k}, d) == m[k := Plus(At(m, k), d)]
  {
    hide Plus;
  }

  /** One request more, its tokens, and its charge if that is not negative. */
  lemma OneMore(x: Counter, tokens: int, charged: int)
    ensures Plus(x, Counter(1, tokens, Max(0, charged))) ==
      Counter(x.requests + 1, x.tokens + tokens, AddCost(x.cost, charged))
  {
  }

  /** The buckets touched by the first n windows. */
  function TouchedBy(n: nat, id: Id, at: int, offset: int, bindings: map<Window, int>): set<BucketKey>
    requires n <= |SUPPORTED|
  {
    set w | w in SUPPORTED[..n] && (!Independent(w) || w in bindings) ::
      BucketKey(id, w, BucketStart(w, at, offset, bindings))
  }

  lemma TouchedByNext(n: nat, id: Id, at: int, offset: int, bindings: map<Window, int>)
    requires n < |SUPPORTED|
    ensures var w := SUPPORTED[n]; var k := BucketKey(id, w, BucketStart(w, at, offset, bindings));
      && k !in TouchedBy(n, id, at, offset, bindings)
      && (!Independent(w) || w in bindings ==>
        TouchedBy(n + 1, id, at, offset, bindings) == TouchedBy(n, id, at, offset, bindings) + {k})
      && (Independent(w) && w !in bindings ==>
        TouchedBy(n + 1, id, at, offset, bindings) == TouchedBy(n, id, at, offset, bindings))
  {
    hide BucketStart;
    assert SUPPORTED[..n + 1] == SUPPORTED[..n] + [SUPPORTED[n]];
  }

  lemma TouchedByAll(id: Id, at: int, offset: int, bindings: map<Window, int>)
    ensures TouchedBy(0, id, at, offset, bindings) == {}
    ensures TouchedBy(|SUPPORTED|, id, at, offset, bindings) == Touched(id, at, offset, bindings)
  {
    assert SUPPORTED[..|SUPPORTED|] == SUPPORTED;
  }

  lemma OpenOne(changes: map<WindowKey, Span>, rest: set<WindowKey>, wk: WindowKey)
    requires wk in rest && rest <= changes.Keys
    ensures OpenedKeys(changes - (rest - {wk})) ==
      OpenedKeys(changes - rest) + {BucketKey(wk.id, wk.window, changes[wk].start)}
    ensures changes - (rest - {wk}) == (changes - rest)[wk := changes[wk]]
  {
    var key := BucketKey(wk.id, wk.window, changes[wk].start);
    forall k ensures k in OpenedKeys(changes - (rest - {wk})) <==> k in OpenedKeys(changes - rest) + {key} {
      if k in OpenedKeys(changes - rest) {
        var x :| x in changes - rest && k == BucketKey(x.id, x.window, changes[x].start);
        assert x in changes - (rest - {wk});
      }
      assert wk in changes - (rest - {wk});
    }
  }

  lemma NothingOpened(changes: map<WindowKey, Span>)
    ensures OpenedKeys(changes - changes.Keys) == {} && changes - {} == changes
  {
  }

  lemma OpenNothing(c: Cache, s: Store)
    ensures OpenedCache(c, map[]) == c && OpenedStore(s, map[]) == s
  {
    assert OpenedKeys(map[]) == {};
  }

  /** Each change replaces a window and deletes the row left at its start. */
  method StageWindows(windows: map<WindowKey, Span>, buckets: map<BucketKey, Counter>, changes: map<WindowKey, Span>)
    returns (newWindows: map<WindowKey, Span>, newBuckets: map<BucketKey, Counter>)
    ensures newWindows == windows + changes && newBuckets == buckets - OpenedKeys(changes)
  {
    hide OpenedKeys;
    newWindows, newBuckets := windows, buckets;
    var rest := changes.Keys;
    NothingOpened(changes);
    while rest != {}
      invariant rest <= changes.Keys
      invariant newWindows == windows + (changes - rest)
      invariant newBuckets == buckets - OpenedKeys(changes - rest)
      decreases rest
    {
      var wk :| wk in rest;
      OpenOne(changes, rest, wk);
      newWindows := newWindows[wk := changes[wk]];
      newBuckets := newBuckets - {BucketKey(wk.id, wk.window, changes[wk].start)};
      rest := rest - {wk};
    }
  }

  /** What an admission decides once its locks are held. */
  function Decide(c: Cache, key: ApiKey, limits: seq<Limit>, now: int, offset: int, writable: bool): Admission {
    if KeyProblem(key, EffectiveUse(c, key), now).Some? then Refused(KeyProblem(key, EffectiveUse(c, key), now).value)
    else if FirstViolation(Statuses(c, key.id, limits, now, offset)).Some?
    then Refused(Limited(FirstViolation(Statuses(c, key.id, limits, now, offset)).value))
    else if Changes(c, key.id, limits, now) != map[] && !writable then Refused(WriteFailed)
    else Admitted(Bindings(c, key.id, limits, now), Changes(c, key.id, limits, now))
  }

  lemma AdmitDecides(c: Cache, key: ApiKey, limits: seq<Limit>, now: int, offset: int, writable: bool)
    requires Normalize(key.limits) == Limits(limits) && (HasIndependent(limits) ==> c.connected)
    ensures Ledger.Admit(c, key, now, offset, writable) == Decide(c, key, limits, now, offset, writable)
  {
  }

  lemma BoundNone(c: Cache, id: Id, limits: seq<Limit>, now: int)
    ensures IndependentWindows(limits[..0]) == {} && OpeningKeys(c, id, limits[..0], now) == {}
  {
  }

  lemma BoundAll(
    c: Cache, id: Id, limits: seq<Limit>, now: int, bindings: map<Window, int>, changes: map<WindowKey, Span>)
    requires bindings.Keys == IndependentWindows(limits[..|limits|])
    requires forall w :: w in bindings ==> bindings[w] == CurrentWindow(c, id, w, now).start
    requires changes.Keys == OpeningKeys(c, id, limits[..|limits|], now)
    requires forall wk :: wk in changes ==> changes[wk] == Span(now, now + Length(wk.window))
    ensures bindings == Bindings(c, id, limits, now) && changes == Changes(c, id, limits, now)
  {
    hide IndependentWindows, OpeningKeys, CurrentWindow;
    assert limits[..|limits|] == limits;
  }

  /** The cache an admission decides on: only first-use limits make it connect first. */
  function ReadyCache(c: Cache, s: Store, limits: seq<Limit>, now: int, offset: int, readable: bool): Cache {
    if HasIndependent(limits) && (c.connected || readable) then ConnectedCache(c, s, now, offset) else c
  }

  lemma AdmitInvalid(c: Cache, key: ApiKey, now: int, offset: int, writable: bool)
    requires Normalize(key.limits).Invalid?
    ensures Ledger.Admit(c, key, now, offset, writable) == Refused(BadLimits(Normalize(key.limits).error))
  {
  }

  lemma AdmitUnavailable(c: Cache, key: ApiKey, limits: seq<Limit>, now: int, offset: int, writable: bool)
    requires Normalize(key.limits) == Limits(limits) && HasIndependent(limits) && !c.connected
    ensures Ledger.Admit(c, key, now, offset, writable) == Refused(UsageUnavailable)
  {
  }

  lemma ConnectedStays(c: Cache, s: Store, now: int, offset: int)
    ensures ConnectedCache(c, s, now, offset).connected
    ensures c.connected ==> ConnectedCache(c, s, now, offset) == c
  {
  }

  lemma MergeIntoNothing<K>(rows: map<K, Counter>)
    requires ValidMap(rows)
    ensures Merge(map[], rows) == rows
  {
    hide Plus;
    forall k | k in rows ensures Merge(map[], rows)[k] == rows[k] {
      PlusZero(rows[k]);
    }
  }

  /** A failed flush that nothing interleaves with leaves the manager exactly as it was. */
  lemma FailedFlushIsNoChange(c: Cache)
    requires ValidMap(c.dirtyTotals) && ValidMap(c.dirtyBuckets)
    ensures RestoredCache(TakenCache(c), TakenBatch(c)) == c
  {
    MergeIntoNothing(c.dirtyTotals);
    MergeIntoNothing(c.dirtyBuckets);
  }

  /** What an uninterrupted flush makes of memory and database; calls is the number of database
      calls that succeed, and idle says that there was nothing to write. */
  datatype FlushResult = FlushResult(ok: bool, idle: bool, cache: Cache, store: Store)

  function FlushOutcome(c: Cache, s: Store, now: int, offset: int, readable: bool, calls: nat): FlushResult {
    if !c.connected && !readable then FlushResult(false, false, c, s)
    else
      var d := ConnectedCache(c, s, now, offset);
      if d.pending == 0 then FlushResult(true, true, TakenCache(d), s)
      else if |d.dirtyTotals| + |d.dirtyBuckets| + 2 <= calls
      then FlushResult(true, false, TakenCache(d), CommittedStore(s, TakenBatch(d)))
      else FlushResult(false, false, RestoredCache(TakenCache(d), TakenBatch(d)), s)
  }

  datatype AdmitResult = AdmitResult(decision: Admission, cache: Cache, store: Store)

  /** What an uninterrupted admission makes of them: a connect, if one is needed, then the
      decision, and the windows of an admitted request. */
  function AdmitOutcome(
    c: Cache, s: Store, key: ApiKey, now: int, clock: int, offset: int, readable: bool, calls: nat): AdmitResult {
    var n := Normalize(key.limits);
    var d := if n.Limits? then ReadyCache(c, s, n.limits, clock, offset, readable) else c;
    var decision := Ledger.Admit(d, key, now, offset, Writable(d, key, now, calls));
    AdmitResult(decision, if decision.Admitted? then OpenedCache(d, decision.changes) else d,
                if decision.Admitted? then OpenedStore(s, decision.changes) else s)
  }

  /** Enough database calls succeed for the admission's transaction. */
  predicate Writable(c: Cache, key: ApiKey, now: int, calls: nat) {
    match Normalize(key.limits)
    case Invalid(_) => 2 <= calls
    case Limits(limits) => 2 * |Changes(c, key.id, limits, now)| + 2 <= calls
  }

  // ------------------------------------------------------------------ classes

  /** The usage database. A transaction works on a copy and publishes it at commit. */
  class UsageDatabase {
    var totals: map<Id, Counter>
    var buckets: map<BucketKey, Counter>
    var windows: map<WindowKey, Span>

    function View(): Store
      reads this
    {
      Store(totals, buckets, windows)
    }

    constructor (s: Store)
      ensures View() == s
    {
      totals, buckets, windows := s.totals, s.buckets, s.windows;
    }
  }

  class UsageManager {
    const disk: UsageDatabase
    const offset: int
    var connected: bool
    var totals: map<Id, Counter>
    var buckets: map<BucketKey, Counter>
    var windows: map<WindowKey, Span>
    var dirtyTotals: map<Id, Counter>
    var dirtyBuckets: map<BucketKey, Counter>
    var pendingEvents: int
    var degraded: bool

    function View(): Cache
      reads this
    {
      Cache(connected, totals, buckets, windows, dirtyTotals, dirtyBuckets, pendingEvents)
    }

    /** A manager starts even if its database cannot be read; it then counts in memory. */
    constructor (disk: UsageDatabase, offset: int, now: int, readable: bool)
      ensures this.disk == disk && this.offset == offset
      ensures View() == if readable then ConnectedCache(EMPTY_CACHE, disk.View(), now, offset) else EMPTY_CACHE
      ensures degraded == !readable
    {
      this.disk, this.offset := disk, offset;
      connected, totals, buckets, windows := false, map[], map[], map[];
      dirtyTotals, dirtyBuckets, pendingEvents, degraded := map[], map[], 0, false;
      new;
      var ok := Connect(now, readable);
      if !ok {
        degraded := true;
      }
    }

    method Connect(now: int, readable: bool) returns (ok: bool)
      modifies this
      ensures ok == (old(connected) || readable) && degraded == old(degraded)
      ensures View() == if ok then ConnectedCache(old(View()), disk.View(), now, offset) else old(View())
    {
      if connected {
        return true;
      }
      if !readable {
        return false;
      }
      var persisted := LoadBuckets(disk.View(), now, offset);
      windows := disk.windows;
      totals := OverlayRows(totals, disk.totals, dirtyTotals);
      buckets := OverlayRows(buckets, persisted, dirtyBuckets);
      connected := true;
      ok := true;
    }

    method Bootstrap(keys: seq<LegacyKey>)
      modifies this
      ensures View() == BootstrapCache(old(View()), keys) && degraded == old(degraded)
    {
      hide BootstrapOne;
      for i := 0 to |keys|
        invariant BootstrapCache(View(), keys[i..]) == BootstrapCache(old(View()), keys)
        invariant degraded == old(degraded)
      {
        assert keys[i..][0] == keys[i] && keys[i..][1..] == keys[i + 1..];
        BootstrapKey(keys[i]);
      }
      assert keys[|keys|..] == [];
    }

    method BootstrapKey(key: LegacyKey)
      modifies this
      ensures View() == BootstrapOne(old(View()), key) && degraded == old(degraded)
    {
      if key.id in totals {
        return;
      }
      var total := Counter(key.usedRequests, key.usedTokens, 0);
      totals := totals[key.id := total];
      if key.usedRequests == 0 && key.usedTokens == 0 && !key.everUsed {
        return;
      }
      dirtyTotals := dirtyTotals[key.id := total];
      pendingEvents := pendingEvents + 1;
    }

    method Record(id: Id, requestTokens: int, responseTokens: int, charged: int, at: int, bindings: map<Window, int>)
      modifies this
      ensures View() == RecordCache(old(View()), id, requestTokens + responseTokens, charged, at, offset, bindings)
      ensures degraded == old(degraded)
    {
      if id == "" {
        return;
      }
      hide AddTo, Plus, AddCost, TouchedBy, Bounds;
      var tokens := requestTokens + responseTokens;
      ghost var delta := Counter(1, tokens, Max(0, charged));

      var total := At(totals, id);
      totals := totals[id := Counter(total.requests + 1, total.tokens + tokens, AddCost(total.cost, charged))];
      var unwritten := At(dirtyTotals, id);
      dirtyTotals :=
        dirtyTotals[id := Counter(unwritten.requests + 1, unwritten.tokens + tokens, AddCost(unwritten.cost, charged))];
      OneMore(total, tokens, charged);
      OneMore(unwritten, tokens, charged);
      AddToSingle(old(totals), delta, id);
      AddToSingle(old(dirtyTotals), delta, id);
      ChargeBuckets(id, tokens, charged, at, bindings);
      pendingEvents := pendingEvents + 1;
    }

    method ChargeBuckets(id: Id, tokens: int, charged: int, at: int, bindings: map<Window, int>)
      modifies this`buckets, this`dirtyBuckets
      ensures var delta := Counter(1, tokens, Max(0, charged));
        && buckets == AddTo(old(buckets), Touched(id, at, offset, bindings), delta)
        && dirtyBuckets == AddTo(old(dirtyBuckets), Touched(id, at, offset, bindings), delta)
    {
      hide AddTo, Plus, AddCost, TouchedBy, Bounds;
      ghost var delta := Counter(1, tokens, Max(0, charged));
      TouchedByAll(id, at, offset, bindings);
      AddToNone(buckets, delta);
      AddToNone(dirtyBuckets, delta);
      for i := 0 to |SUPPORTED|
        invariant buckets == AddTo(old(buckets), TouchedBy(i, id, at, offset, bindings), delta)
        invariant dirtyBuckets == AddTo(old(dirtyBuckets), TouchedBy(i, id, at, offset, bindings), delta)
      {
        var window := SUPPORTED[i];
        var start := Bounds(window, at, offset).start;
        ghost var touched := TouchedBy(i, id, at, offset, bindings);
        TouchedByNext(i, id, at, offset, bindings);
        if Independent(window) {
          if window !in bindings {
            continue;
          }
          start := bindings[window];
        }
        var key := BucketKey(id, window, start);
        AddToOne(old(buckets), touched, delta, key);
        AddToOne(old(dirtyBuckets), touched, delta, key);
        ChargeOne(key, tokens, charged);
      }
    }

    /** The same addition to a bucket and to its unwritten part. */
    method ChargeOne(key: BucketKey, tokens: int, charged: int)
      modifies this`buckets, this`dirtyBuckets
      ensures var delta := Counter(1, tokens, Max(0, charged));
        && buckets == old(buckets)[key := Plus(At(old(buckets), key), delta)]
        && dirtyBuckets == old(dirtyBuckets)[key := Plus(At(old(dirtyBuckets), key), delta)]
    {
      var value := At(buckets, key);
      buckets := buckets[key := Counter(value.requests + 1, value.tokens + tokens, AddCost(value.cost, charged))];
      var dirty := At(dirtyBuckets, key);
      dirtyBuckets :=
        dirtyBuckets[key := Counter(dirty.requests + 1, dirty.tokens + tokens, AddCost(dirty.cost, charged))];
    }

    method TakeDirty() returns (batch: Batch)
      modifies this
      ensures batch == TakenBatch(old(View())) && View() == TakenCache(old(View())) && degraded == old(degraded)
    {
      batch := Batch(dirtyTotals, dirtyBuckets, pendingEvents);
      dirtyTotals, dirtyBuckets, pendingEvents := map[], map[], 0;
    }

    method RestoreDirty(batch: Batch)
      modifies this
      ensures View() == RestoredCache(old(View()), batch) && degraded == old(degraded)
    {
      dirtyTotals := MergeRows(dirtyTotals, batch.totals);
      dirtyBuckets := MergeRows(dirtyBuckets, batch.buckets);
      pendingEvents := pendingEvents + batch.pending;
    }

    /** The transaction of a flush: one call to begin, one for each row, one to commit. */
    method WriteBatch(batch: Batch, calls: nat) returns (ok: bool)
      modifies disk
      ensures ok <==> |batch.totals| + |batch.buckets| + 2 <= calls
      ensures disk.View() == if ok then CommittedStore(old(disk.View()), batch) else old(disk.View())
    {
      if calls == 0 {
        return false;
      }
      var newTotals, left, wrote := WriteRows(disk.totals, batch.totals, calls - 1);
      if !wrote {
        return false;
      }
      var newBuckets, spare, wroteAll := WriteRows(disk.buckets, batch.buckets, left);
      if !wroteAll || spare == 0 {
        return false;
      }
      disk.totals, disk.buckets := newTotals, newBuckets;
      ok := true;
    }

    /** A flush that nothing interrupts: the delta is written whole and once, or all of it
        is given back. */
    method Flush(now: int, readable: bool, calls: nat) returns (ok: bool)
      modifies this, disk
      ensures var r := FlushOutcome(old(View()), old(disk.View()), now, offset, readable, calls);
        && ok == r.ok && View() == r.cache && disk.View() == r.store
        && (degraded <==> !ok || (old(degraded) && r.idle))
    {
      hide ConnectedCache, CommittedStore, RestoredCache;
      ConnectedStays(View(), disk.View(), now, offset);
      var usable := Connect(now, readable);
      if !usable {
        degraded := true;
        return false;
      }
      var batch := TakeDirty();
      if batch.pending == 0 {
        return true;
      }
      ok := WriteBatch(batch, calls);
      if !ok {
        RestoreDirty(batch);
        degraded := true;
        return;
      }
      degraded := false;
    }

    method RateLimitStatuses(id: Id, raw: seq<RawLimit>, now: int) returns (r: Option<seq<Status>>)
      ensures r == match Normalize(raw)
        case Invalid(_) => None
        case Limits(limits) => Some(Statuses(View(), id, limits, now, offset))
    {
      var normalized := NormalizeRateLimits(raw);
      match normalized
      case Invalid(_) => r := None;
      case Limits(limits) =>
        var statuses := StatusesLocked(id, limits, now);
        r := Some(statuses);
    }

    method StatusesLocked(id: Id, limits: seq<Limit>, now: int) returns (statuses: seq<Status>)
      ensures statuses == Statuses(View(), id, limits, now, offset)
    {
      statuses := [];
      for i := 0 to |limits|
        invariant |statuses| == i
        invariant forall j :: 0 <= j < i ==> statuses[j] == StatusOf(View(), id, limits[j], now, offset)
      {
        var (span, state) := WindowBounds(View(), id, limits[i].window, now, offset);
        var value := At(buckets, BucketKey(id, limits[i].window, span.start));
        if state.Idle? || state.Expired? {
          value := ZERO;
        }
        statuses := statuses + [Status(state, span.start, span.end, value, limits[i])];
      }
    }

    /** The bindings of a request and the windows it opens, limit by limit. */
    method BindWindows(
      id: Id, limits: seq<Limit>, now: int)
      returns (bindings: map<Window, int>, changes: map<WindowKey, Span>)
      ensures bindings == Bindings(View(), id, limits, now)
      ensures changes == Changes(View(), id, limits, now)
    {
      hide Bindings, Changes, IndependentWindows, OpeningKeys;
      bindings, changes := map[], map[];
      BoundNone(View(), id, limits, now);
      for i := 0 to |limits|
        invariant bindings.Keys == IndependentWindows(limits[..i])
        invariant forall w :: w in bindings ==> bindings[w] == CurrentWindow(View(), id, w, now).start
        invariant changes.Keys == OpeningKeys(View(), id, limits[..i], now)
        invariant forall wk :: wk in changes ==> changes[wk] == Span(now, now + Length(wk.window))
      {
        BoundOneMore(View(), id, limits, now, i);
        if !Independent(limits[i].window) {
          continue;
        }
        var window := limits[i].window;
        var wk := WindowKey(id, window);
        var span := if wk in windows then windows[wk] else Span(0, 0);
        if wk !in windows || !(now < span.end) {
          span := Span(now, now + Length(window));
          changes := changes[wk := span];
        }
        bindings := bindings[window := span.start];
      }
      BoundAll(View(), id, limits, now, bindings, changes);
    }

    /** The transaction of an admission, and its publication in memory once committed. */
    method OpenWindows(changes: map<WindowKey, Span>, calls: nat) returns (ok: bool)
      modifies this, disk
      ensures ok <==> 2 * |changes| + 2 <= calls
      ensures View() == if ok then OpenedCache(old(View()), changes) else old(View())
      ensures disk.View() == if ok then OpenedStore(old(disk.View()), changes) else old(disk.View())
      ensures degraded == old(degraded)
    {
      if calls < 2 * |changes| + 2 {
        return false;
      }
      var newWindows, newBuckets := StageWindows(disk.windows, disk.buckets, changes);
      disk.windows, disk.buckets := newWindows, newBuckets;
      PublishWindows(changes);
      ok := true;
    }

    method PublishWindows(changes: map<WindowKey, Span>)
      modifies this`windows
      ensures windows == old(windows) + changes
    {
      var rest := changes.Keys;
      while rest != {}
        invariant rest <= changes.Keys
        invariant windows == old(windows) + (changes - rest)
        decreases rest
      {
        var wk :| wk in rest;
        windows := windows[wk := changes[wk]];
        rest := rest - {wk};
      }
      assert changes - {} == changes;
    }

    method AdmitLocked(key: ApiKey, limits: seq<Limit>, now: int, calls: nat) returns (r: Admission)
      modifies this, disk
      ensures r ==
        Decide(old(View()), key, limits, now, offset, 2 * |Changes(old(View()), key.id, limits, now)| + 2 <= calls)
      ensures View() == if r.Admitted? then OpenedCache(old(View()), r.changes) else old(View())
      ensures disk.View() == if r.Admitted? then OpenedStore(old(disk.View()), r.changes) else old(disk.View())
      ensures degraded == old(degraded)
    {
      hide KeyProblem, FirstViolation, Statuses, Changes, Bindings, OpenedCache, OpenedStore;
      var used := if key.id in totals then totals[key.id] else key.used;
      var problem := KeyProblem(key, used, now);
      if problem.Some? {
        return Refused(problem.value);
      }
      var statuses := StatusesLocked(key.id, limits, now);
      var violation := FirstRateLimitViolation(statuses);
      if violation.Some? {
        return Refused(Limited(violation.value));
      }
      var bindings, changes := BindWindows(key.id, limits, now);
      if changes == map[] {
        OpenNothing(View(), disk.View());
        return Admitted(bindings, changes);
      }
      var ok := OpenWindows(changes, calls);
      r := if ok then Admitted(bindings, changes) else Refused(WriteFailed);
    }

    /** clock is the time the manager reads if it has to connect first. */
    method Admit(key: ApiKey, now: int, clock: int, readable: bool, calls: nat) returns (r: Admission)
      modifies this, disk
      ensures var o := AdmitOutcome(old(View()), old(disk.View()), key, now, clock, offset, readable, calls);
        && r == o.decision && View() == o.cache && disk.View() == o.store
        && degraded == old(degraded)
    {
      hide Decide, Ledger.Admit, Normalize, HasIndependent, Changes, ReadyCache, OpenedCache, OpenedStore;
      var normalized := NormalizeRateLimits(key.limits);
      if normalized.Invalid? {
        AdmitInvalid(View(), key, now, offset, 2 <= calls);
        return Refused(BadLimits(normalized.error));
      }
      var limits := normalized.limits;
      var usable := ConnectIfNeeded(limits, clock, readable);
      ghost var c := View();
      if !usable {
        AdmitUnavailable(c, key, limits, now, offset, 2 * |Changes(c, key.id, limits, now)| + 2 <= calls);
        return Refused(UsageUnavailable);
      }
      AdmitDecides(c, key, limits, now, offset, 2 * |Changes(c, key.id, limits, now)| + 2 <= calls);
      r := AdmitLocked(key, limits, now, calls);
    }

    /** Only first-use limits need the database before admission. */
    method ConnectIfNeeded(limits: seq<Limit>, clock: int, readable: bool) returns (usable: bool)
      modifies this
      ensures usable <==> !HasIndependent(limits) || old(connected) || readable
      ensures View() == ReadyCache(old(View()), disk.View(), limits, clock, offset, readable)
      ensures HasIndependent(limits) ==> usable == connected
      ensures degraded == old(degraded)
    {
      for i := 0 to |limits|
        invariant forall j :: 0 <= j < i ==> !Independent(limits[j].window)
        invariant View() == old(View()) && degraded == old(degraded)
      {
        if Independent(limits[i].window) {
          usable := Connect(clock, readable);
          return;
        }
      }
      usable := true;
    }
  }

  lemma BoundOneMore(c: Cache, id: Id, limits: seq<Limit>, now: int, i: nat)
    requires i < |limits|
    ensures var w := limits[i].window;
      && IndependentWindows(limits[..i + 1]) == IndependentWindows(limits[..i]) + (if Independent(w) then {w} else {})
      && OpeningKeys(c, id, limits[..i + 1], now) ==
         OpeningKeys(c, id, limits[..i], now)
           + (if Independent(w) && Opens(c, id, w, now) then {WindowKey(id, w)} else {})
  {
    var before, after := IndependentWindows(limits[..i]), IndependentWindows(limits[..i + 1]);
    var w := limits[i].window;
    assert limits[..i + 1] == limits[..i] + [limits[i]];
    assert after == before + (if Independent(w) then {w} else {}) by {
      forall x | x in before ensures x in after {
        var j :| 0 <= j < i && Independent(limits[..i][j].window) && limits[..i][j].window == x;
        assert limits[..i + 1][j].window == x;
      }
      if Independent(w) {
        assert limits[..i + 1][i].window == w;
      }
      forall x | x in after && x != w ensures x in before {
        var j :| 0 <= j < i + 1 && Independent(limits[..i + 1][j].window) && limits[..i + 1][j].window == x;
        assert limits[..i][j].window == x;
      }
    }
  }
}
