/** Rebuilding the window buckets from the request log, against the buckets that recording
    the same requests one by one builds up. */
module Rebuild {
  import opened Counters
  import opened Calendar
  import opened Ledger
  import opened Conservation
  import opened Sequences

  /** One logged request: charged to the windows of its start, filtered by its log time. */
  datatype LogRow = LogRow(
    id: Id, requestTokens: int, responseTokens: int, charged: int, startedAt: int, createdAt: int)

  const TWO_64: int := 0x1_0000_0000_0000_0000

  /** 64-bit two's complement addition wraps around. */
  function Wrap(x: int): (r: int)
    ensures MIN_INT64 <= r <= MAX_INT64 && (r - x) % TWO_64 == 0
  {
    var m := x % TWO_64;
    assert x == x / TWO_64 * TWO_64 + m;
    if m <= MAX_INT64 then
      assert m - x == -(x / TWO_64) * TWO_64;
      Multiple(-(x / TWO_64));
      m
    else
      assert m - TWO_64 - x == (-(x / TWO_64) - 1) * TWO_64;
      Multiple(-(x / TWO_64) - 1);
      m - TWO_64
  }

  lemma Multiple(q: int)
    ensures (q * TWO_64) % TWO_64 == 0
  {
  }

  lemma WrapUnique(x: int, r: int)
    requires MIN_INT64 <= r <= MAX_INT64 && (r - x) % TWO_64 == 0
    ensures Wrap(x) == r
  {
    var w := Wrap(x);
    assert (w - r) % TWO_64 == 0;
  }

  lemma WrapAdds(x: int, y: int)
    ensures Wrap(Wrap(x) + y) == Wrap(x + y)
  {
    var inner := Wrap(x);
    var outer := Wrap(inner + y);
    assert (outer - (inner + y)) % TWO_64 == 0 && (inner - x) % TWO_64 == 0;
    assert (outer - (x + y)) % TWO_64 == 0;
    WrapUnique(x + y, outer);
  }

  // ------------------------------------------------------------- the grouped query

  predicate Retained(row: LogRow, now: int, retention: int) {
    row.createdAt >= now - retention
  }

  /** The row is aggregated into the bucket: its key, and its window is the current one. */
  predicate Counts(row: LogRow, k: BucketKey, now: int, offset: int, retention: int) {
    && Retained(row, now, retention) && row.id == k.id
    && k.start == Bounds(k.window, row.startedAt, offset).start == Bounds(k.window, now, offset).start
  }

  /** Requests, tokens and exact charge of the rows of one bucket. */
  function Exact(rows: seq<LogRow>, k: BucketKey, now: int, offset: int, retention: int): Counter {
    if rows == [] then ZERO
    else
      var rest, row := Exact(rows[..|rows| - 1], k, now, offset, retention), rows[|rows| - 1];
      if Counts(row, k, now, offset, retention)
      then Counter(rest.requests + 1, rest.tokens + row.requestTokens + row.responseTokens, rest.cost + row.charged)
      else rest
  }

  /** The bucket the rebuild writes: its cost is a machine sum. */
  function Rebuilt(rows: seq<LogRow>, k: BucketKey, now: int, offset: int, retention: int): Counter {
    var exact := Exact(rows, k, now, offset, retention);
    exact.(cost := Wrap(exact.cost))
  }

  /** The map holds the counter, and an entry only if a request was counted. */
  ghost predicate AgreesAt(buckets: map<BucketKey, Counter>, k: BucketKey, value: Counter) {
    At(buckets, k) == value && (k in buckets <==> value.requests > 0)
  }

  ghost predicate Agrees(buckets: map<BucketKey, Counter>, rows: seq<LogRow>, now: int, offset: int, retention: int) {
    forall k :: AgreesAt(buckets, k, Rebuilt(rows, k, now, offset, retention))
  }

  /** One more row, added to one window. */
  function AddRow(buckets: map<BucketKey, Counter>, row: LogRow, k: BucketKey): map<BucketKey, Counter> {
    var value := At(buckets, k);
    buckets[k := Counter(
      value.requests + 1, value.tokens + row.requestTokens + row.responseTokens, Wrap(value.cost + row.charged))]
  }

  function PartlyRebuilt(
    rows: seq<LogRow>, row: LogRow, n: nat, k: BucketKey, now: int, offset: int, retention: int): Counter {
    Rebuilt(if Rank(k.window) < n then rows + [row] else rows, k, now, offset, retention)
  }

  /** The row is aggregated into the first n windows. */
  ghost predicate AgreesUpTo(
    buckets: map<BucketKey, Counter>, rows: seq<LogRow>, row: LogRow, n: nat, now: int, offset: int, retention: int) {
    forall k :: AgreesAt(buckets, k, PartlyRebuilt(rows, row, n, k, now, offset, retention))
  }

  lemma {:induction false} ExactCounts(rows: seq<LogRow>, k: BucketKey, now: int, offset: int, retention: int)
    ensures Exact(rows, k, now, offset, retention).requests >= 0
  {
    if rows != [] {
      ExactCounts(rows[..|rows| - 1], k, now, offset, retention);
    }
  }

  lemma ExactSnoc(rows: seq<LogRow>, row: LogRow, k: BucketKey, now: int, offset: int, retention: int)
    ensures var e := Exact(rows, k, now, offset, retention);
      Exact(rows + [row], k, now, offset, retention) ==
        if Counts(row, k, now, offset, retention)
        then Counter(e.requests + 1, e.tokens + row.requestTokens + row.responseTokens, e.cost + row.charged) else e
  {
    assert (rows + [row])[..|rows|] == rows;
  }

  lemma RebuiltSnoc(rows: seq<LogRow>, row: LogRow, k: BucketKey, now: int, offset: int, retention: int)
    ensures var r := Rebuilt(rows, k, now, offset, retention);
      && r.requests >= 0
      && Rebuilt(rows + [row], k, now, offset, retention) ==
        if Counts(row, k, now, offset, retention)
        then Counter(r.requests + 1, r.tokens + row.requestTokens + row.responseTokens, Wrap(r.cost + row.charged))
        else r
  {
    ExactSnoc(rows, row, k, now, offset, retention);
    ExactCounts(rows, k, now, offset, retention);
    WrapAdds(Exact(rows, k, now, offset, retention).cost, row.charged);
    hide Exact, Wrap, Counts;
  }

  lemma RankOrder(x: Window, y: Window)
    ensures Rank(x) < Rank(y) + 1 <==> Rank(x) < Rank(y) || x == y
    ensures SUPPORTED[Rank(x)] == x
  {
  }

  function RowKey(row: LogRow, w: Window, offset: int): BucketKey {
    BucketKey(row.id, w, Bounds(w, row.startedAt, offset).start)
  }

  predicate IsCurrent(row: LogRow, w: Window, now: int, offset: int) {
    Bounds(w, row.startedAt, offset).start == Bounds(w, now, offset).start
  }

  lemma CountsIff(row: LogRow, k: BucketKey, now: int, offset: int, retention: int)
    requires Retained(row, now, retention)
    ensures Counts(row, k, now, offset, retention) <==>
      IsCurrent(row, k.window, now, offset) && k == RowKey(row, k.window, offset)
  {
    hide Bounds;
  }

  lemma WindowAddedAt(
    buckets: map<BucketKey, Counter>, rows: seq<LogRow>, row: LogRow, w: Window, now: int, offset: int, retention: int,
    k: BucketKey)
    requires Retained(row, now, retention)
    requires AgreesAt(buckets, k, PartlyRebuilt(rows, row, Rank(w), k, now, offset, retention))
    ensures AgreesAt(if IsCurrent(row, w, now, offset) then AddRow(buckets, row, RowKey(row, w, offset)) else buckets,
                     k, PartlyRebuilt(rows, row, Rank(w) + 1, k, now, offset, retention))
  {
    hide Rebuilt, Bounds, Wrap, Retained, Rank, Counts, IsCurrent;
    RebuiltSnoc(rows, row, k, now, offset, retention);
    RankOrder(k.window, w);
    CountsIff(row, k, now, offset, retention);
  }

  lemma WindowAdded(
    buckets: map<BucketKey, Counter>, rows: seq<LogRow>, row: LogRow, w: Window, now: int, offset: int, retention: int)
    requires Retained(row, now, retention)
    requires AgreesUpTo(buckets, rows, row, Rank(w), now, offset, retention)
    ensures IsCurrent(row, w, now, offset) ==>
      AgreesUpTo(AddRow(buckets, row, RowKey(row, w, offset)), rows, row, Rank(w) + 1, now, offset, retention)
    ensures !IsCurrent(row, w, now, offset) ==> AgreesUpTo(buckets, rows, row, Rank(w) + 1, now, offset, retention)
  {
    hide AgreesAt, PartlyRebuilt, AddRow, RowKey, IsCurrent, Retained, Rank;
    var after := if IsCurrent(row, w, now, offset) then AddRow(buckets, row, RowKey(row, w, offset)) else buckets;
    var next := Rank(w) + 1;
    forall k ensures AgreesAt(after, k, PartlyRebuilt(rows, row, next, k, now, offset, retention)) {
      WindowAddedAt(buckets, rows, row, w, now, offset, retention, k);
    }
  }

  lemma RowStarts(
    buckets: map<BucketKey, Counter>, rows: seq<LogRow>, row: LogRow, now: int, offset: int, retention: int)
    requires Agrees(buckets, rows, now, offset, retention)
    ensures AgreesUpTo(buckets, rows, row, 0, now, offset, retention)
  {
    hide Rebuilt, AgreesAt;
  }

  lemma RowDone(buckets: map<BucketKey, Counter>, rows: seq<LogRow>, row: LogRow, now: int, offset: int, retention: int)
    requires AgreesUpTo(buckets, rows, row, |SUPPORTED|, now, offset, retention)
    ensures Agrees(buckets, rows + [row], now, offset, retention)
  {
    hide Rebuilt, AgreesAt;
    forall k ensures AgreesAt(buckets, k, Rebuilt(rows + [row], k, now, offset, retention)) {
      assert AgreesAt(buckets, k, PartlyRebuilt(rows, row, |SUPPORTED|, k, now, offset, retention));
    }
  }

  lemma RowDropped(
    buckets: map<BucketKey, Counter>, rows: seq<LogRow>, row: LogRow, now: int, offset: int, retention: int)
    requires Agrees(buckets, rows, now, offset, retention) && !Retained(row, now, retention)
    ensures Agrees(buckets, rows + [row], now, offset, retention)
  {
    forall k ensures AgreesAt(buckets, k, Rebuilt(rows + [row], k, now, offset, retention)) {
      RebuiltSnoc(rows, row, k, now, offset, retention);
      hide Rebuilt;
    }
  }

  lemma NothingYet(now: int, offset: int, retention: int)
    ensures Agrees(map[], [], now, offset, retention)
  {
    forall k ensures AgreesAt(map[], k, Rebuilt([], k, now, offset, retention)) {
      WrapUnique(0, 0);
    }
  }

  /** The scan of the log, row by row and window by window. */
  method LoadLegacyUsageBuckets(
    rows: seq<LogRow>, now: int, offset: int, retention: int)
    returns (buckets: map<BucketKey, Counter>)
    ensures Agrees(buckets, rows, now, offset, retention)
  {
    hide Agrees, AgreesUpTo, Bounds, Wrap;
    buckets := map[];
    NothingYet(now, offset, retention);
    for i := 0 to |rows|
      invariant Agrees(buckets, rows[..i], now, offset, retention)
    {
      var row := rows[i];
      assert rows[..i + 1] == rows[..i] + [row];
      if row.createdAt < now - retention {
        RowDropped(buckets, rows[..i], row, now, offset, retention);
        continue;
      }
      RowStarts(buckets, rows[..i], row, now, offset, retention);
      for n := 0 to |SUPPORTED|
        invariant AgreesUpTo(buckets, rows[..i], row, n, now, offset, retention)
      {
        var window := SUPPORTED[n];
        var start := Bounds(window, row.startedAt, offset).start;
        assert Rank(window) == n;
        WindowAdded(buckets, rows[..i], row, window, now, offset, retention);
        if start != Bounds(window, now, offset).start {
          continue;
        }
        var key := BucketKey(row.id, window, start);
        var value := At(buckets, key);
        buckets := buckets[key := Counter(
          value.requests + 1, value.tokens + row.requestTokens + row.responseTokens, Wrap(value.cost + row.charged))];
      }
      RowDone(buckets, rows[..i], row, now, offset, retention);
    }
    assert rows[..|rows|] == rows;
  }

  // ------------------------------------------------------ order does not matter

  lemma ExactSwapped(
    init: seq<LogRow>, fewer: seq<LogRow>, x: LogRow, y: LogRow, k: BucketKey, now: int, offset: int, retention: int)
    requires Exact(init, k, now, offset, retention) == Exact(fewer + [x], k, now, offset, retention)
    ensures Exact(init + [y], k, now, offset, retention) == Exact(fewer + [y] + [x], k, now, offset, retention)
  {
    ExactSnoc(init, y, k, now, offset, retention);
    ExactSnoc(fewer, x, k, now, offset, retention);
    ExactSnoc(fewer, y, k, now, offset, retention);
    ExactSnoc(fewer + [y], x, k, now, offset, retention);
    hide *;
  }

  lemma {:induction false} ExactWithout(rows: seq<LogRow>, i: nat, k: BucketKey, now: int, offset: int, retention: int)
    requires i < |rows|
    ensures Exact(rows, k, now, offset, retention) == Exact(Without(rows, i) + [rows[i]], k, now, offset, retention)
    decreases |rows|
  {
    hide Exact, Counts;
    var last := |rows| - 1;
    if i == last {
      assert Without(rows, i) + [rows[i]] == rows;
    } else {
      var init := rows[..last];
      ExactWithout(init, i, k, now, offset, retention);
      assert rows == init + [rows[last]];
      assert Without(rows, i) == Without(init, i) + [rows[last]];
      ExactSwapped(init, Without(init, i), init[i], rows[last], k, now, offset, retention);
    }
  }

  lemma SameExact(x: seq<LogRow>, y: seq<LogRow>, k: BucketKey, now: int, offset: int, retention: int)
    requires Exact(x, k, now, offset, retention) == Exact(y, k, now, offset, retention)
    ensures Rebuilt(x, k, now, offset, retention) == Rebuilt(y, k, now, offset, retention)
  {
  }

  lemma MovedToEnd(rows: seq<LogRow>, i: nat, k: BucketKey, now: int, offset: int, retention: int)
    requires i < |rows|
    ensures Rebuilt(rows, k, now, offset, retention) == Rebuilt(Without(rows, i) + [rows[i]], k, now, offset, retention)
  {
    ExactWithout(rows, i, k, now, offset, retention);
    SameExact(rows, Without(rows, i) + [rows[i]], k, now, offset, retention);
  }

  lemma SameEnd(x: seq<LogRow>, y: seq<LogRow>, row: LogRow, k: BucketKey, now: int, offset: int, retention: int)
    requires Rebuilt(x, k, now, offset, retention) == Rebuilt(y, k, now, offset, retention)
    ensures Rebuilt(x + [row], k, now, offset, retention) == Rebuilt(y + [row], k, now, offset, retention)
  {
    RebuiltSnoc(x, row, k, now, offset, retention);
    RebuiltSnoc(y, row, k, now, offset, retention);
    hide *;
  }

  /** The rebuilt buckets do not depend on the order of the rows. */
  lemma {:induction false} RebuildIgnoresOrder(
    x: seq<LogRow>, y: seq<LogRow>, k: BucketKey, now: int, offset: int, retention: int)
    requires multiset(x) == multiset(y)
    ensures Rebuilt(x, k, now, offset, retention) == Rebuilt(y, k, now, offset, retention)
    decreases |x|
  {
    hide Rebuilt;
    if x == [] {
      assert |multiset(y)| == 0;
    } else {
      var n := |x| - 1;
      assert x[n] in multiset(y);
      var i :| 0 <= i < |y| && y[i] == x[n];
      WithoutMultiset(y, i);
      WithoutMultiset(x, n);
      RebuildIgnoresOrder(Without(x, n), Without(y, i), k, now, offset, retention);
      SameEnd(Without(x, n), Without(y, i), x[n], k, now, offset, retention);
      MovedToEnd(x, n, k, now, offset, retention);
      MovedToEnd(y, i, k, now, offset, retention);
    }
  }

  // ------------------------------------------------- against recording one by one

  /** Recording every row as its request completes, under any bindings. */
  function Recorded(rows: seq<LogRow>, bindings: seq<map<Window, int>>, offset: int): Cache
    requires |bindings| == |rows|
  {
    if rows == [] then EMPTY_CACHE
    else
      var n := |rows| - 1;
      RecordCache(
        Recorded(rows[..n], bindings[..n], offset), rows[n].id, rows[n].requestTokens + rows[n].responseTokens,
                  rows[n].charged, rows[n].startedAt, offset, bindings[n])
  }

  /** A log of completed requests: not charged negatively, logged no earlier than started. */
  ghost predicate Plausible(rows: seq<LogRow>) {
    forall i :: 0 <= i < |rows| ==> 0 <= rows[i].charged <= MAX_INT64 && rows[i].createdAt >= rows[i].startedAt
  }

  /** Rows of a current calendar window are inside the retention of at least 30 days. */
  lemma CurrentIsRetained(row: LogRow, w: Window, now: int, offset: int, retention: int)
    requires IsCurrent(row, w, now, offset) && Covered(w, now, offset) && Covered(w, row.startedAt, offset)
    requires row.createdAt >= row.startedAt && retention >= Length(Day30)
    ensures Retained(row, now, retention)
  {
    BoundsContainNow(w, now, offset);
    BoundsContainNow(w, row.startedAt, offset);
    hide Bounds, Covered;
  }

  ghost predicate ValidCache(c: Cache) {
    ValidMap(c.totals) && ValidMap(c.buckets) && ValidMap(c.dirtyTotals) && ValidMap(c.dirtyBuckets)
  }

  lemma RecordValid(c: Cache, row: LogRow, bindings: map<Window, int>, offset: int)
    requires ValidCache(c) && 0 <= row.charged <= MAX_INT64
    ensures ValidCache(RecordCache(
      c, row.id, row.requestTokens + row.responseTokens, row.charged, row.startedAt, offset, bindings))
  {
    hide AddTo, Touched, ValidMap, Plus;
    var charge :=
      RequestCharge(row.id, row.requestTokens + row.responseTokens, row.charged, row.startedAt, offset, bindings);
    AddToValid(c.totals, {charge.id}, charge.delta);
    AddToValid(c.buckets, charge.touched, charge.delta);
    AddToValid(c.dirtyTotals, {charge.id}, charge.delta);
    AddToValid(c.dirtyBuckets, charge.touched, charge.delta);
  }

  lemma {:induction false} RecordedValid(rows: seq<LogRow>, bindings: seq<map<Window, int>>, offset: int)
    requires |bindings| == |rows| && Plausible(rows)
    ensures ValidCache(Recorded(rows, bindings, offset))
  {
    hide RecordCache;
    if rows != [] {
      var n := |rows| - 1;
      RecordedValid(rows[..n], bindings[..n], offset);
      RecordValid(Recorded(rows[..n], bindings[..n], offset), rows[n], bindings[n], offset);
    }
  }

  lemma TouchedIff(row: LogRow, bindings: map<Window, int>, k: BucketKey, offset: int)
    requires !Independent(k.window)
    ensures k in Touched(row.id, row.startedAt, offset, bindings) <==> k == RowKey(row, k.window, offset)
  {
    assert SUPPORTED[Rank(k.window)] == k.window;
    hide Bounds;
  }

  function OneMoreRow(x: Counter, row: LogRow): Counter {
    Counter(x.requests + 1, x.tokens + row.requestTokens + row.responseTokens, x.cost + row.charged)
  }

  function Capped(x: Counter): Counter {
    x.(cost := Min(MAX_INT64, x.cost))
  }

  lemma CappedPlus(x: Counter, row: LogRow)
    requires x.cost >= 0 && 0 <= row.charged <= MAX_INT64
    ensures Plus(Capped(x), Counter(1, row.requestTokens + row.responseTokens, Max(0, row.charged))) ==
      Capped(OneMoreRow(x, row))
  {
  }

  lemma ChargedBucket(c: Cache, charge: Charge, k: BucketKey, row: LogRow, exact: Counter)
    requires ValidCache(c)
    requires 0 <= row.charged <= MAX_INT64
    requires charge.delta == Counter(1, row.requestTokens + row.responseTokens, Max(0, row.charged))
    requires exact.cost >= 0 && At(c.buckets, k) == Capped(exact)
    ensures k in charge.touched ==> At(ApplyCharge(c, charge).buckets, k) == Capped(OneMoreRow(exact, row))
    ensures k !in charge.touched ==> At(ApplyCharge(c, charge).buckets, k) == Capped(exact)
  {
    hide Plus, AddTo, Capped, OneMoreRow;
    AddToAt(c.buckets, charge.touched, charge.delta, k);
    CappedPlus(exact, row);
    assert Valid(At(c.buckets, k));
    PlusZero(Capped(exact));
  }

  /** One bucket, one more request. */
  lemma RecordOne(c: Cache, row: LogRow, bindings: map<Window, int>, k: BucketKey, offset: int, exact: Counter)
    requires ValidCache(c)
    requires 0 <= row.charged <= MAX_INT64 && !Independent(k.window) && k.id != ""
    requires exact.cost >= 0 && At(c.buckets, k) == Capped(exact)
    ensures At(RecordCache(
      c, row.id, row.requestTokens + row.responseTokens, row.charged, row.startedAt, offset, bindings).buckets, k) ==
      Capped(if k == RowKey(row, k.window, offset) then OneMoreRow(exact, row) else exact)
  {
    TouchedIff(row, bindings, k, offset);
    KeyOwner(row, k, offset);
    hide Touched, Bounds, ApplyCharge, Plus, AddTo, RowKey, Capped, OneMoreRow, ValidMap, Independent;
    if row.id != "" {
      var charge :=
        RequestCharge(row.id, row.requestTokens + row.responseTokens, row.charged, row.startedAt, offset, bindings);
      ChargedBucket(c, charge, k, row, exact);
    }
  }

  lemma KeyOwner(row: LogRow, k: BucketKey, offset: int)
    ensures k == RowKey(row, k.window, offset) ==> k.id == row.id
  {
    hide Bounds;
  }

  /** The row is charged to the bucket exactly if the grouped query counts it. */
  lemma ChargedIffCounted(row: LogRow, k: BucketKey, now: int, offset: int, retention: int)
    requires row.createdAt >= row.startedAt && retention >= Length(Day30)
    requires k.start == Bounds(k.window, now, offset).start
    requires Covered(k.window, now, offset) && Covered(k.window, row.startedAt, offset)
    ensures k == RowKey(row, k.window, offset) <==> Counts(row, k, now, offset, retention)
  {
    if IsCurrent(row, k.window, now, offset) {
      CurrentIsRetained(row, k.window, now, offset, retention);
    }
    hide Bounds, Covered, Retained;
  }

  /** Recorded one by one, a current calendar bucket holds the requests and tokens of the
      grouped query, and its exact charge cut off at the 64-bit maximum. */
  lemma {:induction false} RecordedIsExact(
    rows: seq<LogRow>, bindings: seq<map<Window, int>>, k: BucketKey, now: int, offset: int, retention: int)
    requires |bindings| == |rows| && Plausible(rows) && retention >= Length(Day30)
    requires !Independent(k.window) && k.id != "" && k.start == Bounds(k.window, now, offset).start
    requires Covered(k.window, now, offset) && forall i :: 0 <= i < |rows| ==>
      Covered(k.window, rows[i].startedAt, offset)
    ensures Exact(rows, k, now, offset, retention).cost >= 0
    ensures At(Recorded(rows, bindings, offset).buckets, k) == Capped(Exact(rows, k, now, offset, retention))
  {
    hide Bounds, Covered, RecordCache, Capped, Counts, RowKey, Independent, Length;
    if rows == [] {
      NothingRecorded(k, now, offset, retention);
    } else {
      var n := |rows| - 1;
      var init, row := rows[..n], rows[n];
      var c, exact := Recorded(init, bindings[..n], offset), Exact(init, k, now, offset, retention);
      RecordedIsExact(init, bindings[..n], k, now, offset, retention);
      RecordedValid(init, bindings[..n], offset);
      RecordOne(c, row, bindings[n], k, offset, exact);
      ChargedIffCounted(row, k, now, offset, retention);
      assert rows == init + [row];
      ExactSnoc(init, row, k, now, offset, retention);
    }
  }

  lemma NothingRecorded(k: BucketKey, now: int, offset: int, retention: int)
    ensures At(Recorded([], [], offset).buckets, k) == Capped(Exact([], k, now, offset, retention)) == ZERO
  {
  }

  /** Incremental equals recomputed: for a current calendar window the rebuilt bucket is the
      recorded one, exactly unless the sum of its charges leaves the 64-bit range. */
  lemma RebuildAgreesWithRecording(
    rows: seq<LogRow>, bindings: seq<map<Window, int>>, k: BucketKey, now: int, offset: int, retention: int)
    requires |bindings| == |rows| && Plausible(rows) && retention >= Length(Day30)
    requires !Independent(k.window) && k.id != "" && k.start == Bounds(k.window, now, offset).start
    requires Covered(k.window, now, offset) && forall i :: 0 <= i < |rows| ==>
      Covered(k.window, rows[i].startedAt, offset)
    ensures var total := Exact(rows, k, now, offset, retention).cost;
      var recorded, rebuilt :=
        At(Recorded(rows, bindings, offset).buckets, k), Rebuilt(rows, k, now, offset, retention);
      && recorded.requests == rebuilt.requests && recorded.tokens == rebuilt.tokens
      && (recorded == rebuilt <==> total <= MAX_INT64 || total % TWO_64 == MAX_INT64)
  {
    RecordedIsExact(rows, bindings, k, now, offset, retention);
    var total := Exact(rows, k, now, offset, retention).cost;
    hide Bounds, Covered, Recorded, Exact;
    if total <= MAX_INT64 {
      WrapUnique(total, total);
    }
  }
}
