/** What recording a request, importing a legacy key and showing a status come to, account by
    account and window by window. */
module Charges {
  import opened Calendar
  import opened Counters
  import opened Ledger

  // ------------------------------------------------------------------------ record

  /** A request counts for the total of its key, for the calendar windows of the time it is
      charged at, and for the first-use windows it is bound to. */
  predicate CountsFor(a: Account, id: Id, at: int, offset: int, bindings: map<Window, int>) {
    match a
    case Total(other) => other == id
    case Bucket(k) =>
      && k.id == id
      && match k.window
         case Hour1 | Day1 | Day30 => k.start == Bounds(k.window, at, offset).start
         case Hour5 | Day7 => k.window in bindings && k.start == bindings[k.window]
  }

  /** One more request with its tokens and its charge, cut off at the 64-bit maximum. */
  function OneMore(x: Counter, tokens: int, charged: int): Counter {
    Counter(x.requests + 1, x.tokens + tokens, Min(0x7fff_ffff_ffff_ffff, x.cost + Max(0, charged)))
  }

  lemma HitsIff(id: Id, tokens: int, charged: int, at: int, offset: int, bindings: map<Window, int>, a: Account)
    ensures Hits(RequestCharge(id, tokens, charged, at, offset, bindings), a) <==>
      CountsFor(a, id, at, offset, bindings)
  {
    hide Bounds;
    if a.Bucket? && CountsFor(a, id, at, offset, bindings) {
      assert a.key == BucketKey(id, a.key.window, BucketStart(a.key.window, at, offset, bindings));
      assert [Hour1, Hour5, Day1, Day7, Day30][Rank(a.key.window)] == a.key.window;
    }
  }

  lemma ChargedAt(c: Cache, charge: Charge, a: Account)
    ensures CacheAt(ApplyCharge(c, charge), a) ==
      if Hits(charge, a) then Plus(CacheAt(c, a), charge.delta) else CacheAt(c, a)
    ensures DirtyAt(ApplyCharge(c, charge), a) ==
      if Hits(charge, a) then Plus(DirtyAt(c, a), charge.delta) else DirtyAt(c, a)
  {
    hide Plus;
  }

  /** A recorded request is added to exactly the accounts it counts for, in memory and in the
      unwritten delta alike; windows and connection stay, and a request without a key does
      nothing. */
  lemma RecordCharges(
    c: Cache, id: Id, tokens: int, charged: int, at: int, offset: int, bindings: map<Window, int>, a: Account)
    ensures var d := RecordCache(c, id, tokens, charged, at, offset, bindings);
      && (id == "" ==> d == c)
      && (id != "" && CountsFor(a, id, at, offset, bindings) ==>
            && CacheAt(d, a) == OneMore(CacheAt(c, a), tokens, charged)
            && DirtyAt(d, a) == OneMore(DirtyAt(c, a), tokens, charged))
      && (id != "" && !CountsFor(a, id, at, offset, bindings) ==>
            CacheAt(d, a) == CacheAt(c, a) && DirtyAt(d, a) == DirtyAt(c, a))
      && (id != "" ==> d.pending == c.pending + 1 && d.windows == c.windows && d.connected == c.connected)
  {
    HitsIff(id, tokens, charged, at, offset, bindings, a);
    ChargedAt(c, RequestCharge(id, tokens, charged, at, offset, bindings), a);
    hide Hits, CountsFor, Touched, CacheAt, DirtyAt, AddTo;
  }

  // --------------------------------------------------------------------- bootstrap

  /** The key is listed first at i. */
  predicate FirstAt(keys: seq<LegacyKey>, id: Id, i: int) {
    0 <= i < |keys| && keys[i].id == id && forall j :: 0 <= j < i ==> keys[j].id != id
  }

  lemma OthersKept(c: Cache, k: LegacyKey, id: Id)
    requires id in c.totals || id != k.id
    ensures var d := BootstrapOne(c, k);
      && (id in d.totals <==> id in c.totals) && At(d.totals, id) == At(c.totals, id)
      && At(d.dirtyTotals, id) == At(c.dirtyTotals, id)
  {
  }

  lemma OneImported(c: Cache, k: LegacyKey)
    requires k.id !in c.totals
    ensures var d := BootstrapOne(c, k); var total := Counter(k.usedRequests, k.usedTokens, 0);
      && k.id in d.totals && At(d.totals, k.id) == total
      && At(d.dirtyTotals, k.id) ==
         if k.usedRequests == 0 && k.usedTokens == 0 && !k.everUsed then At(c.dirtyTotals, k.id) else total
  {
  }

  lemma ImportFrame(c: Cache, k: LegacyKey)
    ensures var d := BootstrapOne(c, k);
      d.buckets == c.buckets && d.dirtyBuckets == c.dirtyBuckets && d.windows == c.windows
  {
  }

  /** A key that memory knows keeps its total and delta; no bucket and no window is touched. */
  lemma {:induction false} BootstrapKeeps(c: Cache, keys: seq<LegacyKey>, id: Id)
    ensures var d := BootstrapCache(c, keys);
      && d.buckets == c.buckets && d.dirtyBuckets == c.dirtyBuckets && d.windows == c.windows
      && (id in c.totals ==>
            id in d.totals && At(d.totals, id) == At(c.totals, id) && At(d.dirtyTotals, id) == At(c.dirtyTotals, id))
    decreases |keys|
  {
    if keys != [] {
      ImportFrame(c, keys[0]);
      if id in c.totals {
        OthersKept(c, keys[0], id);
      }
      hide BootstrapOne, At;
      BootstrapKeeps(BootstrapOne(c, keys[0]), keys[1..], id);
    }
  }

  /** Another gets the counters of its first legacy entry, as unwritten if it was ever used. */
  lemma {:induction false} BootstrapImports(c: Cache, keys: seq<LegacyKey>, id: Id, i: nat)
    requires id !in c.totals && FirstAt(keys, id, i)
    ensures var d := BootstrapCache(c, keys); var total := Counter(keys[i].usedRequests, keys[i].usedTokens, 0);
      && id in d.totals && At(d.totals, id) == total
      && At(d.dirtyTotals, id) ==
         if keys[i].usedRequests == 0 && keys[i].usedTokens == 0 && !keys[i].everUsed then At(c.dirtyTotals, id)
         else total
    decreases i
  {
    var next := BootstrapOne(c, keys[0]);
    if i == 0 {
      OneImported(c, keys[0]);
      hide BootstrapOne, At;
      BootstrapKeeps(next, keys[1..], id);
    } else {
      assert keys[0].id != id && FirstAt(keys[1..], id, i - 1);
      OthersKept(c, keys[0], id);
      hide BootstrapOne, At;
      BootstrapImports(next, keys[1..], id, i - 1);
    }
  }

  // ---------------------------------------------------------------------- statuses

  /** A calendar limit shows the bucket of the window of this instant. A first-use limit is
      idle without a window, shows its bucket while the stored window is open, and shows no use
      once that has ended. */
  lemma StatusShows(c: Cache, id: Id, limit: Limit, now: int, offset: int)
    ensures var s := StatusOf(c, id, limit, now, offset);
      && s.limit == limit
      && match limit.window
         case Hour1 | Day1 | Day30 =>
           var span := Bounds(limit.window, now, offset);
           && s.state == Active && s.startsAt == span.start && s.resetsAt == span.end
           && s.used == At(c.buckets, BucketKey(id, limit.window, span.start))
         case Hour5 | Day7 =>
           var wk := WindowKey(id, limit.window);
           && (wk !in c.windows ==>
                 && s.state == Idle && s.used == Counter(0, 0, 0)
                 && s.startsAt == s.resetsAt == -62_135_596_800_000_000_000)
           && (wk in c.windows ==> s.startsAt == c.windows[wk].start && s.resetsAt == c.windows[wk].end)
           && (wk in c.windows && now < c.windows[wk].end ==>
                 s.state == Active && s.used == At(c.buckets, BucketKey(id, limit.window, c.windows[wk].start)))
           && (wk in c.windows && now >= c.windows[wk].end ==> s.state == Expired && s.used == Counter(0, 0, 0))
  {
    hide Bounds;
  }
}
