/** When a request is admitted and why one is refused, in terms of the key's limits as they are
    configured, the counters and the stored windows. */
module Admissions {
  import opened Calendar
  import opened Counters
  import opened Ledger
  import opened Options
  import opened RateLimits
  import opened Windows

  /** The counter is below every quota that is set. */
  predicate Below(used: Counter, requests: int, tokens: int, cost: int) {
    && (requests > 0 ==> used.requests < requests)
    && (tokens > 0 ==> used.tokens < tokens)
    && (cost > 0 ==> used.cost < cost)
  }

  /** The total in memory replaces what the key says of its own use. */
  predicate TotalHasRoom(c: Cache, key: ApiKey) {
    && (key.id in c.totals ==> Below(c.totals[key.id], key.requestQuota, key.tokenQuota, key.costQuota))
    && (key.id !in c.totals ==> Below(key.used, key.requestQuota, key.tokenQuota, key.costQuota))
  }

  predicate Usable(key: ApiKey) {
    key.status == "active" && !key.forcedExpired
  }

  predicate NotExpired(key: ApiKey, now: int) {
    key.expiresAt.Some? ==> now < key.expiresAt.value
  }

  /** The limit is for a window that starts at first use: 5h or 7d. */
  predicate FirstUse(raw: RawLimit) {
    ParseWindow(raw.window) == Some(Hour5) || ParseWindow(raw.window) == Some(Day7)
  }

  ghost predicate NeedsStore(key: ApiKey) {
    exists i :: 0 <= i < |key.limits| && FirstUse(key.limits[i])
  }

  /** There is a stored window that has not ended. */
  predicate IsOpen(c: Cache, id: Id, w: Window, now: int) {
    WindowKey(id, w) in c.windows && now < c.windows[WindowKey(id, w)].end
  }

  /** The bucket that counts for the limit is below its quotas; a first-use window that is not
      open has none. */
  predicate HasRoom(c: Cache, id: Id, raw: RawLimit, now: int, offset: int) {
    match ParseWindow(raw.window)
    case None => true
    case Some(w) =>
      match w
      case Hour1 | Day1 | Day30 =>
        Below(At(c.buckets, BucketKey(id, w, Bounds(w, now, offset).start)),
              raw.requestQuota, raw.tokenQuota, raw.costQuota)
      case Hour5 | Day7 =>
        IsOpen(c, id, w, now) ==>
          Below(At(c.buckets, BucketKey(id, w, c.windows[WindowKey(id, w)].start)),
                raw.requestQuota, raw.tokenQuota, raw.costQuota)
  }

  /** The limit starts a window, which has to be written. */
  predicate Starts(c: Cache, id: Id, raw: RawLimit, now: int) {
    FirstUse(raw) && !IsOpen(c, id, ParseWindow(raw.window).value, now)
  }

  ghost predicate AllHaveRoom(c: Cache, key: ApiKey, now: int, offset: int) {
    forall i :: 0 <= i < |key.limits| ==> HasRoom(c, key.id, key.limits[i], now, offset)
  }

  ghost predicate SomeStart(c: Cache, key: ApiKey, now: int) {
    exists i :: 0 <= i < |key.limits| && Starts(c, key.id, key.limits[i], now)
  }

  // ------------------------------------------------------- limits, sorted and raw

  lemma {:induction false} SortedFrom(raw: seq<RawLimit>, l: Limit)
    requires WellFormed(raw)
    ensures l in Sorted(raw) <==> exists i :: 0 <= i < |raw| && l == Parsed(raw[i])
  {
    SortedIsAscending(raw);
    assert forall i :: 0 <= i < |raw| ==> ParsedAll(raw)[i] == Parsed(raw[i]);
    hide Sorted, WellFormed, Ascending;
  }

  lemma FirstUseIs(raw: RawLimit)
    requires Acceptable(raw)
    ensures FirstUse(raw) <==> Independent(Parsed(raw).window)
  {
    hide ParseWindow;
  }

  lemma RoomIs(c: Cache, id: Id, raw: RawLimit, now: int, offset: int)
    requires Acceptable(raw)
    ensures HasRoom(c, id, raw, now, offset) <==> forall d :: !Exhausts(StatusOf(c, id, Parsed(raw), now, offset), d)
  {
    hide ParseWindow, Bounds;
    var s := StatusOf(c, id, Parsed(raw), now, offset);
    assert (forall d :: !Exhausts(s, d)) <==> Below(s.used, raw.requestQuota, raw.tokenQuota, raw.costQuota) by {
      assert Exhausts(s, Requests) <==> raw.requestQuota > 0 && s.used.requests >= raw.requestQuota;
      assert Exhausts(s, Tokens) <==> raw.tokenQuota > 0 && s.used.tokens >= raw.tokenQuota;
      assert Exhausts(s, Cost) <==> raw.costQuota > 0 && s.used.cost >= raw.costQuota;
    }
  }

  lemma StartsIs(c: Cache, id: Id, raw: RawLimit, now: int)
    requires Acceptable(raw)
    ensures Starts(c, id, raw, now) <==>
      Independent(Parsed(raw).window) && Opens(c, id, Parsed(raw).window, now)
  {
    hide ParseWindow;
  }

  lemma NeedsStoreIs(key: ApiKey)
    requires WellFormed(key.limits)
    ensures NeedsStore(key) <==> HasIndependent(Sorted(key.limits))
  {
    var limits := Sorted(key.limits);
    hide Sorted, ParseWindow;
    if NeedsStore(key) {
      var i :| 0 <= i < |key.limits| && FirstUse(key.limits[i]);
      FirstUseIs(key.limits[i]);
      SortedFrom(key.limits, Parsed(key.limits[i]));
      var j :| 0 <= j < |limits| && limits[j] == Parsed(key.limits[i]);
      assert Independent(limits[j].window);
    }
    if HasIndependent(limits) {
      var j :| 0 <= j < |limits| && Independent(limits[j].window);
      SortedFrom(key.limits, limits[j]);
      var i :| 0 <= i < |key.limits| && limits[j] == Parsed(key.limits[i]);
      FirstUseIs(key.limits[i]);
    }
  }

  lemma AllRoomIs(c: Cache, key: ApiKey, now: int, offset: int)
    requires WellFormed(key.limits)
    ensures AllHaveRoom(c, key, now, offset) <==>
      FirstViolation(Statuses(c, key.id, Sorted(key.limits), now, offset)).None?
  {
    var limits := Sorted(key.limits);
    var statuses := Statuses(c, key.id, limits, now, offset);
    FirstViolationIsFirst(statuses);
    hide Sorted, ParseWindow, StatusOf, Exhausts, HasRoom, FirstViolation;
    assert forall j :: 0 <= j < |limits| ==> statuses[j] == StatusOf(c, key.id, limits[j], now, offset);
    if AllHaveRoom(c, key, now, offset) {
      forall j, d | 0 <= j < |statuses| ensures !Exhausts(statuses[j], d) {
        SortedFrom(key.limits, limits[j]);
        var i :| 0 <= i < |key.limits| && limits[j] == Parsed(key.limits[i]);
        RoomIs(c, key.id, key.limits[i], now, offset);
      }
    }
    if FirstViolation(statuses).None? {
      forall i | 0 <= i < |key.limits| ensures HasRoom(c, key.id, key.limits[i], now, offset) {
        SortedFrom(key.limits, Parsed(key.limits[i]));
        var j :| 0 <= j < |limits| && limits[j] == Parsed(key.limits[i]);
        RoomIs(c, key.id, key.limits[i], now, offset);
        assert forall d :: !Exhausts(statuses[j], d);
      }
    }
  }

  lemma SomeStartIs(c: Cache, key: ApiKey, now: int)
    requires WellFormed(key.limits)
    ensures SomeStart(c, key, now) <==> Changes(c, key.id, Sorted(key.limits), now) != map[]
  {
    var limits := Sorted(key.limits);
    var changes := Changes(c, key.id, limits, now);
    ChangesOpen(c, key.id, limits, now);
    hide Sorted, ParseWindow, Opens, Changes;
    if SomeStart(c, key, now) {
      var i :| 0 <= i < |key.limits| && Starts(c, key.id, key.limits[i], now);
      StartsIs(c, key.id, key.limits[i], now);
      SortedFrom(key.limits, Parsed(key.limits[i]));
      var j :| 0 <= j < |limits| && limits[j] == Parsed(key.limits[i]);
      assert limits[j].window in IndependentWindows(limits);
      assert WindowKey(key.id, limits[j].window) in changes;
    }
    if changes != map[] {
      assert changes.Keys != {};
      var wk :| wk in changes;
      var j :| 0 <= j < |limits| && limits[j].window == wk.window;
      SortedFrom(key.limits, limits[j]);
      var i :| 0 <= i < |key.limits| && limits[j] == Parsed(key.limits[i]);
      StartsIs(c, key.id, key.limits[i], now);
      assert Starts(c, key.id, key.limits[i], now);
    }
  }

  lemma ProblemIs(c: Cache, key: ApiKey, now: int)
    ensures var problem := KeyProblem(key, EffectiveUse(c, key), now);
      && (problem.None? <==> Usable(key) && NotExpired(key, now) && TotalHasRoom(c, key))
      && (problem == Some(KeyInactive) <==> !Usable(key))
      && (problem == Some(KeyExpired) <==> Usable(key) && !NotExpired(key, now))
      && (problem == Some(QuotaExhausted) <==> Usable(key) && NotExpired(key, now) && !TotalHasRoom(c, key))
  {
  }

  // ------------------------------------------------------------------ the decision

  /** The limits are well-formed and the database is connected where they need it. */
  ghost predicate Decidable(c: Cache, key: ApiKey) {
    WellFormed(key.limits) && (NeedsStore(key) ==> c.connected)
  }

  ghost predicate KeyPasses(c: Cache, key: ApiKey, now: int) {
    Usable(key) && NotExpired(key, now) && TotalHasRoom(c, key)
  }

  /** A request is admitted if and only if every check passes: no limit, quota, expiry or
      window is forgotten, and nothing else refuses it. */
  lemma AdmittedIff(c: Cache, key: ApiKey, now: int, offset: int, writable: bool)
    ensures Admit(c, key, now, offset, writable).Admitted? <==>
      && WellFormed(key.limits)
      && (NeedsStore(key) ==> c.connected)
      && Usable(key) && NotExpired(key, now) && TotalHasRoom(c, key)
      && AllHaveRoom(c, key, now, offset)
      && (SomeStart(c, key, now) ==> writable)
  {
    RefusedBecause(c, key, now, offset, writable);
    hide Admit, WellFormed, NeedsStore, Usable, NotExpired, TotalHasRoom, AllHaveRoom, SomeStart;
  }

  /** Each refusal has exactly one reason, the first check that fails. */
  lemma RefusedBecause(c: Cache, key: ApiKey, now: int, offset: int, writable: bool)
    ensures match Admit(c, key, now, offset, writable)
      case Admitted(_, _) =>
        && Decidable(c, key) && KeyPasses(c, key, now) && AllHaveRoom(c, key, now, offset)
        && (SomeStart(c, key, now) ==> writable)
      case Refused(reason) =>
        match reason
        case BadLimits(_) => !WellFormed(key.limits)
        case UsageUnavailable => WellFormed(key.limits) && NeedsStore(key) && !c.connected
        case KeyInactive => Decidable(c, key) && !Usable(key)
        case KeyExpired => Decidable(c, key) && Usable(key) && !NotExpired(key, now)
        case QuotaExhausted => Decidable(c, key) && Usable(key) && NotExpired(key, now) && !TotalHasRoom(c, key)
        case Limited(_) => Decidable(c, key) && KeyPasses(c, key, now) && !AllHaveRoom(c, key, now, offset)
        case WriteFailed =>
          && Decidable(c, key) && KeyPasses(c, key, now) && AllHaveRoom(c, key, now, offset)
          && SomeStart(c, key, now) && !writable
  {
    AcceptedIff(key.limits, {});
    assert NoneSeen(key.limits, {});
    ProblemIs(c, key, now);
    if WellFormed(key.limits) {
      NeedsStoreIs(key);
      AllRoomIs(c, key, now, offset);
      SomeStartIs(c, key, now);
    }
    hide WellFormed, NoneSeen, NeedsStore, Usable, NotExpired, TotalHasRoom, AllHaveRoom, SomeStart;
    hide FirstProblem, Sorted, HasIndependent, KeyProblem, EffectiveUse, FirstViolation, Statuses, Changes, Bindings;
  }

  /** What is bound and opened: every first-use limit gets its open window, or one that starts
      now and lasts 5 hours or 7 days. */
  lemma AdmissionOpens(c: Cache, key: ApiKey, now: int, offset: int, writable: bool, w: Window)
    requires Admit(c, key, now, offset, writable).Admitted?
    ensures match Admit(c, key, now, offset, writable)
      case Refused(_) => false
      case Admitted(bindings, changes) =>
        && (w in bindings <==>
              exists i :: 0 <= i < |key.limits|
                && FirstUse(key.limits[i]) && ParseWindow(key.limits[i].window) == Some(w))
        && (w in bindings && IsOpen(c, key.id, w, now) ==>
              bindings[w] == c.windows[WindowKey(key.id, w)].start && WindowKey(key.id, w) !in changes)
        && (w in bindings && !IsOpen(c, key.id, w, now) ==>
              && bindings[w] == now && WindowKey(key.id, w) in changes
              && changes[WindowKey(key.id, w)] ==
                 Span(now, now + if w.Hour5? then 18_000_000_000_000 else 604_800_000_000_000))
        && (forall wk :: wk in changes ==> wk.id == key.id && wk.window in bindings)
  {
    AcceptedIff(key.limits, {});
    assert NoneSeen(key.limits, {});
    hide WellFormed, NoneSeen;
    var limits := Sorted(key.limits);
    BoundWindows(key, w);
    ChangesOpen(c, key.id, limits, now);
    hide FirstProblem, Sorted, HasIndependent, KeyProblem, EffectiveUse, FirstViolation, Statuses, Changes;
    hide ParseWindow, FirstUse;
  }

  lemma BoundWindows(key: ApiKey, w: Window)
    requires WellFormed(key.limits)
    ensures w in IndependentWindows(Sorted(key.limits)) <==>
      exists i :: 0 <= i < |key.limits| && FirstUse(key.limits[i]) && ParseWindow(key.limits[i].window) == Some(w)
  {
    var limits := Sorted(key.limits);
    hide Sorted, ParseWindow;
    if w in IndependentWindows(limits) {
      var j :| 0 <= j < |limits| && limits[j].window == w;
      SortedFrom(key.limits, limits[j]);
      var i :| 0 <= i < |key.limits| && limits[j] == Parsed(key.limits[i]);
      FirstUseIs(key.limits[i]);
      assert FirstUse(key.limits[i]) && ParseWindow(key.limits[i].window) == Some(w);
    }
    if i :| 0 <= i < |key.limits| && FirstUse(key.limits[i]) && ParseWindow(key.limits[i].window) == Some(w) {
      FirstUseIs(key.limits[i]);
      SortedFrom(key.limits, Parsed(key.limits[i]));
      var j :| 0 <= j < |limits| && limits[j] == Parsed(key.limits[i]);
      assert limits[j].window == w;
    }
  }
}
