/** First-use windows: never rotated early, never overlapping, and durable before
    any request is bound to them. */
module Windows {
  import opened Counters
  import opened Calendar
  import opened Ledger
  import opened Histories
  import opened Protocol

  /** Later starts come at least one window length after earlier ones. */
  ghost predicate Spaced(starts: seq<int>, length: int) {
    forall i, j :: 0 <= i < j < |starts| ==> starts[i] + length <= starts[j]
  }

  ghost predicate BoundTo(starts: map<WindowKey, seq<int>>, k: BucketKey) {
    Independent(k.window) ==> k.start in StartsOf(starts, WindowKey(k.id, k.window))
  }

  ghost predicate LogBound(starts: map<WindowKey, seq<int>>, log: seq<Charge>) {
    forall i, k :: 0 <= i < |log| && k in log[i].touched ==> BoundTo(starts, k)
  }

  ghost predicate BindingsKnown(starts: map<WindowKey, seq<int>>, q: Request) {
    q.stage.Waiting? ==>
      forall w :: w in q.stage.bindings ==>
        Independent(w) && q.stage.bindings[w] in StartsOf(starts, WindowKey(q.id, w))
  }

  ghost predicate StoredWindow(s: State, wk: WindowKey) {
    && Independent(wk.window) && wk in s.store.windows
    && s.store.windows[wk].end == s.store.windows[wk].start + Length(wk.window)
    && wk in s.history.starts
    && var starts := s.history.starts[wk];
      starts != [] && starts[|starts| - 1] == s.store.windows[wk].start && Spaced(starts, Length(wk.window))
  }

  ghost predicate WindowsOk(s: State) {
    && (forall wk :: wk in s.store.windows ==> StoredWindow(s, wk))
    && (forall wk :: wk in s.history.starts ==> wk in s.store.windows)
    && s.cache.windows == (if s.cache.connected then s.store.windows else map[])
    && (forall r :: r in s.requests ==> BindingsKnown(s.history.starts, s.requests[r]))
    && LogBound(s.history.starts, s.history.committed)
    && LogBound(s.history.starts, s.history.flying)
    && LogBound(s.history.starts, s.history.dirty)
    && (forall k :: k in s.cache.buckets ==> BoundTo(s.history.starts, k))
    && (forall k :: k in s.history.skipped && Independent(k.window) ==> !Joined(s.store.windows, k))
  }

  lemma InitialWindows(s: State)
    requires Initial(s)
    ensures WindowsOk(s)
  {
  }

  /** A window that opens starts after every start before it, by at least its length. */
  lemma FreshStart(s: State, wk: WindowKey, now: int)
    requires WindowsOk(s) && s.cache.connected && Independent(wk.window)
    requires Opens(s.cache, wk.id, wk.window, now)
    ensures forall start :: start in StartsOf(s.history.starts, wk) ==> start + Length(wk.window) <= now
  {
    if wk in s.store.windows {
      assert StoredWindow(s, wk);
      var starts := s.history.starts[wk];
      forall i | 0 <= i < |starts| ensures starts[i] + Length(wk.window) <= now {
        if i < |starts| - 1 {
          assert starts[i] + Length(wk.window) <= starts[|starts| - 1];
        }
      }
    }
  }

  /** The changes of an admission concern the key's own expired or missing windows. */
  lemma ChangesOpen(c: Cache, id: Id, limits: seq<Limit>, now: int)
    ensures forall wk :: wk in Changes(c, id, limits, now) ==>
      && wk.id == id && Independent(wk.window) && Opens(c, id, wk.window, now)
      && wk.window in IndependentWindows(limits)
      && Changes(c, id, limits, now)[wk] == Span(now, now + Length(wk.window))
    ensures forall w :: w in IndependentWindows(limits) ==>
      (Opens(c, id, w, now) <==> WindowKey(id, w) in Changes(c, id, limits, now))
  {
    assert Changes(c, id, limits, now).Keys == OpeningKeys(c, id, limits, now);
  }

  /** What an admission that goes through looks like. */
  ghost predicate IsAdmission(
    s: State, id: Id, limits: seq<Limit>, now: int, bindings: map<Window, int>, changes: map<WindowKey, Span>) {
    && (HasIndependent(limits) ==> s.cache.connected)
    && bindings == Bindings(s.cache, id, limits, now)
    && changes == Changes(s.cache, id, limits, now)
  }

  lemma Unbound(starts: map<WindowKey, seq<int>>, log: seq<Charge>, k: BucketKey)
    requires LogBound(starts, log) && !BoundTo(starts, k)
    ensures SumFor(log, Bucket(k)) == ZERO
  {
    forall i | 0 <= i < |log| ensures !Hits(log[i], Bucket(k)) {
    }
    SumUntouched(log, Bucket(k));
  }

  lemma AdmittedIsAdmission(s: State, key: ApiKey, now: int, offset: int, writable: bool)
    ensures match Admit(s.cache, key, now, offset, writable)
      case Refused(_) => true
      case Admitted(bindings, changes) =>
        Normalize(key.limits).Limits? && IsAdmission(s, key.id, Normalize(key.limits).limits, now, bindings, changes)
  {
  }

  /** The bucket keys of newly opened windows: no charge and no cached counter is there yet,
      so the rows the transaction deletes hold nothing a request was charged for. */
  lemma FreshBuckets(
    s: State, id: Id, limits: seq<Limit>, now: int, bindings: map<Window, int>, changes: map<WindowKey, Span>,
    k: BucketKey)
    requires WindowsOk(s) && IsAdmission(s, id, limits, now, bindings, changes)
    requires k in OpenedKeys(changes)
    ensures k !in s.cache.buckets && !BoundTo(s.history.starts, k)
    ensures SumFor(s.history.committed, Bucket(k)) == ZERO
    ensures SumFor(s.history.flying, Bucket(k)) == ZERO
    ensures SumFor(s.history.dirty, Bucket(k)) == ZERO
  {
    var wk := WindowKey(k.id, k.window);
    ChangesOpen(s.cache, id, limits, now);
    assert wk in changes;
    FreshStart(s, wk, now);
    Unbound(s.history.starts, s.history.committed, k);
    Unbound(s.history.starts, s.history.flying, k);
    Unbound(s.history.starts, s.history.dirty, k);
  }

  lemma StartsGrow(starts: map<WindowKey, seq<int>>, changes: map<WindowKey, Span>, wk: WindowKey)
    ensures StartsOf(AppendStarts(starts, changes), wk) ==
      StartsOf(starts, wk) + if wk in changes then [changes[wk].start] else []
    ensures StartsOf(starts, wk) <= StartsOf(AppendStarts(starts, changes), wk)
  {
  }

  lemma StartsKeys(starts: map<WindowKey, seq<int>>, changes: map<WindowKey, Span>)
    ensures AppendStarts(starts, changes).Keys == starts.Keys + changes.Keys
  {
  }

  lemma BoundGrows(starts: map<WindowKey, seq<int>>, changes: map<WindowKey, Span>)
    ensures forall k :: BoundTo(starts, k) ==> BoundTo(AppendStarts(starts, changes), k)
  {
    forall k | BoundTo(starts, k) ensures BoundTo(AppendStarts(starts, changes), k) {
      StartsGrow(starts, changes, WindowKey(k.id, k.window));
    }
  }

  lemma LogGrows(starts: map<WindowKey, seq<int>>, changes: map<WindowKey, Span>, log: seq<Charge>)
    requires LogBound(starts, log)
    ensures LogBound(AppendStarts(starts, changes), log)
  {
    BoundGrows(starts, changes);
  }

  lemma BindingsGrow(starts: map<WindowKey, seq<int>>, changes: map<WindowKey, Span>, q: Request)
    requires BindingsKnown(starts, q)
    ensures BindingsKnown(AppendStarts(starts, changes), q)
  {
    if q.stage.Waiting? {
      forall w | w in q.stage.bindings
        ensures q.stage.bindings[w] in StartsOf(AppendStarts(starts, changes), WindowKey(q.id, w))
      {
        StartsGrow(starts, changes, WindowKey(q.id, w));
      }
    }
  }

  lemma NewBindingsKnown(
    s: State, id: Id, limits: seq<Limit>, now: int, bindings: map<Window, int>, changes: map<WindowKey, Span>)
    requires WindowsOk(s) && IsAdmission(s, id, limits, now, bindings, changes)
    ensures BindingsKnown(AppendStarts(s.history.starts, changes), Request(id, Waiting(now, bindings)))
  {
    ChangesOpen(s.cache, id, limits, now);
    forall w | w in bindings
      ensures Independent(w) && bindings[w] in StartsOf(AppendStarts(s.history.starts, changes), WindowKey(id, w))
    {
      var wk := WindowKey(id, w);
      StartsGrow(s.history.starts, changes, wk);
      if !Opens(s.cache, id, w, now) {
        assert StoredWindow(s, wk);
      }
    }
  }

  lemma SpacedAppend(starts: seq<int>, now: int, length: int)
    requires Spaced(starts, length)
    requires forall start :: start in starts ==> start + length <= now
    ensures Spaced(starts + [now], length)
  {
    var all := starts + [now];
    forall i, j | 0 <= i < j < |all| ensures all[i] + length <= all[j] {
      assert starts[i] in starts;
    }
  }

  lemma StoredAfterAdmission(
    s: State, id: Id, limits: seq<Limit>, now: int, bindings: map<Window, int>, changes: map<WindowKey, Span>, r: int,
    wk: WindowKey)
    requires WindowsOk(s) && IsAdmission(s, id, limits, now, bindings, changes)
    requires wk in ApplyAdmission(s, r, now, bindings, changes).store.windows
    ensures StoredWindow(ApplyAdmission(s, r, now, bindings, changes), wk)
  {
    ChangesOpen(s.cache, id, limits, now);
    var starts := StartsOf(s.history.starts, wk);
    StartsGrow(s.history.starts, changes, wk);
    if wk in s.store.windows {
      assert StoredWindow(s, wk);
    }
    if wk in changes {
      FreshStart(s, wk, now);
      SpacedAppend(starts, now, Length(wk.window));
    }
  }

  lemma SkippedAfterAdmission(s: State, changes: map<WindowKey, Span>, k: BucketKey)
    requires k in s.history.skipped && !Joined(s.store.windows, k) && k !in OpenedKeys(changes)
    ensures !Joined(s.store.windows + changes, k)
  {
    var wk := WindowKey(k.id, k.window);
    if wk in changes {
      assert BucketKey(k.id, k.window, changes[wk].start) in OpenedKeys(changes);
    }
  }

  lemma RequestsAfterAdmission(
    s: State, id: Id, limits: seq<Limit>, now: int, bindings: map<Window, int>, changes: map<WindowKey, Span>, r: int,
    q: int)
    requires WindowsOk(s) && IsAdmission(s, id, limits, now, bindings, changes)
    requires r in s.requests && s.requests[r].id == id && q in s.requests
    ensures var t := ApplyAdmission(s, r, now, bindings, changes); BindingsKnown(t.history.starts, t.requests[q])
  {
    if q == r {
      NewBindingsKnown(s, id, limits, now, bindings, changes);
    } else {
      BindingsGrow(s.history.starts, changes, s.requests[q]);
    }
  }

  lemma AdmissionKeepsWindows(
    s: State, id: Id, limits: seq<Limit>, now: int, bindings: map<Window, int>, changes: map<WindowKey, Span>, r: int)
    requires WindowsOk(s) && IsAdmission(s, id, limits, now, bindings, changes)
    requires r in s.requests && s.requests[r].id == id
    ensures WindowsOk(ApplyAdmission(s, r, now, bindings, changes))
  {
    hide StoredWindow, BindingsKnown, BoundTo, Joined, AppendStarts, LogBound;
    var t := ApplyAdmission(s, r, now, bindings, changes);
    ChangesOpen(s.cache, id, limits, now);
    forall wk | wk in t.store.windows ensures StoredWindow(t, wk) {
      StoredAfterAdmission(s, id, limits, now, bindings, changes, r, wk);
    }
    forall q | q in t.requests ensures BindingsKnown(t.history.starts, t.requests[q]) {
      RequestsAfterAdmission(s, id, limits, now, bindings, changes, r, q);
    }
    StartsKeys(s.history.starts, changes);
    BoundGrows(s.history.starts, changes);
    LogGrows(s.history.starts, changes, s.history.committed);
    LogGrows(s.history.starts, changes, s.history.flying);
    LogGrows(s.history.starts, changes, s.history.dirty);
    forall k | k in t.history.skipped && Independent(k.window) ensures !Joined(t.store.windows, k) {
      SkippedAfterAdmission(s, changes, k);
    }
    if !s.cache.connected {
      assert changes == map[];
    }
  }

  lemma RecordKeepsWindows(cfg: Config, s: State, r: int, tokens: int, charged: int)
    requires WindowsOk(s) && r in s.requests && s.requests[r].stage.Waiting?
    ensures WindowsOk(ApplyRecord(cfg, s, r, tokens, charged))
  {
    var q := s.requests[r];
    assert BindingsKnown(s.history.starts, q);
    forall k | k in Touched(q.id, q.stage.at, cfg.offset, q.stage.bindings) ensures BoundTo(s.history.starts, k) {
    }
  }

  lemma ConnectKeepsWindows(cfg: Config, s: State, now: int)
    requires WindowsOk(s)
    ensures WindowsOk(ApplyConnect(cfg, s, now))
  {
    var t := ApplyConnect(cfg, s, now);
    forall wk | wk in t.store.windows ensures StoredWindow(t, wk) {
      assert StoredWindow(s, wk);
    }
    forall k | k in t.cache.buckets ensures BoundTo(t.history.starts, k) {
      if k !in s.cache.buckets && Independent(k.window) {
        assert Joined(s.store.windows, k);
        assert StoredWindow(s, WindowKey(k.id, k.window));
      }
    }
  }

  lemma QuietKeepsWindows(s: State, t: State)
    requires WindowsOk(s)
    requires t.store.windows == s.store.windows && t.history.starts == s.history.starts
    requires t.cache.windows == s.cache.windows && t.cache.connected == s.cache.connected
    requires t.cache.buckets == s.cache.buckets && t.history.skipped == s.history.skipped
    requires forall r :: r in t.requests ==>
      t.requests[r].stage.Begun? || (r in s.requests && t.requests[r] == s.requests[r])
    requires t.history.committed == s.history.committed || t.history.committed == s.history.committed + s.history.flying
    requires t.history.flying == [] || t.history.flying == s.history.flying || t.history.flying == s.history.dirty
    requires t.history.dirty == [] || t.history.dirty == s.history.dirty
      || t.history.dirty == s.history.dirty + s.history.flying
    ensures WindowsOk(t)
  {
    forall wk | wk in t.store.windows ensures StoredWindow(t, wk) {
      assert StoredWindow(s, wk);
    }
  }

  lemma BootstrapKeepsWindows(s: State, k: LegacyKey)
    requires WindowsOk(s)
    ensures WindowsOk(ApplyBootstrap(s, k))
  {
    var t := ApplyBootstrap(s, k);
    forall wk | wk in t.store.windows ensures StoredWindow(t, wk) {
      assert StoredWindow(s, wk);
    }
  }

  lemma CrashKeepsWindows(s: State)
    requires WindowsOk(s)
    ensures WindowsOk(ApplyCrash(s))
  {
    var t := ApplyCrash(s);
    forall wk | wk in t.store.windows ensures StoredWindow(t, wk) {
      assert StoredWindow(s, wk);
    }
  }

  lemma AdmitKeepsWindows(cfg: Config, s: State, r: int, now: int, writable: bool)
    requires ValidConfig(cfg) && WindowsOk(s) && Enabled(cfg, s, AdmitStep(r, now, writable))
    ensures WindowsOk(ApplyAdmit(cfg, s, r, now, writable))
  {
    hide Admit;
    var key := cfg.keys[s.requests[r].id];
    AdmittedIsAdmission(s, key, now, cfg.offset, writable);
    match Admit(s.cache, key, now, cfg.offset, writable) {
      case Refused(_) =>
      case Admitted(bindings, changes) =>
        AdmissionKeepsWindows(s, key.id, Normalize(key.limits).limits, now, bindings, changes, r);
    }
  }

  lemma StepKeepsWindows(cfg: Config, s: State, e: Step)
    requires ValidConfig(cfg) && WindowsOk(s) && Enabled(cfg, s, e)
    ensures WindowsOk(Apply(cfg, s, e))
  {
    var t := Apply(cfg, s, e);
    match e
    case Begin(_, _) => QuietKeepsWindows(s, t);
    case AdmitStep(r, now, writable) => AdmitKeepsWindows(cfg, s, r, now, writable);
    case Record(r, tokens, charged) => RecordKeepsWindows(cfg, s, r, tokens, charged);
    case End(_) => QuietKeepsWindows(s, t);
    case Take => QuietKeepsWindows(s, t);
    case Commit => QuietKeepsWindows(s, t);
    case Fail => QuietKeepsWindows(s, t);
    case Connect(now) => ConnectKeepsWindows(cfg, s, now);
    case Bootstrap(k) => BootstrapKeepsWindows(s, k);
    case Crash => CrashKeepsWindows(s);
  }
}
