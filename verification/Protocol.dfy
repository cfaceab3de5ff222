/** The admission and write-behind protocol as a step system: any interleaving of
    requests, flushes, connects, bootstraps and crashes. */
module Protocol {
  import opened Counters
  import opened Calendar
  import opened Ledger
  import opened Options

  /** What the gateway and the manager are configured with, fixed for a run. */
  datatype Config = Config(keys: map<Id, ApiKey>, offset: int, maxConcurrent: int)

  datatype Stage =
    | Begun
    | Waiting(at: int, bindings: map<Window, int>)  // admitted, not yet recorded
    | Recorded

  datatype Request = Request(id: Id, stage: Stage)

  /** Bookkeeping that no operation reads.
      base: what the database held before the charges of the run;
      committed, flying, dirty: the charges in the database, taken by a flush, and unwritten;
      skipped: rows the present process did not load; starts: every window start ever stored. */
  datatype History = History(
    base: Store,
    committed: seq<Charge>,
    flying: seq<Charge>,
    dirty: seq<Charge>,
    skipped: map<BucketKey, Counter>,
    starts: map<WindowKey, seq<int>>)

  datatype State = State(
    store: Store,
    cache: Cache,
    transit: Option<Batch>,
    requests: map<int, Request>,
    history: History)

  datatype Step =
    | Begin(r: int, id: Id)
    | AdmitStep(r: int, now: int, writable: bool)
    | Record(r: int, tokens: int, charged: int)
    | End(r: int)
    | Take
    | Commit
    | Fail
    | Connect(now: int)
    | Bootstrap(key: LegacyKey)
    | Crash

  /** The gateway's per-key limit; a configured value that is not positive means 16. */
  function ConcurrencyLimit(cfg: Config): int {
    if cfg.maxConcurrent <= 0 then 16 else cfg.maxConcurrent
  }

  function ActiveOf(requests: map<int, Request>, id: Id): set<int> {
    set r | r in requests && requests[r].id == id
  }

  /** Admit and Flush hold flushMu, so no batch is in transit while a request is admitted.
      A connect that finds the database unreadable is no step at all. */
  predicate Enabled(cfg: Config, s: State, e: Step) {
    match e
    case Begin(r, id) => r !in s.requests && id in cfg.keys && |ActiveOf(s.requests, id)| < ConcurrencyLimit(cfg)
    case AdmitStep(r, _, _) =>
      r in s.requests && s.requests[r].stage.Begun? && s.requests[r].id in cfg.keys && s.transit.None?
    case Record(r, _, _) => r in s.requests && s.requests[r].stage.Waiting?
    case End(r) => r in s.requests
    case Take => s.cache.connected && s.transit.None?
    case Commit => s.transit.Some?
    case Fail => s.transit.Some?
    case Connect(_) => true
    case Bootstrap(_) => true
    case Crash => true
  }

  function StartsOf(starts: map<WindowKey, seq<int>>, wk: WindowKey): seq<int> {
    if wk in starts then starts[wk] else []
  }

  function AppendStarts(starts: map<WindowKey, seq<int>>, changes: map<WindowKey, Span>): map<WindowKey, seq<int>> {
    if changes == map[] then starts
    else (map wk | wk in starts.Keys + changes.Keys ::
            StartsOf(starts, wk) + if wk in changes then [changes[wk].start] else [])
  }

  function ApplyAdmission(
    s: State, r: int, now: int, bindings: map<Window, int>, changes: map<WindowKey, Span>): State {
    var cleared := OpenedKeys(changes);
    s.(store := OpenedStore(s.store, changes),
       cache := OpenedCache(s.cache, changes),
       requests := s.requests[r := Request(if r in s.requests then s.requests[r].id else "", Waiting(now, bindings))],
       history := s.history.(base := s.history.base.(buckets := s.history.base.buckets - cleared),
                             skipped := s.history.skipped - cleared,
                             starts := AppendStarts(s.history.starts, changes)))
  }

  function ApplyAdmit(cfg: Config, s: State, r: int, now: int, writable: bool): State
    requires r in s.requests && s.requests[r].id in cfg.keys
  {
    match Admit(s.cache, cfg.keys[s.requests[r].id], now, cfg.offset, writable)
    case Refused(_) => s
    case Admitted(bindings, changes) => ApplyAdmission(s, r, now, bindings, changes)
  }

  function ApplyRecord(cfg: Config, s: State, r: int, tokens: int, charged: int): State
    requires r in s.requests && s.requests[r].stage.Waiting?
  {
    var q := s.requests[r];
    var charge := RequestCharge(q.id, tokens, charged, q.stage.at, cfg.offset, q.stage.bindings);
    s.(cache := RecordCache(s.cache, q.id, tokens, charged, q.stage.at, cfg.offset, q.stage.bindings),
       requests := s.requests[r := Request(q.id, Recorded)],
       history := s.history.(dirty := if q.id == "" then s.history.dirty else s.history.dirty + [charge]))
  }

  function ApplyTake(s: State): State {
    var batch := TakenBatch(s.cache);
    s.(cache := TakenCache(s.cache),
       transit := if batch.pending == 0 then None else Some(batch),
       history := s.history.(dirty := [], flying := if batch.pending == 0 then [] else s.history.dirty))
  }

  function ApplyCommit(s: State): State
    requires s.transit.Some?
  {
    s.(store := CommittedStore(s.store, s.transit.value), transit := None,
       history := s.history.(committed := s.history.committed + s.history.flying, flying := []))
  }

  function ApplyFail(s: State): State
    requires s.transit.Some?
  {
    s.(cache := RestoredCache(s.cache, s.transit.value), transit := None,
       history := s.history.(dirty := s.history.dirty + s.history.flying, flying := []))
  }

  function ApplyConnect(cfg: Config, s: State, now: int): State {
    if s.cache.connected then s
    else s.(cache := ConnectedCache(s.cache, s.store, now, cfg.offset),
            history := s.history.(skipped := SkippedBuckets(s.store, now, cfg.offset)))
  }

  function ApplyBootstrap(s: State, k: LegacyKey): State {
    s.(cache := BootstrapOne(s.cache, k),
       history := if k.id in s.cache.totals || Unused(k) then s.history
                  else s.history.(dirty :=
                    s.history.dirty + [Charge(k.id, Counter(k.usedRequests, k.usedTokens, 0), {})]))
  }

  function ApplyCrash(s: State): State {
    State(s.store, EMPTY_CACHE, None, map[], s.history.(flying := [], dirty := [], skipped := map[]))
  }

  function Apply(cfg: Config, s: State, e: Step): State
    requires Enabled(cfg, s, e)
  {
    match e
    case Begin(r, id) => s.(requests := s.requests[r := Request(id, Begun)])
    case AdmitStep(r, now, writable) => ApplyAdmit(cfg, s, r, now, writable)
    case Record(r, tokens, charged) => ApplyRecord(cfg, s, r, tokens, charged)
    case End(r) => s.(requests := s.requests - {r})
    case Take => ApplyTake(s)
    case Commit => ApplyCommit(s)
    case Fail => ApplyFail(s)
    case Connect(now) => ApplyConnect(cfg, s, now)
    case Bootstrap(k) => ApplyBootstrap(s, k)
    case Crash => ApplyCrash(s)
  }

  /** The keys of a configuration carry their own ids. */
  ghost predicate ValidConfig(cfg: Config) {
    forall id :: id in cfg.keys ==> cfg.keys[id].id == id
  }

  /** A database as the server may find it: counters in range, first-use windows of full length. */
  ghost predicate ValidStore(s: Store) {
    && ValidMap(s.totals) && ValidMap(s.buckets)
    && forall wk :: wk in s.windows ==>
      Independent(wk.window) && s.windows[wk].end == s.windows[wk].start + Length(wk.window)
  }

  function InitialHistory(store: Store): History {
    History(store, [], [], [], map[],
            if store.windows == map[] then map[] else map wk | wk in store.windows :: [store.windows[wk].start])
  }

  ghost predicate Initial(s: State) {
    && ValidStore(s.store)
    && s == State(s.store, EMPTY_CACHE, None, map[], InitialHistory(s.store))
  }

  ghost predicate Feasible(cfg: Config, s: State, steps: seq<Step>)
    decreases |steps|
  {
    steps == [] || (Enabled(cfg, s, steps[0]) && Feasible(cfg, Apply(cfg, s, steps[0]), steps[1..]))
  }

  ghost function Run(cfg: Config, s: State, steps: seq<Step>): State
    requires Feasible(cfg, s, steps)
    decreases |steps|
  {
    if steps == [] then s else Run(cfg, Apply(cfg, s, steps[0]), steps[1..])
  }
}
