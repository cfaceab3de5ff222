/** The usage ledger as values: what is in memory, what is on disk, and what each
    operation of the usage manager makes of them. */
module Ledger {
  import opened Counters
  import opened Calendar
  import opened Options
  import Text

  type Id = string

  datatype BucketKey = BucketKey(id: Id, window: Window, start: int)

  datatype WindowKey = WindowKey(id: Id, window: Window)

  /** The durable database: three tables, changed only by committed transactions. */
  datatype Store = Store(
    totals: map<Id, Counter>,
    buckets: map<BucketKey, Counter>,
    windows: map<WindowKey, Span>)

  /** The running process's counters and the part of them not yet written. */
  datatype Cache = Cache(
    connected: bool,
    totals: map<Id, Counter>,
    buckets: map<BucketKey, Counter>,
    windows: map<WindowKey, Span>,
    dirtyTotals: map<Id, Counter>,
    dirtyBuckets: map<BucketKey, Counter>,
    pending: int)

  /** What a flush has taken and not yet committed or given back. */
  datatype Batch = Batch(totals: map<Id, Counter>, buckets: map<BucketKey, Counter>, pending: int)

  const EMPTY_CACHE := Cache(false, map[], map[], map[], map[], map[], 0)

  /** A counter of the ledger: the lifetime total of a key, or one window instance. */
  datatype Account = Total(id: Id) | Bucket(key: BucketKey)

  function StoreAt(s: Store, a: Account): Counter {
    match a case Total(id) => At(s.totals, id) case Bucket(k) => At(s.buckets, k)
  }

  function CacheAt(c: Cache, a: Account): Counter {
    match a case Total(id) => At(c.totals, id) case Bucket(k) => At(c.buckets, k)
  }

  function DirtyAt(c: Cache, a: Account): Counter {
    match a case Total(id) => At(c.dirtyTotals, id) case Bucket(k) => At(c.dirtyBuckets, k)
  }

  function BatchAt(b: Batch, a: Account): Counter {
    match a case Total(id) => At(b.totals, id) case Bucket(k) => At(b.buckets, k)
  }

  // ---------------------------------------------------------------- Record

  /** One accepted contribution to the ledger and the buckets it lands in. */
  datatype Charge = Charge(id: Id, delta: Counter, touched: set<BucketKey>)

  predicate Hits(c: Charge, a: Account) {
    match a case Total(id) => c.id == id case Bucket(k) => k in c.touched
  }

  function BucketStart(w: Window, at: int, offset: int, bindings: map<Window, int>): int {
    if Independent(w) && w in bindings then bindings[w] else Bounds(w, at, offset).start
  }

  /** The buckets a request completed under the given bindings is charged to. */
  function Touched(id: Id, at: int, offset: int, bindings: map<Window, int>): set<BucketKey> {
    set w | w in SUPPORTED && (!Independent(w) || w in bindings) ::
      BucketKey(id, w, BucketStart(w, at, offset, bindings))
  }

  function ApplyCharge(c: Cache, charge: Charge): Cache {
    c.(totals := AddTo(c.totals, {charge.id}, charge.delta),
       buckets := AddTo(c.buckets, charge.touched, charge.delta),
       dirtyTotals := AddTo(c.dirtyTotals, {charge.id}, charge.delta),
       dirtyBuckets := AddTo(c.dirtyBuckets, charge.touched, charge.delta),
       pending := c.pending + 1)
  }

  function RequestCharge(id: Id, tokens: int, charged: int, at: int, offset: int, bindings: map<Window, int>): Charge {
    Charge(id, Counter(1, tokens, Max(0, charged)), Touched(id, at, offset, bindings))
  }

  function RecordCache(
    c: Cache, id: Id, tokens: int, charged: int, at: int, offset: int, bindings: map<Window, int>): Cache {
    if id == "" then c else ApplyCharge(c, RequestCharge(id, tokens, charged, at, offset, bindings))
  }

  // ------------------------------------------------------------- Bootstrap

  /** A control-database key with the counters of the time before the split. */
  datatype LegacyKey = LegacyKey(id: Id, usedRequests: int, usedTokens: int, everUsed: bool)

  predicate Unused(k: LegacyKey) {
    k.usedRequests == 0 && k.usedTokens == 0 && !k.everUsed
  }

  function BootstrapOne(c: Cache, k: LegacyKey): Cache {
    if k.id in c.totals then c
    else
      var total := Counter(k.usedRequests, k.usedTokens, 0);
      var seeded := c.(totals := c.totals[k.id := total]);
      if Unused(k) then seeded
      else seeded.(dirtyTotals := c.dirtyTotals[k.id := total], pending := c.pending + 1)
  }

  function BootstrapCache(c: Cache, keys: seq<LegacyKey>): Cache
    decreases |keys|
  {
    if keys == [] then c else BootstrapCache(BootstrapOne(c, keys[0]), keys[1..])
  }

  // ----------------------------------------------------------------- Flush

  function TakenBatch(c: Cache): Batch {
    Batch(c.dirtyTotals, c.dirtyBuckets, c.pending)
  }

  function TakenCache(c: Cache): Cache {
    c.(dirtyTotals := map[], dirtyBuckets := map[], pending := 0)
  }

  function RestoredCache(c: Cache, b: Batch): Cache {
    c.(dirtyTotals := Merge(c.dirtyTotals, b.totals),
       dirtyBuckets := Merge(c.dirtyBuckets, b.buckets),
       pending := c.pending + b.pending)
  }

  /** INSERT ... ON CONFLICT DO UPDATE for every row of the batch. */
  function Upsert<K>(table: map<K, Counter>, rows: map<K, Counter>): map<K, Counter> {
    map k | k in table.Keys + rows.Keys ::
      if k !in rows then table[k] else if k in table then SqlPlus(table[k], rows[k]) else rows[k]
  }

  function CommittedStore(s: Store, b: Batch): Store {
    s.(totals := Upsert(s.totals, b.totals), buckets := Upsert(s.buckets, b.buckets))
  }

  // --------------------------------------------------------------- Connect

  /** A bucket belongs to the first-use window currently stored for its key. */
  predicate Joined(windows: map<WindowKey, Span>, k: BucketKey) {
    var wk := WindowKey(k.id, k.window);
    wk in windows && windows[wk].start == k.start
  }

  /** The rows a connecting manager loads: those of current windows. */
  predicate Loads(s: Store, k: BucketKey, now: int, offset: int) {
    if Independent(k.window) then Joined(s.windows, k) else k.start == Bounds(k.window, now, offset).start
  }

  function LoadedBuckets(s: Store, now: int, offset: int): map<BucketKey, Counter> {
    s.buckets - set k | k in s.buckets && !Loads(s, k, now, offset)
  }

  function SkippedBuckets(s: Store, now: int, offset: int): map<BucketKey, Counter> {
    s.buckets - set k | k in s.buckets && Loads(s, k, now, offset)
  }

  /** Loaded rows replace the entries in memory, with the unwritten deltas on top. */
  function Overlay<K>(memory: map<K, Counter>, rows: map<K, Counter>, dirty: map<K, Counter>): map<K, Counter> {
    map k | k in memory.Keys + rows.Keys :: if k in rows then Plus(rows[k], At(dirty, k)) else memory[k]
  }

  function ConnectedCache(c: Cache, s: Store, now: int, offset: int): Cache {
    if c.connected then c
    else c.(connected := true, windows := s.windows,
            totals := Overlay(c.totals, s.totals, c.dirtyTotals),
            buckets := Overlay(c.buckets, LoadedBuckets(s, now, offset), c.dirtyBuckets))
  }

  // ---------------------------------------------------------------- Limits

  datatype RawLimit = RawLimit(window: string, requestQuota: int, tokenQuota: int, costQuota: int)

  datatype Limit = Limit(window: Window, requestQuota: int, tokenQuota: int, costQuota: int)

  datatype LimitError = UnsupportedWindow | DuplicateWindow | NegativeQuota

  datatype Normalized = Limits(limits: seq<Limit>) | Invalid(error: LimitError)

  function ParseWindow(name: string): Option<Window> {
    var w := Text.ToLower(Text.TrimSpace(name));
    if w == "1h" then Some(Hour1)
    else if w == "5h" then Some(Hour5)
    else if w == "1d" then Some(Day1)
    else if w == "7d" then Some(Day7)
    else if w == "30d" then Some(Day30)
    else None
  }

  function LimitProblem(raw: RawLimit, seen: set<Window>): Option<LimitError> {
    match ParseWindow(raw.window)
    case None => Some(UnsupportedWindow)
    case Some(w) =>
      if w in seen then Some(DuplicateWindow)
      else if raw.requestQuota < 0 || raw.tokenQuota < 0 || raw.costQuota < 0 then Some(NegativeQuota)
      else None
  }

  function FirstProblem(raw: seq<RawLimit>, seen: set<Window>): Option<LimitError>
    decreases |raw|
  {
    if raw == [] then None
    else if LimitProblem(raw[0], seen).Some? then LimitProblem(raw[0], seen)
    else FirstProblem(raw[1..], seen + {ParseWindow(raw[0].window).value})
  }

  function LimitsOf(raw: seq<RawLimit>, w: Window): seq<Limit>
    ensures forall i :: 0 <= i < |LimitsOf(raw, w)| ==> LimitsOf(raw, w)[i].window == w
  {
    if raw == [] then []
    else (if ParseWindow(raw[0].window) == Some(w)
          then [Limit(w, raw[0].requestQuota, raw[0].tokenQuota, raw[0].costQuota)] else []) + LimitsOf(raw[1..], w)
  }

  /** The limits in window order. */
  function Sorted(raw: seq<RawLimit>): seq<Limit> {
    LimitsOf(raw, Hour1) + LimitsOf(raw, Hour5) + LimitsOf(raw, Day1) + LimitsOf(raw, Day7) + LimitsOf(raw, Day30)
  }

  function Normalize(raw: seq<RawLimit>): Normalized {
    match FirstProblem(raw, {})
    case Some(e) => Invalid(e)
    case None => Limits(Sorted(raw))
  }

  // -------------------------------------------------------------- Statuses

  datatype WindowState = Active | Idle | Expired

  datatype Status = Status(state: WindowState, startsAt: int, resetsAt: int, used: Counter, limit: Limit)

  /** Go's zero time, 0001-01-01T00:00:00Z. */
  const ZERO_TIME: int := -62_135_596_800_000_000_000

  function WindowBounds(c: Cache, id: Id, w: Window, now: int, offset: int): (Span, WindowState) {
    if !Independent(w) then (Bounds(w, now, offset), Active)
    else if WindowKey(id, w) !in c.windows then (Span(ZERO_TIME, ZERO_TIME), Idle)
    else
      var span := c.windows[WindowKey(id, w)];
      (span, if now >= span.end then Expired else Active)
  }

  function StatusOf(c: Cache, id: Id, limit: Limit, now: int, offset: int): Status {
    var (span, state) := WindowBounds(c, id, limit.window, now, offset);
    var used := if state.Active? then At(c.buckets, BucketKey(id, limit.window, span.start)) else ZERO;
    Status(state, span.start, span.end, used, limit)
  }

  function Statuses(c: Cache, id: Id, limits: seq<Limit>, now: int, offset: int): (r: seq<Status>)
    ensures |r| == |limits|
  {
    seq(|limits|, i requires 0 <= i < |limits| => StatusOf(c, id, limits[i], now, offset))
  }

  datatype Dimension = Requests | Tokens | Cost

  function Measure(c: Counter, d: Dimension): int {
    match d case Requests => c.requests case Tokens => c.tokens case Cost => c.cost
  }

  function Quota(l: Limit, d: Dimension): int {
    match d case Requests => l.requestQuota case Tokens => l.tokenQuota case Cost => l.costQuota
  }

  datatype Violation = Violation(window: Window, dimension: Dimension, resetsAt: int)

  predicate Exhausts(s: Status, d: Dimension) {
    Quota(s.limit, d) > 0 && Measure(s.used, d) >= Quota(s.limit, d)
  }

  function StatusViolation(s: Status): Option<Violation> {
    if Exhausts(s, Requests) then Some(Violation(s.limit.window, Requests, s.resetsAt))
    else if Exhausts(s, Tokens) then Some(Violation(s.limit.window, Tokens, s.resetsAt))
    else if Exhausts(s, Cost) then Some(Violation(s.limit.window, Cost, s.resetsAt))
    else None
  }

  function FirstViolation(statuses: seq<Status>): Option<Violation> {
    if statuses == [] then None
    else if StatusViolation(statuses[0]).Some? then StatusViolation(statuses[0])
    else FirstViolation(statuses[1..])
  }

  // ----------------------------------------------------------------- Admit

  datatype ApiKey = ApiKey(
    id: Id, status: string, forcedExpired: bool, expiresAt: Option<int>,
    requestQuota: int, tokenQuota: int, costQuota: int, used: Counter,
    limits: seq<RawLimit>)

  datatype Refusal =
    | BadLimits(error: LimitError)
    | UsageUnavailable
    | KeyInactive
    | KeyExpired
    | QuotaExhausted
    | Limited(violation: Violation)
    | WriteFailed

  datatype Admission = Refused(reason: Refusal) | Admitted(bindings: map<Window, int>, changes: map<WindowKey, Span>)

  function KeyQuota(key: ApiKey, d: Dimension): int {
    match d case Requests => key.requestQuota case Tokens => key.tokenQuota case Cost => key.costQuota
  }

  /** Why the key may not be used now, given what it has used. */
  function KeyProblem(key: ApiKey, used: Counter, now: int): Option<Refusal> {
    if key.status != "active" || key.forcedExpired then Some(KeyInactive)
    else if key.expiresAt.Some? && key.expiresAt.value <= now then Some(KeyExpired)
    else if key.requestQuota > 0 && used.requests >= key.requestQuota then Some(QuotaExhausted)
    else if key.costQuota > 0 && used.cost >= key.costQuota then Some(QuotaExhausted)
    else if key.tokenQuota > 0 && used.tokens >= key.tokenQuota then Some(QuotaExhausted)
    else None
  }

  function EffectiveUse(c: Cache, key: ApiKey): Counter {
    if key.id in c.totals then c.totals[key.id] else key.used
  }

  /** The stored window if it is still open, else one that opens now. */
  function CurrentWindow(c: Cache, id: Id, w: Window, now: int): Span {
    var wk := WindowKey(id, w);
    if wk in c.windows && now < c.windows[wk].end then c.windows[wk] else Span(now, now + Length(w))
  }

  predicate Opens(c: Cache, id: Id, w: Window, now: int) {
    WindowKey(id, w) !in c.windows || now >= c.windows[WindowKey(id, w)].end
  }

  predicate HasIndependent(limits: seq<Limit>) {
    exists i :: 0 <= i < |limits| && Independent(limits[i].window)
  }

  function IndependentWindows(limits: seq<Limit>): set<Window> {
    set i | 0 <= i < |limits| && Independent(limits[i].window) :: limits[i].window
  }

  function Bindings(c: Cache, id: Id, limits: seq<Limit>, now: int): map<Window, int> {
    if IndependentWindows(limits) == {} then map[]
    else map w | w in IndependentWindows(limits) :: CurrentWindow(c, id, w, now).start
  }

  function OpeningKeys(c: Cache, id: Id, limits: seq<Limit>, now: int): set<WindowKey> {
    set w | w in IndependentWindows(limits) && Opens(c, id, w, now) :: WindowKey(id, w)
  }

  function Changes(c: Cache, id: Id, limits: seq<Limit>, now: int): map<WindowKey, Span> {
    var opening := OpeningKeys(c, id, limits, now);
    if opening == {} then map[] else map wk | wk in opening :: Span(now, now + Length(wk.window))
  }

  /** The decision of Admit, when writes succeed exactly if writable. */
  function Admit(c: Cache, key: ApiKey, now: int, offset: int, writable: bool): Admission {
    match Normalize(key.limits)
    case Invalid(e) => Refused(BadLimits(e))
    case Limits(limits) =>
      if HasIndependent(limits) && !c.connected then Refused(UsageUnavailable)
      else if KeyProblem(key, EffectiveUse(c, key), now).Some?
      then Refused(KeyProblem(key, EffectiveUse(c, key), now).value)
      else
        match FirstViolation(Statuses(c, key.id, limits, now, offset))
        case Some(v) => Refused(Limited(v))
        case None =>
          var changes := Changes(c, key.id, limits, now);
          if changes != map[] && !writable then Refused(WriteFailed)
          else Admitted(Bindings(c, key.id, limits, now), changes)
  }

  function OpenedKeys(changes: map<WindowKey, Span>): set<BucketKey> {
    set wk | wk in changes :: BucketKey(wk.id, wk.window, changes[wk].start)
  }

  function OpenedCache(c: Cache, changes: map<WindowKey, Span>): Cache {
    c.(windows := c.windows + changes)
  }

  /** The admission transaction: new windows, and no row left over at their starts. */
  function OpenedStore(s: Store, changes: map<WindowKey, Span>): Store {
    s.(windows := s.windows + changes, buckets := s.buckets - OpenedKeys(changes))
  }
}
