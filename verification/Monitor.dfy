/** The provider quota monitor: sweeps start fetches, fetches come back late and in any order,
    and the configuration is replaced meanwhile. */
module Monitor {
  import opened Options
  import opened QuotaIdentity

  datatype Entry = Entry(title: string, lines: seq<string>)

  /** One account of a provider that has a quota configuration. */
  datatype Setting = Setting(
    provider: string, pool: string, account: string, apiKey: string, quota: Quota, interval: int)

  datatype Target = Target(setting: Setting, requestIdentity: string, configIdentity: string, nextDue: int)

  datatype Status = Pending | Fine | Failed(message: string)

  datatype Snapshot = Snapshot(
    provider: string, pool: string, account: string, intervalSeconds: int,
    status: Status, lastAttempt: Option<int>, lastSuccess: Option<int>, entries: seq<Entry>)

  datatype Outcome = Entries(entries: seq<Entry>) | Problem(message: string)

  datatype Answer = Body(body: string) | NoBody(message: string)

  /** The hash of a fingerprint, the library functions in it, and what a body says under a
      quota configuration, of which only the normal form matters. */
  datatype Oracles = Oracles(hash: string -> string, lib: Library, parse: (string, Quota) -> Outcome)

  /** Hashes of different inputs differ. */
  ghost predicate Injective(hash: string -> string) {
    forall x, y :: hash(x) == hash(y) ==> x == y
  }

  function RequestInput(s: Setting): string {
    HashInput([s.quota.url, s.apiKey])
  }

  function ConfigInput(lib: Library, s: Setting): string {
    HashInput(Parts(lib, s.quota, s.interval, s.apiKey))
  }

  function RequestIdentity(o: Oracles, s: Setting): string {
    o.hash(RequestInput(s))
  }

  function ConfigIdentity(o: Oracles, s: Setting): string {
    o.hash(ConfigInput(o.lib, s))
  }

  /** An address or key that holds a NUL cannot be sent. */
  predicate Sendable(s: Setting) {
    '\U{0}' !in s.quota.url && '\U{0}' !in s.apiKey
  }

  function IdOf(s: Setting): string {
    s.provider + "\U{0}" + s.pool + "\U{0}" + s.account
  }

  /** The setting with the spaces around its address removed. */
  function Trimmed(s: Setting): Setting {
    s.(quota := s.quota.(url := Text.TrimSpace(s.quota.url)))
  }

  function TargetOf(o: Oracles, s: Setting, now: int): Target {
    var t := Trimmed(s);
    Target(t, RequestIdentity(o, t), ConfigIdentity(o, t), now)
  }

  const SECOND := 1_000_000_000

  function Blank(s: Setting): Snapshot {
    Snapshot(s.provider, s.pool, s.account, s.interval / SECOND, Pending, None, None, [])
  }

  /** A blank snapshot for every target. */
  function Blanks(targets: map<string, Target>): map<string, Snapshot> {
    map id | id in targets :: Blank(targets[id].setting)
  }

  // --------------------------------------------------------------- the step system

  /** A fetch that came back, and one target of the group it was for. */
  datatype Job = Job(target: Target, answer: Answer)

  datatype Fetched = Fetched(url: string, apiKey: string, body: string)

  function FetchedFor(s: Setting, body: string): Fetched {
    Fetched(s.quota.url, s.apiKey, body)
  }

  /** waiting: groups of targets with one request each; jobs: results not yet applied;
      bodies: every body an upstream has ever answered with (history). */
  datatype State = State(
    targets: map<string, Target>,
    snapshots: map<string, Snapshot>,
    waiting: set<set<Target>>,
    jobs: set<Job>,
    bodies: set<Fetched>)

  const START := State(map[], map[], {}, {}, {})

  datatype Step =
    | Replace(settings: seq<Setting>, now: int)
    | Sweep(now: int)
    | Fetch(group: set<Target>, owner: Target, answer: Answer)
    | ApplyJob(job: Job, at: int)

  function Built(o: Oracles, settings: seq<Setting>, now: int): map<string, Target> {
    if settings == [] then map[]
    else
      var last := settings[|settings| - 1];
      Built(o, settings[..|settings| - 1], now)[IdOf(last) := TargetOf(o, last, now)]
  }

  predicate Keeps(previous: map<string, Target>, next: map<string, Target>, id: string) {
    id in previous && id in next && previous[id].configIdentity == next[id].configIdentity
  }

  function ScheduledOne(targets: map<string, Target>, next: map<string, Target>, id: string): Target
    requires id in next
  {
    if Keeps(targets, next, id) then next[id].(nextDue := targets[id].nextDue) else next[id]
  }

  /** The new targets; an account whose configuration is the same keeps its schedule. */
  function Scheduled(targets: map<string, Target>, next: map<string, Target>): map<string, Target> {
    map id | id in next :: ScheduledOne(targets, next, id)
  }

  function CarriedOne(
    targets: map<string, Target>, snapshots: map<string, Snapshot>, next: map<string, Target>, id: string): Snapshot
    requires id in next
  {
    if Keeps(targets, next, id) && id in snapshots then snapshots[id] else Blank(next[id].setting)
  }

  /** The new snapshots; an account whose configuration is the same keeps its snapshot. */
  function Carried(
    targets: map<string, Target>, snapshots: map<string, Snapshot>, next: map<string, Target>): map<string, Snapshot> {
    map id | id in next :: CarriedOne(targets, snapshots, next, id)
  }

  predicate Due(targets: map<string, Target>, id: string, now: int) {
    id in targets && targets[id].nextDue <= now
  }

  function RescheduledOne(t: Target, now: int): Target {
    if t.nextDue <= now then t.(nextDue := now + t.setting.interval) else t
  }

  function Rescheduled(targets: map<string, Target>, now: int): map<string, Target> {
    map id | id in targets :: RescheduledOne(targets[id], now)
  }

  function DueRequests(targets: map<string, Target>, now: int): set<string> {
    set id | id in targets && Due(targets, id, now) :: targets[id].requestIdentity
  }

  function GroupFor(targets: map<string, Target>, now: int, request: string): set<Target> {
    set id | id in targets && Due(targets, id, now) && targets[id].requestIdentity == request :: targets[id]
  }

  /** Every due target stands in the group of its request, and nothing else does. */
  ghost predicate Grouped(groups: map<string, set<Target>>, targets: map<string, Target>, now: int) {
    && groups.Keys == DueRequests(targets, now)
    && forall r :: r in groups ==> groups[r] == GroupFor(targets, now, r)
  }

  function Groups(targets: map<string, Target>, now: int): set<set<Target>> {
    set r | r in DueRequests(targets, now) :: GroupFor(targets, now, r)
  }

  /** A result counts only for a target that is still loaded with the same configuration. */
  predicate Current(targets: map<string, Target>, t: Target) {
    IdOf(t.setting) in targets && targets[IdOf(t.setting)].configIdentity == t.configIdentity
  }

  function OutcomeOf(o: Oracles, job: Job): Outcome {
    if job.answer.NoBody? then Problem(job.answer.message)
    else o.parse(job.answer.body, Normal(job.target.setting.quota))
  }

  function AppliedSnapshot(previous: Snapshot, outcome: Outcome, at: int): Snapshot {
    match outcome
    case Problem(message) => previous.(status := Failed(message), lastAttempt := Some(at))
    case Entries(entries) =>
      previous.(status := Fine, lastAttempt := Some(at), lastSuccess := Some(at), entries := entries)
  }

  function AppliedSnapshots(s: State, t: Target, outcome: Outcome, at: int): map<string, Snapshot> {
    var id := IdOf(t.setting);
    if !Current(s.targets, t) || id !in s.snapshots then s.snapshots
    else s.snapshots[id := AppliedSnapshot(s.snapshots[id], outcome, at)]
  }

  /** The answer, for every target of the group. */
  function FetchedJobs(group: set<Target>, answer: Answer): set<Job> {
    set t | t in group :: Job(t, answer)
  }

  predicate Enabled(s: State, e: Step) {
    match e
    case Replace(_, _) => true
    case Sweep(_) => true
    case Fetch(group, owner, answer) =>
      group in s.waiting && owner in group && (answer.Body? ==> Sendable(owner.setting))
    case ApplyJob(job, _) => job in s.jobs
  }

  function Apply(o: Oracles, s: State, e: Step): State
    requires Enabled(s, e)
  {
    match e
    case Replace(settings, now) =>
      var next := Built(o, settings, now);
      s.(targets := Scheduled(s.targets, next), snapshots := Carried(s.targets, s.snapshots, next))
    case Sweep(now) =>
      s.(targets := Rescheduled(s.targets, now), waiting := s.waiting + Groups(s.targets, now))
    case Fetch(group, owner, answer) =>
      s.(waiting := s.waiting - {group},
         jobs := s.jobs + FetchedJobs(group, answer),
         bodies := if answer.NoBody? then s.bodies else s.bodies + {FetchedFor(owner.setting, answer.body)})
    case ApplyJob(job, at) =>
      s.(jobs := s.jobs - {job}, snapshots := AppliedSnapshots(s, job.target, OutcomeOf(o, job), at))
  }

  ghost predicate Feasible(o: Oracles, s: State, steps: seq<Step>)
    decreases |steps|
  {
    steps == [] || (Enabled(s, steps[0]) && Feasible(o, Apply(o, s, steps[0]), steps[1..]))
  }

  ghost function Run(o: Oracles, s: State, steps: seq<Step>): State
    requires Feasible(o, s, steps)
    decreases |steps|
  {
    if steps == [] then s else Run(o, Apply(o, s, steps[0]), steps[1..])
  }

  /** Every setting that is ever loaded is one of these. */
  ghost predicate Loads(all: set<Setting>, e: Step) {
    e.Replace? ==> forall i :: 0 <= i < |e.settings| ==> e.settings[i] in all
  }

  ghost predicate LoadsFrom(all: set<Setting>, steps: seq<Step>) {
    forall i :: 0 <= i < |steps| ==> Loads(all, steps[i])
  }

  // ------------------------------------------------------------------ the invariant

  /** Fetched from the same place and read in the same way. */
  predicate Alike(r: Setting, s: Setting) {
    r.quota.url == s.quota.url && r.apiKey == s.apiKey && Normal(r.quota) == Normal(s.quota)
  }

  /** If the configuration identity takes two settings of one account for the same, and the
      first can be fetched at all, they are alike. */
  ghost predicate Told(lib: Library, x: Setting, y: Setting) {
    var r, s := Trimmed(x), Trimmed(y);
    IdOf(x) == IdOf(y) && ConfigInput(lib, r) == ConfigInput(lib, s) && Sendable(r) ==> Alike(r, s)
  }

  ghost predicate Separate(lib: Library, all: set<Setting>) {
    forall x, y :: x in all && y in all ==> Told(lib, x, y)
  }

  /** A target is for one of the settings, and carries the identities of it. */
  ghost predicate Genuine(o: Oracles, all: set<Setting>, t: Target) {
    && (exists s :: s in all && t.setting == Trimmed(s))
    && t.requestIdentity == RequestIdentity(o, t.setting)
    && t.configIdentity == ConfigIdentity(o, t.setting)
  }

  ghost predicate GenuineTargets(o: Oracles, all: set<Setting>, targets: map<string, Target>) {
    forall id :: id in targets ==> IdOf(targets[id].setting) == id && Genuine(o, all, targets[id])
  }

  ghost predicate OneRequest(o: Oracles, all: set<Setting>, group: set<Target>) {
    && (forall t :: t in group ==> Genuine(o, all, t))
    && forall t, u :: t in group && u in group ==> t.requestIdentity == u.requestIdentity
  }

  /** The body was fetched from the address and with the key of the setting. */
  ghost predicate Answered(bodies: set<Fetched>, s: Setting, body: string) {
    FetchedFor(s, body) in bodies
  }

  /** Entries shown are what a body fetched for this very configuration says under it. */
  ghost predicate Backed(o: Oracles, bodies: set<Fetched>, s: Setting, snapshot: Snapshot) {
    if snapshot.lastSuccess.None? then snapshot.entries == []
    else exists body :: Answered(bodies, s, body) && o.parse(body, Normal(s.quota)) == Entries(snapshot.entries)
  }

  ghost predicate JobBacked(o: Oracles, all: set<Setting>, bodies: set<Fetched>, job: Job) {
    Genuine(o, all, job.target) && (job.answer.Body? ==> Answered(bodies, job.target.setting, job.answer.body))
  }

  /** Only what could be sent was ever answered. */
  ghost predicate AllSent(bodies: set<Fetched>) {
    forall f :: f in bodies ==> '\U{0}' !in f.url && '\U{0}' !in f.apiKey
  }

  /** There is a snapshot for exactly the loaded targets, and each is backed. */
  ghost predicate Fresh(
    o: Oracles, bodies: set<Fetched>, targets: map<string, Target>, snapshots: map<string, Snapshot>)
  {
    && snapshots.Keys == targets.Keys
    && forall id :: id in snapshots ==> Backed(o, bodies, targets[id].setting, snapshots[id])
  }

  ghost predicate AllOneRequest(o: Oracles, all: set<Setting>, waiting: set<set<Target>>) {
    forall group :: group in waiting ==> OneRequest(o, all, group)
  }

  ghost predicate AllJobsBacked(o: Oracles, all: set<Setting>, bodies: set<Fetched>, jobs: set<Job>) {
    forall job :: job in jobs ==> JobBacked(o, all, bodies, job)
  }

  ghost predicate Inv(o: Oracles, all: set<Setting>, s: State) {
    && GenuineTargets(o, all, s.targets)
    && Fresh(o, s.bodies, s.targets, s.snapshots)
    && AllOneRequest(o, all, s.waiting)
    && AllJobsBacked(o, all, s.bodies, s.jobs)
    && AllSent(s.bodies)
  }

  lemma TargetGenuine(o: Oracles, all: set<Setting>, s: Setting, now: int)
    requires s in all
    ensures Genuine(o, all, TargetOf(o, s, now)) && IdOf(TargetOf(o, s, now).setting) == IdOf(s)
  {
    hide RequestInput, ConfigInput;
  }

  lemma {:induction false} BuiltGenuine(o: Oracles, all: set<Setting>, settings: seq<Setting>, now: int)
    requires forall i :: 0 <= i < |settings| ==> settings[i] in all
    ensures GenuineTargets(o, all, Built(o, settings, now))
  {
    hide Genuine, TargetOf, IdOf;
    if settings != [] {
      BuiltGenuine(o, all, settings[..|settings| - 1], now);
      TargetGenuine(o, all, settings[|settings| - 1], now);
    }
  }

  /** Equal identities mean an equal configuration, as far as a result can depend on it. */
  lemma SameConfiguration(o: Oracles, all: set<Setting>, t: Target, u: Target)
    requires Injective(o.hash) && Separate(o.lib, all) && Genuine(o, all, t) && Genuine(o, all, u)
    requires t.configIdentity == u.configIdentity && IdOf(t.setting) == IdOf(u.setting) && Sendable(t.setting)
    ensures Alike(t.setting, u.setting)
  {
    hide ConfigInput, RequestInput, Alike, Sendable;
    var x :| x in all && t.setting == Trimmed(x);
    var y :| y in all && u.setting == Trimmed(y);
    assert IdOf(Trimmed(x)) == IdOf(x) && IdOf(Trimmed(y)) == IdOf(y);
    assert Told(o.lib, x, y);
  }

  lemma NulsOf(u: string, k: string, i: nat)
    requires '\U{0}' !in u && '\U{0}' !in k && i <= |u| + |k|
    ensures (u + ['\U{0}'] + k + ['\U{0}'])[i] == '\U{0}' ==> i == |u|
  {
    var s := u + ['\U{0}'] + k + ['\U{0}'];
    if i < |u| {
      assert s[i] == u[i];
    } else if i > |u| {
      assert s[i] == k[i - |u| - 1];
    }
  }

  /** An address and key that can be sent are told from all others. */
  lemma SendableRequest(u: string, k: string, v: string, l: string)
    requires '\U{0}' !in u && '\U{0}' !in k && HashInput([u, k]) == HashInput([v, l])
    ensures u == v && k == l
  {
    TwoParts(u, k);
    TwoParts(v, l);
    hide HashInput;
    var s := u + ['\U{0}'] + k + ['\U{0}'];
    var t := v + ['\U{0}'] + l + ['\U{0}'];
    assert s == t && |s| == |u| + |k| + 2 && |t| == |v| + |l| + 2;
    assert t[|v|] == '\U{0}';
    NulsOf(u, k, |v|);
    assert s[..|u|] == u && t[..|v|] == v;
    assert s[|u| + 1..|s| - 1] == k && t[|v| + 1..|t| - 1] == l;
  }

  lemma TwoParts(a: string, b: string)
    ensures HashInput([a, b]) == a + ['\U{0}'] + b + ['\U{0}']
  {
    HashOne(b);
    assert [a, b][1..] == [b];
  }

  /** Equal request identities mean the same address and key, if these can be sent. */
  lemma SameRequest(o: Oracles, all: set<Setting>, t: Target, u: Target)
    requires Injective(o.hash) && Genuine(o, all, t) && Genuine(o, all, u) && t.requestIdentity == u.requestIdentity
    requires Sendable(t.setting)
    ensures t.setting.quota.url == u.setting.quota.url && t.setting.apiKey == u.setting.apiKey
  {
    hide HashInput, ConfigInput;
    SendableRequest(t.setting.quota.url, t.setting.apiKey, u.setting.quota.url, u.setting.apiKey);
  }

  /** The hash tells all inputs apart, and the configuration identity all that matters. */
  ghost predicate Safe(o: Oracles, all: set<Setting>) {
    Injective(o.hash) && Separate(o.lib, all)
  }

  lemma ScheduledGenuine(o: Oracles, all: set<Setting>, targets: map<string, Target>, next: map<string, Target>)
    requires GenuineTargets(o, all, next)
    ensures GenuineTargets(o, all, Scheduled(targets, next))
  {
  }

  /** What backs a snapshot is the address, the key and the normal form. */
  lemma BackedAlike(o: Oracles, bodies: set<Fetched>, r: Setting, s: Setting, snapshot: Snapshot)
    requires Alike(r, s)
    ensures Backed(o, bodies, r, snapshot) ==> Backed(o, bodies, s, snapshot)
  {
    hide Normal;
    if Backed(o, bodies, r, snapshot) && snapshot.lastSuccess.Some? {
      var body :| Answered(bodies, r, body) && o.parse(body, Normal(r.quota)) == Entries(snapshot.entries);
      assert Answered(bodies, s, body);
    }
  }

  /** Whoever shows a result could be fetched. */
  lemma BackedSendable(o: Oracles, bodies: set<Fetched>, s: Setting, snapshot: Snapshot)
    requires AllSent(bodies) && Backed(o, bodies, s, snapshot) && snapshot.lastSuccess.Some?
    ensures Sendable(s)
  {
    hide Normal;
  }

  lemma CarriedBacked(o: Oracles, all: set<Setting>, s: State, next: map<string, Target>, id: string)
    requires Safe(o, all) && Inv(o, all, s) && GenuineTargets(o, all, next) && id in next
    ensures Backed(o, s.bodies, ScheduledOne(s.targets, next, id).setting, CarriedOne(s.targets, s.snapshots, next, id))
  {
    hide Genuine, Injective, Separate, Alike, Sendable, OneRequest, JobBacked, Answered, IdOf;
    if Keeps(s.targets, next, id) {
      assert Backed(o, s.bodies, s.targets[id].setting, s.snapshots[id]);
      if s.snapshots[id].lastSuccess.Some? {
        BackedSendable(o, s.bodies, s.targets[id].setting, s.snapshots[id]);
        SameConfiguration(o, all, s.targets[id], next[id]);
        BackedAlike(o, s.bodies, s.targets[id].setting, next[id].setting, s.snapshots[id]);
      }
    }
  }

  lemma CarriedFresh(o: Oracles, all: set<Setting>, s: State, next: map<string, Target>)
    requires Safe(o, all) && Inv(o, all, s) && GenuineTargets(o, all, next)
    ensures Fresh(o, s.bodies, Scheduled(s.targets, next), Carried(s.targets, s.snapshots, next))
  {
    hide Safe, Inv, GenuineTargets, Backed, ScheduledOne, CarriedOne;
    forall id | id in next
      ensures Backed(
        o, s.bodies, ScheduledOne(s.targets, next, id).setting, CarriedOne(s.targets, s.snapshots, next, id))
    {
      CarriedBacked(o, all, s, next, id);
    }
  }

  lemma ReplaceKeepsInv(o: Oracles, all: set<Setting>, s: State, settings: seq<Setting>, now: int)
    requires Safe(o, all) && Inv(o, all, s) && Loads(all, Replace(settings, now))
    ensures Inv(o, all, Apply(o, s, Replace(settings, now)))
  {
    var next := Built(o, settings, now);
    BuiltGenuine(o, all, settings, now);
    ScheduledGenuine(o, all, s.targets, next);
    CarriedFresh(o, all, s, next);
    hide Built, Safe, GenuineTargets, AllOneRequest, AllJobsBacked, Fresh, Scheduled, Carried;
  }

  lemma RescheduledGenuine(o: Oracles, all: set<Setting>, targets: map<string, Target>, now: int)
    requires GenuineTargets(o, all, targets)
    ensures GenuineTargets(o, all, Rescheduled(targets, now))
  {
  }

  lemma GroupsGenuine(o: Oracles, all: set<Setting>, targets: map<string, Target>, now: int)
    requires GenuineTargets(o, all, targets)
    ensures AllOneRequest(o, all, Groups(targets, now))
  {
    hide Genuine;
    forall group | group in Groups(targets, now) ensures OneRequest(o, all, group) {
      var r :| r in DueRequests(targets, now) && group == GroupFor(targets, now, r);
    }
  }

  lemma SweepFresh(o: Oracles, s: State, now: int)
    requires Fresh(o, s.bodies, s.targets, s.snapshots)
    ensures Fresh(o, s.bodies, Rescheduled(s.targets, now), s.snapshots)
  {
    hide Backed;
  }

  lemma SweepKeepsInv(o: Oracles, all: set<Setting>, s: State, now: int)
    requires Inv(o, all, s)
    ensures Inv(o, all, Apply(o, s, Sweep(now)))
  {
    RescheduledGenuine(o, all, s.targets, now);
    GroupsGenuine(o, all, s.targets, now);
    SweepFresh(o, s, now);
    hide Fresh, OneRequest, AllJobsBacked, GenuineTargets, Groups, Rescheduled;
  }

  lemma MoreBodies(o: Oracles, bodies: set<Fetched>, more: set<Fetched>, s: Setting, snapshot: Snapshot)
    requires Backed(o, bodies, s, snapshot) && bodies <= more
    ensures Backed(o, more, s, snapshot)
  {
    if snapshot.lastSuccess.Some? {
      var body :| Answered(bodies, s, body) && o.parse(body, Normal(s.quota)) == Entries(snapshot.entries);
      assert Answered(more, s, body);
    }
  }

  lemma FetchedBacked(
    o: Oracles, all: set<Setting>, group: set<Target>, owner: Target, answer: Answer, more: set<Fetched>, t: Target)
    requires Injective(o.hash) && OneRequest(o, all, group) && owner in group && t in group
    requires answer.Body? ==> FetchedFor(owner.setting, answer.body) in more && Sendable(owner.setting)
    ensures JobBacked(o, all, more, Job(t, answer))
  {
    hide Genuine;
    assert t.requestIdentity == owner.requestIdentity;
    if answer.Body? {
      SameRequest(o, all, owner, t);
    }
  }

  lemma MoreBodiesFresh(o: Oracles, bodies: set<Fetched>, more: set<Fetched>, s: State)
    requires Fresh(o, bodies, s.targets, s.snapshots) && bodies <= more
    ensures Fresh(o, more, s.targets, s.snapshots)
  {
    hide Backed;
    forall id | id in s.snapshots ensures Backed(o, more, s.targets[id].setting, s.snapshots[id]) {
      MoreBodies(o, bodies, more, s.targets[id].setting, s.snapshots[id]);
    }
  }

  lemma MoreBodiesBacked(o: Oracles, all: set<Setting>, bodies: set<Fetched>, more: set<Fetched>, jobs: set<Job>)
    requires AllJobsBacked(o, all, bodies, jobs) && bodies <= more
    ensures AllJobsBacked(o, all, more, jobs)
  {
    hide Genuine;
    forall job | job in jobs ensures JobBacked(o, all, more, job) {
      assert JobBacked(o, all, bodies, job);
    }
  }

  lemma FetchedJobsBacked(
    o: Oracles, all: set<Setting>, bodies: set<Fetched>, more: set<Fetched>, jobs: set<Job>,
    group: set<Target>, owner: Target, answer: Answer)
    requires Injective(o.hash) && AllJobsBacked(o, all, bodies, jobs) && bodies <= more
    requires OneRequest(o, all, group) && owner in group
    requires answer.Body? ==> FetchedFor(owner.setting, answer.body) in more && Sendable(owner.setting)
    ensures AllJobsBacked(o, all, more, jobs + FetchedJobs(group, answer))
  {
    MoreBodiesBacked(o, all, bodies, more, jobs);
    hide Injective, JobBacked, OneRequest, Sendable;
    forall target | target in group ensures JobBacked(o, all, more, Job(target, answer)) {
      FetchedBacked(o, all, group, owner, answer, more, target);
    }
  }

  lemma MoreSent(bodies: set<Fetched>, s: Setting, body: string)
    requires AllSent(bodies) && Sendable(s)
    ensures AllSent(bodies + {FetchedFor(s, body)})
  {
  }

  lemma FetchKeepsInv(o: Oracles, all: set<Setting>, s: State, group: set<Target>, owner: Target, answer: Answer)
    requires Injective(o.hash) && Inv(o, all, s) && Enabled(s, Fetch(group, owner, answer))
    ensures Inv(o, all, Apply(o, s, Fetch(group, owner, answer)))
  {
    var t := Apply(o, s, Fetch(group, owner, answer));
    assert OneRequest(o, all, group);
    hide Injective, GenuineTargets, OneRequest, Fresh, AllJobsBacked, AllSent, FetchedJobs, FetchedFor;
    MoreBodiesFresh(o, s.bodies, t.bodies, s);
    FetchedJobsBacked(o, all, s.bodies, t.bodies, s.jobs, group, owner, answer);
    if answer.Body? {
      MoreSent(s.bodies, owner.setting, answer.body);
    }
  }

  /** A result read under the loaded configuration backs the entries it brings. */
  lemma AppliedBacked(o: Oracles, all: set<Setting>, s: State, job: Job, at: int)
    requires Safe(o, all) && GenuineTargets(o, all, s.targets) && JobBacked(o, all, s.bodies, job)
    requires AllSent(s.bodies) && Current(s.targets, job.target)
    requires var id := IdOf(job.target.setting);
      id in s.snapshots && Backed(o, s.bodies, s.targets[id].setting, s.snapshots[id])
    ensures var id := IdOf(job.target.setting);
      Backed(o, s.bodies, s.targets[id].setting, AppliedSnapshot(s.snapshots[id], OutcomeOf(o, job), at))
  {
    var id := IdOf(job.target.setting);
    hide Genuine, Injective, Separate, Normal, IdOf;
    if job.answer.Body? {
      assert Sendable(job.target.setting);
      SameConfiguration(o, all, job.target, s.targets[id]);
      if OutcomeOf(o, job).Entries? {
        assert Answered(s.bodies, s.targets[id].setting, job.answer.body);
      }
    }
  }

  lemma AppliedFresh(o: Oracles, all: set<Setting>, s: State, job: Job, at: int)
    requires Safe(o, all) && Inv(o, all, s) && job in s.jobs
    ensures Fresh(o, s.bodies, s.targets, AppliedSnapshots(s, job.target, OutcomeOf(o, job), at))
  {
    hide Safe, GenuineTargets, OneRequest, JobBacked, Backed, IdOf, AppliedSnapshot, OutcomeOf;
    if Current(s.targets, job.target) {
      AppliedBacked(o, all, s, job, at);
    }
  }

  lemma ApplyJobKeepsInv(o: Oracles, all: set<Setting>, s: State, job: Job, at: int)
    requires Safe(o, all) && Inv(o, all, s) && Enabled(s, ApplyJob(job, at))
    ensures Inv(o, all, Apply(o, s, ApplyJob(job, at)))
  {
    AppliedFresh(o, all, s, job, at);
    hide Safe, Fresh, GenuineTargets, AllOneRequest, JobBacked, AppliedSnapshots, OutcomeOf;
  }

  lemma {:induction false} RunKeepsInv(o: Oracles, all: set<Setting>, s: State, steps: seq<Step>)
    requires Safe(o, all) && Inv(o, all, s) && Feasible(o, s, steps) && LoadsFrom(all, steps)
    ensures Inv(o, all, Run(o, s, steps))
    decreases |steps|
  {
    if steps != [] {
      assert Loads(all, steps[0]);
      match steps[0] {
        case Replace(settings, now) => ReplaceKeepsInv(o, all, s, settings, now);
        case Sweep(now) => SweepKeepsInv(o, all, s, now);
        case Fetch(group, owner, answer) => FetchKeepsInv(o, all, s, group, owner, answer);
        case ApplyJob(job, at) => ApplyJobKeepsInv(o, all, s, job, at);
      }
      hide Inv, Apply, Safe, Loads;
      RunKeepsInv(o, all, Apply(o, s, steps[0]), steps[1..]);
    }
  }

  /** No stale result: however sweeps, late fetches and replacements interleave, there is a
      snapshot for exactly the loaded targets, and entries shown for a target are what some
      upstream answered to the address and key loaded now, read under the configuration
      loaded now. */
  lemma NoStaleResult(o: Oracles, all: set<Setting>, steps: seq<Step>)
    requires Safe(o, all) && Feasible(o, START, steps) && LoadsFrom(all, steps)
    ensures var s := Run(o, START, steps); Fresh(o, s.bodies, s.targets, s.snapshots)
  {
    RunKeepsInv(o, all, START, steps);
  }

  /** No setting holds a NUL. */
  ghost predicate AllClean(all: set<Setting>) {
    forall s :: s in all ==> Clean(s.quota, s.apiKey)
  }

  /** Without a NUL, equal inputs of the configuration identity mean a like configuration. */
  lemma CleanAlike(lib: Library, x: Setting, y: Setting)
    requires Sorts(lib.sort) && Distinguishes(lib.duration)
    requires Clean(x.quota, x.apiKey) && Clean(y.quota, y.apiKey)
    ensures var r, s := Trimmed(x), Trimmed(y);
      ConfigInput(lib, r) == ConfigInput(lib, s) ==> Alike(r, s) && r.interval == s.interval
  {
    var r, s := Trimmed(x), Trimmed(y);
    TrimmedClean(x);
    TrimmedClean(y);
    Text.TrimIsIdempotent(x.quota.url);
    Text.TrimIsIdempotent(y.quota.url);
    hide Sorts, Distinguishes, Clean, HashInput, Parts, Text.TrimSpace, NonEmpty;
    SameHashInputIff(lib, r.quota, r.interval, r.apiKey, s.quota, s.interval, s.apiKey);
  }

  lemma TrimmedClean(s: Setting)
    requires Clean(s.quota, s.apiKey)
    ensures Clean(Trimmed(s).quota, Trimmed(s).apiKey)
  {
    Text.TrimIsIdempotent(s.quota.url);
    var q, r := s.quota, Trimmed(s).quota;
    assert NulFree([q.url, q.itemsPath, q.title, s.apiKey]);
    var four := [q.url, q.itemsPath, q.title, s.apiKey];
    assert q.url in four && q.itemsPath in four && q.title in four && s.apiKey in four;
    assert q.valueMaps == r.valueMaps;
    hide Text.TrimSpace, MapOf, Holds;
  }

  /** So no result is ever stale if no setting holds a NUL. */
  lemma CleanIsSeparate(lib: Library, all: set<Setting>)
    requires Sorts(lib.sort) && Distinguishes(lib.duration) && AllClean(all)
    ensures Separate(lib, all)
  {
    hide Sorts, Distinguishes, Clean, Alike, ConfigInput;
    forall x, y | x in all && y in all ensures Told(lib, x, y) {
      CleanAlike(lib, x, y);
    }
  }

  /** A result that arrives after its configuration was replaced changes nothing shown. */
  lemma StaleResultIsDropped(o: Oracles, all: set<Setting>, s: State, job: Job, at: int)
    requires Safe(o, all) && Inv(o, all, s) && job in s.jobs
    requires Apply(o, s, ApplyJob(job, at)).snapshots != s.snapshots
    ensures IdOf(job.target.setting) in s.targets
    ensures var loaded := s.targets[IdOf(job.target.setting)].setting;
      && ConfigInput(o.lib, loaded) == ConfigInput(o.lib, job.target.setting)
      && (job.answer.Body? ==> Alike(job.target.setting, loaded))
      && (Sorts(o.lib.sort) && Distinguishes(o.lib.duration) && AllClean(all) ==> Alike(job.target.setting, loaded))
  {
    hide Separate, Alike, ConfigInput, Normal, Backed, OneRequest, OutcomeOf, AppliedSnapshot, Sorts, Distinguishes;
    assert JobBacked(o, all, s.bodies, job);
    var loaded := s.targets[IdOf(job.target.setting)];
    if job.answer.Body? {
      SameConfiguration(o, all, job.target, loaded);
    }
    if Sorts(o.lib.sort) && Distinguishes(o.lib.duration) && AllClean(all) {
      var x :| x in all && job.target.setting == Trimmed(x);
      var y :| y in all && loaded.setting == Trimmed(y);
      CleanAlike(o.lib, x, y);
    }
  }

  // ---------------------------------------------------------------------- the class

  class QuotaMonitor {
    const oracles: Oracles
    var targets: map<string, Target>
    var snapshots: map<string, Snapshot>

    ghost predicate Valid()
      reads this
    {
      snapshots.Keys == targets.Keys
    }

    constructor (oracles: Oracles)
      ensures Valid() && this.oracles == oracles && targets == map[] && snapshots == map[]
    {
      this.oracles := oracles;
      targets, snapshots := map[], map[];
    }

    method BuildTargets(
      settings: seq<Setting>, now: int)
      returns (next: map<string, Target>, blank: map<string, Snapshot>)
      ensures next == Built(oracles, settings, now)
      ensures blank == Blanks(next)
    {
      next, blank := map[], map[];
      for i := 0 to |settings|
        invariant next == Built(oracles, settings[..i], now)
        invariant blank == Blanks(next)
      {
        hide IdOf, TargetOf, Blank, Blanks;
        var s := settings[i];
        assert settings[..i + 1][..i] == settings[..i];
        BlanksNext(next, IdOf(s), TargetOf(oracles, s, now));
        BlankOfTarget(oracles, s, now);
        next := next[IdOf(s) := TargetOf(oracles, s, now)];
        blank := blank[IdOf(s) := Blank(s)];
      }
      assert settings[..|settings|] == settings;
    }

    method Replace(settings: seq<Setting>, now: int)
      requires Valid()
      modifies this
      ensures Valid()
      ensures var next := Built(oracles, settings, now);
        targets == Scheduled(old(targets), next) && snapshots == Carried(old(targets), old(snapshots), next)
    {
      hide Built;
      var next, carried := BuildTargets(settings, now);
      PreserveUnchanged(next, carried);
    }

    method PreserveUnchanged(built: map<string, Target>, blank: map<string, Snapshot>)
      requires blank == Blanks(built)
      modifies this
      ensures targets == Scheduled(old(targets), built) && snapshots == Carried(old(targets), old(snapshots), built)
    {
      var next, carried := built, blank;
      var rest := built.Keys;
      while rest != {}
        invariant rest <= built.Keys && next.Keys == built.Keys && carried.Keys == built.Keys
        invariant forall id :: id in built ==>
          next[id] == (if id in rest then built[id] else ScheduledOne(targets, built, id))
        invariant forall id :: id in built ==>
          carried[id] == (if id in rest then blank[id] else CarriedOne(targets, snapshots, built, id))
        decreases rest
      {
        var id :| id in rest;
        rest := rest - {id};
        if id in targets && targets[id].configIdentity == next[id].configIdentity {
          next := next[id := next[id].(nextDue := targets[id].nextDue)];
          if id in snapshots {
            carried := carried[id := snapshots[id]];
          }
        }
      }
      hide ScheduledOne, CarriedOne;
      targets, snapshots := next, carried;
    }

    /** The due targets, grouped by request; each is scheduled again at once. */
    method Sweep(now: int) returns (groups: map<string, set<Target>>)
      requires Valid()
      modifies this`targets
      ensures Valid() && targets == Rescheduled(old(targets), now)
      ensures Grouped(groups, old(targets), now)
    {
      groups := map[];
      ghost var before := targets;
      var rest := targets.Keys;
      NoneDue(before, now);
      hide Grouped, Rescheduled;
      while rest != {}
        invariant rest <= before.Keys && targets.Keys == before.Keys
        invariant forall id :: id in before ==>
          targets[id] == (if id in rest then before[id] else RescheduledOne(before[id], now))
        invariant Grouped(groups, before - rest, now)
        decreases rest
      {
        var id :| id in rest;
        GroupOne(groups, before, rest, id, now);
        rest := rest - {id};
        var current := targets[id];
        if current.nextDue > now {
          continue;
        }
        var r := current.requestIdentity;
        groups := groups[r := (if r in groups then groups[r] else {}) + {current}];
        targets := targets[id := current.(nextDue := now + current.setting.interval)];
      }
      assert before - {} == before;
      AllRescheduled(before, targets, now);
    }

    /** applyError and applySuccess: the target may have been replaced or dropped meanwhile. */
    method ApplyResult(target: Target, at: int, outcome: Outcome)
      requires Valid()
      modifies this`snapshots
      ensures Valid() && snapshots == AppliedSnapshots(State(targets, old(snapshots), {}, {}, {}), target, outcome, at)
    {
      var id := IdOf(target.setting);
      if id !in targets || targets[id].configIdentity != target.configIdentity {
        return;
      }
      var snapshot := snapshots[id];
      match outcome {
        case Problem(message) =>
          snapshot := snapshot.(status := Failed(message), lastAttempt := Some(at));
        case Entries(entries) =>
          snapshot := snapshot.(status := Fine, lastAttempt := Some(at), lastSuccess := Some(at), entries := entries);
      }
      snapshots := snapshots[id := snapshot];
    }
  }

  lemma BlanksNext(next: map<string, Target>, id: string, t: Target)
    ensures Blanks(next[id := t]) == Blanks(next)[id := Blank(t.setting)]
  {
    hide Blank;
  }

  lemma BlankOfTarget(o: Oracles, s: Setting, now: int)
    ensures Blank(TargetOf(o, s, now).setting) == Blank(s)
  {
  }

  lemma AllRescheduled(before: map<string, Target>, after: map<string, Target>, now: int)
    requires after.Keys == before.Keys && forall id :: id in before ==> after[id] == RescheduledOne(before[id], now)
    ensures after == Rescheduled(before, now)
  {
    hide RescheduledOne;
  }

  lemma NoneDue(targets: map<string, Target>, now: int)
    ensures Grouped(map[], targets - targets.Keys, now)
  {
  }

  lemma EmptyGroup(targets: map<string, Target>, now: int, r: string)
    ensures r !in DueRequests(targets, now) ==> GroupFor(targets, now, r) == {}
  {
  }

  lemma SweepOne(before: map<string, Target>, rest: set<string>, id: string, now: int)
    requires rest <= before.Keys && id in rest
    ensures var done, more, r := before - rest, before - (rest - {id}), before[id].requestIdentity;
      && (before[id].nextDue > now ==> DueRequests(more, now) == DueRequests(done, now))
      && (before[id].nextDue <= now ==> DueRequests(more, now) == DueRequests(done, now) + {r})
      && (before[id].nextDue <= now ==> GroupFor(more, now, r) == GroupFor(done, now, r) + {before[id]})
    ensures forall r :: before[id].nextDue > now || r != before[id].requestIdentity ==>
      GroupFor(before - (rest - {id}), now, r) == GroupFor(before - rest, now, r)
  {
    var done, more := before - rest, before - (rest - {id});
    assert more.Keys == done.Keys + {id};
    forall r | before[id].nextDue > now || r != before[id].requestIdentity
      ensures GroupFor(more, now, r) == GroupFor(done, now, r)
    {
    }
  }

  /** One more target looked at. */
  lemma GroupOne(groups: map<string, set<Target>>, before: map<string, Target>, rest: set<string>, id: string, now: int)
    requires rest <= before.Keys && id in rest && Grouped(groups, before - rest, now)
    ensures before[id].nextDue > now ==> Grouped(groups, before - (rest - {id}), now)
    ensures before[id].nextDue <= now ==>
      var r := before[id].requestIdentity;
      Grouped(groups[r := (if r in groups then groups[r] else {}) + {before[id]}], before - (rest - {id}), now)
  {
    SweepOne(before, rest, id, now);
    EmptyGroup(before - rest, now, before[id].requestIdentity);
    hide DueRequests, GroupFor;
  }
}
