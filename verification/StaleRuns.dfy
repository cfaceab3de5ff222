/** Exactly when no result is ever stale, and the run that shows a stale one otherwise. */
module StaleRuns {
  import opened QuotaIdentity
  import opened Monitor

  ghost predicate RunsFresh(o: Oracles, all: set<Setting>, steps: seq<Step>) {
    Feasible(o, START, steps) && LoadsFrom(all, steps) ==>
      var s := Run(o, START, steps);
      Fresh(o, s.bodies, s.targets, s.snapshots)
  }

  /** However bodies are read, no run that loads these settings shows a stale result. */
  ghost predicate AlwaysFresh(hash: string -> string, lib: Library, all: set<Setting>) {
    forall parse: (string, Quota) -> Outcome, steps: seq<Step> :: RunsFresh(Oracles(hash, lib, parse), all, steps)
  }

  /** Bodies read as no entries under one quota configuration, and as a problem under others. */
  function ReadsOnly(q: Quota): (string, Quota) -> Outcome {
    (body, r) => if r == q then Entries([]) else Problem("")
  }

  function StaleSteps(o: Oracles, x: Setting, y: Setting): seq<Step> {
    var t := TargetOf(o, x, 0);
    [Replace([x], 0)] + ([Sweep(0)]
    + ([Fetch({t}, t, Body(""))] + ([ApplyJob(Job(t, Body("")), 0)] + ([Replace([y], 0)] + []))))
  }

  /** After x was loaded, swept and fetched, and the result applied. */
  function Loaded(o: Oracles, x: Setting): State {
    var t := TargetOf(o, x, 0);
    State(map[IdOf(x) := t], map[IdOf(x) := Blank(x)], {}, {}, {})
  }

  function Swept(o: Oracles, x: Setting): State {
    var t := TargetOf(o, x, 0);
    Loaded(o, x).(targets := map[IdOf(x) := RescheduledOne(t, 0)], waiting := {{t}})
  }

  function Returned(o: Oracles, x: Setting): State {
    var t := TargetOf(o, x, 0);
    Swept(o, x).(waiting := {}, jobs := {Job(t, Body(""))}, bodies := {FetchedFor(t.setting, "")})
  }

  function Shown(o: Oracles, x: Setting): State {
    var t := TargetOf(o, x, 0);
    Returned(o, x).(jobs := {}, snapshots := map[IdOf(x) := AppliedSnapshot(Blank(x), Entries([]), 0)])
  }

  lemma BuiltOne(o: Oracles, x: Setting)
    ensures Built(o, [x], 0) == map[IdOf(x) := TargetOf(o, x, 0)]
  {
    assert [x][..0] == [];
    hide IdOf, TargetOf;
    assert Built(o, [], 0) == map[];
  }

  lemma LoadStep(o: Oracles, x: Setting)
    ensures Apply(o, START, Replace([x], 0)) == Loaded(o, x)
  {
    BuiltOne(o, x);
    hide Built, IdOf;
  }

  lemma SweepStep(o: Oracles, x: Setting)
    ensures Apply(o, Loaded(o, x), Sweep(0)) == Swept(o, x)
  {
    var s, t := Loaded(o, x), TargetOf(o, x, 0);
    hide IdOf, RequestIdentity, ConfigIdentity;
    assert Due(s.targets, IdOf(x), 0);
    assert DueRequests(s.targets, 0) == {t.requestIdentity};
    assert GroupFor(s.targets, 0, t.requestIdentity) == {t};
    assert Groups(s.targets, 0) == {{t}};
  }

  lemma FetchStep(o: Oracles, x: Setting)
    requires Sendable(Trimmed(x))
    ensures var t := TargetOf(o, x, 0); var e := Fetch({t}, t, Body(""));
      Enabled(Swept(o, x), e) && Apply(o, Swept(o, x), e) == Returned(o, x)
  {
    hide IdOf, RequestIdentity, ConfigIdentity, Sendable;
  }

  lemma ApplyStep(o: Oracles, x: Setting)
    requires o.parse("", Normal(Trimmed(x).quota)) == Entries([])
    ensures var e := ApplyJob(Job(TargetOf(o, x, 0), Body("")), 0);
      Enabled(Returned(o, x), e) && Apply(o, Returned(o, x), e) == Shown(o, x)
  {
    hide RequestIdentity, ConfigIdentity, Normal;
    assert IdOf(Trimmed(x)) == IdOf(x);
    hide IdOf;
  }

  lemma ReplaceStep(o: Oracles, x: Setting, y: Setting)
    requires IdOf(x) == IdOf(y) && ConfigIdentity(o, Trimmed(x)) == ConfigIdentity(o, Trimmed(y))
    ensures var s := Apply(o, Shown(o, x), Replace([y], 0));
      && IdOf(y) in s.targets && s.targets[IdOf(y)].setting == Trimmed(y)
      && s.snapshots == Shown(o, x).snapshots && s.bodies == Shown(o, x).bodies
  {
    BuiltOne(o, y);
    hide Built, IdOf, RequestIdentity, ConfigIdentity;
  }

  lemma Cons(o: Oracles, s: State, e: Step, rest: seq<Step>)
    requires Enabled(s, e) && Feasible(o, Apply(o, s, e), rest)
    ensures Feasible(o, s, [e] + rest) && Run(o, s, [e] + rest) == Run(o, Apply(o, s, e), rest)
  {
    hide Apply, Enabled;
    assert ([e] + rest)[1..] == rest;
  }

  lemma StaleRun(o: Oracles, x: Setting, y: Setting)
    requires Sendable(Trimmed(x)) && o.parse("", Normal(Trimmed(x).quota)) == Entries([])
    ensures var steps := StaleSteps(o, x, y);
      Feasible(o, START, steps) && Run(o, START, steps) == Apply(o, Shown(o, x), Replace([y], 0))
  {
    var t := TargetOf(o, x, 0);
    LoadStep(o, x);
    SweepStep(o, x);
    FetchStep(o, x);
    ApplyStep(o, x);
    AlwaysEnabled(o, x, y);
    hide Apply, Enabled, Loaded, Swept, Returned, Shown, TargetOf, Sendable;
    var d := [Replace([y], 0)] + [];
    var c := [ApplyJob(Job(t, Body("")), 0)] + d;
    var b := [Fetch({t}, t, Body(""))] + c;
    Cons(o, Shown(o, x), Replace([y], 0), []);
    Cons(o, Returned(o, x), ApplyJob(Job(t, Body("")), 0), d);
    Cons(o, Swept(o, x), Fetch({t}, t, Body("")), c);
    Cons(o, Loaded(o, x), Sweep(0), b);
    Cons(o, START, Replace([x], 0), [Sweep(0)] + b);
  }

  lemma AlwaysEnabled(o: Oracles, x: Setting, y: Setting)
    ensures Enabled(START, Replace([x], 0)) && Enabled(Loaded(o, x), Sweep(0)) && Enabled(Shown(o, x), Replace([y], 0))
  {
  }

  /** If all that was answered is for r, only settings like r are backed by it. */
  lemma BackedIsAlike(o: Oracles, bodies: set<Fetched>, r: Setting, s: Setting, snapshot: Snapshot)
    requires bodies == {FetchedFor(r, "")} && o.parse == ReadsOnly(Normal(r.quota)) && snapshot.lastSuccess.Some?
    ensures Backed(o, bodies, s, snapshot) ==> Alike(r, s)
  {
    hide Normal;
  }

  /** What the last step leaves on show is not backed. */
  lemma NotFresh(o: Oracles, x: Setting, y: Setting)
    requires IdOf(x) == IdOf(y) && ConfigIdentity(o, Trimmed(x)) == ConfigIdentity(o, Trimmed(y))
    requires !Alike(Trimmed(x), Trimmed(y)) && o.parse == ReadsOnly(Normal(Trimmed(x).quota))
    ensures var s := Apply(o, Shown(o, x), Replace([y], 0)); !Fresh(o, s.bodies, s.targets, s.snapshots)
  {
    ReplaceStep(o, x, y);
    var s := Apply(o, Shown(o, x), Replace([y], 0));
    hide Apply, Normal, IdOf, Backed, Alike;
    BackedIsAlike(o, s.bodies, Trimmed(x), Trimmed(y), s.snapshots[IdOf(y)]);
  }

  lemma StaleLoads(o: Oracles, all: set<Setting>, x: Setting, y: Setting)
    requires x in all && y in all
    ensures LoadsFrom(all, StaleSteps(o, x, y))
  {
    hide TargetOf;
  }

  /** Two settings of one account that the configuration identity takes for the same, though
      they are not alike: the result of the first stays on show for the second. */
  lemma StaleResultIsShown(hash: string -> string, lib: Library, all: set<Setting>, x: Setting, y: Setting)
    requires x in all && y in all && !Told(lib, x, y)
    ensures !AlwaysFresh(hash, lib, all)
  {
    var parse := ReadsOnly(Normal(Trimmed(x).quota));
    var o := Oracles(hash, lib, parse);
    hide Alike, Sendable, ConfigInput, Normal, Trimmed, IdOf, Fresh, Shown, Apply, Feasible, LoadsFrom, StaleSteps;
    StaleRun(o, x, y);
    NotFresh(o, x, y);
    StaleLoads(o, all, x, y);
    assert !RunsFresh(Oracles(hash, lib, parse), all, StaleSteps(o, x, y));
  }

  /** No run ever shows a stale result, however bodies are read, if and only if the
      configuration identity tells apart all settings of an account that matter. */
  lemma FreshIffSeparate(hash: string -> string, lib: Library, all: set<Setting>)
    requires Injective(hash)
    ensures AlwaysFresh(hash, lib, all) <==> Separate(lib, all)
  {
    hide Told, Feasible, Run, LoadsFrom, Fresh;
    if Separate(lib, all) {
      forall parse: (string, Quota) -> Outcome, steps: seq<Step>
        ensures RunsFresh(Oracles(hash, lib, parse), all, steps)
      {
        var o := Oracles(hash, lib, parse);
        if Feasible(o, START, steps) && LoadsFrom(all, steps) {
          NoStaleResult(o, all, steps);
        }
      }
    } else {
      var x, y :| x in all && y in all && !Told(lib, x, y);
      StaleResultIsShown(hash, lib, all, x, y);
    }
  }

  /** A display line that holds a NUL, the tag and a NUL, against two lines: a replacement of
      one by the other keeps a stale result on show. */
  lemma StaleLines(hash: string -> string, lib: Library, all: set<Setting>, s: Setting, a: string, b: string)
    requires Sendable(Trimmed(s)) && TwoLines(s, a, b) in all && OneLine(s, a, b) in all
    ensures !AlwaysFresh(hash, lib, all)
  {
    var x, y := TwoLines(s, a, b), OneLine(s, a, b);
    NulLineCollides(lib, Trimmed(s).quota, s.interval, s.apiKey, a, b);
    LinesDiffer(s, a, b);
    hide Parts, HashInput, Normal, Text.TrimSpace;
    assert !Told(lib, x, y);
    StaleResultIsShown(hash, lib, all, x, y);
  }

  function TwoLines(s: Setting, a: string, b: string): Setting {
    s.(quota := s.quota.(lines := [a, b]))
  }

  function OneLine(s: Setting, a: string, b: string): Setting {
    s.(quota := s.quota.(lines := [a + "\U{0}display-line\U{0}" + b]))
  }

  lemma LinesDiffer(s: Setting, a: string, b: string)
    ensures !Alike(Trimmed(TwoLines(s, a, b)), Trimmed(OneLine(s, a, b)))
  {
    var x, y := Normal(Trimmed(TwoLines(s, a, b)).quota), Normal(Trimmed(OneLine(s, a, b)).quota);
    assert |x.lines| == 2 && |y.lines| == 1;
  }
}
