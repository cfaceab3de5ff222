/** What the quota monitor loads, when it asks again, and what a result changes on show. */
module Schedules {
  import opened Options
  import opened QuotaIdentity
  import opened Monitor

  /** The last setting of its account in the list. */
  ghost predicate LastOf(settings: seq<Setting>, i: int) {
    0 <= i < |settings| && forall j :: i < j < |settings| ==> IdOf(settings[j]) != IdOf(settings[i])
  }

  lemma {:induction false} BuiltHas(o: Oracles, settings: seq<Setting>, now: int, id: string)
    ensures id in Built(o, settings, now) <==> exists i :: 0 <= i < |settings| && IdOf(settings[i]) == id
    decreases |settings|
  {
    hide IdOf, TargetOf;
    if settings != [] {
      var init := settings[..|settings| - 1];
      BuiltHas(o, init, now, id);
      assert forall i :: 0 <= i < |init| ==> init[i] == settings[i];
      if i :| 0 <= i < |settings| && IdOf(settings[i]) == id {
        assert i < |init| ==> init[i] == settings[i];
      }
    }
  }

  lemma {:induction false} BuiltIs(o: Oracles, settings: seq<Setting>, now: int, i: int)
    requires LastOf(settings, i)
    ensures IdOf(settings[i]) in Built(o, settings, now)
    ensures Built(o, settings, now)[IdOf(settings[i])] == TargetOf(o, settings[i], now)
    decreases |settings|
  {
    hide IdOf, TargetOf;
    if i < |settings| - 1 {
      var init := settings[..|settings| - 1];
      assert forall j :: 0 <= j < |init| ==> init[j] == settings[j];
      BuiltIs(o, init, now, i);
    }
  }

  /** Loading settings: the last one of an account counts, with its address trimmed. If the
      account was loaded with the same configuration identity, its schedule and what it shows
      stay; otherwise it is due at once and shows nothing yet. */
  lemma ReplaceLoads(o: Oracles, s: State, settings: seq<Setting>, now: int, i: int)
    requires LastOf(settings, i)
    ensures var t := Apply(o, s, Replace(settings, now)); var x := settings[i]; var id := IdOf(x);
      && id in t.targets && id in t.snapshots
      && t.targets[id].setting == x.(quota := x.quota.(url := Text.TrimSpace(x.quota.url)))
      && t.targets[id].requestIdentity == o.hash(HashInput([Text.TrimSpace(x.quota.url), x.apiKey]))
      && t.targets[id].configIdentity ==
         o.hash(HashInput(Parts(o.lib, t.targets[id].setting.quota, x.interval, x.apiKey)))
      && (var same := id in s.targets && s.targets[id].configIdentity == t.targets[id].configIdentity;
          && (same ==> t.targets[id].nextDue == s.targets[id].nextDue)
          && (same && id in s.snapshots ==> t.snapshots[id] == s.snapshots[id])
          && (!same ==>
                && t.targets[id].nextDue == now
                && t.snapshots[id] ==
                   Snapshot(x.provider, x.pool, x.account, x.interval / 1_000_000_000, Pending, None, None, [])))
  {
    BuiltIs(o, settings, now, i);
    hide Built, IdOf, HashInput, Parts, Text.TrimSpace;
  }

  /** Nothing else is loaded. */
  lemma ReplaceLoadsOnly(o: Oracles, s: State, settings: seq<Setting>, now: int, id: string)
    ensures id in Apply(o, s, Replace(settings, now)).targets <==>
      exists i :: 0 <= i < |settings| && IdOf(settings[i]) == id
  {
    BuiltHas(o, settings, now, id);
    hide Built, IdOf, TargetOf;
  }

  /** Accounts are told apart by provider, pool and name, as long as these hold no NUL. */
  lemma AccountsDiffer(x: Setting, y: Setting)
    requires '\U{0}' !in x.provider && '\U{0}' !in x.pool && '\U{0}' !in y.provider && '\U{0}' !in y.pool
    ensures IdOf(x) == IdOf(y) <==> x.provider == y.provider && x.pool == y.pool && x.account == y.account
  {
    if IdOf(x) == IdOf(y) {
      IdIs(x);
      IdIs(y);
      FirstNul(x.provider, x.pool + ['\U{0}'] + x.account, y.provider, y.pool + ['\U{0}'] + y.account);
      FirstNul(x.pool, x.account, y.pool, y.account);
    }
  }

  lemma IdIs(x: Setting)
    ensures IdOf(x) == x.provider + ['\U{0}'] + (x.pool + ['\U{0}'] + x.account)
  {
  }

  // ---------------------------------------------------------------------- schedules

  /** A target that is due is asked for, in a group of its request, and due again an interval
      later; one that is not due is left alone. */
  lemma SweepAsks(o: Oracles, s: State, now: int, id: string)
    requires id in s.targets
    ensures var t := Apply(o, s, Sweep(now)); var x := s.targets[id];
      && id in t.targets
      && (x.nextDue <= now ==>
            && t.targets[id] == x.(nextDue := now + x.setting.interval)
            && exists group :: group in t.waiting && x in group)
      && (x.nextDue > now ==> t.targets[id] == x)
  {
    var t, x := Apply(o, s, Sweep(now)), s.targets[id];
    if x.nextDue <= now {
      assert Due(s.targets, id, now) && x.requestIdentity in DueRequests(s.targets, now);
      assert x in GroupFor(s.targets, now, x.requestIdentity);
      assert GroupFor(s.targets, now, x.requestIdentity) in t.waiting;
    }
  }

  lemma StepWaits(o: Oracles, s: State, e: Step, id: string)
    requires id in s.targets && Enabled(s, e) && !e.Replace? && (e.Sweep? ==> e.now < s.targets[id].nextDue)
    ensures id in Apply(o, s, e).targets && Apply(o, s, e).targets[id] == s.targets[id]
  {
    hide AppliedSnapshots, OutcomeOf, Groups, FetchedJobs;
  }

  /** Until an interval after a sweep that asked for it, no other sweep asks for a target. */
  lemma {:induction false} NotAgainBefore(o: Oracles, s: State, steps: seq<Step>, id: string)
    requires id in s.targets && Feasible(o, s, steps)
    requires forall i :: 0 <= i < |steps| ==> !steps[i].Replace?
    requires forall i :: 0 <= i < |steps| && steps[i].Sweep? ==> steps[i].now < s.targets[id].nextDue
    ensures id in Run(o, s, steps).targets && Run(o, s, steps).targets[id] == s.targets[id]
    decreases |steps|
  {
    if steps != [] {
      StepWaits(o, s, steps[0], id);
      hide Apply, Enabled;
      NotAgainBefore(o, Apply(o, s, steps[0]), steps[1..], id);
    }
  }

  // ------------------------------------------------------------------------ results

  /** A failure is shown beside the entries of the last success, a success replaces them; no
      other account is touched. */
  lemma ResultShows(o: Oracles, s: State, job: Job, at: int)
    requires job in s.jobs
    ensures var t := Apply(o, s, ApplyJob(job, at)); var id := IdOf(job.target.setting);
      && (forall other :: other in s.snapshots && other != id ==>
            other in t.snapshots && t.snapshots[other] == s.snapshots[other])
      && (id in s.snapshots && id in s.targets && s.targets[id].configIdentity == job.target.configIdentity ==>
            && id in t.snapshots
            && var before, after := s.snapshots[id], t.snapshots[id];
            && after.lastAttempt == Some(at)
            && (job.answer.NoBody? ==>
                  && after.status == Failed(job.answer.message)
                  && after.entries == before.entries && after.lastSuccess == before.lastSuccess)
            && (job.answer.Body? ==>
                  match o.parse(job.answer.body, Normal(job.target.setting.quota))
                  case Problem(message) =>
                    && after.status == Failed(message)
                    && after.entries == before.entries && after.lastSuccess == before.lastSuccess
                  case Entries(entries) =>
                    && after.status == Fine && after.entries == entries && after.lastSuccess == Some(at)))
  {
    hide IdOf, Normal;
  }
}
