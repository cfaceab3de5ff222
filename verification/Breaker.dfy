/** Circuit breakers, and the weighted choice among the accounts they let through. */
module Breaker {
  import opened Options

  datatype CircuitState = Closed | Open | HalfOpen

  /** A call on a breaker: a request asked for permission, or reported its outcome. */
  datatype Call = Asked(at: int) | Reported(success: bool, at: int)

  // ------------------------------------------------------------ what history says

  /** Failures reported since the last success. */
  function Trailing(h: seq<Call>): nat {
    if h == [] then 0
    else match h[|h| - 1]
      case Asked(_) => Trailing(h[..|h| - 1])
      case Reported(success, _) => if success then 0 else Trailing(h[..|h| - 1]) + 1
  }

  /** The index of the last report of a failure, or -1. */
  function LastFailure(h: seq<Call>): (i: int)
    ensures -1 <= i < |h|
    ensures i >= 0 ==> h[i].Reported? && !h[i].success
  {
    if h == [] then -1
    else if h[|h| - 1].Reported? && !h[|h| - 1].success then |h| - 1
    else LastFailure(h[..|h| - 1])
  }

  /** Some request has asked for permission at least a cooldown after the last failure. */
  ghost predicate CooledDown(h: seq<Call>, cooldown: int) {
    var i := LastFailure(h);
    i >= 0 && exists j :: i < j < |h| && h[j].Asked? && h[j].at - h[i].at >= cooldown
  }

  /** Permission is refused exactly to a breaker with too many failures in a row, none of
      whose callers since the last one, this one included, came a cooldown after it. */
  ghost predicate Permits(h: seq<Call>, threshold: int, cooldown: int, now: int) {
    Trailing(h) < threshold || CooledDown(h + [Asked(now)], cooldown)
  }

  lemma {:induction false} FailureIsLast(h: seq<Call>)
    ensures forall j :: LastFailure(h) < j < |h| ==> h[j].Asked? || h[j].success
    ensures Trailing(h) > 0 ==> LastFailure(h) >= 0
  {
    if h != [] {
      FailureIsLast(h[..|h| - 1]);
    }
  }

  lemma AskedSnoc(h: seq<Call>, now: int, cooldown: int)
    ensures Trailing(h + [Asked(now)]) == Trailing(h) && LastFailure(h + [Asked(now)]) == LastFailure(h)
    ensures LastFailure(h) >= 0 ==>
      (CooledDown(h + [Asked(now)], cooldown) <==> CooledDown(h, cooldown) || now - h[LastFailure(h)].at >= cooldown)
  {
    var t := h + [Asked(now)];
    assert t[..|h|] == h && t[|h|] == Asked(now);
    assert forall j :: 0 <= j < |h| ==> t[j] == h[j];
    if LastFailure(h) >= 0 && CooledDown(h, cooldown) {
      var i := LastFailure(h);
      var j :| i < j < |h| && h[j].Asked? && h[j].at - h[i].at >= cooldown;
      assert t[j] == h[j];
    }
  }

  lemma ReportedSnoc(h: seq<Call>, success: bool, now: int, cooldown: int)
    ensures Trailing(h + [Reported(success, now)]) == if success then 0 else Trailing(h) + 1
    ensures !success ==>
      LastFailure(h + [Reported(success, now)]) == |h| && !CooledDown(h + [Reported(success, now)], cooldown)
  {
    assert (h + [Reported(success, now)])[..|h|] == h;
  }

  // -------------------------------------------------------------------- the breaker

  class CircuitBreaker {
    const threshold: int
    const cooldown: int
    var state: CircuitState
    var failures: int
    var openedAt: int
    ghost var history: seq<Call>

    /** A breaker is not closed exactly if the trailing run of failures has reached the
        threshold; it then knows when the last failure was, and is half open exactly if a
        request has been let through since. */
    ghost predicate Valid()
      reads this
    {
      && threshold >= 1 && cooldown > 0
      && failures == Trailing(history)
      && (state.Closed? <==> Trailing(history) < threshold)
      && (!state.Closed? ==>
            && LastFailure(history) >= 0 && openedAt == history[LastFailure(history)].at
            && (state.HalfOpen? <==> CooledDown(history, cooldown)))
    }

    constructor (threshold: int, cooldown: int)
      ensures Valid() && history == [] && state.Closed?
      ensures this.threshold == (if threshold < 1 then 1 else threshold)
      ensures this.cooldown == (if cooldown <= 0 then 30_000_000_000 else cooldown)
    {
      this.threshold := if threshold < 1 then 1 else threshold;
      this.cooldown := if cooldown <= 0 then 30_000_000_000 else cooldown;
      state, failures, openedAt, history := Closed, 0, 0, [];
    }

    method Allow(now: int) returns (allowed: bool)
      requires Valid()
      modifies this
      ensures Valid() && history == old(history) + [Asked(now)]
      ensures allowed <==> Permits(old(history), threshold, cooldown, now)
    {
      AskedSnoc(history, now, cooldown);
      hide Trailing, LastFailure, CooledDown;
      history := history + [Asked(now)];
      if state != Open {
        return true;
      }
      if now - openedAt >= cooldown {
        state := HalfOpen;
        return true;
      }
      allowed := false;
    }

    method Record(success: bool, now: int)
      requires Valid()
      modifies this
      ensures Valid() && history == old(history) + [Reported(success, now)]
    {
      ReportedSnoc(history, success, now, cooldown);
      hide Trailing, CooledDown;
      history := history + [Reported(success, now)];
      if success {
        failures, openedAt, state := 0, 0, Closed;
        return;
      }
      failures := failures + 1;
      if state == HalfOpen || failures >= threshold {
        state, openedAt := Open, now;
      }
    }
  }

  /** A refusal comes only within the cooldown of the last failure, after a run of failures
      that reached the threshold; and once a request is let through, so are all later ones
      until the next failure. */
  lemma RefusalMeansRecentFailure(h: seq<Call>, threshold: int, cooldown: int, now: int)
    requires threshold >= 1 && !Permits(h, threshold, cooldown, now)
    ensures Trailing(h) >= threshold && LastFailure(h) >= 0 && now - h[LastFailure(h)].at < cooldown
    ensures forall j :: LastFailure(h) < j < |h| && h[j].Asked? ==> h[j].at - h[LastFailure(h)].at < cooldown
  {
    FailureIsLast(h);
    AskedSnoc(h, now, cooldown);
  }

  lemma PermissionLasts(h: seq<Call>, threshold: int, cooldown: int, now: int, later: int)
    requires Permits(h, threshold, cooldown, now)
    ensures Permits(h + [Asked(now)], threshold, cooldown, later)
  {
    FailureIsLast(h);
    AskedSnoc(h, now, cooldown);
    AskedSnoc(h + [Asked(now)], later, cooldown);
    if Trailing(h) >= threshold {
      var t := h + [Asked(now)];
      var i := LastFailure(t);
      assert CooledDown(t, cooldown);
      var j :| i < j < |t| && t[j].Asked? && t[j].at - t[i].at >= cooldown;
      var u := t + [Asked(later)];
      assert u[i] == t[i] && u[j] == t[j];
    }
  }

  /** Failures in a row, one at each of these times. */
  function Failures(times: seq<int>): seq<Call> {
    seq(|times|, i requires 0 <= i < |times| => Reported(false, times[i]))
  }

  lemma {:induction false} RunOfFailures(before: seq<Call>, times: seq<int>)
    requires before == [] || (before[|before| - 1].Reported? && before[|before| - 1].success)
    ensures var h := before + Failures(times);
      Trailing(h) == |times| && (times != [] ==> LastFailure(h) == |h| - 1)
    decreases |times|
  {
    var h := before + Failures(times);
    if times == [] {
      assert h == before;
    } else {
      var init := times[..|times| - 1];
      RunOfFailures(before, init);
      assert h[..|h| - 1] == before + Failures(init);
    }
  }

  /** After a run of failures the next request is refused exactly if the run has reached the
      threshold and the last failure is less than the cooldown ago. */
  lemma RefusedAtThreshold(before: seq<Call>, times: seq<int>, threshold: int, cooldown: int, now: int)
    requires before == [] || (before[|before| - 1].Reported? && before[|before| - 1].success)
    requires times != []
    ensures !Permits(before + Failures(times), threshold, cooldown, now) <==>
      |times| >= threshold && now - times[|times| - 1] < cooldown
  {
    var h := before + Failures(times);
    RunOfFailures(before, times);
    AskedSnoc(h, now, cooldown);
    hide Trailing, LastFailure;
    assert !CooledDown(h, cooldown);
  }

  // --------------------------------------------------------------- weighted choice

  /** The sum of the first i shares. */
  function Before(shares: seq<nat>, i: nat): nat
    requires i <= |shares|
  {
    if i == 0 then 0 else Before(shares, i - 1) + shares[i - 1]
  }

  function Total(shares: seq<nat>): nat {
    Before(shares, |shares|)
  }

  /** The draw falls into the stretch of account i. */
  predicate Picks(shares: seq<nat>, draw: nat, i: nat) {
    i < |shares| && Before(shares, i) <= draw < Before(shares, i) + shares[i]
  }

  function Draws(shares: seq<nat>, i: nat): set<int> {
    set draw | 0 <= draw < Total(shares) && Picks(shares, draw, i)
  }

  lemma {:induction false} BeforeMonotone(shares: seq<nat>, i: nat, j: nat)
    requires i <= j <= |shares|
    ensures Before(shares, i) <= Before(shares, j)
    decreases j
  {
    if i < j {
      BeforeMonotone(shares, i, j - 1);
    }
  }

  function Range(lo: int, n: nat): set<int> {
    if n == 0 then {} else Range(lo, n - 1) + {lo + n - 1}
  }

  lemma {:induction false} RangeIs(lo: int, n: nat)
    ensures forall x :: x in Range(lo, n) <==> lo <= x < lo + n
    ensures |Range(lo, n)| == n
  {
    if n > 0 {
      RangeIs(lo, n - 1);
    }
  }

  /** Of the equally likely draws below the total, exactly as many pick an account as is its
      share. */
  lemma ExactShare(shares: seq<nat>, i: nat)
    requires i < |shares|
    ensures |Draws(shares, i)| == shares[i]
  {
    BeforeMonotone(shares, i + 1, |shares|);
    RangeIs(Before(shares, i), shares[i]);
    var draws, stretch := Draws(shares, i), Range(Before(shares, i), shares[i]);
    assert draws == stretch by {
      forall x ensures x in draws <==> x in stretch {
        assert x in stretch <==> Before(shares, i) <= x < Before(shares, i) + shares[i];
        assert x >= 0 ==> (Picks(shares, x, i) <==> x in stretch);
      }
    }
  }

  /** Every draw picks exactly one account. */
  lemma {:induction false} OnePick(shares: seq<nat>, draw: nat)
    requires draw < Total(shares)
    ensures exists i: nat :: Picks(shares, draw, i) && forall j: nat :: Picks(shares, draw, j) ==> j == i
    decreases |shares|
  {
    var i := |shares|;
    while i > 0 && Before(shares, i) > draw
      invariant 0 <= i <= |shares|
      invariant i < |shares| ==> Before(shares, i + 1) > draw
    {
      i := i - 1;
    }
    assert Picks(shares, draw, i);
    forall j: nat | Picks(shares, draw, j) ensures j == i {
      if j < i {
        BeforeMonotone(shares, j + 1, i);
      } else if j > i {
        BeforeMonotone(shares, i + 1, j);
      }
    }
  }

  class Account {
    const name: string
    const weight: int
    const breaker: CircuitBreaker

    constructor (name: string, weight: int, breaker: CircuitBreaker)
      ensures this.name == name && this.weight == weight && this.breaker == breaker
    {
      this.name, this.weight, this.breaker := name, weight, breaker;
    }
  }

  /** An account takes part with its weight if that is positive and its breaker permits. */
  ghost function Share(a: Account, now: int): nat
    reads a.breaker
  {
    if a.weight > 0 && Permits(a.breaker.history, a.breaker.threshold, a.breaker.cooldown, now) then a.weight else 0
  }

  ghost function Shares(accounts: seq<Account>, now: int): seq<nat>
    reads set i | 0 <= i < |accounts| :: accounts[i].breaker
  {
    if accounts == [] then [] else Shares(accounts[..|accounts| - 1], now) + [Share(accounts[|accounts| - 1], now)]
  }

  lemma {:induction false} SharesAt(accounts: seq<Account>, now: int)
    ensures |Shares(accounts, now)| == |accounts|
    ensures forall i :: 0 <= i < |accounts| ==> Shares(accounts, now)[i] == Share(accounts[i], now)
  {
    if accounts != [] {
      SharesAt(accounts[..|accounts| - 1], now);
    }
  }

  /** As many draws pick an account as it has weight, if that is positive and its breaker lets
      the request through, and none otherwise. */
  lemma DrawsPerWeight(accounts: seq<Account>, now: int, i: nat)
    requires i < |accounts|
    ensures |Shares(accounts, now)| == |accounts|
    ensures var breaker := accounts[i].breaker;
      |Draws(Shares(accounts, now), i)| ==
        if accounts[i].weight > 0 && Permits(breaker.history, breaker.threshold, breaker.cooldown, now)
        then accounts[i].weight else 0
  {
    SharesAt(accounts, now);
    ExactShare(Shares(accounts, now), i);
    hide Draws, Shares, Permits;
  }

  /** The candidates are the accounts with a share, in order. */
  ghost predicate AreCandidates(candidates: seq<nat>, shares: seq<nat>) {
    && (forall k :: 0 <= k < |candidates| ==> candidates[k] < |shares| && shares[candidates[k]] > 0)
    && (forall k, m :: 0 <= k < m < |candidates| ==> candidates[k] < candidates[m])
    && (forall i :: 0 <= i < |shares| && shares[i] > 0 ==> i in candidates)
  }

  lemma {:induction false} SkippedAddNothing(shares: seq<nat>, i: nat, j: nat)
    requires i <= j <= |shares| && forall k :: i <= k < j ==> shares[k] == 0
    ensures Before(shares, j) == Before(shares, i)
    decreases j
  {
    if i < j {
      SkippedAddNothing(shares, i, j - 1);
    }
  }

  lemma {:induction false} BeforePrefix(shares: seq<nat>, more: nat, i: nat)
    requires i <= |shares|
    ensures Before(shares + [more], i) == Before(shares, i)
  {
    if i > 0 {
      BeforePrefix(shares, more, i - 1);
    }
  }

  /** From one candidate to the next only accounts without a share are skipped. */
  lemma NextCandidate(candidates: seq<nat>, shares: seq<nat>, k: nat)
    requires AreCandidates(candidates, shares) && k <= |candidates|
    ensures var from := if k == 0 then 0 else candidates[k - 1] + 1;
      var to := if k == |candidates| then |shares| else candidates[k];
      from <= to && Before(shares, to) == Before(shares, from)
  {
    var from := if k == 0 then 0 else candidates[k - 1] + 1;
    var to := if k == |candidates| then |shares| else candidates[k];
    forall i | from <= i < to ensures shares[i] == 0 {
      forall m | 0 <= m < |candidates| ensures candidates[m] != i {
        if m >= k {
          assert candidates[m] >= to;
        } else {
          assert candidates[m] < from;
        }
      }
    }
    SkippedAddNothing(shares, from, to);
  }

  /** The walk over the candidates: each step takes off one candidate's weight. */
  method Walk(candidates: seq<nat>, shares: seq<nat>, draw: nat) returns (i: nat)
    requires AreCandidates(candidates, shares) && draw < Total(shares)
    ensures Picks(shares, draw, i)
  {
    i := 0;
    var pick := draw;
    NextCandidate(candidates, shares, 0);
    for k := 0 to |candidates|
      invariant pick >= 0
      invariant pick == draw - Before(shares, if k == |candidates| then |shares| else candidates[k])
    {
      if pick < shares[candidates[k]] {
        return candidates[k];
      }
      pick := pick - shares[candidates[k]];
      NextCandidate(candidates, shares, k + 1);
    }
    // the trailing return of the last candidate is never reached
    assert false;
  }

  lemma ShareAdded(candidates: seq<nat>, shares: seq<nat>, share: nat)
    requires AreCandidates(candidates, shares) && share > 0
    ensures AreCandidates(candidates + [|shares|], shares + [share])
  {
    var after, all := candidates + [|shares|], shares + [share];
    forall k | 0 <= k < |after| ensures after[k] < |all| && all[after[k]] > 0 {
      if k < |candidates| {
        assert after[k] == candidates[k] && all[candidates[k]] == shares[candidates[k]];
      }
    }
    forall k, m | 0 <= k < m < |after| ensures after[k] < after[m] {
      assert after[k] == candidates[k];
      if m < |candidates| {
        assert after[m] == candidates[m];
      }
    }
    forall i | 0 <= i < |all| && all[i] > 0 ensures i in after {
      if i < |shares| {
        assert i in candidates;
      } else {
        assert after[|candidates|] == i;
      }
    }
  }

  lemma NothingAdded(candidates: seq<nat>, shares: seq<nat>)
    requires AreCandidates(candidates, shares)
    ensures AreCandidates(candidates, shares + [0])
  {
    var all: seq<nat> := shares + [0];
    assert forall i :: 0 <= i < |shares| ==> all[i] == shares[i];
  }

  lemma TotalAdded(shares: seq<nat>, share: nat)
    ensures Total(shares + [share]) == Total(shares) + share
  {
    BeforePrefix(shares, share, |shares|);
  }

  /** The first loop: asking each breaker of an account with a positive weight. */
  method Collect(
    accounts: seq<Account>, now: int, ghost shares: seq<nat>)
    returns (candidates: seq<nat>, weights: seq<nat>, totalWeight: nat)
    requires forall i :: 0 <= i < |accounts| ==> accounts[i].breaker.Valid()
    requires forall i, j :: 0 <= i < j < |accounts| ==> accounts[i].breaker != accounts[j].breaker
    requires |shares| == |accounts| && forall i :: 0 <= i < |accounts| ==> shares[i] == Share(accounts[i], now)
    modifies set i | 0 <= i < |accounts| :: accounts[i].breaker
    ensures forall i :: 0 <= i < |accounts| ==> accounts[i].breaker.Valid()
    ensures weights == shares && AreCandidates(candidates, shares) && totalWeight == Total(shares)
  {
    hide Permits, CircuitBreaker.Valid, AreCandidates, Before;
    candidates, weights, totalWeight := [], [], 0;
    NoCandidates();
    for i := 0 to |accounts|
      invariant forall j :: 0 <= j < |accounts| ==> accounts[j].breaker.Valid()
      invariant forall j :: i <= j < |accounts| ==> accounts[j].breaker.history == old(accounts[j].breaker.history)
      invariant |weights| == i && weights == shares[..i]
      invariant AreCandidates(candidates, weights)
      invariant totalWeight == Total(weights)
    {
      var account := accounts[i];
      assert shares[..i + 1] == shares[..i] + [shares[i]];
      TotalAdded(weights, shares[i]);
      if shares[i] > 0 {
        ShareAdded(candidates, weights, shares[i]);
      } else {
        NothingAdded(candidates, weights);
      }
      var share := 0;
      if account.weight > 0 {
        var allowed := account.breaker.Allow(now);
        if allowed {
          candidates := candidates + [i];
          totalWeight := totalWeight + account.weight;
          share := account.weight;
        }
      }
      weights := weights + [share];
    }
    assert shares[..|accounts|] == shares;
  }

  lemma NoCandidates()
    ensures AreCandidates([], []) && Total([]) == 0
  {
  }

  /** roll is the random number generator: any value below its argument. */
  method PickAccount(accounts: seq<Account>, now: int, roll: int -> int) returns (r: Option<nat>)
    requires forall n :: n > 0 ==> 0 <= roll(n) < n
    requires forall i :: 0 <= i < |accounts| ==> accounts[i].breaker.Valid()
    requires forall i, j :: 0 <= i < j < |accounts| ==> accounts[i].breaker != accounts[j].breaker
    modifies set i | 0 <= i < |accounts| :: accounts[i].breaker
    ensures forall i :: 0 <= i < |accounts| ==> accounts[i].breaker.Valid()
    ensures r.None? <==> Total(old(Shares(accounts, now))) == 0
    ensures r.Some? ==> Picks(old(Shares(accounts, now)), roll(Total(old(Shares(accounts, now)))), r.value)
  {
    hide Permits, CircuitBreaker.Valid, Shares;
    SharesAt(accounts, now);
    ghost var shares := Shares(accounts, now);
    var candidates, weights, totalWeight := Collect(accounts, now, shares);
    if totalWeight == 0 {
      return None;
    }
    var pick := Walk(candidates, weights, roll(totalWeight));
    r := Some(pick);
  }
}
