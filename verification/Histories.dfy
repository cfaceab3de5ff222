/** Sums of charges, and the plain arithmetic they stand for. */
module Histories {
  import opened Counters
  import opened Ledger
  import opened Sequences

  ghost predicate ValidLog(log: seq<Charge>) {
    forall i :: 0 <= i < |log| ==> Valid(log[i].delta)
  }

  function Share(c: Charge, a: Account): Counter {
    if Hits(c, a) then c.delta else ZERO
  }

  function SumFor(log: seq<Charge>, a: Account): Counter {
    if log == [] then ZERO else Plus(SumFor(log[..|log| - 1], a), Share(log[|log| - 1], a))
  }

  lemma {:induction false} SumValid(log: seq<Charge>, a: Account)
    requires ValidLog(log)
    ensures Valid(SumFor(log, a))
  {
    if log != [] {
      SumValid(log[..|log| - 1], a);
    }
  }

  lemma SumSnoc(log: seq<Charge>, c: Charge, a: Account)
    ensures SumFor(log + [c], a) == Plus(SumFor(log, a), Share(c, a))
  {
    assert (log + [c])[..|log|] == log;
  }

  lemma {:induction false} SumConcat(x: seq<Charge>, y: seq<Charge>, a: Account)
    requires ValidLog(x) && ValidLog(y)
    ensures ValidLog(x + y)
    ensures SumFor(x + y, a) == Plus(SumFor(x, a), SumFor(y, a))
  {
    hide Plus;
    SumValid(x, a);
    if y == [] {
      assert x + y == x;
      PlusZero(SumFor(x, a));
    } else {
      var init, last := y[..|y| - 1], y[|y| - 1];
      SumConcat(x, init, a);
      SumValid(init, a);
      assert x + y == (x + init) + [last];
      SumSnoc(x + init, last, a);
      PlusIsCommutativeMonoid(SumFor(x, a), SumFor(init, a), Share(last, a));
    }
  }

  lemma {:induction false} SumUntouched(log: seq<Charge>, a: Account)
    requires forall i :: 0 <= i < |log| ==> !Hits(log[i], a)
    ensures SumFor(log, a) == ZERO
  {
    if log != [] {
      var init := log[..|log| - 1];
      assert forall i :: 0 <= i < |init| ==> init[i] == log[i];
      SumUntouched(init, a);
      assert Share(log[|log| - 1], a) == ZERO;
      PlusZero(ZERO);
    }
  }

  /** The unsaturated total of the charges to an account. */
  function PlainCost(log: seq<Charge>, a: Account): int {
    if log == [] then 0 else PlainCost(log[..|log| - 1], a) + Share(log[|log| - 1], a).cost
  }

  /** The saturating sum of one sequence is the exact sum cut off at the 64-bit maximum. */
  lemma {:induction false} SumIsCapped(log: seq<Charge>, a: Account)
    requires ValidLog(log)
    ensures 0 <= PlainCost(log, a)
    ensures SumFor(log, a).cost == Min(MAX_INT64, PlainCost(log, a))
  {
    if log != [] {
      SumIsCapped(log[..|log| - 1], a);
    }
  }

  /** Any charge can be added last. */
  lemma AddedLast(log: seq<Charge>, i: nat, a: Account)
    requires ValidLog(log) && i < |log|
    ensures ValidLog(Without(log, i))
    ensures SumFor(log, a) == Plus(SumFor(Without(log, i), a), Share(log[i], a))
  {
    hide Plus, SumFor;
    var before, after, c := log[..i], log[i + 1..], log[i];
    assert log == (before + [c]) + after;
    SumConcat(before + [c], after, a);
    SumConcat(before, after, a);
    SumSnoc(before, c, a);
    SumValid(before, a);
    SumValid(after, a);
    var share := Share(c, a);
    PlusIsCommutativeMonoid(SumFor(before, a), share, SumFor(after, a));
    PlusIsCommutativeMonoid(share, SumFor(after, a), ZERO);
    PlusIsCommutativeMonoid(SumFor(before, a), SumFor(after, a), share);
  }

  lemma {:induction false} OrderDoesNotMatter(x: seq<Charge>, y: seq<Charge>, a: Account)
    requires ValidLog(x) && multiset(x) == multiset(y)
    ensures ValidLog(y) && SumFor(x, a) == SumFor(y, a)
    decreases |x|
  {
    hide Plus, SumFor;
    forall i | 0 <= i < |y| ensures Valid(y[i].delta) {
      assert y[i] in multiset(x);
    }
    if x == [] {
      assert |multiset(y)| == 0;
    } else {
      assert x[0] in multiset(y);
      var i :| 0 <= i < |y| && y[i] == x[0];
      WithoutMultiset(x, 0);
      WithoutMultiset(y, i);
      AddedLast(x, 0, a);
      AddedLast(y, i, a);
      OrderDoesNotMatter(Without(x, 0), Without(y, i), a);
    }
  }

  /** Charges added up in batches, and the batches then merged. */
  function SumOfBatches(batches: seq<seq<Charge>>, a: Account): Counter {
    if batches == [] then ZERO
    else Plus(SumOfBatches(batches[..|batches| - 1], a), SumFor(batches[|batches| - 1], a))
  }

  lemma {:induction false} GroupingDoesNotMatter(batches: seq<seq<Charge>>, a: Account)
    requires forall i :: 0 <= i < |batches| ==> ValidLog(batches[i])
    ensures ValidLog(Flatten(batches)) && SumOfBatches(batches, a) == SumFor(Flatten(batches), a)
  {
    hide Plus;
    if batches != [] {
      GroupingDoesNotMatter(batches[..|batches| - 1], a);
      SumConcat(Flatten(batches[..|batches| - 1]), batches[|batches| - 1], a);
    }
  }

  /** However charges are interleaved, grouped into batches and merged, what is left is the
      same counter, its cost the exact sum cut off at the 64-bit maximum. */
  lemma SaturatedSum(batches: seq<seq<Charge>>, log: seq<Charge>, a: Account)
    requires ValidLog(log) && multiset(Flatten(batches)) == multiset(log)
    ensures SumOfBatches(batches, a) == SumFor(log, a)
    ensures SumOfBatches(batches, a).cost == Min(MAX_INT64, PlainCost(log, a))
  {
    hide Plus, SumFor, PlainCost;
    OrderDoesNotMatter(log, Flatten(batches), a);
    BatchesValid(batches);
    GroupingDoesNotMatter(batches, a);
    SumIsCapped(log, a);
  }

  lemma {:induction false} BatchesValid(batches: seq<seq<Charge>>)
    requires ValidLog(Flatten(batches))
    ensures forall i :: 0 <= i < |batches| ==> ValidLog(batches[i])
  {
    if batches != [] {
      var init, last := batches[..|batches| - 1], batches[|batches| - 1];
      var all, front := Flatten(batches), Flatten(init);
      assert forall i :: 0 <= i < |front| ==> front[i] == all[i];
      assert forall i :: 0 <= i < |last| ==> last[i] == all[|front| + i];
      BatchesValid(init);
    }
  }
}
