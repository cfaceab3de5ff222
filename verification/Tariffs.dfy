/** How the cost of a request changes with its size: the exact condition on a price under
    which more input never costs less before rounding and capping, what follows for charges,
    and many requests against their sum. */
module Tariffs {
  import opened Calendar
  import opened Counters
  import opened Options
  import opened Billing

  // ------------------------------------------------------------- across one boundary

  /** From the rates x for an input of t to the rates y for t + 1, no split of the input gets
      cheaper. Costs are linear in the split, so its corners decide. */
  predicate BoundaryRises(p: Price, t: int, x: Rates, y: Rates) {
    var xHit, xWrite, yHit, yWrite := HitPrice(x), WritePrice(p, x), HitPrice(y), WritePrice(p, y);
    && x.output <= y.output
    && t * x.input <= (t + 1) * y.input
    && t * xHit <= y.input + t * yHit
    && t * xWrite <= y.input + t * yWrite
    && t * xWrite <= (t + 1) * yWrite
    && t * xHit <= t * yHit + yWrite
    && t * xHit <= (t + 1) * yHit
  }

  predicate NotNegative(p: Price, r: Rates) {
    r.input >= 0 && r.output >= 0 && HitPrice(r) >= 0 && WritePrice(p, r) >= 0
  }

  lemma Through(k: int, t: int, x: int)
    ensures k * (t * x) == k * x * t && k * ((t + 1) * x) == k * x * t + k * x
  {
  }

  lemma ThroughSum(k: int, t: int, x: int, y: int)
    ensures k * (x + t * y) == k * x + k * y * t
  {
  }

  lemma Distribute(a: int, b: int, c: int, t: int)
    ensures (a + b + c) * t == a * t + b * t + c * t
  {
  }

  /** Some tokens miss: all three prices take part. */
  lemma MissesRise(t: int, m: int, h: int, w: int, xi: int, xh: int, xw: int, yi: int, yh: int, yw: int)
    requires t > 0 && m >= 0 && h >= 0 && w >= 0 && m + h + w == t
    requires t * xi <= (t + 1) * yi && t * xh <= yi + t * yh && t * xw <= yi + t * yw
    ensures m * xi + h * xh + w * xw <= (m + 1) * yi + h * yh + w * yw
  {
    Scale(m, t * xi, (t + 1) * yi);
    Scale(h, t * xh, yi + t * yh);
    Scale(w, t * xw, yi + t * yw);
    Through(m, t, xi);
    Through(h, t, xh);
    Through(w, t, xw);
    Through(m, t, yi);
    ThroughSum(h, t, yi, yh);
    ThroughSum(w, t, yi, yw);
    Distribute(m, h, w, yi);
    Distribute(m, 1, 0, yi);
    Distribute(m * xi, h * xh, w * xw, t);
    Distribute(m * yi + yi, h * yh, w * yw, t);
    Distribute(m * yi, yi, 0, t);
    MulMonotone(m * xi + h * xh + w * xw, m * yi + yi + h * yh + w * yw, t);
  }

  /** Hits and writes fill the input. */
  lemma WritesRise(t: int, h: int, w: int, xh: int, xw: int, yh: int, yw: int)
    requires t > 0 && h >= 0 && w >= 0 && h + w == t
    requires t * xw <= (t + 1) * yw && t * xh <= t * yh + yw
    ensures h * xh + w * xw <= h * yh + (w + 1) * yw
  {
    Scale(h, t * xh, yw + t * yh);
    Scale(w, t * xw, (t + 1) * yw);
    Through(h, t, xh);
    Through(w, t, xw);
    Through(w, t, yw);
    ThroughSum(h, t, yw, yh);
    Distribute(h, w, 0, yw);
    Distribute(w, 1, 0, yw);
    Distribute(h * xh, w * xw, 0, t);
    Distribute(h * yh, w * yw, yw, t);
    MulMonotone(h * xh + w * xw, h * yh + w * yw + yw, t);
  }

  lemma Scale(k: int, a: int, b: int)
    requires k >= 0 && a <= b
    ensures k * a <= k * b
  {
  }

  lemma TermIs(a: int, b: int)
    requires a >= 0 && b >= 0
    ensures Term(a, b) == a * b
  {
  }

  lemma TariffIs(p: Price, r: Rates, s: Split, output: int)
    requires NotNegative(p, r) && s.miss >= 0 && s.hit >= 0 && s.write >= 0
    ensures Tariff(p, r, s, output) ==
      s.miss * r.input + s.hit * HitPrice(r) + s.write * WritePrice(p, r) + Term(output, r.output)
  {
    hide Term;
    TermIs(s.miss, r.input);
    TermIs(s.hit, HitPrice(r));
    TermIs(s.write, WritePrice(p, r));
  }

  /** How the split of one more token differs. */
  lemma SplitsAt(t: int, hit: int, write: int)
    requires t >= 0
    ensures var h, w := Max(0, hit), Max(0, write);
      var s, u := SplitInput(t, hit, write), SplitInput(t + 1, hit, write);
      && (h + w <= t ==> s == Split(t - h - w, h, w) && u == Split(t - h - w + 1, h, w))
      && (h <= t < h + w ==> s == Split(0, h, t - h) && u == Split(0, h, t - h + 1))
      && (t < h ==> s == Split(0, t, 0) && u == Split(0, t + 1, 0))
  {
  }

  lemma MissesKept(p: Price, x: Rates, y: Rates, m: int, h: int, w: int, output: int)
    requires m >= 0 && h >= 0 && w >= 0 && NotNegative(p, x) && NotNegative(p, y) && BoundaryRises(p, m + h + w, x, y)
    ensures Tariff(p, x, Split(m, h, w), output) <= Tariff(p, y, Split(m + 1, h, w), output)
  {
    TariffIs(p, x, Split(m, h, w), output);
    TariffIs(p, y, Split(m + 1, h, w), output);
    TermMonotone(output, output, x.output, y.output);
    hide Term, HitPrice, WritePrice, Tariff;
    if m + h + w > 0 {
      MissesRise(m + h + w, m, h, w, x.input, HitPrice(x), WritePrice(p, x), y.input, HitPrice(y), WritePrice(p, y));
    } else {
      assert m == 0 && h == 0 && w == 0;
    }
  }

  lemma WritesKept(p: Price, x: Rates, y: Rates, h: int, w: int, output: int)
    requires h >= 0 && w >= 0 && NotNegative(p, x) && NotNegative(p, y) && BoundaryRises(p, h + w, x, y)
    ensures Tariff(p, x, Split(0, h, w), output) <= Tariff(p, y, Split(0, h, w + 1), output)
  {
    TariffIs(p, x, Split(0, h, w), output);
    TariffIs(p, y, Split(0, h, w + 1), output);
    TermMonotone(output, output, x.output, y.output);
    hide Term, HitPrice, WritePrice, Tariff;
    if h + w > 0 {
      WritesRise(h + w, h, w, HitPrice(x), WritePrice(p, x), HitPrice(y), WritePrice(p, y));
    } else {
      assert h == 0 && w == 0;
    }
  }

  lemma HitsKept(p: Price, x: Rates, y: Rates, t: int, output: int)
    requires t >= 0 && NotNegative(p, x) && NotNegative(p, y) && BoundaryRises(p, t, x, y)
    ensures Tariff(p, x, Split(0, t, 0), output) <= Tariff(p, y, Split(0, t + 1, 0), output)
  {
    TariffIs(p, x, Split(0, t, 0), output);
    TariffIs(p, y, Split(0, t + 1, 0), output);
    TermMonotone(output, output, x.output, y.output);
    hide Term, HitPrice, WritePrice, Tariff;
  }

  lemma BoundaryKept(p: Price, t: int, x: Rates, y: Rates, output: int, hit: int, write: int)
    requires t >= 0 && NotNegative(p, x) && NotNegative(p, y) && BoundaryRises(p, t, x, y)
    ensures Tariff(p, x, SplitInput(t, hit, write), output) <= Tariff(p, y, SplitInput(t + 1, hit, write), output)
  {
    hide BoundaryRises, NotNegative, SplitInput, Tariff;
    SplitsAt(t, hit, write);
    var h, w := Max(0, hit), Max(0, write);
    if h + w <= t {
      MissesKept(p, x, y, t - h - w, h, w, output);
    } else if h <= t {
      WritesKept(p, x, y, h, t - h, output);
    } else {
      HitsKept(p, x, y, t, output);
    }
  }

  /** The exact cost at the corners of the split, without output. */
  lemma Corners(p: Price, r: Rates, n: int)
    requires n >= 0 && NotNegative(p, r)
    ensures Tariff(p, r, Split(n, 0, 0), 0) == n * r.input
    ensures Tariff(p, r, Split(0, n, 0), 0) == n * HitPrice(r)
      && Tariff(p, r, Split(0, 0, n), 0) == n * WritePrice(p, r)
    ensures Tariff(p, r, Split(1, n, 0), 0) == r.input + n * HitPrice(r)
    ensures Tariff(p, r, Split(1, 0, n), 0) == r.input + n * WritePrice(p, r)
    ensures Tariff(p, r, Split(0, n, 1), 0) == n * HitPrice(r) + WritePrice(p, r)
  {
    TariffIs(p, r, Split(n, 0, 0), 0);
    TariffIs(p, r, Split(0, n, 0), 0);
    TariffIs(p, r, Split(0, 0, n), 0);
    TariffIs(p, r, Split(1, n, 0), 0);
    TariffIs(p, r, Split(1, 0, n), 0);
    TariffIs(p, r, Split(0, n, 1), 0);
    hide Tariff, HitPrice, WritePrice;
  }

  /** The requests that stand for the corners of the split. */
  lemma CornerBroken(p: Price, t: int, x: Rates, y: Rates) returns (hit: int, write: int)
    requires t >= 0 && NotNegative(p, x) && NotNegative(p, y) && !BoundaryRises(p, t, x, y) && x.output <= y.output
    ensures Tariff(p, y, SplitInput(t + 1, hit, write), 0) < Tariff(p, x, SplitInput(t, hit, write), 0)
  {
    Corners(p, x, t);
    Corners(p, y, t);
    Corners(p, y, t + 1);
    hide HitPrice, WritePrice, Tariff, NotNegative;
    var xHit, xWrite, yHit, yWrite := HitPrice(x), WritePrice(p, x), HitPrice(y), WritePrice(p, y);
    hit, write := 0, 0;
    if t * x.input > (t + 1) * y.input {
    } else if t * xHit > (t + 1) * yHit {
      hit := t + 1;
    } else if t * xHit > y.input + t * yHit {
      hit := t;
    } else if t * xHit > t * yHit + yWrite {
      hit, write := t, 1;
    } else if t * xWrite > (t + 1) * yWrite {
      write := t + 1;
    } else {
      write := t;
    }
    hide BoundaryRises, SplitInput;
    SplitsAt(t, hit, write);
  }

  /** Where the condition fails, one of seven requests shows it. */
  lemma BoundaryBroken(p: Price, t: int, x: Rates, y: Rates) returns (output: int, hit: int, write: int)
    requires t >= 0 && NotNegative(p, x) && NotNegative(p, y) && !BoundaryRises(p, t, x, y)
    ensures Tariff(p, y, SplitInput(t + 1, hit, write), output) < Tariff(p, x, SplitInput(t, hit, write), output)
  {
    output, hit, write := 0, 0, 0;
    if x.output <= y.output {
      hide BoundaryRises, NotNegative, Tariff, SplitInput;
      hit, write := CornerBroken(p, t, x, y);
    } else {
      output := (t + 1) * y.input + 1;
      OutputFalls(t * x.input, (t + 1) * y.input, output, x.output, y.output);
      SplitsAt(t, 0, 0);
      TariffIs(p, x, Split(t, 0, 0), output);
      TariffIs(p, y, Split(t + 1, 0, 0), output);
      hide BoundaryRises, HitPrice, WritePrice, Tariff, Term, SplitInput;
    }
  }

  lemma OutputFalls(before: int, after: int, output: int, x: int, y: int)
    requires before >= 0 && after >= 0 && x > y >= 0 && output == after + 1
    ensures after + Term(output, y) < before + Term(output, x)
  {
    TermIs(output, x);
    TermIs(output, y);
    hide Term;
    assert output * x - output * y == output * (x - y);
    Scale(output, 1, x - y);
  }

  // --------------------------------------------------------------- over a whole price

  /** No boundary of the price makes any request cheaper. */
  predicate RisingTiers(p: Price) {
    forall i :: 0 <= i < |p.billing.tiers| ==>
      BoundaryRises(p, p.billing.tiers[i].above, TierRates(p, i - 1), TierRates(p, i))
  }

  /** More input never costs less before rounding and capping, whatever the counters. */
  ghost predicate NeverFalls(p: Price) {
    forall input, more, output, hit, write :: input <= more ==>
      ExactCost(p, input, output, hit, write) <= ExactCost(p, more, output, hit, write)
  }

  lemma RatesNotNegative(p: Price, i: int)
    requires ValidBilling(p.billing, p.params) && -1 <= i < |p.billing.tiers|
    ensures NotNegative(p, TierRates(p, i))
  {
    if i >= 0 {
      assert ValidTier(p.billing.tiers[i]);
    }
  }

  lemma IndexAtBoundary(tiers: seq<Tier>, i: nat)
    requires Increasing(tiers) && i < |tiers|
    ensures TierIndex(tiers, tiers[i].above) == i - 1 && TierIndex(tiers, tiers[i].above + 1) == i
  {
    HighestTierApplies(tiers, tiers[i].above);
    HighestTierApplies(tiers, tiers[i].above + 1);
    hide TierIndex;
    var at, next := TierIndex(tiers, tiers[i].above), TierIndex(tiers, tiers[i].above + 1);
    if i > 0 {
      assert tiers[i - 1].above < tiers[i].above;
    }
  }

  /** The tier changes only from a threshold to the next input. */
  lemma {:induction false} IndexChanges(tiers: seq<Tier>, n: int)
    requires Increasing(tiers) && TierIndex(tiers, n) != TierIndex(tiers, n + 1)
    ensures var i := TierIndex(tiers, n + 1); i >= 0 && tiers[i].above == n && TierIndex(tiers, n) == i - 1
  {
    if n + 1 > tiers[|tiers| - 1].above {
      IndexAtBoundary(tiers, |tiers| - 1);
    } else {
      IndexChanges(tiers[..|tiers| - 1], n);
    }
  }

  lemma NextInput(p: Price, n: int, output: int, hit: int, write: int)
    requires ValidBilling(p.billing, p.params) && RisingTiers(p)
    ensures ExactCost(p, n, output, hit, write) <= ExactCost(p, n + 1, output, hit, write)
  {
    var tiers := p.billing.tiers;
    var i := TierIndex(tiers, n + 1);
    hide ValidBilling, Tariff, SplitInput, BoundaryRises, TierIndex;
    if TierIndex(tiers, n) == i {
      TariffMonotone(p, RatesFor(p, n), RatesFor(p, n + 1), n, n + 1, output, output, hit, write);
    } else {
      ValidIncreases(p);
      IndexChanges(tiers, n);
      RatesNotNegative(p, i - 1);
      RatesNotNegative(p, i);
      BoundaryKept(p, n, TierRates(p, i - 1), TierRates(p, i), output, hit, write);
    }
  }

  lemma ValidIncreases(p: Price)
    requires ValidBilling(p.billing, p.params)
    ensures Increasing(p.billing.tiers) && forall i :: 0 <= i < |p.billing.tiers| ==> p.billing.tiers[i].above >= 0
    ensures p.billing.tiers != [] ==> p.billing.mode == "tokens"
  {
    assert forall i :: 0 <= i < |p.billing.tiers| ==> ValidTier(p.billing.tiers[i]);
  }

  lemma {:induction false} MoreInput(p: Price, input: int, more: int, output: int, hit: int, write: int)
    requires ValidBilling(p.billing, p.params) && RisingTiers(p) && input <= more
    ensures ExactCost(p, input, output, hit, write) <= ExactCost(p, more, output, hit, write)
    decreases more - input
  {
    hide ValidBilling, RisingTiers, ExactCost;
    if input < more {
      NextInput(p, more - 1, output, hit, write);
      MoreInput(p, input, more - 1, output, hit, write);
    }
  }

  /** A tier that breaks the condition makes some request cheaper by one more input token,
      before rounding and capping. */
  lemma CheaperTierCostsLess(p: Price, i: nat) returns (output: int, hit: int, write: int)
    requires ValidBilling(p.billing, p.params) && i < |p.billing.tiers|
    requires !BoundaryRises(p, p.billing.tiers[i].above, TierRates(p, i - 1), TierRates(p, i))
    ensures var t := p.billing.tiers[i].above;
      ExactCost(p, t + 1, output, hit, write) < ExactCost(p, t, output, hit, write)
  {
    ValidIncreases(p);
    IndexAtBoundary(p.billing.tiers, i);
    RatesNotNegative(p, i - 1);
    RatesNotNegative(p, i);
    output, hit, write := BoundaryBroken(p, p.billing.tiers[i].above, TierRates(p, i - 1), TierRates(p, i));
    hide ValidBilling, TierIndex, Tariff, SplitInput, BoundaryRises;
  }

  /** Exactly the valid prices for which more input never costs less before rounding and
      capping: a finite check of each boundary, in the thresholds and the prices on its two
      sides. */
  lemma NeverFallsIffTiersRise(p: Price)
    requires ValidBilling(p.billing, p.params)
    ensures NeverFalls(p) <==> RisingTiers(p)
  {
    hide ValidBilling, ExactCost, BoundaryRises;
    if RisingTiers(p) {
      forall input, more, output, hit, write | input <= more
        ensures ExactCost(p, input, output, hit, write) <= ExactCost(p, more, output, hit, write)
      {
        MoreInput(p, input, more, output, hit, write);
      }
    } else {
      var i :| 0 <= i < |p.billing.tiers|
        && !BoundaryRises(p, p.billing.tiers[i].above, TierRates(p, i - 1), TierRates(p, i));
      var output, hit, write := CheaperTierCostsLess(p, i);
      var t := p.billing.tiers[i].above;
      assert t <= t + 1 && ExactCost(p, t, output, hit, write) > ExactCost(p, t + 1, output, hit, write);
    }
  }

  /** Prices of whole Credits per million tokens, that is, whole micro-Credits per token. */
  predicate WholeRates(p: Price, r: Rates) {
    && r.input % 1_000_000 == 0 && r.output % 1_000_000 == 0
    && HitPrice(r) % 1_000_000 == 0 && WritePrice(p, r) % 1_000_000 == 0
  }

  lemma WholeTerm(a: int, b: int)
    requires b % 1_000_000 == 0
    ensures Term(a, b) % 1_000_000 == 0
  {
    var n := a * (b / 1_000_000);
    assert a * b == n * 1_000_000;
  }

  lemma WholeTariff(p: Price, r: Rates, s: Split, output: int)
    requires WholeRates(p, r)
    ensures Tariff(p, r, s, output) % 1_000_000 == 0
  {
    WholeTerm(s.miss, r.input);
    WholeTerm(s.hit, HitPrice(r));
    WholeTerm(s.write, WritePrice(p, r));
    WholeTerm(output, r.output);
    var a, b, c, d :=
      Term(s.miss, r.input), Term(s.hit, HitPrice(r)), Term(s.write, WritePrice(p, r)), Term(output, r.output);
    assert Tariff(p, r, s, output) == a + b + c + d;
    hide Term, HitPrice, WritePrice, Tariff, WholeRates;
    WholeSum(a, b);
    WholeSum(a + b, c);
    WholeSum(a + b + c, d);
  }

  lemma WholeSum(a: int, b: int)
    requires a % 1_000_000 == 0 && b % 1_000_000 == 0
    ensures (a + b) % 1_000_000 == 0
  {
  }

  /** What falls by a whole micro-Credit is charged less, unless it is still capped. */
  lemma WholeFall(more: int, fewer: int, moreCharge: int, fewerCharge: int)
    requires more % 1_000_000 == 0 && fewer % 1_000_000 == 0 && fewer < more
    requires IsCharge(more, 1_000_000, moreCharge) && IsCharge(fewer, 1_000_000, fewerCharge)
    ensures fewerCharge < moreCharge || fewerCharge == MAX_INT64
  {
  }

  /** The charge for more input is less, or both are capped. */
  ghost predicate ChargesLess(p: Price, input: int, more: int, output: int, hit: int, write: int) {
    forall cost, moreCost ::
      && IsCharge(ExactCost(p, input, output, hit, write), 1_000_000, cost)
      && IsCharge(ExactCost(p, more, output, hit, write), 1_000_000, moreCost) ==>
      moreCost < cost || moreCost == MAX_INT64
  }

  /** A tier that breaks the condition at prices of whole micro-Credits per token makes some
      charge fall by one more input token, unless that charge is still capped. */
  lemma CheaperTierChargesLess(p: Price, i: nat) returns (output: int, hit: int, write: int)
    requires ValidBilling(p.billing, p.params) && i < |p.billing.tiers|
    requires !BoundaryRises(p, p.billing.tiers[i].above, TierRates(p, i - 1), TierRates(p, i))
    requires WholeRates(p, TierRates(p, i - 1)) && WholeRates(p, TierRates(p, i))
    ensures ChargesLess(p, p.billing.tiers[i].above, p.billing.tiers[i].above + 1, output, hit, write)
  {
    var t := p.billing.tiers[i].above;
    var next := t + 1;
    ValidIncreases(p);
    IndexAtBoundary(p.billing.tiers, i);
    output, hit, write := CheaperTierCostsLess(p, i);
    WholeTariff(p, TierRates(p, i - 1), SplitInput(t, hit, write), output);
    WholeTariff(p, TierRates(p, i), SplitInput(next, hit, write), output);
    var before, after := ExactCost(p, t, output, hit, write), ExactCost(p, next, output, hit, write);
    assert before % 1_000_000 == 0 && after % 1_000_000 == 0;
    hide ValidBilling, BoundaryRises, WholeRates, TierIndex, ExactCost, IsCharge;
    forall cost, moreCost | IsCharge(before, 1_000_000, cost) && IsCharge(after, 1_000_000, moreCost)
      ensures moreCost < cost || moreCost == MAX_INT64
    {
      WholeFall(before, after, cost, moreCost);
    }
  }

  /** A valid price that does not meet the condition, and charges that fall. */
  lemma SomeTierCostsLess() returns (p: Price)
    ensures ValidBilling(p.billing, p.params) && !RisingTiers(p) && !NeverFalls(p)
    ensures IsCharge(ExactCost(p, 1_000, 0, 0, 0), 1_000_000, 2_000)
    ensures IsCharge(ExactCost(p, 1_001, 0, 0, 0), 1_000_000, 1_001)
  {
    var tier := Tier(1_000, 1_000_000, 0, None);
    p := Price(Params("", 2_000_000, 0, None), Billing("tokens", [tier], None, None, []));
    assert Text.TrimSpace("") == "";
    assert ValidTier(tier);
    assert !BoundaryRises(p, p.billing.tiers[0].above, TierRates(p, -1), TierRates(p, 0));
    assert !RisingTiers(p);
    NeverFallsIffTiersRise(p);
    IndexAtBoundary(p.billing.tiers, 0);
  }

  /** A valid price that does not meet the condition, yet no charge falls, because all that is
      lost is less than half a micro-Credit. */
  lemma RoundingHidesTheFall() returns (p: Price)
    ensures ValidBilling(p.billing, p.params) && !RisingTiers(p) && !NeverFalls(p)
    ensures forall input, more, output, hit, write, cost, moreCost ::
      && input <= more
      && IsCharge(ExactCost(p, input, output, hit, write), 1_000_000, cost)
      && IsCharge(ExactCost(p, more, output, hit, write), 1_000_000, moreCost) ==>
      cost <= moreCost
  {
    var tier := Tier(1, 0, 0, Some(1));
    p := Price(Params("", 1, 0, None), Billing("tokens", [tier], None, None, []));
    assert Text.TrimSpace("") == "";
    assert ValidTier(tier);
    assert !BoundaryRises(p, p.billing.tiers[0].above, TierRates(p, -1), TierRates(p, 0));
    assert !RisingTiers(p);
    NeverFallsIffTiersRise(p);
    forall input, more, output, hit, write, cost, moreCost |
      && input <= more
      && IsCharge(ExactCost(p, input, output, hit, write), 1_000_000, cost)
      && IsCharge(ExactCost(p, more, output, hit, write), 1_000_000, moreCost)
      ensures cost <= moreCost
    {
      OneTokenIsFree(p, input, more, output, hit, write, cost, moreCost);
    }
  }

  lemma OneTokenIsFree(
    p: Price, input: int, more: int, output: int, hit: int, write: int, cost: int, moreCost: int)
    requires p == Price(Params("", 1, 0, None), Billing("tokens", [Tier(1, 0, 0, Some(1))], None, None, []))
    requires input <= more
    requires IsCharge(ExactCost(p, input, output, hit, write), 1_000_000, cost)
    requires IsCharge(ExactCost(p, more, output, hit, write), 1_000_000, moreCost)
    ensures cost <= moreCost
  {
    var tiers := p.billing.tiers;
    HighestTierApplies(tiers, input);
    HighestTierApplies(tiers, more);
    if TierIndex(tiers, input) == TierIndex(tiers, more) {
      CostMonotone(p, input, more, output, output, hit, write, cost, moreCost);
    } else {
      assert input <= 1 && ExactCost(p, input, output, hit, write) <= 1;
    }
  }

  /** What is charged for more input and more output is never less, while the same tier applies
      or if the price is valid and its tiers rise. */
  lemma CostMonotone(
    p: Price, input: int, more: int, output: int, moreOutput: int, hit: int, write: int, cost: int, moreCost: int)
    requires input <= more && output <= moreOutput
    requires
      || TierIndex(p.billing.tiers, input) == TierIndex(p.billing.tiers, more)
      || (ValidBilling(p.billing, p.params) && RisingTiers(p))
    requires IsCharge(ExactCost(p, input, output, hit, write), 1_000_000, cost)
    requires IsCharge(ExactCost(p, more, moreOutput, hit, write), 1_000_000, moreCost)
    ensures cost <= moreCost
  {
    hide ValidBilling, SplitInput, Tariff, IsCharge, RisingTiers, TierIndex;
    TariffMonotone(p, RatesFor(p, more), RatesFor(p, more), more, more, output, moreOutput, hit, write);
    if TierIndex(p.billing.tiers, input) == TierIndex(p.billing.tiers, more) {
      TariffMonotone(p, RatesFor(p, input), RatesFor(p, more), input, more, output, output, hit, write);
    } else {
      MoreInput(p, input, more, output, hit, write);
    }
    ChargeMonotone(ExactCost(p, input, output, hit, write), ExactCost(p, more, moreOutput, hit, write), 1_000_000, cost,
      moreCost);
  }

  // ----------------------------------------------------- many requests against one

  function Sum(xs: seq<int>): int {
    if xs == [] then 0 else xs[0] + Sum(xs[1..])
  }

  /** Each charge is off by at most half a micro-Credit. */
  lemma {:induction false} PartsWithinHalf(exact: seq<int>, charges: seq<int>)
    requires |exact| == |charges| && forall i :: 0 <= i < |exact| ==> Nearest(exact[i], 1_000_000, charges[i])
    ensures 2 * Sum(exact) - 1_000_000 * |exact| <= 2_000_000 * Sum(charges) <= 2 * Sum(exact) + 1_000_000 * |exact|
  {
    if exact != [] {
      PartsWithinHalf(exact[1..], charges[1..]);
    }
  }

  /** The counters that are reported for a request. */
  datatype Reported = Reported(input: int, output: int, hit: int, write: int)

  function TotalReported(parts: seq<Reported>): Reported {
    if parts == [] then Reported(0, 0, 0, 0)
    else
      var p, t := parts[0], TotalReported(parts[1..]);
      Reported(p.input + t.input, p.output + t.output, p.hit + t.hit, p.write + t.write)
  }

  /** What of it is billed: the clipped split of the input, and the output if not negative. */
  datatype Billed = Billed(split: Split, output: int)

  function BilledOf(r: Reported): Billed {
    Billed(SplitInput(r.input, r.hit, r.write), Max(0, r.output))
  }

  function Plus(x: Billed, y: Billed): Billed {
    Billed(
      Split(x.split.miss + y.split.miss, x.split.hit + y.split.hit, x.split.write + y.split.write),
      x.output + y.output)
  }

  function TotalBilled(parts: seq<Reported>): Billed {
    if parts == [] then Billed(Split(0, 0, 0), 0) else Plus(BilledOf(parts[0]), TotalBilled(parts[1..]))
  }

  /** Clipping the summed counters gives the summed clipped counters. */
  predicate AddsUp(parts: seq<Reported>) {
    BilledOf(TotalReported(parts)) == TotalBilled(parts)
  }

  function BilledTariff(p: Price, r: Rates, b: Billed): int {
    Tariff(p, r, b.split, b.output)
  }

  function Tariffs(p: Price, r: Rates, parts: seq<Reported>): seq<int> {
    seq(|parts|, i requires 0 <= i < |parts| => BilledTariff(p, r, BilledOf(parts[i])))
  }

  lemma TermAdds(a: int, b: int, price: int)
    requires a >= 0 && b >= 0
    ensures Term(a + b, price) == Term(a, price) + Term(b, price)
  {
    if price > 0 {
      assert (a + b) * price == a * price + b * price;
    }
  }

  lemma {:induction false} TariffAdds(p: Price, r: Rates, parts: seq<Reported>)
    ensures var t := TotalBilled(parts); t.split.miss >= 0 && t.split.hit >= 0 && t.split.write >= 0 && t.output >= 0
    ensures BilledTariff(p, r, TotalBilled(parts)) == Sum(Tariffs(p, r, parts))
  {
    if parts != [] {
      var u, t := BilledOf(parts[0]), TotalBilled(parts[1..]);
      TariffAdds(p, r, parts[1..]);
      assert Tariffs(p, r, parts)[1..] == Tariffs(p, r, parts[1..]);
      hide Term;
      TermAdds(u.split.miss, t.split.miss, r.input);
      TermAdds(u.split.hit, t.split.hit, HitPrice(r));
      TermAdds(u.split.write, t.split.write, WritePrice(p, r));
      TermAdds(u.output, t.output, r.output);
    }
  }

  lemma ExactIsBilled(p: Price, r: Reported)
    requires p.billing.mode != "free"
    ensures ExactCost(p, r.input, r.output, r.hit, r.write) == BilledTariff(p, RatesFor(p, r.input), BilledOf(r))
  {
  }

  /** Every request is in the tier of their sum. */
  ghost predicate OneTier(p: Price, parts: seq<Reported>) {
    forall i :: 0 <= i < |parts| ==>
      TierIndex(p.billing.tiers, parts[i].input) == TierIndex(p.billing.tiers, TotalReported(parts).input)
  }

  ghost predicate ChargedFor(p: Price, r: Reported, charge: int) {
    charge < MAX_INT64 && IsCharge(ExactCost(p, r.input, r.output, r.hit, r.write), 1_000_000, charge)
  }

  /** Billing n requests one by one, or their sum in the same tier, differs by at most
      (n + 1) / 2 micro-Credits as long as no charge is capped and the counters add up. */
  lemma PartsAgainstWhole(p: Price, parts: seq<Reported>, charges: seq<int>, whole: int)
    requires |parts| == |charges| && OneTier(p, parts) && AddsUp(parts)
    requires forall i :: 0 <= i < |parts| ==> ChargedFor(p, parts[i], charges[i])
    requires ChargedFor(p, TotalReported(parts), whole)
    ensures -(|parts| + 1) <= 2 * (Sum(charges) - whole) <= |parts| + 1
  {
    var exact := seq(|parts|, i requires 0 <= i < |parts| =>
      ExactCost(p, parts[i].input, parts[i].output, parts[i].hit, parts[i].write));
    PartsWithinHalf(exact, charges);
    var total := TotalReported(parts);
    assert ExactCost(p, total.input, total.output, total.hit, total.write) == Sum(exact) by {
      if p.billing.mode == "free" {
        SumOfNothing(exact);
      } else {
        var r := RatesFor(p, total.input);
        TariffAdds(p, r, parts);
        ExactIsBilled(p, total);
        forall i | 0 <= i < |parts| ensures exact[i] == Tariffs(p, r, parts)[i] {
          ExactIsBilled(p, parts[i]);
        }
        assert exact == Tariffs(p, r, parts);
      }
    }
    hide ExactCost;
  }

  lemma {:induction false} SumOfNothing(xs: seq<int>)
    requires forall i :: 0 <= i < |xs| ==> xs[i] == 0
    ensures Sum(xs) == 0
  {
    if xs != [] {
      SumOfNothing(xs[1..]);
    }
  }

  /** Counters as upstreams should report them. */
  ghost predicate Consistent(r: Reported) {
    0 <= r.hit && 0 <= r.write && r.hit + r.write <= r.input && 0 <= r.output
  }

  lemma {:induction false} ConsistentAddsUp(parts: seq<Reported>)
    requires forall i :: 0 <= i < |parts| ==> Consistent(parts[i])
    ensures Consistent(TotalReported(parts)) && AddsUp(parts)
  {
    if parts != [] {
      ConsistentAddsUp(parts[1..]);
    }
  }

  /** The cost of the parts is the cost of the sum before rounding, at any rates, exactly if
      the counters add up; clipped counters of a single inconsistent part are enough to
      break it. */
  lemma AddsUpIff(parts: seq<Reported>)
    ensures AddsUp(parts) <==>
      forall p: Price, r: Rates :: BilledTariff(p, r, BilledOf(TotalReported(parts))) == Sum(Tariffs(p, r, parts))
  {
    if AddsUp(parts) {
      forall p: Price, r: Rates
        ensures BilledTariff(p, r, BilledOf(TotalReported(parts))) == Sum(Tariffs(p, r, parts))
      {
        TariffAdds(p, r, parts);
      }
    } else {
      var p, r := Telling(parts);
    }
  }

  /** A price that charges for just the counter that does not add up. */
  lemma Telling(parts: seq<Reported>) returns (p: Price, r: Rates)
    requires !AddsUp(parts)
    ensures BilledTariff(p, r, BilledOf(TotalReported(parts))) != Sum(Tariffs(p, r, parts))
  {
    var whole, sum := BilledOf(TotalReported(parts)), TotalBilled(parts);
    var write := if whole.split.write != sum.split.write then 1 else 0;
    p := Price(Params("", 0, 0, None), Billing("tokens", [], None, Some(write), []));
    r := if write == 1 then Rates(0, 0, Some(0))
         else if whole.split.hit != sum.split.hit then Rates(0, 0, Some(1))
         else if whole.split.miss != sum.split.miss then Rates(1, 0, Some(0))
         else Rates(0, 1, Some(0));
    TariffAdds(p, r, parts);
  }

  lemma TwoParts(x: Reported, y: Reported)
    ensures TotalReported([x, y]) == Reported(x.input + y.input, x.output + y.output, x.hit + y.hit, x.write + y.write)
    ensures TotalBilled([x, y]) == Plus(BilledOf(x), BilledOf(y))
  {
    hide BilledOf;
    assert [x, y][1..] == [y] && [y][1..] == [];
    assert TotalReported([y]) == y && TotalBilled([y]) == BilledOf(y);
  }

  /** As far apart as rounding explains. */
  predicate Close(charges: seq<int>, whole: int) {
    -(|charges| + 1) <= 2 * (Sum(charges) - whole) <= |charges| + 1
  }

  /** At every valid price that applies the same tier to all, the charges of the parts are
      close to the charge of their sum, as long as none is capped. */
  ghost predicate AlwaysClose(parts: seq<Reported>) {
    forall p: Price, charges: seq<int>, whole: int :: AllCharged(p, parts, charges, whole) ==> Close(charges, whole)
  }

  ghost predicate AllCharged(p: Price, parts: seq<Reported>, charges: seq<int>, whole: int) {
    && ValidBilling(p.billing, p.params) && OneTier(p, parts)
    && |charges| == |parts| && (forall i :: 0 <= i < |parts| ==> ChargedFor(p, parts[i], charges[i]))
    && ChargedFor(p, TotalReported(parts), whole)
  }

  /** At a price of scale micro-Credits per token nothing reaches the cap. */
  predicate BelowCap(b: Billed, scale: int) {
    && b.split.miss * scale < MAX_INT64 && b.split.hit * scale < MAX_INT64
    && b.split.write * scale < MAX_INT64 && b.output * scale < MAX_INT64
  }

  /** So few requests, and so few tokens in them, that a price of one micro-Credit per token
      for each request and two more is in range and is not capped. */
  ghost predicate Moderate(parts: seq<Reported>) {
    && (|parts| + 2) * 1_000_000 <= MAX_PRICE
    && BelowCap(BilledOf(TotalReported(parts)), |parts| + 2)
    && forall i :: 0 <= i < |parts| ==> BelowCap(BilledOf(parts[i]), |parts| + 2)
  }

  datatype Component = Miss | Hit | Written | Output

  function Count(b: Billed, c: Component): int {
    match c
    case Miss => b.split.miss
    case Hit => b.split.hit
    case Written => b.split.write
    case Output => b.output
  }

  /** The price that charges scale micro-Credits for each token of one kind. */
  function PriceOf(c: Component, scale: int): Price {
    var rate := scale * 1_000_000;
    var params := match c
      case Miss => Params("", rate, 0, Some(0))
      case Hit => Params("", 0, 0, Some(rate))
      case Written => Params("", 0, 0, Some(0))
      case Output => Params("", 0, rate, Some(0));
    Price(params, Billing("tokens", [], None, Some(if c.Written? then rate else 0), []))
  }

  lemma PriceOfApplies(c: Component, scale: int, parts: seq<Reported>)
    requires 0 < scale && scale * 1_000_000 <= MAX_PRICE
    ensures var p := PriceOf(c, scale); ValidBilling(p.billing, p.params) && OneTier(p, parts)
  {
    assert Text.TrimSpace("") == "";
    hide TotalReported;
  }

  lemma ExactAt(c: Component, scale: int, r: Reported)
    requires scale > 0
    ensures var p := PriceOf(c, scale);
      ExactCost(p, r.input, r.output, r.hit, r.write) == Count(BilledOf(r), c) * scale * 1_000_000
  {
    var p, n := PriceOf(c, scale), Count(BilledOf(r), c);
    assert scale * 1_000_000 > 0;
    assert n * (scale * 1_000_000) == n * scale * 1_000_000;
  }

  lemma ChargedAt(c: Component, scale: int, r: Reported)
    requires scale > 0 && BelowCap(BilledOf(r), scale)
    ensures ChargedFor(PriceOf(c, scale), r, Times(BilledOf(r), c, scale))
  {
    ExactAt(c, scale, r);
    hide PriceOf, ExactCost;
    assert Count(BilledOf(r), c) >= 0;
  }

  function Times(b: Billed, c: Component, scale: int): int {
    Count(b, c) * scale
  }

  function ScaledCounts(parts: seq<Reported>, c: Component, scale: int): seq<int> {
    seq(|parts|, i requires 0 <= i < |parts| => Times(BilledOf(parts[i]), c, scale))
  }

  lemma SumAndDifference(a: int, b: int, scale: int)
    ensures (a + b) * scale == a * scale + b * scale && (a - b) * scale == a * scale - b * scale
  {
  }

  lemma CountPlus(x: Billed, y: Billed, c: Component, scale: int)
    ensures Times(Plus(x, y), c, scale) == Times(x, c, scale) + Times(y, c, scale)
  {
    SumAndDifference(Count(x, c), Count(y, c), scale);
  }

  lemma {:induction false} SumOfCounts(parts: seq<Reported>, c: Component, scale: int)
    ensures Sum(ScaledCounts(parts, c, scale)) == Times(TotalBilled(parts), c, scale)
  {
    if parts != [] {
      SumOfCounts(parts[1..], c, scale);
      assert ScaledCounts(parts, c, scale)[1..] == ScaledCounts(parts[1..], c, scale);
      var first, rest := BilledOf(parts[0]), TotalBilled(parts[1..]);
      hide BilledOf, Times;
      CountPlus(first, rest, c, scale);
    }
  }

  lemma AllChargedAt(parts: seq<Reported>, c: Component, scale: int)
    requires 0 < scale && scale * 1_000_000 <= MAX_PRICE && BelowCap(BilledOf(TotalReported(parts)), scale)
    requires forall i :: 0 <= i < |parts| ==> BelowCap(BilledOf(parts[i]), scale)
    ensures AllCharged(
      PriceOf(c, scale), parts, ScaledCounts(parts, c, scale), Times(BilledOf(TotalReported(parts)), c, scale))
  {
    hide ChargedFor, BelowCap, ValidBilling, BilledOf, OneTier, PriceOf, TotalReported, Times;
    var p := PriceOf(c, scale);
    PriceOfApplies(c, scale, parts);
    ChargedAt(c, scale, TotalReported(parts));
    forall i | 0 <= i < |parts| ensures ChargedFor(p, parts[i], ScaledCounts(parts, c, scale)[i]) {
      ChargedAt(c, scale, parts[i]);
    }
  }

  lemma Apart(n: nat, x: int, y: int)
    requires x != y
    ensures 2 * (x * (n + 2) - y * (n + 2)) > n + 1 || 2 * (x * (n + 2) - y * (n + 2)) < -(n + 1)
  {
    SumAndDifference(x, y, n + 2);
    if x > y {
      Scale(n + 2, 1, x - y);
    } else {
      Scale(n + 2, 1, y - x);
      SumAndDifference(y, x, n + 2);
    }
  }

  /** The bound on what rounding adds, over all valid prices, is exactly a matter of whether
      the reported counters add up. */
  lemma CloseIffAddsUp(parts: seq<Reported>)
    requires Moderate(parts)
    ensures AlwaysClose(parts) <==> AddsUp(parts)
  {
    hide BelowCap, ValidBilling, BilledOf, OneTier, ChargedFor, TotalReported, TotalBilled, Sum;
    if AddsUp(parts) {
      forall p, charges, whole | AllCharged(p, parts, charges, whole) ensures Close(charges, whole) {
        PartsAgainstWhole(p, parts, charges, whole);
      }
    } else {
      var x, y := TotalBilled(parts), BilledOf(TotalReported(parts));
      var c := if x.split.miss != y.split.miss then Miss
        else if x.split.hit != y.split.hit then Hit
        else if x.split.write != y.split.write then Written
        else Output;
      var scale := |parts| + 2;
      AllChargedAt(parts, c, scale);
      SumOfCounts(parts, c, scale);
      Apart(|parts|, Count(x, c), Count(y, c));
      hide AllCharged, PriceOf, ScaledCounts;
      assert !Close(ScaledCounts(parts, c, scale), Times(y, c, scale));
    }
  }

  lemma SumOfTwo(a: int, b: int)
    ensures Sum([a, b]) == a + b
  {
    assert [a, b][1..] == [b] && [b][1..] == [] && Sum([]) == 0;
    assert Sum([b]) == b;
  }

  lemma Clip(r: Reported)
    ensures r == Reported(0, 0, 10, 0) ==> BilledOf(r) == Billed(Split(0, 0, 0), 0)
    ensures r == Reported(10, 0, 0, 0) ==> BilledOf(r) == Billed(Split(10, 0, 0), 0)
    ensures r == Reported(10, 0, 10, 0) ==> BilledOf(r) == Billed(Split(0, 10, 0), 0)
  {
  }

  lemma ClippedParts(x: Reported, y: Reported)
    requires x == Reported(0, 0, 10, 0) && y == Reported(10, 0, 0, 0)
    ensures BilledOf(x) == Billed(Split(0, 0, 0), 0) && BilledOf(y) == Billed(Split(10, 0, 0), 0)
    ensures BilledOf(TotalReported([x, y])) == Billed(Split(0, 10, 0), 0)
    ensures TotalBilled([x, y]) == Billed(Split(10, 0, 0), 0)
  {
    hide TotalReported, TotalBilled, BilledOf;
    TwoParts(x, y);
    Clip(x);
    Clip(y);
    var t := TotalReported([x, y]);
    Clip(t);
  }

  lemma ClippedCharges(x: Reported, y: Reported)
    requires x == Reported(0, 0, 10, 0) && y == Reported(10, 0, 0, 0)
    ensures ScaledCounts([x, y], Miss, 1) == [0, 10] && Times(BilledOf(TotalReported([x, y])), Miss, 1) == 0
  {
    ClippedParts(x, y);
    hide BilledOf, TotalReported;
  }

  /** One part with more hits reported than input is enough: at one micro-Credit for each input
      token that is no hit, the parts are charged 0 and 10, and their sum nothing. */
  lemma InconsistentPartsDiffer(x: Reported, y: Reported)
    requires x == Reported(0, 0, 10, 0) && y == Reported(10, 0, 0, 0)
    ensures !AddsUp([x, y]) && AllCharged(PriceOf(Miss, 1), [x, y], [0, 10], 0) && !Close([0, 10], 0)
  {
    ClippedParts(x, y);
    ClippedCharges(x, y);
    SumOfTwo(0, 10);
    hide BilledOf, TotalReported, TotalBilled, AllCharged, PriceOf, Sum, ScaledCounts, Times;
    AllChargedAt([x, y], Miss, 1);
  }
}
