/** Charges in integer micro-Credits: exact sums, one rounding, saturation at the 64-bit
    maximum, tariff tiers and the split of input tokens by cache state. */
module Billing {
  import opened Calendar
  import opened Counters
  import opened Options
  import Text

  const MAX_PRICE := 9_000_000_000_000_000

  datatype Tier = Tier(above: int, input: int, output: int, cacheHit: Option<int>)

  datatype ImagePrice = ImagePrice(size: string, quality: string, charge: int)

  datatype Billing = Billing(
    mode: string, tiers: seq<Tier>, perTenThousandCharacters: Option<int>, cacheWrite: Option<int>,
      images: seq<ImagePrice>)

  datatype Params = Params(protocol: string, input: int, output: int, cacheHit: Option<int>)

  datatype Price = Price(params: Params, billing: Billing)

  // ------------------------------------------------------------------- rounding

  /** r is n / d rounded half up. */
  predicate Nearest(n: int, d: int, r: int) {
    2 * r * d - d <= 2 * n < 2 * r * d + d
  }

  /** r is n / d rounded half up, or the 64-bit maximum if that is less. */
  predicate IsCharge(n: int, d: int, r: int) {
    if r == MAX_INT64 then 2 * n >= 2 * r * d - d else 0 <= r < MAX_INT64 && Nearest(n, d, r)
  }

  lemma NearestUnique(n: int, d: int, r: int, s: int)
    requires d > 0 && Nearest(n, d, r) && 2 * n >= 2 * s * d - d
    ensures s <= r
  {
    MulMonotone(r + 1, s, d);
    assert (r + 1) * d == r * d + d;
    assert 2 * s * d == 2 * (s * d) && 2 * r * d == 2 * (r * d);
  }

  /** There is exactly one charge for an amount. */
  lemma ChargeUnique(n: int, d: int, r: int, s: int)
    requires d > 0 && IsCharge(n, d, r) && IsCharge(n, d, s)
    ensures r == s
  {
    if r != MAX_INT64 {
      NearestUnique(n, d, r, s);
    }
    if s != MAX_INT64 {
      NearestUnique(n, d, s, r);
    }
  }

  lemma HalfUp(n: int, d: int)
    requires d > 0 && d % 2 == 0
    ensures Nearest(n, d, (n + d / 2) / d)
  {
    var r := (n + d / 2) / d;
    assert r * d <= n + d / 2 < r * d + d;
    assert 2 * r * d == 2 * (r * d);
  }

  lemma ChargeMonotone(n: int, m: int, d: int, r: int, s: int)
    requires d > 0 && n <= m && IsCharge(n, d, r) && IsCharge(m, d, s)
    ensures r <= s
  {
    if s != MAX_INT64 {
      NearestUnique(m, d, s, r);
    }
  }

  method Capped(n: int, d: int) returns (r: int)
    requires n >= 0 && d > 0 && d % 2 == 0
    ensures IsCharge(n, d, r)
  {
    HalfUp(n, d);
    r := (n + d / 2) / d;
    if r > MAX_INT64 {
      assert 2 * r * d >= 2 * MAX_INT64 * d by {
        assert r * d >= MAX_INT64 * d;
        assert 2 * r * d == 2 * (r * d) && 2 * MAX_INT64 * d == 2 * (MAX_INT64 * d);
      }
      r := MAX_INT64;
    }
  }

  // ------------------------------------------------------------------ exact sums

  /** A quantity and a price count only if both are positive. */
  function Term(a: int, b: int): (r: int)
    ensures r >= 0
  {
    if a > 0 && b > 0 then a * b else 0
  }

  function ExactSum(pairs: seq<int>): (r: int)
    ensures r >= 0
  {
    if |pairs| < 2 then 0 else Term(pairs[0], pairs[1]) + ExactSum(pairs[2..])
  }

  /** The loop at full precision, and one rounding at the end. */
  method PricedSum(pairs: seq<int>) returns (r: int)
    ensures IsCharge(ExactSum(pairs), 1_000_000, r)
  {
    var sum, i := 0, 0;
    while i + 1 < |pairs|
      invariant 0 <= i <= |pairs|
      invariant sum >= 0 && sum + ExactSum(pairs[i..]) == ExactSum(pairs)
    {
      assert pairs[i..][0] == pairs[i] && pairs[i..][1] == pairs[i + 1] && pairs[i..][2..] == pairs[i + 2..];
      if pairs[i] > 0 && pairs[i + 1] > 0 {
        sum := sum + pairs[i] * pairs[i + 1];
      }
      i := i + 2;
    }
    r := Capped(sum, 1_000_000);
  }

  // ---------------------------------------------------------------------- tiers

  datatype Rates = Rates(input: int, output: int, cacheHit: Option<int>)

  ghost predicate Increasing(tiers: seq<Tier>) {
    forall i, j :: 0 <= i < j < |tiers| ==> tiers[i].above < tiers[j].above
  }

  /** The index of the tier that applies: the last one whose threshold is below the input. */
  function TierIndex(tiers: seq<Tier>, input: int): (r: int)
    ensures -1 <= r < |tiers|
  {
    if tiers == [] then -1
    else if input > tiers[|tiers| - 1].above then |tiers| - 1 else TierIndex(tiers[..|tiers| - 1], input)
  }

  /** The rates of a tier, or the base rates before the first. */
  function TierRates(p: Price, i: int): Rates
    requires -1 <= i < |p.billing.tiers|
  {
    if i < 0 then Rates(p.params.input, p.params.output, p.params.cacheHit)
    else Rates(p.billing.tiers[i].input, p.billing.tiers[i].output, p.billing.tiers[i].cacheHit)
  }

  function RatesFor(p: Price, input: int): Rates {
    TierRates(p, TierIndex(p.billing.tiers, input))
  }

  /** With increasing thresholds, exactly the highest threshold below the input applies, and
      the base rates apply if none is below. */
  lemma {:induction false} HighestTierApplies(tiers: seq<Tier>, input: int)
    requires Increasing(tiers)
    ensures var i := TierIndex(tiers, input);
      && (i == -1 <==> forall j :: 0 <= j < |tiers| ==> input <= tiers[j].above)
      && (i >= 0 ==> tiers[i].above < input && forall j :: 0 <= j < |tiers| && tiers[j].above < input ==>
        tiers[j].above <= tiers[i].above)
  {
    if tiers != [] && input <= tiers[|tiers| - 1].above {
      HighestTierApplies(tiers[..|tiers| - 1], input);
    }
  }

  // ----------------------------------------------------------------- token costs

  /** Input tokens split by how they were served. */
  datatype Split = Split(miss: int, hit: int, write: int)

  function SplitInput(input: int, hit: int, write: int): Split {
    var h := Max(0, Min(hit, input));
    var w := Max(0, Min(write, input - h));
    Split(Max(0, input - h - w), h, w)
  }

  /** Whatever counters are reported, the three parts are a partition of the input: as much
      is a hit as is reported and fits, then as much a write. */
  lemma SplitIsPartition(input: int, hit: int, write: int)
    ensures var s := SplitInput(input, hit, write);
      && s.miss >= 0 && s.hit >= 0 && s.write >= 0
      && s.miss + s.hit + s.write == Max(0, input)
      && s.hit == Min(Max(0, hit), Max(0, input))
      && s.write == Min(Max(0, write), Max(0, input) - s.hit)
  {
  }

  function HitPrice(r: Rates): int {
    if r.cacheHit.Some? then r.cacheHit.value else r.input
  }

  function WritePrice(p: Price, r: Rates): int {
    if p.billing.cacheWrite.Some? then p.billing.cacheWrite.value else r.input
  }

  /** The exact tariff in millionths of a micro-Credit. */
  function Tariff(p: Price, r: Rates, s: Split, output: int): (n: int)
    ensures n >= 0
  {
    Term(s.miss, r.input) + Term(s.hit, HitPrice(r)) + Term(s.write, WritePrice(p, r)) + Term(output, r.output)
  }

  function ExactCost(p: Price, input: int, output: int, hit: int, write: int): (n: int)
    ensures n >= 0
  {
    if p.billing.mode == "free" then 0 else Tariff(p, RatesFor(p, input), SplitInput(input, hit, write), output)
  }

  lemma FourTerms(a: int, b: int, c: int, d: int, e: int, f: int, g: int, h: int)
    ensures ExactSum([a, b, c, d, e, f, g, h]) == Term(a, b) + Term(c, d) + Term(e, f) + Term(g, h)
  {
    hide Term;
    assert [g, h][2..] == [];
    assert ExactSum([g, h]) == Term(g, h);
    assert [e, f, g, h][2..] == [g, h];
    assert [c, d, e, f, g, h][2..] == [e, f, g, h];
    assert ExactSum([c, d, e, f, g, h]) == Term(c, d) + ExactSum([e, f, g, h]);
    assert [a, b, c, d, e, f, g, h][2..] == [c, d, e, f, g, h];
  }

  /** The charge is the exact tariff of the applying tier, rounded once and capped. */
  method TokenCost(p: Price, input: int, output: int, hit: int, write: int) returns (cost: int)
    ensures IsCharge(ExactCost(p, input, output, hit, write), 1_000_000, cost)
  {
    if p.billing.mode == "free" {
      return 0;
    }
    var inputPrice, outputPrice, cacheHit := p.params.input, p.params.output, p.params.cacheHit;
    var tiers := p.billing.tiers;
    for i := 0 to |tiers|
      invariant Rates(inputPrice, outputPrice, cacheHit) ==
        RatesFor(p.(billing := p.billing.(tiers := tiers[..i])), input)
    {
      assert tiers[..i + 1][..i] == tiers[..i];
      if input > tiers[i].above {
        inputPrice, outputPrice, cacheHit := tiers[i].input, tiers[i].output, tiers[i].cacheHit;
      }
    }
    assert tiers[..|tiers|] == tiers;
    var h := Max(0, Min(hit, input));
    var w := Max(0, Min(write, input - h));
    var hitPrice, writePrice := inputPrice, inputPrice;
    if cacheHit.Some? {
      hitPrice := cacheHit.value;
    }
    if p.billing.cacheWrite.Some? {
      writePrice := p.billing.cacheWrite.value;
    }
    FourTerms(Max(0, input - h - w), inputPrice, h, hitPrice, w, writePrice, output, outputPrice);
    cost := PricedSum([Max(0, input - h - w), inputPrice, h, hitPrice, w, writePrice, output, outputPrice]);
  }

  lemma TermMonotone(a: int, b: int, c: int, d: int)
    requires a <= b && c <= d
    ensures Term(a, c) <= Term(b, d)
  {
    if a > 0 && c > 0 {
      assert a * c <= b * c;
      assert b * c <= b * d;
    }
  }

  predicate RatesBelow(p: Price, x: Rates, y: Rates) {
    x.input <= y.input && x.output <= y.output && HitPrice(x) <= HitPrice(y) && WritePrice(p, x) <= WritePrice(p, y)
  }

  lemma TariffMonotone(
    p: Price, x: Rates, y: Rates, input: int, more: int, output: int, moreOutput: int, hit: int, write: int)
    requires RatesBelow(p, x, y) && input <= more && output <= moreOutput
    ensures Tariff(p, x, SplitInput(input, hit, write), output) <=
      Tariff(p, y, SplitInput(more, hit, write), moreOutput)
  {
    var s, t := SplitInput(input, hit, write), SplitInput(more, hit, write);
    assert s.miss <= t.miss && s.hit <= t.hit && s.write <= t.write;
    hide SplitInput, Term, HitPrice, WritePrice;
    TermMonotone(s.miss, t.miss, x.input, y.input);
    TermMonotone(s.hit, t.hit, HitPrice(x), HitPrice(y));
    TermMonotone(s.write, t.write, WritePrice(p, x), WritePrice(p, y));
    TermMonotone(output, moreOutput, x.output, y.output);
  }

  // --------------------------------------------------------------- other charges

  /** The exact product, capped. */
  function ImageCost(count: int, unit: int): (r: int)
    ensures r == if count <= 0 || unit <= 0 then 0 else Min(MAX_INT64, count * unit)
  {
    if count <= 0 || unit <= 0 then 0
    else if count > MAX_INT64 / unit then
      assert count * unit > MAX_INT64 by { Overflow(count, unit); }
      MAX_INT64
    else
      assert count * unit <= MAX_INT64 by { Overflow(count, unit); }
      count * unit
  }

  lemma Overflow(count: int, unit: int)
    requires count > 0 && unit > 0
    ensures count > MAX_INT64 / unit <==> count * unit > MAX_INT64
  {
    var q := MAX_INT64 / unit;
    assert q * unit <= MAX_INT64 < q * unit + unit;
    if count > q {
      assert count * unit >= (q + 1) * unit == q * unit + unit;
    } else {
      assert count * unit <= q * unit;
    }
  }

  /** What a negative amount, which validation forbids, would come to: shifted by half a unit
      and rounded toward zero, or the 64-bit maximum if that is too small for 64 bits. */
  predicate IsRefund(n: int, d: int, r: int) {
    if r == MAX_INT64 then n + d / 2 <= (MIN_INT64 - 1) * d
    else MIN_INT64 <= r <= 0 && (if n + d / 2 >= 0 then r == 0 else (r - 1) * d < n + d / 2 <= r * d)
  }

  method CharacterCost(characters: int, p: Price) returns (cost: int)
    ensures p.billing.mode != "characters" || p.billing.perTenThousandCharacters.None? || characters <= 0 ==> cost == 0
    ensures p.billing.mode == "characters" && p.billing.perTenThousandCharacters.Some? && characters > 0
              && p.billing.perTenThousandCharacters.value >= 0 ==>
      IsCharge(characters * p.billing.perTenThousandCharacters.value, 10_000, cost)
    ensures p.billing.mode == "characters" && p.billing.perTenThousandCharacters.Some? && characters > 0
              && p.billing.perTenThousandCharacters.value < 0 ==>
      IsRefund(characters * p.billing.perTenThousandCharacters.value, 10_000, cost)
  {
    if p.billing.mode != "characters" || p.billing.perTenThousandCharacters.None? || characters <= 0 {
      return 0;
    }
    var n := characters * p.billing.perTenThousandCharacters.value;
    if n >= 0 {
      cost := Capped(n, 10_000);
    } else {
      cost := Quo(n + 5_000, 10_000);
      if cost < MIN_INT64 {
        cost := MAX_INT64;
      }
    }
  }

  // ---------------------------------------------------------------- image prices

  predicate Matches(rule: ImagePrice, size: string, quality: string) {
    (rule.size == "" || rule.size == size) && (rule.quality == "" || rule.quality == quality)
  }

  function Specificity(rule: ImagePrice): nat {
    (if rule.size != "" then 1 else 0) + if rule.quality != "" then 1 else 0
  }

  /** The rule at i matches and is at least as specific as every other match. */
  ghost predicate Best(rules: seq<ImagePrice>, size: string, quality: string, i: int) {
    && 0 <= i < |rules| && Matches(rules[i], size, quality)
    && forall j :: 0 <= j < |rules| && Matches(rules[j], size, quality) ==>
      Specificity(rules[j]) <= Specificity(rules[i])
  }

  ghost predicate OnlyBest(rules: seq<ImagePrice>, size: string, quality: string, i: int) {
    && Best(rules, size, quality, i)
    && forall j :: Best(rules, size, quality, j) ==> j == i
  }

  /** A price is found exactly if one matching rule is more specific than all others. */
  method ImageUnitCost(b: Billing, size: string, quality: string) returns (value: int, found: bool)
    ensures b.mode == "free" ==> found && value == 0
    ensures b.mode != "free" ==> (found <==> exists i :: OnlyBest(b.images, size, quality, i))
    ensures b.mode != "free" && found ==>
      forall i :: OnlyBest(b.images, size, quality, i) ==> value == b.images[i].charge
  {
    if b.mode == "free" {
      return 0, true;
    }
    var best, matches := -1, 0;
    value := 0;
    ghost var first, second := -1, -1;
    for i := 0 to |b.images|
      invariant best == -1 ==> matches == 0 && forall j :: 0 <= j < i ==> !Matches(b.images[j], size, quality)
      invariant best >= 0 ==>
        && 0 <= first < i && Matches(b.images[first], size, quality) && Specificity(b.images[first]) == best
        && value == b.images[first].charge && matches >= 1
      invariant best >= -1 && forall j :: 0 <= j < i && Matches(b.images[j], size, quality) ==>
        Specificity(b.images[j]) <= best
      invariant matches == 1 ==>
        forall j :: 0 <= j < i && Matches(b.images[j], size, quality) && Specificity(b.images[j]) == best ==> j == first
      invariant matches > 1 ==>
        first < second < i && Matches(b.images[second], size, quality) && Specificity(b.images[second]) == best
    {
      var rule := b.images[i];
      if (rule.size != "" && rule.size != size) || (rule.quality != "" && rule.quality != quality) {
        continue;
      }
      var score := 0;
      if rule.size != "" {
        score := score + 1;
      }
      if rule.quality != "" {
        score := score + 1;
      }
      if score > best {
        best, value, matches := score, rule.charge, 1;
        first := i;
      } else if score == best {
        matches := matches + 1;
        second := i;
      }
    }
    found := matches == 1;
    if found {
      assert OnlyBest(b.images, size, quality, first);
    } else if matches > 1 {
      assert Best(b.images, size, quality, first) && Best(b.images, size, quality, second);
    }
  }

  lemma {:induction false} BestExists(rules: seq<ImagePrice>, size: string, quality: string, k: nat)
    requires k < |rules| && Matches(rules[k], size, quality)
    ensures exists i :: Best(rules, size, quality, i)
  {
    var last := |rules| - 1;
    var init := rules[..last];
    if j :| 0 <= j < last && Matches(rules[j], size, quality) {
      assert init[j] == rules[j];
      BestExists(init, size, quality, j);
      var i :| Best(init, size, quality, i);
      assert forall m :: 0 <= m < last ==> init[m] == rules[m];
      if Matches(rules[last], size, quality) && Specificity(rules[last]) > Specificity(rules[i]) {
        assert Best(rules, size, quality, last);
      } else {
        assert Best(rules, size, quality, i);
      }
    } else {
      assert Best(rules, size, quality, k);
    }
  }

  ghost predicate MatchesBySizeOnly(rules: seq<ImagePrice>, size: string, quality: string) {
    exists i :: 0 <= i < |rules| && Matches(rules[i], size, quality) && rules[i].size != "" && rules[i].quality == ""
  }

  ghost predicate MatchesByQualityOnly(rules: seq<ImagePrice>, size: string, quality: string) {
    exists i :: 0 <= i < |rules| && Matches(rules[i], size, quality) && rules[i].size == "" && rules[i].quality != ""
  }

  ghost predicate MatchesExactly(rules: seq<ImagePrice>, size: string, quality: string) {
    exists i :: 0 <= i < |rules| && Matches(rules[i], size, quality) && rules[i].size != "" && rules[i].quality != ""
  }

  /** Two matches that name the same selectors are the same rule. */
  lemma SameSelectors(rules: seq<ImagePrice>, size: string, quality: string, i: nat, j: nat)
    requires DistinctRules(rules) && i < |rules| && j < |rules|
    requires Matches(rules[i], size, quality) && Matches(rules[j], size, quality)
    requires (rules[i].size == "") == (rules[j].size == "") && (rules[i].quality == "") == (rules[j].quality == "")
    ensures i == j
  {
    assert RuleKey(rules[i]) == RuleKey(rules[j]);
  }

  /** With distinct rules, no price is found exactly if none matches, or if one rule matches
      by size alone and another by quality alone and none names both. */
  lemma PriceFoundIff(rules: seq<ImagePrice>, size: string, quality: string)
    requires DistinctRules(rules)
    ensures (exists i :: OnlyBest(rules, size, quality, i)) <==>
      && (exists k :: 0 <= k < |rules| && Matches(rules[k], size, quality))
      && !(MatchesBySizeOnly(rules, size, quality) && MatchesByQualityOnly(rules, size, quality)
        && !MatchesExactly(rules, size, quality))
  {
    if k :| 0 <= k < |rules| && Matches(rules[k], size, quality) {
      BestExists(rules, size, quality, k);
      var i :| Best(rules, size, quality, i);
      BestIsOnly(rules, size, quality, i);
    }
  }

  lemma BestIsOnly(rules: seq<ImagePrice>, size: string, quality: string, i: int)
    requires DistinctRules(rules) && Best(rules, size, quality, i)
    ensures (exists j :: OnlyBest(rules, size, quality, j)) <==>
      !(MatchesBySizeOnly(rules, size, quality) && MatchesByQualityOnly(rules, size, quality)
        && !MatchesExactly(rules, size, quality))
  {
    var bySize, byQuality := MatchesBySizeOnly(rules, size, quality), MatchesByQualityOnly(rules, size, quality);
    if bySize && byQuality && !MatchesExactly(rules, size, quality) {
      var a :| 0 <= a < |rules| && Matches(rules[a], size, quality) && rules[a].size != "" && rules[a].quality == "";
      var b :| 0 <= b < |rules| && Matches(rules[b], size, quality) && rules[b].size == "" && rules[b].quality != "";
      assert Best(rules, size, quality, a) && Best(rules, size, quality, b) && a != b;
    } else {
      forall j | Best(rules, size, quality, j) ensures j == i {
        if Specificity(rules[i]) == 1 {
          assert !MatchesExactly(rules, size, quality);
        }
        SameSelectors(rules, size, quality, i, j);
      }
      assert OnlyBest(rules, size, quality, i);
    }
  }

  // ------------------------------------------------------------------ validation

  predicate PriceInRange(x: int) {
    0 <= x <= MAX_PRICE
  }

  predicate AllZero(input: int, output: int, cacheHit: Option<int>, cacheWrite: Option<int>) {
    input == 0 && output == 0 && (cacheHit.None? || cacheHit.value == 0) && (cacheWrite.None? || cacheWrite.value == 0)
  }

  predicate ValidTier(t: Tier) {
    && t.above >= 0 && PriceInRange(t.input) && PriceInRange(t.output)
    && (t.cacheHit.Some? ==> PriceInRange(t.cacheHit.value))
    && !AllZero(t.input, t.output, t.cacheHit, None)
  }

  /** Rules are told apart by size and quality joined with a NUL. */
  function RuleKey(rule: ImagePrice): string {
    rule.size + "\U{0}" + rule.quality
  }

  ghost predicate DistinctRules(rules: seq<ImagePrice>) {
    forall i, j :: 0 <= i < j < |rules| ==> RuleKey(rules[i]) != RuleKey(rules[j])
  }

  function Normal(protocol: string): string {
    Text.ToLower(Text.TrimSpace(protocol))
  }

  predicate Speech(protocol: string) {
    Normal(protocol) == "minimax_tts" || Normal(protocol) == "dashscope_tts"
  }

  /** What a saved price satisfies. */
  ghost predicate ValidBilling(b: Billing, p: Params) {
    && b.mode in {"tokens", "image", "characters", "free"}
    && (Speech(p.protocol) ==> b.mode in {"characters", "free"})
    && (b.mode == "characters" ==> Normal(p.protocol) == "" || Speech(p.protocol))
    && PriceInRange(p.input) && PriceInRange(p.output)
    && (p.cacheHit.Some? ==> PriceInRange(p.cacheHit.value))
    && (b.cacheWrite.Some? ==> PriceInRange(b.cacheWrite.value))
    && (b.mode == "tokens" ==> !AllZero(p.input, p.output, p.cacheHit, b.cacheWrite))
    && (b.mode == "image" ==> b.images != [])
    && (b.mode == "characters" <==> b.perTenThousandCharacters.Some?)
    && (b.mode == "characters" ==>
          && 0 < b.perTenThousandCharacters.value <= MAX_PRICE
          && p.input == 0 && p.output == 0 && p.cacheHit.None? && b.cacheWrite.None? && b.images == [])
    && (b.tiers != [] ==> b.mode == "tokens")
    && Increasing(b.tiers) && (forall i :: 0 <= i < |b.tiers| ==> ValidTier(b.tiers[i]))
    && DistinctRules(b.images) && (forall i :: 0 <= i < |b.images| ==> 0 < b.images[i].charge <= MAX_PRICE)
  }

  datatype BillingError = WrongMode | OutOfRange | ZeroPriced | WrongImages | WrongCharacters | WrongTiers

  method OutOfRangePrices(b: Billing, p: Params) returns (bad: bool)
    ensures !bad <==>
      && PriceInRange(p.input) && PriceInRange(p.output)
      && (p.cacheHit.Some? ==> PriceInRange(p.cacheHit.value))
      && (b.cacheWrite.Some? ==> PriceInRange(b.cacheWrite.value))
  {
    var costs := [Some(p.input), Some(p.output), p.cacheHit, b.cacheWrite];
    for i := 0 to |costs|
      invariant forall j :: 0 <= j < i && costs[j].Some? ==> PriceInRange(costs[j].value)
    {
      if costs[i].Some? && (costs[i].value < 0 || costs[i].value > MAX_PRICE) {
        assert !PriceInRange(costs[i].value);
        return true;
      }
    }
    assert costs[0] == Some(p.input) && costs[1] == Some(p.output) && costs[2] == p.cacheHit
      && costs[3] == b.cacheWrite;
    bad := false;
  }

  method ValidateImages(rules: seq<ImagePrice>) returns (error: Option<BillingError>)
    ensures error.None? <==> DistinctRules(rules) && forall i :: 0 <= i < |rules| ==> 0 < rules[i].charge <= MAX_PRICE
  {
    var seen := {};
    for i := 0 to |rules|
      invariant forall k :: k in seen <==> exists j :: 0 <= j < i && RuleKey(rules[j]) == k
      invariant forall j, k :: 0 <= j < k < i ==> RuleKey(rules[j]) != RuleKey(rules[k])
      invariant forall j :: 0 <= j < i ==> 0 < rules[j].charge <= MAX_PRICE
    {
      var key := RuleKey(rules[i]);
      if key in seen || rules[i].charge <= 0 || rules[i].charge > MAX_PRICE {
        return Some(WrongImages);
      }
      seen := seen + {key};
    }
    error := None;
  }

  method ValidateTiers(tiers: seq<Tier>, mode: string) returns (error: Option<BillingError>)
    ensures error.None? <==>
      && (tiers != [] ==> mode == "tokens")
      && Increasing(tiers) && forall i :: 0 <= i < |tiers| ==> ValidTier(tiers[i])
  {
    var previous := -1;
    for i := 0 to |tiers|
      invariant i > 0 ==> mode == "tokens" && previous == tiers[i - 1].above
      invariant i == 0 ==> previous == -1
      invariant forall j, k :: 0 <= j < k < i ==> tiers[j].above < tiers[k].above
      invariant forall j :: 0 <= j < i ==> ValidTier(tiers[j]) && tiers[j].above <= previous
    {
      var tier := tiers[i];
      if mode != "tokens" || tier.above < 0 || tier.above <= previous {
        assert i > 0 && tier.above <= previous ==> tiers[i - 1].above >= tiers[i].above;
        return Some(WrongTiers);
      }
      var params := Params("", tier.input, tier.output, tier.cacheHit);
      var bad := OutOfRangePrices(Billing("tokens", [], None, None, []), params);
      if bad {
        return Some(OutOfRange);
      }
      if AllZero(tier.input, tier.output, tier.cacheHit, None) {
        return Some(ZeroPriced);
      }
      previous := tier.above;
    }
    error := None;
  }

  /** A price is accepted exactly if it is valid. */
  method ValidateBilling(b: Billing, p: Params) returns (error: Option<BillingError>)
    ensures error.None? <==> ValidBilling(b, p)
  {
    var speech := Speech(p.protocol);
    if speech && b.mode != "characters" && b.mode != "free" {
      return Some(WrongMode);
    }
    if b.mode == "characters" && Normal(p.protocol) != "" && !speech {
      return Some(WrongMode);
    }
    if b.mode != "tokens" && b.mode != "image" && b.mode != "characters" && b.mode != "free" {
      return Some(WrongMode);
    }
    var bad := OutOfRangePrices(b, p);
    if bad {
      return Some(OutOfRange);
    }
    if b.mode == "tokens" && AllZero(p.input, p.output, p.cacheHit, b.cacheWrite) {
      return Some(ZeroPriced);
    }
    if b.mode == "image" && |b.images| == 0 {
      return Some(WrongImages);
    }
    if b.mode == "characters" {
      if b.perTenThousandCharacters.None? || b.perTenThousandCharacters.value <= 0
        || b.perTenThousandCharacters.value > MAX_PRICE
      {
        return Some(WrongCharacters);
      }
      if p.input != 0 || p.output != 0 || p.cacheHit.Some? || b.cacheWrite.Some? || |b.images| != 0 {
        return Some(WrongCharacters);
      }
    } else if b.perTenThousandCharacters.Some? {
      return Some(WrongCharacters);
    }
    error := ValidateTiers(b.tiers, b.mode);
    if error.None? {
      error := ValidateImages(b.images);
    }
  }
}
