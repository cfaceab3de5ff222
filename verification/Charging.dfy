/** What a request is charged, written out in the prices as they are configured: which tier
    applies, which price stands in for one that is not set, and how the amount is rounded. */
module Charging {
  import opened Calendar
  import opened Counters
  import opened Billing

  // ---------------------------------------------------------------------- rounding

  lemma RoundedIs(n: int, d: int, r: int)
    requires n >= 0 && d > 0 && d % 2 == 0
    ensures IsCharge(n, d, r) <==> r == Min(0x7fff_ffff_ffff_ffff, (n + d / 2) / d)
  {
    var q := (n + d / 2) / d;
    HalfUp(n, d);
    FloorBounds(n + d / 2, d);
    CapIsCharge(n, d, q);
    if IsCharge(n, d, r) {
      ChargeUnique(n, d, r, Min(MAX_INT64, q));
    }
  }

  lemma CapIsCharge(n: int, d: int, q: int)
    requires n >= 0 && d > 0 && d % 2 == 0 && Nearest(n, d, q) && q >= 0
    ensures IsCharge(n, d, Min(MAX_INT64, q))
  {
    if q >= MAX_INT64 {
      MulMonotone(MAX_INT64, q, d);
      assert 2 * q * d == 2 * (q * d) && 2 * MAX_INT64 * d == 2 * (MAX_INT64 * d);
    }
  }

  /** Half a micro-Credit and more is rounded up, and charges end at the 64-bit maximum. */
  lemma ChargeIs(n: int, r: int)
    requires n >= 0
    ensures IsCharge(n, 1_000_000, r) <==> r == Min(0x7fff_ffff_ffff_ffff, (n + 500_000) / 1_000_000)
    ensures IsCharge(n, 10_000, r) <==> r == Min(0x7fff_ffff_ffff_ffff, (n + 5_000) / 10_000)
  {
    RoundedIs(n, 1_000_000, r);
    RoundedIs(n, 10_000, r);
    hide IsCharge;
  }

  // ------------------------------------------------------------------- token prices

  /** The prices from the tier at i on, or the base prices. */
  function PricesAt(p: Price, i: int): Tier
    requires -1 <= i < |p.billing.tiers|
  {
    if i < 0 then Tier(0, p.params.input, p.params.output, p.params.cacheHit) else p.billing.tiers[i]
  }

  /** The last tier whose threshold is below the input is the one at i, or there is none. */
  ghost predicate AppliesAt(p: Price, input: int, i: int) {
    && -1 <= i < |p.billing.tiers|
    && (i >= 0 ==> p.billing.tiers[i].above < input)
    && forall j :: i < j < |p.billing.tiers| ==> input <= p.billing.tiers[j].above
  }

  lemma {:induction false} IndexOf(tiers: seq<Tier>, input: int, i: int)
    requires -1 <= i < |tiers| && (i >= 0 ==> tiers[i].above < input)
    requires forall j :: i < j < |tiers| ==> input <= tiers[j].above
    ensures TierIndex(tiers, input) == i
    decreases |tiers|
  {
    if i < |tiers| - 1 {
      IndexOf(tiers[..|tiers| - 1], input, i);
    }
  }

  lemma TermIsProduct(a: int, b: int)
    ensures Term(a, b) == Max(0, a) * Max(0, b)
  {
  }

  /** A cache hit without a price of its own costs the input price of the tier, and so does a
      cache write; negative prices and counters count as zero; hits are counted first, then
      writes, as far as there is input, and the rest is missed. */
  lemma CostIs(p: Price, input: int, output: int, hit: int, write: int, i: int)
    requires p.billing.mode != "free" && AppliesAt(p, input, i)
    ensures var t := PricesAt(p, i);
      var hits := Min(Max(0, hit), Max(0, input));
      var writes := Min(Max(0, write), Max(0, input) - hits);
      var missed := Max(0, input) - hits - writes;
      var hitPrice := match t.cacheHit case Some(x) => x case None => t.input;
      var writePrice := match p.billing.cacheWrite case Some(x) => x case None => t.input;
      ExactCost(p, input, output, hit, write) ==
        missed * Max(0, t.input) + hits * Max(0, hitPrice) + writes * Max(0, writePrice)
          + Max(0, output) * Max(0, t.output)
  {
    IndexOf(p.billing.tiers, input, i);
    SplitIsPartition(input, hit, write);
    var s, r := SplitInput(input, hit, write), RatesFor(p, input);
    TermIsProduct(s.miss, r.input);
    TermIsProduct(s.hit, HitPrice(r));
    TermIsProduct(s.write, WritePrice(p, r));
    TermIsProduct(output, r.output);
    hide Term, SplitInput, TierIndex;
  }

  lemma FreeCostsNothing(p: Price, input: int, output: int, hit: int, write: int)
    requires p.billing.mode == "free"
    ensures ExactCost(p, input, output, hit, write) == 0
  {
  }

  lemma Joined(a: int, b: int, x: int)
    ensures (a - b) * x + b * x == a * x
  {
  }

  /** If the applying tier has no cache-hit price, hits make no difference. */
  lemma HitsWithoutPrice(p: Price, input: int, output: int, hit: int, i: int)
    requires AppliesAt(p, input, i) && PricesAt(p, i).cacheHit.None?
    ensures ExactCost(p, input, output, hit, 0) == ExactCost(p, input, output, 0, 0)
  {
    if p.billing.mode != "free" {
      CostIs(p, input, output, hit, 0, i);
      CostIs(p, input, output, 0, 0, i);
      hide ExactCost;
      Joined(Max(0, input), Min(Max(0, hit), Max(0, input)), Max(0, PricesAt(p, i).input));
    }
  }

  /** If the price has no cache-write price, writes make no difference. */
  lemma WritesWithoutPrice(p: Price, input: int, output: int, hit: int, write: int, i: int)
    requires AppliesAt(p, input, i) && p.billing.cacheWrite.None?
    ensures ExactCost(p, input, output, hit, write) == ExactCost(p, input, output, hit, 0)
  {
    if p.billing.mode != "free" {
      CostIs(p, input, output, hit, write, i);
      CostIs(p, input, output, hit, 0, i);
      hide ExactCost;
      var hits := Min(Max(0, hit), Max(0, input));
      var rest := Max(0, input) - hits;
      Joined(rest, Min(Max(0, write), rest), Max(0, PricesAt(p, i).input));
    }
  }

  lemma LastPrices(p: Price)
    requires ValidBilling(p.billing, p.params) && p.billing.mode == "tokens"
    ensures var last := |p.billing.tiers| - 1; var t := PricesAt(p, last);
      && t.above >= 0 && AppliesAt(p, t.above + 1, last)
      && (t.input > 0 || t.output > 0 || (t.cacheHit.Some? && t.cacheHit.value > 0)
          || (p.billing.cacheWrite.Some? && p.billing.cacheWrite.value > 0))
  {
    var last := |p.billing.tiers| - 1;
    if last >= 0 {
      assert ValidTier(p.billing.tiers[last]);
    }
  }

  lemma Positive(a: int, x: int, b: int, y: int, c: int, z: int, d: int, w: int)
    requires a >= 0 && b >= 0 && c >= 0 && d >= 0
    requires (a > 0 && x > 0) || (b > 0 && y > 0) || (c > 0 && z > 0) || (d > 0 && w > 0)
    ensures a * Max(0, x) + b * Max(0, y) + c * Max(0, z) + d * Max(0, w) > 0
  {
    NotNegative(a, x);
    NotNegative(b, y);
    NotNegative(c, z);
    NotNegative(d, w);
  }

  lemma NotNegative(a: int, x: int)
    requires a >= 0
    ensures a * Max(0, x) >= 0 && (a > 0 && x > 0 ==> a * Max(0, x) > 0)
  {
  }

  /** A valid price per token charges something for some request. */
  lemma TokensAreNotFree(p: Price) returns (input: int, output: int, hit: int, write: int)
    requires ValidBilling(p.billing, p.params) && p.billing.mode == "tokens"
    ensures ExactCost(p, input, output, hit, write) > 0
  {
    LastPrices(p);
    hide ValidBilling, ExactCost;
    var last := |p.billing.tiers| - 1;
    var t := PricesAt(p, last);
    input, output, hit, write := t.above + 1, 0, 0, 0;
    if t.input > 0 {
    } else if t.output > 0 {
      output := 1;
    } else if t.cacheHit.Some? && t.cacheHit.value > 0 {
      hit := input;
    } else {
      write := input;
    }
    CostIs(p, input, output, hit, write, last);
    hide AppliesAt, PricesAt;
    var hitPrice := match t.cacheHit case Some(x) => x case None => t.input;
    var writePrice := match p.billing.cacheWrite case Some(x) => x case None => t.input;
    Positive(input - hit - write, t.input, hit, hitPrice, write, writePrice, output, t.output);
  }

  // ------------------------------------------------------------------- saved prices

  /** No amount of a saved price is negative or over 9 * 10^15 micro-Credits. */
  lemma SavedPricesInRange(p: Price, i: int)
    requires ValidBilling(p.billing, p.params) && -1 <= i < |p.billing.tiers|
    ensures var t := PricesAt(p, i); var most := 9_000_000_000_000_000;
      && t.above >= 0 && 0 <= t.input <= most && 0 <= t.output <= most
      && (t.cacheHit.Some? ==> 0 <= t.cacheHit.value <= most)
      && (p.billing.cacheWrite.Some? ==> 0 <= p.billing.cacheWrite.value <= most)
      && (forall j :: 0 <= j < |p.billing.images| ==> 0 < p.billing.images[j].charge <= most)
      && (p.billing.perTenThousandCharacters.Some? ==> 0 < p.billing.perTenThousandCharacters.value <= most)
  {
    if i >= 0 {
      assert ValidTier(p.billing.tiers[i]);
    }
  }

  /** What each way of charging goes with: speech protocols charge per character or nothing, and
      only they or no protocol charge per character; only tokens have tiers; images have a
      price. */
  lemma SavedModes(p: Price)
    requires ValidBilling(p.billing, p.params)
    ensures var protocol := Text.ToLower(Text.TrimSpace(p.params.protocol)); var mode := p.billing.mode;
      && (protocol in {"minimax_tts", "dashscope_tts"} ==> mode == "characters" || mode == "free")
      && (mode == "characters" ==> protocol in {"", "minimax_tts", "dashscope_tts"})
      && (mode == "characters" <==> p.billing.perTenThousandCharacters.Some?)
      && (mode != "tokens" ==> p.billing.tiers == []) && (mode == "image" ==> p.billing.images != [])
      && mode in {"tokens", "image", "characters", "free"}
  {
    hide Text.ToLower, Text.TrimSpace;
  }

  // ------------------------------------------------------------------- image prices

  /** A rule that names both size and quality of the image is the one that counts. */
  lemma BothNamed(rules: seq<ImagePrice>, size: string, quality: string, i: int)
    requires DistinctRules(rules) && 0 <= i < |rules| && size != "" && quality != ""
    requires rules[i].size == size && rules[i].quality == quality
    ensures OnlyBest(rules, size, quality, i)
  {
    assert Best(rules, size, quality, i);
    forall j | Best(rules, size, quality, j) ensures j == i {
      SameSelectors(rules, size, quality, i, j);
    }
  }

  /** Without one, a rule that names one of them counts if no rule names just the other. */
  lemma SizeNamed(rules: seq<ImagePrice>, size: string, quality: string, i: int)
    requires DistinctRules(rules) && 0 <= i < |rules| && size != ""
    requires rules[i].size == size && rules[i].quality == ""
    requires forall j :: 0 <= j < |rules| && rules[j].quality == quality && rules[j].size in {"", size} ==>
      quality == ""
    ensures OnlyBest(rules, size, quality, i)
  {
    assert Best(rules, size, quality, i);
    forall j | Best(rules, size, quality, j) ensures j == i {
      SameSelectors(rules, size, quality, i, j);
    }
  }

  lemma QualityNamed(rules: seq<ImagePrice>, size: string, quality: string, i: int)
    requires DistinctRules(rules) && 0 <= i < |rules| && quality != ""
    requires rules[i].quality == quality && rules[i].size == ""
    requires forall j :: 0 <= j < |rules| && rules[j].size == size && rules[j].quality in {"", quality} ==> size == ""
    ensures OnlyBest(rules, size, quality, i)
  {
    assert Best(rules, size, quality, i);
    forall j | Best(rules, size, quality, j) ensures j == i {
      SameSelectors(rules, size, quality, i, j);
    }
  }

  /** The rule that names nothing counts if no other matches. */
  lemma NothingNamed(rules: seq<ImagePrice>, size: string, quality: string, i: int)
    requires DistinctRules(rules) && 0 <= i < |rules| && rules[i].size == "" && rules[i].quality == ""
    requires forall j :: 0 <= j < |rules| && j != i ==>
      rules[j].size !in {"", size} || rules[j].quality !in {"", quality}
    ensures OnlyBest(rules, size, quality, i)
  {
  }
}
