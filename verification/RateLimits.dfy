/** Normalizing a key's configured limits: the loop with its set of windows seen, and the
    sort, against the specification by window order. */
module RateLimits {
  import opened Calendar
  import opened Ledger
  import opened Options

  /** Which name, trimmed and in lower case, is which window. */
  lemma WindowNames(name: string)
    ensures var w := Text.ToLower(Text.TrimSpace(name));
      && (ParseWindow(name) == Some(Hour1) <==> w == "1h")
      && (ParseWindow(name) == Some(Hour5) <==> w == "5h")
      && (ParseWindow(name) == Some(Day1) <==> w == "1d")
      && (ParseWindow(name) == Some(Day7) <==> w == "7d")
      && (ParseWindow(name) == Some(Day30) <==> w == "30d")
      && (ParseWindow(name) == None <==> w !in {"1h", "5h", "1d", "7d", "30d"})
  {
  }

  lemma NameRead(a: string, name: string, b: string)
    requires name in {"1h", "5h", "1d", "7d", "30d", "1H", "5H", "1D", "7D", "30D"}
    requires (forall c :: c in a ==> c in {' ', '\t', '\n'}) && (forall c :: c in b ==> c in {' ', '\t', '\n'})
    ensures Text.TrimSpace(a + name + b) == name
  {
    assert Text.Trimmed(name);
    forall i | 0 <= i < |a| ensures Text.IsSpace(a[i]) {
      assert a[i] in a;
    }
    forall i | 0 <= i < |b| ensures Text.IsSpace(b[i]) {
      assert b[i] in b;
    }
    Text.TrimPadded(a, name, b);
  }

  /** Blanks around a name and the case of its letter do not matter. */
  lemma NamesAsWritten(a: string, b: string)
    requires (forall c :: c in a ==> c in {' ', '\t', '\n'}) && (forall c :: c in b ==> c in {' ', '\t', '\n'})
    ensures ParseWindow(a + "1h" + b) == ParseWindow(a + "1H" + b) == Some(Hour1)
    ensures ParseWindow(a + "5h" + b) == ParseWindow(a + "5H" + b) == Some(Hour5)
    ensures ParseWindow(a + "1d" + b) == ParseWindow(a + "1D" + b) == Some(Day1)
    ensures ParseWindow(a + "7d" + b) == ParseWindow(a + "7D" + b) == Some(Day7)
    ensures ParseWindow(a + "30d" + b) == ParseWindow(a + "30D" + b) == Some(Day30)
  {
    NamesLowered();
    hide Text.ToLower, Text.TrimSpace;
    NameRead(a, "1h", b);
    NameRead(a, "1H", b);
    NameRead(a, "5h", b);
    NameRead(a, "5H", b);
    NameRead(a, "1d", b);
    NameRead(a, "1D", b);
    NameRead(a, "7d", b);
    NameRead(a, "7D", b);
    NameRead(a, "30d", b);
    NameRead(a, "30D", b);
  }

  lemma NamesLowered()
    ensures Text.ToLower("1h") == Text.ToLower("1H") == "1h" && Text.ToLower("5h") == Text.ToLower("5H") == "5h"
    ensures Text.ToLower("1d") == Text.ToLower("1D") == "1d" && Text.ToLower("7d") == Text.ToLower("7D") == "7d"
    ensures Text.ToLower("30d") == Text.ToLower("30D") == "30d"
  {
  }

  predicate Acceptable(raw: RawLimit) {
    && ParseWindow(raw.window).Some?
    && raw.requestQuota >= 0 && raw.tokenQuota >= 0 && raw.costQuota >= 0
  }

  function Parsed(raw: RawLimit): Limit
    requires ParseWindow(raw.window).Some?
  {
    Limit(ParseWindow(raw.window).value, raw.requestQuota, raw.tokenQuota, raw.costQuota)
  }

  /** Every limit is acceptable and no window, as parsed, is named twice. */
  ghost predicate WellFormed(raw: seq<RawLimit>) {
    && (forall i :: 0 <= i < |raw| ==> Acceptable(raw[i]))
    && (forall i, j :: 0 <= i < j < |raw| ==> ParseWindow(raw[i].window) != ParseWindow(raw[j].window))
  }

  ghost predicate Ascending(limits: seq<Limit>) {
    forall i, j :: 0 <= i < j < |limits| ==> Rank(limits[i].window) < Rank(limits[j].window)
  }

  ghost predicate NoneSeen(raw: seq<RawLimit>, seen: set<Window>) {
    forall i :: 0 <= i < |raw| && ParseWindow(raw[i].window).Some? ==> ParseWindow(raw[i].window).value !in seen
  }

  lemma WellFormedCons(first: RawLimit, rest: seq<RawLimit>)
    requires Acceptable(first)
    ensures WellFormed([first] + rest) <==> WellFormed(rest) && NoneSeen(rest, {ParseWindow(first.window).value})
  {
    hide ParseWindow;
    var raw := [first] + rest;
    if WellFormed(raw) {
      forall i | 0 <= i < |rest|
        ensures Acceptable(rest[i]) && ParseWindow(rest[i].window) != ParseWindow(first.window)
      {
        assert raw[i + 1] == rest[i] && raw[0] == first;
      }
      forall i, j | 0 <= i < j < |rest| ensures ParseWindow(rest[i].window) != ParseWindow(rest[j].window) {
        assert raw[i + 1] == rest[i] && raw[j + 1] == rest[j];
      }
    }
    if WellFormed(rest) && NoneSeen(rest, {ParseWindow(first.window).value}) {
      forall i | 0 <= i < |raw| ensures Acceptable(raw[i]) {
        assert raw[i] == if i == 0 then first else rest[i - 1];
      }
      forall i, j | 0 <= i < j < |raw| ensures ParseWindow(raw[i].window) != ParseWindow(raw[j].window) {
        assert raw[i] == (if i == 0 then first else rest[i - 1]) && raw[j] == rest[j - 1];
      }
    }
  }

  lemma NoneSeenCons(first: RawLimit, rest: seq<RawLimit>, seen: set<Window>)
    requires ParseWindow(first.window).Some?
    ensures NoneSeen([first] + rest, seen) <==> NoneSeen(rest, seen) && ParseWindow(first.window).value !in seen
  {
    hide ParseWindow;
    var raw := [first] + rest;
    assert forall i :: 0 < i < |raw| ==> raw[i] == rest[i - 1];
    assert forall i :: 0 <= i < |rest| ==> rest[i] == raw[i + 1];
    if NoneSeen(raw, seen) {
      assert raw[0] == first;
    }
  }

  /** The limits are accepted exactly if they are well-formed and new to the windows seen. */
  lemma {:induction false} AcceptedIff(raw: seq<RawLimit>, seen: set<Window>)
    ensures FirstProblem(raw, seen).None? <==> WellFormed(raw) && NoneSeen(raw, seen)
    decreases |raw|
  {
    hide ParseWindow, WellFormed, NoneSeen;
    if raw == [] {
      EmptyIsWellFormed(seen);
    } else {
      assert raw == [raw[0]] + raw[1..];
      if LimitProblem(raw[0], seen).None? {
        var first := ParseWindow(raw[0].window).value;
        AcceptedIff(raw[1..], seen + {first});
        WellFormedCons(raw[0], raw[1..]);
        NoneSeenCons(raw[0], raw[1..], seen);
        SeenUnion(raw[1..], seen, first);
      } else {
        NotWellFormed(raw, seen);
      }
    }
  }

  /** What is wrong with limits that are not accepted: the first one that is not acceptable, or
      names the window of one before it, in the order in which it is checked. */
  lemma {:induction false} FirstBadLimit(raw: seq<RawLimit>, seen: set<Window>) returns (i: nat)
    requires FirstProblem(raw, seen).Some?
    ensures i < |raw| && forall j :: 0 <= j < i ==> Acceptable(raw[j]) && ParseWindow(raw[j].window).value !in seen
    ensures var w := ParseWindow(raw[i].window);
      match FirstProblem(raw, seen).value
      case UnsupportedWindow => w.None?
      case DuplicateWindow => w.Some? && (w.value in seen || exists j :: 0 <= j < i && ParseWindow(raw[j].window) == w)
      case NegativeQuota =>
        && w.Some? && w.value !in seen && (forall j :: 0 <= j < i ==> ParseWindow(raw[j].window) != w)
        && (raw[i].requestQuota < 0 || raw[i].tokenQuota < 0 || raw[i].costQuota < 0)
    decreases |raw|
  {
    hide ParseWindow;
    if LimitProblem(raw[0], seen).Some? {
      i := 0;
    } else {
      var first, rest := ParseWindow(raw[0].window).value, raw[1..];
      assert forall j :: 0 <= j < |rest| ==> rest[j] == raw[j + 1];
      var k := FirstBadLimit(rest, seen + {first});
      i := k + 1;
      assert forall j :: 0 < j < i ==> raw[j] == rest[j - 1];
      assert ParseWindow(raw[0].window) == Some(first);
      if j :| 0 <= j < k && ParseWindow(rest[j].window) == ParseWindow(rest[k].window) {
        assert raw[j + 1] == rest[j];
      }
    }
  }

  /** Limits are accepted if and only if each names a window, none has a negative quota, and no
      window is named twice. */
  lemma AcceptedLimits(raw: seq<RawLimit>)
    ensures Normalize(raw).Limits? <==>
      && (forall i :: 0 <= i < |raw| ==> ParseWindow(raw[i].window).Some?)
      && (forall i :: 0 <= i < |raw| ==> raw[i].requestQuota >= 0 && raw[i].tokenQuota >= 0 && raw[i].costQuota >= 0)
      && (forall i, j :: 0 <= i < j < |raw| ==> ParseWindow(raw[i].window) != ParseWindow(raw[j].window))
  {
    AcceptedIff(raw, {});
    assert NoneSeen(raw, {});
    hide ParseWindow, FirstProblem, Sorted;
  }

  lemma EmptyIsWellFormed(seen: set<Window>)
    ensures WellFormed([]) && NoneSeen([], seen)
  {
  }

  lemma SeenUnion(raw: seq<RawLimit>, seen: set<Window>, w: Window)
    ensures NoneSeen(raw, seen + {w}) <==> NoneSeen(raw, seen) && NoneSeen(raw, {w})
  {
    hide ParseWindow;
  }

  lemma NotWellFormed(raw: seq<RawLimit>, seen: set<Window>)
    requires raw != [] && LimitProblem(raw[0], seen).Some?
    ensures !(WellFormed(raw) && NoneSeen(raw, seen))
  {
    hide ParseWindow;
  }

  function ParsedAll(raw: seq<RawLimit>): seq<Limit>
    requires forall i :: 0 <= i < |raw| ==> ParseWindow(raw[i].window).Some?
  {
    seq(|raw|, i requires 0 <= i < |raw| => Parsed(raw[i]))
  }

  lemma {:induction false} NoneNamed(raw: seq<RawLimit>, w: Window)
    requires forall i :: 0 <= i < |raw| ==> ParseWindow(raw[i].window) != Some(w)
    ensures LimitsOf(raw, w) == []
  {
    hide ParseWindow;
    if raw != [] {
      NoneNamed(raw[1..], w);
    }
  }

  lemma {:induction false} LimitsOfIn(raw: seq<RawLimit>, w: Window, x: Limit)
    requires WellFormed(raw)
    ensures |LimitsOf(raw, w)| <= 1
    ensures x in LimitsOf(raw, w) <==> x.window == w && x in ParsedAll(raw)
  {
    if raw != [] {
      var rest := raw[1..];
      assert forall i :: 0 <= i < |rest| ==> rest[i] == raw[i + 1];
      LimitsOfIn(rest, w, x);
      assert ParsedAll(raw) == [Parsed(raw[0])] + ParsedAll(rest);
      hide ParseWindow;
      if ParseWindow(raw[0].window) == Some(w) {
        NoneNamed(rest, w);
      }
    }
  }

  /** Sorting keeps exactly the parsed limits and puts them in strictly ascending window order,
      which is that of their lengths. */
  lemma SortedIsAscending(raw: seq<RawLimit>)
    requires WellFormed(raw)
    ensures Ascending(Sorted(raw))
    ensures forall i, j :: 0 <= i < j < |Sorted(raw)| ==> Length(Sorted(raw)[i].window) < Length(Sorted(raw)[j].window)
    ensures forall x :: x in Sorted(raw) <==> x in ParsedAll(raw)
  {
    forall w: Window ensures |LimitsOf(raw, w)| <= 1 {
      LimitsOfIn(raw, w, Limit(w, 0, 0, 0));
    }
    forall x ensures x in Sorted(raw) <==> x in ParsedAll(raw) {
      forall w: Window {
        LimitsOfIn(raw, w, x);
      }
      assert x in Sorted(raw) <==> x in LimitsOf(raw, x.window);
    }
  }

  /** A strictly ascending list is determined by its elements. */
  lemma {:induction false} AscendingUnique(x: seq<Limit>, y: seq<Limit>)
    requires Ascending(x) && Ascending(y)
    requires forall l :: l in x <==> l in y
    ensures x == y
    decreases |x|
  {
    assert y != [] ==> y[0] in x;
    if x != [] {
      assert x[0] in y;
      assert y[0] in x;
      assert x[0] == y[0];
      forall l ensures l in x[1..] <==> l in y[1..] {
        if l in x[1..] {
          assert l in y && l != x[0];
        }
        if l in y[1..] {
          assert l in x && l != y[0];
        }
      }
      AscendingUnique(x[1..], y[1..]);
    }
  }

  lemma InsertInOrder(sorted: seq<Limit>, x: Limit, n: nat)
    requires Ascending(sorted) && n <= |sorted|
    requires forall j :: 0 <= j < n ==> Rank(sorted[j].window) < Rank(x.window)
    requires n < |sorted| ==> Rank(x.window) <= Rank(sorted[n].window) && x.window != sorted[n].window
    ensures Ascending(sorted[..n] + [x] + sorted[n..])
    ensures forall l :: l in sorted[..n] + [x] + sorted[n..] <==> l in sorted || l == x
  {
    assert sorted == sorted[..n] + sorted[n..];
  }

  /** sort.Slice by window order, as insertion. */
  method SortByOrder(limits: seq<Limit>) returns (sorted: seq<Limit>)
    requires forall i, j :: 0 <= i < j < |limits| ==> limits[i].window != limits[j].window
    ensures Ascending(sorted)
    ensures forall l :: l in sorted <==> l in limits
  {
    sorted := [];
    for i := 0 to |limits|
      invariant Ascending(sorted)
      invariant forall l :: l in sorted <==> l in limits[..i]
    {
      var n := 0;
      while n < |sorted| && Rank(sorted[n].window) < Rank(limits[i].window)
        invariant 0 <= n <= |sorted|
        invariant forall j :: 0 <= j < n ==> Rank(sorted[j].window) < Rank(limits[i].window)
      {
        n := n + 1;
      }
      if n < |sorted| {
        assert sorted[n] in limits[..i];
      }
      InsertInOrder(sorted, limits[i], n);
      sorted := sorted[..n] + [limits[i]] + sorted[n..];
      assert limits[..i + 1] == limits[..i] + [limits[i]];
    }
    assert limits[..|limits|] == limits;
  }

  method NormalizeRateLimits(raw: seq<RawLimit>) returns (r: Normalized)
    ensures r == Normalize(raw)
  {
    var normalized, seen := [], {};
    for i := 0 to |raw|
      invariant FirstProblem(raw, {}) == FirstProblem(raw[i..], seen)
      invariant |normalized| == i
      invariant forall j :: 0 <= j < i ==> ParseWindow(raw[j].window).Some? && normalized[j] == Parsed(raw[j])
    {
      assert raw[i..][0] == raw[i] && raw[i..][1..] == raw[i + 1..];
      var window := ParseWindow(raw[i].window);
      if window.None? {
        return Invalid(UnsupportedWindow);
      }
      if window.value in seen {
        return Invalid(DuplicateWindow);
      }
      seen := seen + {window.value};
      if raw[i].requestQuota < 0 || raw[i].tokenQuota < 0 || raw[i].costQuota < 0 {
        return Invalid(NegativeQuota);
      }
      normalized := normalized + [Limit(window.value, raw[i].requestQuota, raw[i].tokenQuota, raw[i].costQuota)];
    }
    AcceptedIff(raw, {});
    assert NoneSeen(raw, {});
    assert normalized == ParsedAll(raw);
    SortedIsAscending(raw);
    var sorted := SortByOrder(normalized);
    AscendingUnique(sorted, Sorted(raw));
    r := Limits(sorted);
  }

  /** A violation is reported exactly for the first exhausted status, its first exhausted
      dimension in the order requests, tokens, cost. */
  lemma {:induction false} FirstViolationIsFirst(statuses: seq<Status>)
    ensures FirstViolation(statuses).None? <==> forall i, d :: 0 <= i < |statuses| ==> !Exhausts(statuses[i], d)
    ensures FirstViolation(statuses).Some? ==>
      exists i, d :: 0 <= i < |statuses| && Exhausts(statuses[i], d)
        && FirstViolation(statuses).value == Violation(statuses[i].limit.window, d, statuses[i].resetsAt)
        && (forall j, e :: 0 <= j < i ==> !Exhausts(statuses[j], e))
        && (Exhausts(statuses[i], Requests) ==> d == Requests)
        && (Exhausts(statuses[i], Tokens) ==> d != Cost)
  {
    if statuses != [] {
      var rest := statuses[1..];
      FirstViolationIsFirst(rest);
      assert forall i :: 0 < i < |statuses| ==> statuses[i] == rest[i - 1];
      if StatusViolation(statuses[0]).Some? {
        var d := StatusViolation(statuses[0]).value.dimension;
        assert Exhausts(statuses[0], d);
      } else {
        forall d ensures !Exhausts(statuses[0], d) {
        }
        if FirstViolation(rest).Some? {
          var i, d :| 0 <= i < |rest| && Exhausts(rest[i], d)
            && FirstViolation(rest).value == Violation(rest[i].limit.window, d, rest[i].resetsAt)
            && (forall j, e :: 0 <= j < i ==> !Exhausts(rest[j], e))
            && (Exhausts(rest[i], Requests) ==> d == Requests)
            && (Exhausts(rest[i], Tokens) ==> d != Cost);
          assert statuses[i + 1] == rest[i];
          forall j, e | 0 <= j < i + 1 ensures !Exhausts(statuses[j], e) {
            if j > 0 {
              assert statuses[j] == rest[j - 1];
            }
          }
        }
      }
    }
  }

  method FirstRateLimitViolation(statuses: seq<Status>) returns (r: Option<Violation>)
    ensures r == FirstViolation(statuses)
  {
    for i := 0 to |statuses|
      invariant FirstViolation(statuses) == FirstViolation(statuses[i..])
    {
      var s := statuses[i];
      assert statuses[i..][0] == s && statuses[i..][1..] == statuses[i + 1..];
      if s.limit.requestQuota > 0 && s.used.requests >= s.limit.requestQuota {
        return Some(Violation(s.limit.window, Requests, s.resetsAt));
      }
      if s.limit.tokenQuota > 0 && s.used.tokens >= s.limit.tokenQuota {
        return Some(Violation(s.limit.window, Tokens, s.resetsAt));
      }
      if s.limit.costQuota > 0 && s.used.cost >= s.limit.costQuota {
        return Some(Violation(s.limit.window, Cost, s.resetsAt));
      }
    }
    assert statuses[|statuses|..] == [];
    r := None;
  }
}
