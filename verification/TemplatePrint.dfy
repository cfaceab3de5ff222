/** Printing templates, and the round trip through the parser. */
module TemplatePrint {
  import opened Sequences
  import opened Template

  // -------------------------------------------------------------- well-formed trees

  predicate NoPair(s: string) {
    !HasPair(s, '{') && !HasPair(s, '}')
  }

  predicate ValidArgument(s: string) {
    Text.Trimmed(s) && '|' !in s && NoPair(s)
  }

  ghost predicate ValidFormatters(o: Oracles, fs: seq<Formatter>) {
    forall i :: 0 <= i < |fs| ==> ValidFormatter(o, fs[i]) && ValidArgument(fs[i].argument)
  }

  ghost predicate ValidPart(o: Oracles, p: Part) {
    match p
    case Literal(text) => text != "" && NoPair(text)
    case Placeholder(field, formatters) => ValidIdentifier(field) && ValidFormatters(o, formatters)
  }

  /** No two texts in a row, no double brace in a text, and no text that ends in an open
      brace before a placeholder. */
  ghost predicate WellFormed(o: Oracles, parts: seq<Part>) {
    parts == [] || (
      && ValidPart(o, parts[0])
      && WellFormed(o, parts[1..])
      && (parts[0].Literal? && |parts| > 1 ==> parts[1].Placeholder? && parts[0].text[|parts[0].text| - 1] != '{'))
  }

  function PrintFormatter(f: Formatter): string {
    f.name + if f.argument == "" then "" else ":" + f.argument
  }

  function PrintFormatters(fs: seq<Formatter>): string {
    if fs == [] then "" else " | " + PrintFormatter(fs[0]) + PrintFormatters(fs[1..])
  }

  function PrintPart(p: Part): string {
    match p
    case Literal(text) => text
    case Placeholder(field, formatters) => "{{ " + (field + PrintFormatters(formatters)) + " }}"
  }

  function Print(parts: seq<Part>): string {
    if parts == [] then "" else PrintPart(parts[0]) + Print(parts[1..])
  }

  // ---------------------------------------------------------------- double characters

  lemma PairSlice(s: string, i: nat, j: nat, c: char)
    requires i <= j <= |s| && !HasPair(s, c)
    ensures !HasPair(s[i..j], c)
  {
    var t := s[i..j];
    forall k | 0 <= k < |t| - 1 ensures !(t[k] == c && t[k + 1] == c) {
      assert t[k] == s[i + k] && t[k + 1] == s[i + k + 1];
    }
  }

  lemma PairConcat(s: string, t: string, c: char)
    requires !HasPair(s, c) && !HasPair(t, c)
    requires s == "" || t == "" || s[|s| - 1] != c || t[0] != c
    ensures !HasPair(s + t, c)
  {
    var u := s + t;
    forall k | 0 <= k < |u| - 1 ensures !(u[k] == c && u[k + 1] == c) {
      if k + 1 < |s| {
        assert u[k] == s[k] && u[k + 1] == s[k + 1];
      } else if k >= |s| {
        assert u[k] == t[k - |s|] && u[k + 1] == t[k - |s| + 1];
      } else {
        assert u[k] == s[|s| - 1] && u[k + 1] == t[0];
      }
    }
  }

  lemma PairPadded(s: string, c: char)
    requires !HasPair(s, c) && c != ' '
    ensures !HasPair(" " + s + " ", c)
  {
    PairConcat(" ", s, c);
    PairConcat(" " + s, " ", c);
  }

  lemma FirstPair(s: string, c: char, more: string)
    requires !HasPair(s, c) && (s == "" || s[|s| - 1] != c)
    ensures IndexPair(s + [c, c] + more, c) == |s|
  {
    var u := s + [c, c] + more;
    assert u[|s|] == c && u[|s| + 1] == c;
    forall j | 0 <= j < |s| ensures !(u[j] == c && u[j + 1] == c) {
      if j + 1 < |s| {
        assert u[j] == s[j] && u[j + 1] == s[j + 1];
      }
    }
  }

  // ------------------------------------------------------------------------ trimming

  lemma TrimmedAround(s: string, m: string, t: string)
    requires Text.Trimmed(s) && s != "" && Text.Trimmed(t) && t != ""
    ensures Text.Trimmed(s + m + t) && s + m + t != ""
  {
    var u := s + m + t;
    assert u[0] == s[0] && u[|u| - 1] == t[|t| - 1];
  }

  lemma Braces(e: string)
    ensures "{{ " + e + " }}" == ['{', '{'] + (" " + e + " ") + ['}', '}']
  {
  }

  lemma Surround<T>(text: seq<T>, open: seq<T>, inner: seq<T>, close: seq<T>, more: seq<T>)
    ensures text + ((open + inner + close) + more) == text + open + (inner + close + more)
  {
  }

  lemma Regroup<T>(a: seq<T>, b: seq<T>, c: seq<T>, d: seq<T>)
    ensures a + (b + c + d) == a + b + c + d
  {
  }

  // ------------------------------------------------------------ splitting and cutting

  lemma {:induction false} SplitNone(s: string, c: char)
    requires c !in s
    ensures Split(s, c) == [s]
  {
    if s != "" {
      SplitNone(s[1..], c);
      assert [s[0]] + s[1..] == s;
    }
  }

  lemma {:induction false} SplitAt(s: string, c: char, more: string)
    requires c !in s
    ensures Split(s + [c] + more, c) == [s] + Split(more, c)
  {
    if s == "" {
      assert (s + [c] + more)[1..] == more;
    } else {
      SplitAt(s[1..], c, more);
      assert (s + [c] + more)[1..] == s[1..] + [c] + more;
      assert [s[0]] + s[1..] == s;
    }
  }

  /** The pieces of a split hold no separator and no double brace that was not there. */
  lemma {:induction false} SplitPieces(s: string, c: char)
    requires NoPair(s)
    ensures Split(s, c)[0] <= s
    ensures forall i :: 0 <= i < |Split(s, c)| ==> c !in Split(s, c)[i] && NoPair(Split(s, c)[i])
  {
    if s != "" {
      PairSlice(s, 1, |s|, '{');
      PairSlice(s, 1, |s|, '}');
      SplitPieces(s[1..], c);
      var n := |Split(s, c)[0]|;
      assert s == [s[0]] + s[1..];
      PairSlice(s, 0, n, '{');
      PairSlice(s, 0, n, '}');
    }
  }

  lemma {:induction false} CutNone(s: string, c: char)
    requires c !in s
    ensures Cut(s, c) == (s, "")
  {
    if s != "" {
      CutNone(s[1..], c);
      assert [s[0]] + s[1..] == s;
    }
  }

  lemma {:induction false} CutAt(s: string, c: char, more: string)
    requires c !in s
    ensures Cut(s + [c] + more, c) == (s, more)
  {
    if s == "" {
      assert (s + [c] + more)[1..] == more;
    } else {
      CutAt(s[1..], c, more);
      assert (s + [c] + more)[1..] == s[1..] + [c] + more;
      assert [s[0]] + s[1..] == s;
    }
  }

  lemma {:induction false} CutIsSuffix(s: string, c: char)
    ensures var after := Cut(s, c).1; |after| <= |s| && after == s[|s| - |after|..]
  {
    if s != "" && s[0] != c {
      CutIsSuffix(s[1..], c);
    }
  }

  // --------------------------------------------------------------------------- words

  /** A nonempty string of ASCII letters, digits and underscores. */
  predicate Word(s: string) {
    s != "" && forall i :: 0 <= i < |s| ==>
      'a' <= s[i] <= 'z' || 'A' <= s[i] <= 'Z' || '0' <= s[i] <= '9' || s[i] == '_'
  }

  lemma WordFacts(s: string)
    requires Word(s)
    ensures Text.Trimmed(s) && NoPair(s) && '|' !in s && ':' !in s
    ensures s[|s| - 1] != '}' && s[0] != '{'
  {
  }

  lemma NameFacts(name: string)
    requires name in NAMES
    ensures Word(name) && Text.ToLower(name) == name
  {
    var lower := Text.ToLower(name);
    assert forall i :: 0 <= i < |name| ==> lower[i] == name[i];
  }

  // ----------------------------------------------------------------------- formatters

  lemma FormatterFacts(o: Oracles, f: Formatter)
    requires ValidFormatter(o, f) && ValidArgument(f.argument)
    ensures f.name in NAMES && PrintFormatter(f) != ""
    ensures Text.Trimmed(PrintFormatter(f)) && '|' !in PrintFormatter(f) && NoPair(PrintFormatter(f))
  {
    assert f.name in NAMES;
    NameFacts(f.name);
    WordFacts(f.name);
    if f.argument != "" {
      hide Word, ValidFormatter;
      assert !HasPair(":", '{') && !HasPair(":", '}');
      PairConcat(":", f.argument, '{');
      PairConcat(":", f.argument, '}');
      PairConcat(f.name, ":" + f.argument, '{');
      PairConcat(f.name, ":" + f.argument, '}');
    }
  }

  lemma FormatterParses(o: Oracles, f: Formatter, pad: string)
    requires ValidFormatter(o, f) && ValidArgument(f.argument) && pad in {"", " "}
    ensures ParseFormatter(o, " " + PrintFormatter(f) + pad) == Ok(f)
  {
    FormatterFacts(o, f);
    NameFacts(f.name);
    WordFacts(f.name);
    Text.TrimPadded(" ", PrintFormatter(f), pad);
    Text.TrimSpaceFixes(f.name);
    Text.TrimSpaceFixes(f.argument);
    if f.argument == "" {
      CutNone(f.name, ':');
      assert f.name + "" == f.name;
    } else {
      CutAt(f.name, ':', f.argument);
      assert f.name + (":" + f.argument) == f.name + ":" + f.argument;
    }
    hide Text.TrimSpace, Text.ToLower, Cut, ValidFormatter, Word, NoPair, Text.Trimmed;
  }

  lemma FirstSegment(text: string, next: string)
    requires '|' !in text
    ensures Split(text + (" | " + next), '|') == [text + " "] + Split(" " + next, '|')
  {
    SplitAt(text + " ", '|', " " + next);
    assert text + (" | " + next) == (text + " ") + ['|'] + (" " + next);
  }

  lemma FormattersCons(o: Oracles, segment: string, f: Formatter, segments: seq<string>, rest: seq<Formatter>)
    requires ParseFormatter(o, segment) == Ok(f) && ParseFormatters(o, segments) == Ok(rest)
    ensures ParseFormatters(o, [segment] + segments) == Ok([f] + rest)
  {
    hide ParseFormatter;
    assert ([segment] + segments)[1..] == segments;
  }

  lemma NoFormatters(o: Oracles)
    ensures ParseFormatters(o, []) == Ok([])
  {
  }

  lemma LastFormatter(o: Oracles, f: Formatter)
    requires ValidFormatter(o, f) && ValidArgument(f.argument)
    ensures ParseFormatters(o, Split(" " + PrintFormatter(f), '|')) == Ok([f])
  {
    FormatterFacts(o, f);
    FormatterParses(o, f, "");
    NoFormatters(o);
    SplitNone(" " + PrintFormatter(f), '|');
    hide *;
    assert " " + PrintFormatter(f) + "" == " " + PrintFormatter(f);
    FormattersCons(o, " " + PrintFormatter(f), f, [], []);
    assert [" " + PrintFormatter(f)] + [] == [" " + PrintFormatter(f)] && [f] + [] == [f];
  }

  lemma PrintCons(fs: seq<Formatter>)
    requires fs != []
    ensures PrintFormatters(fs) == " | " + (PrintFormatter(fs[0]) + PrintFormatters(fs[1..]))
  {
    hide PrintFormatter;
    assert " | " + PrintFormatter(fs[0]) + PrintFormatters(fs[1..]) ==
      " | " + (PrintFormatter(fs[0]) + PrintFormatters(fs[1..]));
  }

  /** The segments after the first bar, printed and split again. */
  lemma {:induction false} FormattersParse(o: Oracles, fs: seq<Formatter>)
    requires fs != [] && ValidFormatters(o, fs)
    ensures ParseFormatters(o, Split(" " + (PrintFormatter(fs[0]) + PrintFormatters(fs[1..])), '|')) == Ok(fs)
    decreases |fs|
  {
    var f, rest := fs[0], fs[1..];
    var text := " " + PrintFormatter(f);
    FormatterFacts(o, f);
    if rest == [] {
      LastFormatter(o, f);
      hide *;
      assert PrintFormatters([]) == "" by { PrintNone(); }
      assert PrintFormatter(f) + "" == PrintFormatter(f) && fs == [f];
    } else {
      assert ValidFormatters(o, rest);
      FormatterParses(o, f, " ");
      hide *;
      FormattersParse(o, rest);
      PrintCons(rest);
      var next := PrintFormatter(rest[0]) + PrintFormatters(rest[1..]);
      FirstSegment(text, next);
      Assoc(" ", PrintFormatter(f), PrintFormatters(rest));
      FormattersCons(o, text + " ", f, Split(" " + next, '|'), rest);
      assert [f] + rest == fs;
    }
  }

  lemma PrintNone()
    ensures PrintFormatters([]) == ""
  {
  }

  lemma PlaceholderFrom(
    o: Oracles, expression: string, segment: string, field: string, segments: seq<string>, fs: seq<Formatter>)
    requires Split(expression, '|') == [segment] + segments && Text.TrimSpace(segment) == field
      && ValidIdentifier(field)
    requires ParseFormatters(o, segments) == Ok(fs)
    ensures ParsePlaceholder(o, expression) == Ok(Placeholder(field, fs))
  {
    hide Split, ParseFormatters, ValidIdentifier, Text.TrimSpace;
    assert ([segment] + segments)[1..] == segments;
  }

  lemma PlaceholderParses(o: Oracles, field: string, fs: seq<Formatter>)
    requires ValidIdentifier(field) && ValidFormatters(o, fs)
    ensures ParsePlaceholder(o, field + PrintFormatters(fs)) == Ok(Placeholder(field, fs))
  {
    assert Word(field);
    WordFacts(field);
    Text.TrimSpaceFixes(field);
    TrimField(field);
    NoFormatters(o);
    PrintNone();
    hide *;
    if fs == [] {
      SplitNone(field, '|');
      assert field + "" == field && [field] == [field] + [];
      PlaceholderFrom(o, field, field, field, [], []);
    } else {
      FormattersParse(o, fs);
      PrintCons(fs);
      var next := PrintFormatter(fs[0]) + PrintFormatters(fs[1..]);
      FirstSegment(field, next);
      PlaceholderFrom(o, field + PrintFormatters(fs), field + " ", field, Split(" " + next, '|'), fs);
    }
  }

  lemma TrimField(field: string)
    requires Text.Trimmed(field) && field != ""
    ensures Text.TrimSpace(field + " ") == field
  {
    Text.TrimPadded("", field, " ");
    assert "" + field + " " == field + " ";
  }

  lemma SegmentAdded(o: Oracles, text: string, f: Formatter, c: char)
    requires ValidFormatter(o, f) && ValidArgument(f.argument) && c in {'{', '}'}
    ensures !HasPair(text, c) ==> !HasPair(text + " | " + PrintFormatter(f), c)
    ensures Text.Trimmed(text) && text != "" ==>
      Text.Trimmed(text + " | " + PrintFormatter(f)) && text + " | " + PrintFormatter(f) != ""
  {
    FormatterFacts(o, f);
    hide PrintFormatter, ValidFormatter;
    if !HasPair(text, c) {
      PairConcat(text, " | ", c);
      PairConcat(text + " | ", PrintFormatter(f), c);
    }
    if Text.Trimmed(text) && text != "" {
      TrimmedAround(text, " | ", PrintFormatter(f));
    }
  }

  /** A printed expression holds no double brace, and starts and ends with no space. */
  lemma {:induction false} ExpressionFacts(o: Oracles, text: string, fs: seq<Formatter>, c: char)
    requires !HasPair(text, c) && Text.Trimmed(text) && text != "" && ValidFormatters(o, fs) && c in {'{', '}'}
    ensures !HasPair(text + PrintFormatters(fs), c)
    ensures Text.Trimmed(text + PrintFormatters(fs)) && text + PrintFormatters(fs) != ""
    decreases |fs|
  {
    if fs == [] {
      assert text + PrintFormatters(fs) == text;
    } else {
      var f, rest := fs[0], fs[1..];
      assert ValidFormatters(o, rest);
      assert PrintFormatters(fs) == " | " + PrintFormatter(f) + PrintFormatters(rest);
      SegmentAdded(o, text, f, c);
      hide *;
      ExpressionFacts(o, text + " | " + PrintFormatter(f), rest, c);
      Regroup(text, " | ", PrintFormatter(f), PrintFormatters(rest));
    }
  }

  // ------------------------------------------------------------------- the round trip

  /** One step of the parser, given where the braces are and what the expression says. */
  lemma ParseStep(o: Oracles, text: string, inner: string, more: string, part: Part)
    requires NoPair(text) && IndexPair(text + ['{', '{'] + (inner + ['}', '}'] + more), '{') == |text|
    requires IndexPair(inner + ['}', '}'] + more, '}') == |inner|
    requires Text.TrimSpace(inner) != "" && !HasPair(Text.TrimSpace(inner), '{')
    requires ParsePlaceholder(o, Text.TrimSpace(inner)) == Ok(part)
    ensures Parse(o, text + ['{', '{'] + (inner + ['}', '}'] + more)) == Follow(Leading(text) + [part], Parse(o, more))
  {
    hide IndexPair, ParsePlaceholder, Text.TrimSpace, HasPair;
    var tail := inner + ['}', '}'] + more;
    var input := text + ['{', '{'] + tail;
    assert input[..|text|] == text && input[|text| + 2..] == tail;
    assert tail[..|inner|] == inner && tail[|inner| + 2..] == more;
  }

  /** Text, one printed placeholder, and more: the parser takes off exactly these. */
  lemma PlaceholderRead(o: Oracles, text: string, field: string, fs: seq<Formatter>, more: string)
    requires NoPair(text) && (text == "" || text[|text| - 1] != '{')
    requires ValidIdentifier(field) && ValidFormatters(o, fs)
    ensures Parse(o, text + (PrintPart(Placeholder(field, fs)) + more))
         == Follow(Leading(text) + [Placeholder(field, fs)], Parse(o, more))
  {
    var e := field + PrintFormatters(fs);
    var inner := " " + e + " ";
    assert Word(field);
    WordFacts(field);
    ExpressionFacts(o, field, fs, '{');
    ExpressionFacts(o, field, fs, '}');
    PlaceholderParses(o, field, fs);
    Text.TrimPadded(" ", e, " ");
    assert PrintPart(Placeholder(field, fs)) == "{{ " + e + " }}";
    FirstPair(text, '{', inner + ['}', '}'] + more);
    PairPadded(e, '}');
    FirstPair(inner, '}', more);
    hide *;
    Braces(e);
    Surround(text, ['{', '{'], inner, ['}', '}'], more);
    ParseStep(o, text, inner, more, Placeholder(field, fs));
  }

  lemma TextRead(o: Oracles, text: string)
    requires NoPair(text)
    ensures Parse(o, text) == Ok(Leading(text))
  {
  }

  /** Parsing the canonical print of a well-formed template gives the template back. */
  lemma {:induction false} RoundTrip(o: Oracles, parts: seq<Part>)
    requires WellFormed(o, parts)
    ensures Parse(o, Print(parts)) == Ok(parts)
    decreases |parts|
  {
    hide Parse, PrintPart, ValidIdentifier, ValidFormatters, NoPair;
    if parts == [] {
      TextRead(o, "") by { assert NoPair("") by { NoPairEmpty(); } }
    } else {
      match parts[0]
      case Placeholder(field, fs) =>
        RoundTrip(o, parts[1..]);
        NoPairEmpty();
        PlaceholderRead(o, "", field, fs, Print(parts[1..]));
        assert "" + (PrintPart(parts[0]) + Print(parts[1..])) == Print(parts);
        assert [] + [parts[0]] + parts[1..] == parts;
      case Literal(text) =>
        if |parts| == 1 {
          TextRead(o, text);
          PrintLiteral(text);
          assert parts == [Literal(text)];
        } else {
          var rest := parts[2..];
          assert parts[1..][0] == parts[1] && parts[1..][1..] == rest;
          RoundTrip(o, rest);
          PlaceholderRead(o, text, parts[1].field, parts[1].formatters, Print(rest));
          PrintLiteral(text);
          assert Print(parts[1..]) == PrintPart(parts[1]) + Print(rest);
          assert [Literal(text)] + [parts[1]] + rest == parts;
        }
    }
  }

  lemma NoPairEmpty()
    ensures NoPair("")
  {
  }

  lemma PrintLiteral(text: string)
    ensures PrintPart(Literal(text)) == text && Print([Literal(text)]) == text
  {
    assert [Literal(text)][1..] == [];
    assert text + "" == text;
  }

  // ------------------------------------------------------- what a parse can yield

  lemma NoPairSlice(s: string, i: nat, j: nat)
    requires i <= j <= |s| && NoPair(s)
    ensures NoPair(s[i..j])
  {
    PairSlice(s, i, j, '{');
    PairSlice(s, i, j, '}');
  }

  lemma TrimNoPair(s: string)
    requires NoPair(s)
    ensures NoPair(Text.TrimSpace(s)) && Text.Trimmed(Text.TrimSpace(s))
    ensures '|' !in s ==> '|' !in Text.TrimSpace(s)
  {
    var i, j := Text.TrimIsSlice(s);
    NoPairSlice(s, i, j);
  }

  lemma FormatterYields(o: Oracles, segment: string)
    requires NoPair(segment) && '|' !in segment
    ensures var r := ParseFormatter(o, segment); r.Ok? ==> ValidFormatter(o, r.value) && ValidArgument(r.value.argument)
  {
    TrimNoPair(segment);
    var raw := Text.TrimSpace(segment);
    var after := Cut(raw, ':').1;
    CutIsSuffix(raw, ':');
    NoPairSlice(raw, |raw| - |after|, |raw|);
    TrimNoPair(after);
    hide Text.TrimSpace, Text.ToLower, Cut, ValidFormatter, NoPair, Text.Trimmed;
  }

  lemma {:induction false} FormattersYield(o: Oracles, segments: seq<string>)
    requires forall i :: 0 <= i < |segments| ==> NoPair(segments[i]) && '|' !in segments[i]
    ensures ParseFormatters(o, segments).Ok? ==> ValidFormatters(o, ParseFormatters(o, segments).value)
  {
    if segments != [] {
      FormatterYields(o, segments[0]);
      FormattersYield(o, segments[1..]);
      hide ParseFormatter, ValidFormatter, ValidArgument, NoPair;
      var first, rest := ParseFormatter(o, segments[0]), ParseFormatters(o, segments[1..]);
      if first.Ok? && rest.Ok? {
        var all := [first.value] + rest.value;
        assert forall i :: 0 < i < |all| ==> all[i] == rest.value[i - 1];
      }
    }
  }

  lemma PlaceholderYields(o: Oracles, expression: string)
    requires NoPair(expression)
    ensures ParsePlaceholder(o, expression).Ok? ==>
      ParsePlaceholder(o, expression).value.Placeholder? && ValidPart(o, ParsePlaceholder(o, expression).value)
  {
    SplitPieces(expression, '|');
    var segments := Split(expression, '|');
    assert forall i :: 0 <= i < |segments| - 1 ==> segments[1..][i] == segments[i + 1];
    FormattersYield(o, segments[1..]);
    hide Split, ParseFormatters, ValidFormatters, ValidIdentifier, Text.TrimSpace, NoPair;
  }

  /** The text before the first double open brace. */
  lemma LeadingYields(o: Oracles, input: string, start: int)
    requires start == IndexPair(input, '{') >= 0 && !HasPair(input[..start], '}')
    ensures NoPair(input[..start]) && (start > 0 ==> input[start - 1] != '{')
  {
    var text := input[..start];
    forall k | 0 <= k < |text| - 1 ensures !(text[k] == '{' && text[k + 1] == '{') {
      assert text[k] == input[k] && text[k + 1] == input[k + 1];
    }
  }

  lemma ExpressionYields(tail: string, end: int)
    requires end == IndexPair(tail, '}') >= 0 && !HasPair(Text.TrimSpace(tail[..end]), '{')
    ensures NoPair(Text.TrimSpace(tail[..end]))
  {
    var text := tail[..end];
    forall k | 0 <= k < |text| - 1 ensures !(text[k] == '}' && text[k + 1] == '}') {
      assert text[k] == tail[k] && text[k + 1] == tail[k + 1];
    }
    var i, j := Text.TrimIsSlice(text);
    PairSlice(text, i, j, '}');
  }

  lemma Glue(o: Oracles, text: string, part: Part, more: seq<Part>)
    requires NoPair(text) && (text != "" ==> text[|text| - 1] != '{')
    requires part.Placeholder? && ValidPart(o, part) && WellFormed(o, more)
    ensures WellFormed(o, Leading(text) + [part] + more)
  {
    hide NoPair, ValidIdentifier, ValidFormatters;
    var tail := [part] + more;
    assert tail[1..] == more;
    assert WellFormed(o, tail);
    if text == "" {
      assert Leading(text) + [part] + more == tail;
    } else {
      var all := Leading(text) + [part] + more;
      assert all[1..] == tail && all[0] == Literal(text);
    }
  }

  /** Every template that parses is well-formed. */
  lemma {:induction false} ParsedIsWellFormed(o: Oracles, input: string)
    ensures Parse(o, input).Ok? ==> WellFormed(o, Parse(o, input).value)
    decreases |input|
  {
    if Parse(o, input).Ok? {
      var start := IndexPair(input, '{');
      if start < 0 {
        LastText(o, input);
      } else {
        LeadingYields(o, input, start);
        var tail := input[start + 2..];
        var end := IndexPair(tail, '}');
        var expression := Text.TrimSpace(tail[..end]);
        ExpressionYields(tail, end);
        PlaceholderYields(o, expression);
        ParsedIsWellFormed(o, tail[end + 2..]);
        Glue(o, input[..start], ParsePlaceholder(o, expression).value, Parse(o, tail[end + 2..]).value);
        hide IndexPair, HasPair, NoPair, ParsePlaceholder, ValidPart, WellFormed, Text.TrimSpace;
      }
    }
  }

  lemma LastText(o: Oracles, input: string)
    requires IndexPair(input, '{') < 0 && !HasPair(input, '}')
    ensures WellFormed(o, Leading(input))
  {
    if input != "" {
      assert [Literal(input)][1..] == [];
    }
  }

  /** A template that parses prints to a text that parses to the same template. */
  lemma PrintedParsesTheSame(o: Oracles, input: string)
    ensures Parse(o, input).Ok? ==> Parse(o, Print(Parse(o, input).value)) == Parse(o, input)
  {
    hide *;
    ParsedIsWellFormed(o, input);
    if Parse(o, input).Ok? {
      RoundTrip(o, Parse(o, input).value);
    }
  }
}
