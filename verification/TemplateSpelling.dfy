/** What a template that parses says about its text, however it is spaced: which texts parse,
    and to what. */
module TemplateSpelling {
  import opened Template
  import opened TemplatePrint

  /** A text, and the raw contents of the double braces after it. */
  datatype Piece = Piece(text: string, raw: string)

  function Open(): string {
    ['{', '{']
  }

  function Close(): string {
    ['}', '}']
  }

  /** The whole input, from its pieces and the text after them. */
  function Spelling(pieces: seq<Piece>, last: string): string {
    if pieces == [] then last
    else pieces[0].text + Open() + (pieces[0].raw + Close() + Spelling(pieces[1..], last))
  }

  /** The texts, and what the raw contents say; an empty text has no part. */
  function PartsOf(o: Oracles, pieces: seq<Piece>, last: string): seq<Part>
    requires forall i :: 0 <= i < |pieces| ==> ValidPiece(o, pieces[i])
  {
    if pieces == [] then Leading(last)
    else Leading(pieces[0].text) + [Meaning(o, pieces[0])] + PartsOf(o, pieces[1..], last)
  }

  function Meaning(o: Oracles, p: Piece): Part
    requires ValidPiece(o, p)
  {
    ParsePlaceholder(o, Text.TrimSpace(p.raw)).value
  }

  predicate EndsIn(s: string, c: char) {
    s != "" && s[|s| - 1] == c
  }

  /** The braces of the piece are the first ones, and there is a placeholder between them. */
  predicate ValidPiece(o: Oracles, p: Piece) {
    && NoPair(p.text) && !EndsIn(p.text, '{')
    && !HasPair(p.raw, '}') && !EndsIn(p.raw, '}')
    && Text.TrimSpace(p.raw) != "" && !HasPair(Text.TrimSpace(p.raw), '{')
    && ParsePlaceholder(o, Text.TrimSpace(p.raw)).Ok?
  }

  /** The input is these pieces and this last text, and they say these parts. */
  ghost predicate Spelled(o: Oracles, pieces: seq<Piece>, last: string, input: string, parts: seq<Part>) {
    && (forall i :: 0 <= i < |pieces| ==> ValidPiece(o, pieces[i]))
    && NoPair(last)
    && input == Spelling(pieces, last)
    && parts == PartsOf(o, pieces, last)
  }

  /** The parser takes off the first piece. */
  lemma PieceRead(o: Oracles, p: Piece, more: string)
    requires ValidPiece(o, p)
    ensures Parse(o, p.text + Open() + (p.raw + Close() + more)) ==
      Follow(Leading(p.text) + [Meaning(o, p)], Parse(o, more))
  {
    var tail := p.raw + Close() + more;
    FirstPair(p.text, '{', tail);
    FirstPair(p.raw, '}', more);
    hide IndexPair, ParsePlaceholder, Text.TrimSpace, HasPair, NoPair;
    assert p.text + Open() + tail == p.text + ['{', '{'] + tail;
    ParseStep(o, p.text, p.raw, more, Meaning(o, p));
  }

  lemma {:induction false} SpellingParses(o: Oracles, pieces: seq<Piece>, last: string, input: string, parts: seq<Part>)
    requires Spelled(o, pieces, last, input, parts)
    ensures Parse(o, input) == Ok(parts)
    decreases |pieces|
  {
    if pieces == [] {
      TextRead(o, last);
    } else {
      var rest := pieces[1..];
      PieceRead(o, pieces[0], Spelling(rest, last));
      hide ValidPiece, Meaning, NoPair, Parse;
      SpellingParses(o, rest, last, Spelling(rest, last), PartsOf(o, rest, last));
    }
  }

  predicate Unfolds(o: Oracles, input: string, start: nat, tail: string, end: nat) {
    && start < |input| - 1 && tail == input[start + 2..] && end < |tail| - 1
    && !HasPair(input[..start], '}')
    && Text.TrimSpace(tail[..end]) != "" && !HasPair(Text.TrimSpace(tail[..end]), '{')
    && ParsePlaceholder(o, Text.TrimSpace(tail[..end])).Ok?
    && Parse(o, tail[end + 2..]).Ok?
  }

  lemma ParseUnfolds(o: Oracles, input: string)
    requires Parse(o, input).Ok? && IndexPair(input, '{') >= 0
    ensures var start := IndexPair(input, '{');
      var tail := input[start + 2..];
      IndexPair(tail, '}') >= 0 && Unfolds(o, input, start, tail, IndexPair(tail, '}'))
  {
    hide IndexPair, HasPair, ParsePlaceholder, Text.TrimSpace;
  }

  lemma CutsJoin(input: string, start: nat, tail: string, end: nat)
    requires start < |input| - 1 && input[start] == '{' && input[start + 1] == '{' && tail == input[start + 2..]
    requires end < |tail| - 1 && tail[end] == '}' && tail[end + 1] == '}'
    ensures input == input[..start] + Open() + (tail[..end] + Close() + tail[end + 2..])
  {
    assert tail == tail[..end] + Close() + tail[end + 2..];
    assert input == input[..start] + Open() + tail;
  }

  /** The first piece of an input that parses. */
  lemma FirstPiece(o: Oracles, input: string) returns (p: Piece, more: string)
    requires Parse(o, input).Ok? && IndexPair(input, '{') >= 0
    ensures ValidPiece(o, p) && input == p.text + Open() + (p.raw + Close() + more) && Parse(o, more).Ok?
  {
    ParseUnfolds(o, input);
    hide Parse, ParsePlaceholder, Text.TrimSpace, HasPair, NoPair;
    var start := IndexPair(input, '{');
    var tail := input[start + 2..];
    var end := IndexPair(tail, '}');
    p, more := Piece(input[..start], tail[..end]), tail[end + 2..];
    LeadingYields(o, input, start);
    RawYields(tail, end);
    CutsJoin(input, start, tail, end);
  }

  lemma RawYields(tail: string, end: int)
    requires end == IndexPair(tail, '}') >= 0
    ensures !HasPair(tail[..end], '}') && !EndsIn(tail[..end], '}')
  {
    var raw := tail[..end];
    forall k | 0 <= k < |raw| - 1 ensures !(raw[k] == '}' && raw[k + 1] == '}') {
      assert raw[k] == tail[k] && raw[k + 1] == tail[k + 1];
    }
  }

  lemma LastSpelled(o: Oracles, input: string)
    requires Parse(o, input).Ok? && IndexPair(input, '{') < 0
    ensures Spelled(o, [], input, input, Parse(o, input).value)
  {
    PairAt(input, '{');
  }

  lemma SpelledNext(o: Oracles, p: Piece, pieces: seq<Piece>, last: string, more: string, parts: seq<Part>)
    requires ValidPiece(o, p) && Spelled(o, pieces, last, more, parts)
    ensures Spelled(
      o, [p] + pieces, last,
      p.text + Open() + (p.raw + Close() + more), Leading(p.text) + [Meaning(o, p)] + parts)
  {
    hide ValidPiece, Meaning, NoPair;
    var all := [p] + pieces;
    assert all[1..] == pieces;
    assert forall i :: 0 < i < |all| ==> all[i] == pieces[i - 1];
  }

  lemma {:induction false} ParsedIsSpelled(o: Oracles, input: string) returns (pieces: seq<Piece>, last: string)
    requires Parse(o, input).Ok?
    ensures Spelled(o, pieces, last, input, Parse(o, input).value)
    decreases |input|
  {
    hide ValidPiece, Parse, Meaning, Spelled;
    if IndexPair(input, '{') < 0 {
      pieces, last := [], input;
      LastSpelled(o, input);
    } else {
      var p, more := FirstPiece(o, input);
      PieceRead(o, p, more);
      var rest, end := ParsedIsSpelled(o, more);
      SpelledNext(o, p, rest, end, more, Parse(o, more).value);
      pieces, last := [p] + rest, end;
    }
  }

  /** A template parses to some parts exactly if it is texts and placeholders between double
      braces that concatenate to it and say these parts. */
  lemma ParsesIffSpelled(o: Oracles, input: string, parts: seq<Part>)
    ensures Parse(o, input) == Ok(parts) <==> exists pieces, last :: Spelled(o, pieces, last, input, parts)
  {
    hide Parse, Spelled;
    if Parse(o, input) == Ok(parts) {
      var pieces, last := ParsedIsSpelled(o, input);
      assert Spelled(o, pieces, last, input, parts);
    }
    if pieces, last :| Spelled(o, pieces, last, input, parts) {
      SpellingParses(o, pieces, last, input, parts);
    }
  }

  // ------------------------------------------------------------------------ errors

  /** After valid pieces the rest decides: its parts follow theirs, or its error is reported. */
  lemma {:induction false} RestDecides(o: Oracles, pieces: seq<Piece>, rest: string)
    requires forall i :: 0 <= i < |pieces| ==> ValidPiece(o, pieces[i])
    ensures Parse(o, rest).Malformed? ==> Parse(o, Spelling(pieces, rest)) == Parse(o, rest)
    ensures Parse(o, rest).Ok? ==> Parse(o, Spelling(pieces, rest)).Ok?
    decreases |pieces|
  {
    if pieces != [] {
      RestDecides(o, pieces[1..], rest);
      PieceRead(o, pieces[0], Spelling(pieces[1..], rest));
      hide Parse, ValidPiece, Meaning;
    }
  }

  /** Double closing braces before any opening ones. */
  lemma ClosedTooEarly(o: Oracles, text: string, more: string)
    requires NoPair(text) && !EndsIn(text, '}') && !HasPair(text + Close(), '{')
    ensures Parse(o, text + Close() + more) == Malformed(UnexpectedClosing)
  {
    var input := text + Close() + more;
    assert input[|text|] == '}' && input[|text| + 1] == '}';
    var start := IndexPair(input, '{');
    if start >= 0 {
      OpenAfter(text, more, start);
      assert input[..start][|text|] == '}' && input[..start][|text| + 1] == '}';
    }
  }

  lemma OpenAfter(text: string, more: string, start: int)
    requires !HasPair(text + Close(), '{') && start == IndexPair(text + Close() + more, '{') >= 0
    ensures start >= |text| + 2
  {
    var closed, input := text + Close(), text + Close() + more;
    forall k | 0 <= k < |text| + 1 ensures !(input[k] == '{' && input[k + 1] == '{') {
      assert closed[k] == input[k] && closed[k + 1] == input[k + 1];
    }
  }

  /** Opening braces that nothing closes. */
  lemma NotClosed(o: Oracles, text: string, tail: string)
    requires NoPair(text) && !EndsIn(text, '{') && !HasPair(tail, '}')
    ensures Parse(o, text + Open() + tail) == Malformed(Unclosed)
  {
    FirstPair(text, '{', tail);
    PairAt(tail, '}');
    var input := text + Open() + tail;
    assert input == text + ['{', '{'] + tail && input[..|text|] == text && input[|text| + 2..] == tail;
  }

  /** Braces that enclose nothing, or more opening ones. */
  lemma OpenedBadly(o: Oracles, text: string, raw: string, more: string)
    requires NoPair(text) && !EndsIn(text, '{') && !HasPair(raw, '}') && !EndsIn(raw, '}')
    requires Text.TrimSpace(raw) == "" || HasPair(Text.TrimSpace(raw), '{')
    ensures Parse(o, text + Open() + (raw + Close() + more)) == Malformed(InvalidPlaceholder)
  {
    var tail := raw + Close() + more;
    var input := text + Open() + tail;
    FirstPair(text, '{', tail);
    FirstPair(raw, '}', more);
    assert input == text + ['{', '{'] + tail && input[..|text|] == text && input[|text| + 2..] == tail;
    assert tail == raw + ['}', '}'] + more && tail[..|raw|] == raw;
  }

  // ------------------------------------------------------------------ placeholders

  predicate Letter(c: char) {
    'a' <= c <= 'z' || 'A' <= c <= 'Z' || c == '_'
  }

  /** A letter or underscore, then letters, underscores and digits. */
  predicate Identifier(s: string) {
    s != "" && Letter(s[0]) && forall i :: 1 <= i < |s| ==> Letter(s[i]) || '0' <= s[i] <= '9'
  }

  /** Which formatters there are, and what argument each takes. */
  predicate Accepts(o: Oracles, name: string, argument: string) {
    || (name == "scale" && o.scale(argument))
    || (name in {"number", "percent"} && (argument == "" || o.precision(argument)))
    || (name == "datetime" && (argument == "" || o.zone(argument)))
    || (name == "duration" && Text.ToLower(argument) in {"", "en", "zh", "zh-cn"})
    || (name == "map" && Identifier(argument))
    || (name == "nonzero" && argument == "")
  }

  function Checked(o: Oracles, name: string, argument: string): Parsed<Formatter> {
    if Accepts(o, name, argument) then Ok(Formatter(name, argument)) else Malformed(InvalidFormatter)
  }

  lemma IdentifierIs(s: string)
    ensures ValidIdentifier(s) <==> Identifier(s)
  {
    if ValidIdentifier(s) {
      assert IdentifierChar(s[0], true);
    }
  }

  lemma AcceptsIs(o: Oracles, f: Formatter)
    ensures ValidFormatter(o, f) <==> Accepts(o, f.name, f.argument)
  {
    IdentifierIs(f.argument);
    hide ValidIdentifier, Identifier, Text.ToLower;
  }

  /** A formatter is a name in any case, and what comes after the first colon as its argument,
      both with the spaces around them removed. */
  lemma FormatterRead(o: Oracles, segment: string, name: string, argument: string)
    requires ':' !in name
    ensures Text.TrimSpace(segment) == name + ":" + argument ==>
      ParseFormatter(o, segment) == Checked(o, Text.ToLower(Text.TrimSpace(name)), Text.TrimSpace(argument))
    ensures Text.TrimSpace(segment) == name != "" ==>
      ParseFormatter(o, segment) == Checked(o, Text.ToLower(Text.TrimSpace(name)), "")
    ensures Text.TrimSpace(segment) == "" ==> ParseFormatter(o, segment) == Malformed(EmptyFormatter)
  {
    CutAt(name, ':', argument);
    CutNone(name, ':');
    assert name + ":" + argument == name + [':'] + argument;
    assert Text.TrimSpace("") == "";
    var raw := Text.TrimSpace(segment);
    var f := Formatter(Text.ToLower(Text.TrimSpace(name)), Text.TrimSpace(Cut(raw, ':').1));
    AcceptsIs(o, f);
    hide Text.TrimSpace, Text.ToLower, Cut, ValidFormatter, Accepts;
  }

  /** An expression of segments with a bar before each. */
  function Bars(first: string, segments: seq<string>): string
    decreases |segments|
  {
    if segments == [] then first else first + "|" + Bars(segments[0], segments[1..])
  }

  lemma {:induction false} BarsSplit(first: string, segments: seq<string>)
    requires '|' !in first && forall i :: 0 <= i < |segments| ==> '|' !in segments[i]
    ensures Split(Bars(first, segments), '|') == [first] + segments
    decreases |segments|
  {
    if segments == [] {
      SplitNone(first, '|');
    } else {
      BarsSplit(segments[0], segments[1..]);
      SplitAt(first, '|', Bars(segments[0], segments[1..]));
      assert first + "|" + Bars(segments[0], segments[1..]) == first + ['|'] + Bars(segments[0], segments[1..]);
      assert [segments[0]] + segments[1..] == segments;
    }
  }

  lemma {:induction false} FormattersRead(o: Oracles, segments: seq<string>, fs: seq<Formatter>)
    ensures ParseFormatters(o, segments) == Ok(fs) <==>
      |fs| == |segments| && forall i :: 0 <= i < |fs| ==> ParseFormatter(o, segments[i]) == Ok(fs[i])
    decreases |segments|
  {
    hide ParseFormatter;
    if segments != [] {
      var rest := segments[1..];
      assert forall i :: 0 <= i < |rest| ==> rest[i] == segments[i + 1];
      if |fs| > 0 {
        FormattersRead(o, rest, fs[1..]);
        assert fs == [fs[0]] + fs[1..];
        assert forall i :: 0 < i < |fs| ==> fs[i] == fs[1..][i - 1];
        assert forall i :: 0 <= i < |fs[1..]| ==> fs[1..][i] == fs[i + 1];
      }
    }
  }

  /** A placeholder is an identifier, and a formatter after each bar. */
  lemma PlaceholderIs(o: Oracles, first: string, segments: seq<string>, fs: seq<Formatter>)
    requires '|' !in first && forall i :: 0 <= i < |segments| ==> '|' !in segments[i]
    ensures ParsePlaceholder(o, Bars(first, segments)) == Ok(Placeholder(Text.TrimSpace(first), fs)) <==>
      && Identifier(Text.TrimSpace(first)) && |fs| == |segments|
      && forall i :: 0 <= i < |fs| ==> ParseFormatter(o, segments[i]) == Ok(fs[i])
    ensures !Identifier(Text.TrimSpace(first)) ==>
      ParsePlaceholder(o, Bars(first, segments)) == Malformed(InvalidField)
  {
    BarsSplit(first, segments);
    IdentifierIs(Text.TrimSpace(first));
    FormattersRead(o, segments, fs);
    assert ([first] + segments)[1..] == segments;
    hide Bars, Split, ParseFormatter, ParseFormatters, Text.TrimSpace, ValidIdentifier, Identifier;
  }
}
