/** Quota display templates: text with {{ field | formatter:argument }} placeholders. The
    parser, and the canonical text that prints a parsed template. */
module Template {
  import Text

  datatype Formatter = Formatter(name: string, argument: string)

  datatype Part = Literal(text: string) | Placeholder(field: string, formatters: seq<Formatter>)

  datatype ParseError =
    | UnexpectedClosing
    | Unclosed
    | InvalidPlaceholder
    | InvalidField
    | EmptyFormatter
    | InvalidFormatter

  datatype Parsed<+T> = Ok(value: T) | Malformed(error: ParseError)

  /** What the standard library accepts as a positive finite number, a precision from 0 to 6,
      and a time zone name. */
  datatype Oracles = Oracles(scale: string -> bool, precision: string -> bool, zone: string -> bool)

  // -------------------------------------------------------------- string searching

  /** The first index at which c stands twice in a row, or -1. */
  function IndexPair(s: string, c: char): (i: int)
    ensures i == -1 || (0 <= i < |s| - 1 && s[i] == c && s[i + 1] == c)
    ensures i == -1 ==> forall j :: 0 <= j < |s| - 1 ==> !(s[j] == c && s[j + 1] == c)
    ensures i >= 0 ==> forall j :: 0 <= j < i ==> !(s[j] == c && s[j + 1] == c)
  {
    if |s| < 2 then -1
    else if s[0] == c && s[1] == c then 0
    else
      var i := IndexPair(s[1..], c);
      assert forall j :: 1 <= j < |s| - 1 ==> s[j] == s[1..][j - 1] && s[j + 1] == s[1..][j];
      if i < 0 then -1 else i + 1
  }

  predicate HasPair(s: string, c: char) {
    exists i :: 0 <= i < |s| - 1 && s[i] == c && s[i + 1] == c
  }

  lemma PairAt(s: string, c: char)
    ensures HasPair(s, c) <==> IndexPair(s, c) >= 0
  {
  }

  /** strings.Split for a single separator. */
  function Split(s: string, c: char): (r: seq<string>)
    ensures |r| > 0
  {
    if s == "" then [""]
    else if s[0] == c then [""] + Split(s[1..], c)
    else
      var rest := Split(s[1..], c);
      [[s[0]] + rest[0]] + rest[1..]
  }

  /** strings.Cut: what comes before the first separator, and after it. */
  function Cut(s: string, c: char): (string, string) {
    if s == "" then ("", "")
    else if s[0] == c then ("", s[1..])
    else
      var (before, after) := Cut(s[1..], c);
      ([s[0]] + before, after)
  }

  // ------------------------------------------------------------------- validation

  predicate IdentifierChar(c: char, first: bool) {
    'a' <= c <= 'z' || 'A' <= c <= 'Z' || c == '_' || (!first && '0' <= c <= '9')
  }

  predicate ValidIdentifier(s: string) {
    s != "" && forall i :: 0 <= i < |s| ==> IdentifierChar(s[i], i == 0)
  }

  const NAMES: set<string> := {"scale", "number", "percent", "datetime", "duration", "map", "nonzero"}

  predicate ValidFormatter(o: Oracles, f: Formatter) {
    if f.name == "scale" then o.scale(f.argument)
    else if f.name == "number" || f.name == "percent" then f.argument == "" || o.precision(f.argument)
    else if f.name == "datetime" then f.argument == "" || o.zone(f.argument)
    else if f.name == "duration" then Text.ToLower(f.argument) in {"", "en", "zh", "zh-cn"}
    else if f.name == "map" then ValidIdentifier(f.argument)
    else f.name == "nonzero" && f.argument == ""
  }

  // ----------------------------------------------------------------- the grammar

  function ParseFormatter(o: Oracles, segment: string): Parsed<Formatter> {
    var raw := Text.TrimSpace(segment);
    if raw == "" then Malformed(EmptyFormatter)
    else
      var (name, argument) := Cut(raw, ':');
      var f := Formatter(Text.ToLower(Text.TrimSpace(name)), Text.TrimSpace(argument));
      if ValidFormatter(o, f) then Ok(f) else Malformed(InvalidFormatter)
  }

  function ParseFormatters(o: Oracles, segments: seq<string>): Parsed<seq<Formatter>> {
    if segments == [] then Ok([])
    else
      match ParseFormatter(o, segments[0])
      case Malformed(e) => Malformed(e)
      case Ok(f) =>
        match ParseFormatters(o, segments[1..])
        case Malformed(e) => Malformed(e)
        case Ok(rest) => Ok([f] + rest)
  }

  function ParsePlaceholder(o: Oracles, expression: string): Parsed<Part> {
    var segments := Split(expression, '|');
    var field := Text.TrimSpace(segments[0]);
    if !ValidIdentifier(field) then Malformed(InvalidField)
    else
      match ParseFormatters(o, segments[1..])
      case Malformed(e) => Malformed(e)
      case Ok(formatters) => Ok(Placeholder(field, formatters))
  }

  function Leading(text: string): seq<Part> {
    if text == "" then [] else [Literal(text)]
  }

  function Parse(o: Oracles, input: string): Parsed<seq<Part>>
    decreases |input|
  {
    var start := IndexPair(input, '{');
    if start < 0 then
      if HasPair(input, '}') then Malformed(UnexpectedClosing) else Ok(Leading(input))
    else if HasPair(input[..start], '}') then Malformed(UnexpectedClosing)
    else
      var tail := input[start + 2..];
      var end := IndexPair(tail, '}');
      if end < 0 then Malformed(Unclosed)
      else
        var expression := Text.TrimSpace(tail[..end]);
        if expression == "" || HasPair(expression, '{') then Malformed(InvalidPlaceholder)
        else
          match ParsePlaceholder(o, expression)
          case Malformed(e) => Malformed(e)
          case Ok(part) =>
            match Parse(o, tail[end + 2..])
            case Malformed(e) => Malformed(e)
            case Ok(more) => Ok(Leading(input[..start]) + [part] + more)
  }

  // ------------------------------------------------------------------- the parser

  method ParseProviderQuotaPlaceholder(o: Oracles, expression: string) returns (r: Parsed<Part>)
    ensures r == ParsePlaceholder(o, expression)
  {
    hide Split, ValidFormatter, Cut, Text.TrimSpace, Text.ToLower;
    var segments := Split(expression, '|');
    var field := Text.TrimSpace(segments[0]);
    if !ValidIdentifier(field) {
      return Malformed(InvalidField);
    }
    var formatters := [];
    var rest := segments[1..];
    NothingInFront(ParseFormatters(o, rest));
    assert rest[0..] == rest;
    for i := 0 to |rest|
      invariant ParseFormatters(o, rest) == Follow(formatters, ParseFormatters(o, rest[i..]))
    {
      assert rest[i..][0] == rest[i] && rest[i..][1..] == rest[i + 1..];
      var raw := Text.TrimSpace(rest[i]);
      if raw == "" {
        return Malformed(EmptyFormatter);
      }
      var (name, argument) := Cut(raw, ':');
      var f := Formatter(Text.ToLower(Text.TrimSpace(name)), Text.TrimSpace(argument));
      if !ValidFormatter(o, f) {
        return Malformed(InvalidFormatter);
      }
      ghost var before := formatters;
      formatters := formatters + [f];
      FollowOne(before, f, ParseFormatters(o, rest[i + 1..]));
    }
    assert rest[|rest|..] == [] && formatters + [] == formatters;
    r := Ok(Placeholder(field, formatters));
  }

  function Follow<T>(front: seq<T>, rest: Parsed<seq<T>>): Parsed<seq<T>> {
    match rest
    case Malformed(e) => rest
    case Ok(more) => Ok(front + more)
  }

  lemma FollowOne<T>(front: seq<T>, x: T, rest: Parsed<seq<T>>)
    ensures Follow(front, Follow([x], rest)) == Follow(front + [x], rest)
  {
    if rest.Ok? {
      assert front + ([x] + rest.value) == front + [x] + rest.value;
    }
  }

  method ParseProviderQuotaTemplate(o: Oracles, input: string) returns (r: Parsed<seq<Part>>)
    ensures r == Parse(o, input)
  {
    hide ParsePlaceholder, Text.TrimSpace;
    var parts: seq<Part> := [];
    var rest := input;
    assert Parse(o, input) == Follow(parts, Parse(o, rest)) by {
      NothingInFront(Parse(o, input));
    }
    while true
      invariant Parse(o, input) == Follow(parts, Parse(o, rest))
      decreases |rest|
    {
      var start := IndexPair(rest, '{');
      if start < 0 {
        if IndexPair(rest, '}') >= 0 {
          PairAt(rest, '}');
          return Malformed(UnexpectedClosing);
        }
        PairAt(rest, '}');
        ghost var before := parts;
        if rest != "" {
          parts := parts + [Literal(rest)];
        }
        assert parts == before + Leading(rest);
        return Ok(parts);
      }
      PairAt(rest[..start], '}');
      if IndexPair(rest[..start], '}') >= 0 {
        return Malformed(UnexpectedClosing);
      }
      ghost var before := parts;
      if start > 0 {
        parts := parts + [Literal(rest[..start])];
      }
      assert parts == before + Leading(rest[..start]);
      var tail := rest[start + 2..];
      var end := IndexPair(tail, '}');
      if end < 0 {
        return Malformed(Unclosed);
      }
      var expression := Text.TrimSpace(tail[..end]);
      PairAt(expression, '{');
      if expression == "" || IndexPair(expression, '{') >= 0 {
        return Malformed(InvalidPlaceholder);
      }
      var part := ParseProviderQuotaPlaceholder(o, expression);
      if part.Malformed? {
        return Malformed(part.error);
      }
      FollowTwo(before, Leading(rest[..start]), part.value, Parse(o, tail[end + 2..]));
      parts := parts + [part.value];
      rest := tail[end + 2..];
    }
  }

  lemma NothingInFront<T>(rest: Parsed<seq<T>>)
    ensures Follow([], rest) == rest
  {
    if rest.Ok? {
      assert [] + rest.value == rest.value;
    }
  }

  lemma FollowTwo<T>(front: seq<T>, text: seq<T>, x: T, rest: Parsed<seq<T>>)
    ensures Follow(front, Follow(text + [x], rest)) == Follow(front + text + [x], rest)
  {
    if rest.Ok? {
      assert front + (text + [x] + rest.value) == front + text + [x] + rest.value;
    }
  }
}
