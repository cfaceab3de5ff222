/** The bounded-memory reader of text-to-speech responses: strings longer than a limit are
    replaced by an empty object while the bytes stream past. The reference reads the whole
    input at once, as plain bytes and string literals (section 7 of RFC 8259). */
module Tts {
  import opened Bytes
  import opened Options
  import opened Sequences
  import Text

  const QUOTE: Byte := 0x22
  const BACKSLASH: Byte := 0x5c
  const OPEN_BRACE: Byte := 0x7b
  const CLOSE_BRACE: Byte := 0x7d
  const STRING_LIMIT := 4096
  const METADATA_LIMIT := 262_144

  // --------------------------------------------------------- whole-input reading

  datatype Token = Plain(b: Byte) | Literal(content: seq<Byte>)

  /** Tokens, and the content of a string that is still open at the end. */
  datatype Document = Document(tokens: seq<Token>, open: Option<seq<Byte>>)

  function TrailingBackslashes(s: seq<Byte>): nat {
    if s == [] || s[|s| - 1] != BACKSLASH then 0 else 1 + TrailingBackslashes(s[..|s| - 1])
  }

  /** The next byte is escaped: an odd run of backslashes comes before it. */
  predicate EscapesNext(s: seq<Byte>) {
    TrailingBackslashes(s) % 2 == 1
  }

  /** Every quotation mark inside is escaped. */
  ghost predicate Content(s: seq<Byte>) {
    forall i :: 0 <= i < |s| && s[i] == QUOTE ==> EscapesNext(s[..i])
  }

  ghost predicate ValidToken(t: Token) {
    match t
    case Plain(b) => b != QUOTE
    case Literal(s) => Content(s) && !EscapesNext(s)
  }

  ghost predicate ValidDocument(d: Document) {
    && (forall i :: 0 <= i < |d.tokens| ==> ValidToken(d.tokens[i]))
    && (d.open.Some? ==> Content(d.open.value))
  }

  function PrintToken(t: Token): seq<Byte> {
    match t
    case Plain(b) => [b]
    case Literal(s) => [QUOTE] + s + [QUOTE]
  }

  function PrintTokens(tokens: seq<Token>): seq<Byte> {
    if tokens == [] then [] else PrintTokens(tokens[..|tokens| - 1]) + PrintToken(tokens[|tokens| - 1])
  }

  function Print(d: Document): seq<Byte> {
    PrintTokens(d.tokens) + if d.open.Some? then [QUOTE] + d.open.value else []
  }

  function Extend(d: Document, b: Byte): Document {
    match d.open
    case None => if b == QUOTE then Document(d.tokens, Some([])) else Document(d.tokens + [Plain(b)], None)
    case Some(s) =>
      if b == QUOTE && !EscapesNext(s) then Document(d.tokens + [Literal(s)], None)
      else Document(d.tokens, Some(s + [b]))
  }

  function Read(input: seq<Byte>): Document {
    if input == [] then Document([], None) else Extend(Read(input[..|input| - 1]), input[|input| - 1])
  }

  lemma ReadSnoc(input: seq<Byte>, b: Byte)
    ensures Read(input + [b]) == Extend(Read(input), b)
  {
    assert (input + [b])[..|input|] == input;
  }

  lemma PrintSnoc(tokens: seq<Token>, t: Token)
    ensures PrintTokens(tokens + [t]) == PrintTokens(tokens) + PrintToken(t)
  {
    assert (tokens + [t])[..|tokens|] == tokens;
  }

  lemma ContentSnoc(s: seq<Byte>, b: Byte)
    ensures Content(s + [b]) <==> Content(s) && (b == QUOTE ==> EscapesNext(s))
    ensures EscapesNext(s + [b]) <==> b == BACKSLASH && !EscapesNext(s)
  {
    var t := s + [b];
    assert t[..|s|] == s;
    assert forall i :: 0 <= i < |s| ==> t[i] == s[i] && t[..i] == s[..i];
    if Content(t) {
      forall i | 0 <= i < |s| && s[i] == QUOTE ensures EscapesNext(s[..i]) {
        assert t[i] == s[i] && t[..i] == s[..i];
      }
    }
  }

  lemma ExtendPrints(d: Document, b: Byte)
    requires ValidDocument(d)
    ensures ValidDocument(Extend(d, b)) && Print(Extend(d, b)) == Print(d) + [b]
  {
    var before := PrintTokens(d.tokens);
    hide Content, TrailingBackslashes, PrintTokens;
    match d.open
    case None =>
      if b != QUOTE {
        PrintSnoc(d.tokens, Plain(b));
      } else {
        ContentEmpty();
      }
    case Some(s) =>
      ContentSnoc(s, b);
      if b == QUOTE && !EscapesNext(s) {
        PrintSnoc(d.tokens, Literal(s));
        Assoc(before, [QUOTE] + s, [QUOTE]);
      } else {
        Assoc([QUOTE], s, [b]);
        Assoc(before, [QUOTE] + s, [b]);
      }
  }

  lemma ContentEmpty()
    ensures Content([])
  {
  }

  /** Every input has a reading, and the reading prints back to it. */
  lemma {:induction false} ReadPrints(input: seq<Byte>)
    ensures ValidDocument(Read(input)) && Print(Read(input)) == input
  {
    if input != [] {
      var init, last := input[..|input| - 1], input[|input| - 1];
      hide *;
      assert input == init + [last];
      ReadSnoc(init, last);
      ReadPrints(init);
      ExtendPrints(Read(init), last);
    }
  }

  lemma {:induction false} ReadContent(before: seq<Byte>, s: seq<Byte>)
    requires Read(before).open.None? && Content(s)
    ensures Read(before + [QUOTE] + s) == Document(Read(before).tokens, Some(s))
  {
    if s == [] {
      ReadSnoc(before, QUOTE);
      assert before + [QUOTE] + s == before + [QUOTE];
    } else {
      var init, last := s[..|s| - 1], s[|s| - 1];
      assert s == init + [last];
      ContentSnoc(init, last);
      ReadContent(before, init);
      ReadSnoc(before + [QUOTE] + init, last);
      assert before + [QUOTE] + s == (before + [QUOTE] + init) + [last];
    }
  }

  lemma ReadLiteral(before: seq<Byte>, s: seq<Byte>)
    requires Read(before).open.None? && ValidToken(Literal(s))
    ensures Read(before + PrintToken(Literal(s))) == Document(Read(before).tokens + [Literal(s)], None)
  {
    hide Content, Read, TrailingBackslashes;
    ReadContent(before, s);
    ReadSnoc(before + [QUOTE] + s, QUOTE);
    assert before + PrintToken(Literal(s)) == (before + [QUOTE] + s) + [QUOTE];
  }

  lemma {:induction false} ReadTokens(tokens: seq<Token>)
    requires forall i :: 0 <= i < |tokens| ==> ValidToken(tokens[i])
    ensures Read(PrintTokens(tokens)) == Document(tokens, None)
  {
    hide Content, EscapesNext;
    if tokens != [] {
      var init, last := tokens[..|tokens| - 1], tokens[|tokens| - 1];
      assert tokens == init + [last];
      ReadTokens(init);
      match last {
        case Plain(b) => ReadSnoc(PrintTokens(init), b);
        case Literal(s) => ReadLiteral(PrintTokens(init), s);
      }
    }
  }

  /** The reading is the only one: a document is recovered from what it prints. */
  lemma ReadIsUnique(d: Document)
    requires ValidDocument(d)
    ensures Read(Print(d)) == d
  {
    ReadTokens(d.tokens);
    if d.open.Some? {
      ReadContent(PrintTokens(d.tokens), d.open.value);
      assert Print(d) == PrintTokens(d.tokens) + [QUOTE] + d.open.value;
    } else {
      assert Print(d) == PrintTokens(d.tokens);
    }
  }

  // ------------------------------------------------------------------- redaction

  function RedactToken(t: Token): seq<Token> {
    if t.Literal? && |t.content| > STRING_LIMIT then [Plain(OPEN_BRACE), Plain(CLOSE_BRACE)] else [t]
  }

  function Redact(tokens: seq<Token>): seq<Token> {
    if tokens == [] then [] else Redact(tokens[..|tokens| - 1]) + RedactToken(tokens[|tokens| - 1])
  }

  predicate Control(s: seq<Byte>) {
    exists i :: 0 <= i < |s| && s[i] < 0x20
  }

  /** A control byte inside a string, or more metadata than the limit. */
  ghost predicate Spoiled(d: Document) {
    || (exists i :: 0 <= i < |d.tokens| && d.tokens[i].Literal? && Control(d.tokens[i].content))
    || (d.open.Some? && Control(d.open.value))
    || |PrintTokens(Redact(d.tokens))| > METADATA_LIMIT
  }

  lemma PrintConcatStep(x: seq<Token>, y: seq<Token>, last: Token)
    requires PrintTokens(x + y) == PrintTokens(x) + PrintTokens(y)
    ensures PrintTokens(x + (y + [last])) == PrintTokens(x) + PrintTokens(y + [last])
  {
    hide *;
    PrintSnoc(x + y, last);
    PrintSnoc(y, last);
    Assoc(x, y, [last]);
    Assoc(PrintTokens(x), PrintTokens(y), PrintToken(last));
  }

  lemma {:induction false} PrintConcat(x: seq<Token>, y: seq<Token>)
    ensures PrintTokens(x + y) == PrintTokens(x) + PrintTokens(y)
  {
    if y == [] {
      assert x + y == x;
    } else {
      hide *;
      var init, last := y[..|y| - 1], y[|y| - 1];
      assert y == init + [last];
      PrintConcat(x, init);
      PrintConcatStep(x, init, last);
    }
  }

  lemma RedactNone()
    ensures Redact([]) == []
  {
  }

  lemma RedactSnoc(tokens: seq<Token>, t: Token)
    ensures Redact(tokens + [t]) == Redact(tokens) + RedactToken(t)
    ensures PrintTokens(Redact(tokens + [t])) == PrintTokens(Redact(tokens)) + PrintTokens(RedactToken(t))
  {
    assert (tokens + [t])[..|tokens|] == tokens;
    PrintConcat(Redact(tokens), RedactToken(t));
  }

  /** What one token leaves in the retained copy. */
  lemma PrintRedacted(t: Token)
    ensures PrintTokens(RedactToken(t)) ==
      if t.Literal? && |t.content| > STRING_LIMIT then [OPEN_BRACE, CLOSE_BRACE] else PrintToken(t)
  {
    var open, close := Plain(OPEN_BRACE), Plain(CLOSE_BRACE);
    assert [t] == [] + [t];
    PrintSnoc([], t);
    assert [open] == [] + [open];
    PrintSnoc([], open);
    PrintSnoc([open], close);
    assert [open] + [close] == [open, close];
  }

  ghost predicate NoLongString(tokens: seq<Token>) {
    forall i :: 0 <= i < |tokens| && tokens[i].Literal? ==> |tokens[i].content| <= STRING_LIMIT
  }

  ghost predicate ValidTokens(tokens: seq<Token>) {
    forall i :: 0 <= i < |tokens| ==> ValidToken(tokens[i])
  }

  lemma RedactConcatStep(x: seq<Token>, y: seq<Token>, last: Token)
    requires Redact(x + y) == Redact(x) + Redact(y)
    ensures Redact(x + (y + [last])) == Redact(x) + Redact(y + [last])
  {
    hide *;
    RedactSnoc(x + y, last);
    RedactSnoc(y, last);
    Assoc(x, y, [last]);
    Assoc(Redact(x), Redact(y), RedactToken(last));
  }

  lemma {:induction false} RedactConcat(x: seq<Token>, y: seq<Token>)
    ensures Redact(x + y) == Redact(x) + Redact(y)
  {
    if y == [] {
      assert x + y == x;
    } else {
      hide *;
      var init, last := y[..|y| - 1], y[|y| - 1];
      assert y == init + [last];
      RedactConcat(x, init);
      RedactConcatStep(x, init, last);
    }
  }

  lemma RedactTokenTwice(t: Token)
    ensures Redact(RedactToken(t)) == RedactToken(t)
  {
    var open, close := Plain(OPEN_BRACE), Plain(CLOSE_BRACE);
    RedactNone();
    RedactSnoc([], t);
    RedactSnoc([], open);
    RedactSnoc([open], close);
    hide Redact, PrintTokens;
    assert [] + [t] == [t] && [] + [open] == [open] && [open] + [close] == [open, close];
  }

  /** What redaction does to a list of tokens. */
  ghost predicate Redacted(tokens: seq<Token>, r: seq<Token>) {
    && NoLongString(r) && ValidTokens(r)
    && (NoLongString(tokens) <==> r == tokens)
    && Redact(r) == r
    && |r| >= |tokens|
  }

  lemma SnocProperties(tokens: seq<Token>, t: Token)
    ensures NoLongString(tokens + [t]) <==> NoLongString(tokens) && (t.Literal? ==> |t.content| <= STRING_LIMIT)
    ensures ValidTokens(tokens + [t]) <==> ValidTokens(tokens) && ValidToken(t)
  {
    hide ValidToken;
    var all := tokens + [t];
    assert all[|tokens|] == t && forall i :: 0 <= i < |tokens| ==> all[i] == tokens[i];
    if NoLongString(all) {
      forall i | 0 <= i < |tokens| && tokens[i].Literal? ensures |tokens[i].content| <= STRING_LIMIT {
        assert all[i] == tokens[i];
      }
    }
    if ValidTokens(all) {
      forall i | 0 <= i < |tokens| ensures ValidToken(tokens[i]) {
        assert all[i] == tokens[i];
      }
    }
  }

  lemma RedactedShort(tokens: seq<Token>, r: seq<Token>, t: Token)
    requires Redacted(tokens, r) && ValidToken(t) && RedactToken(t) == [t]
    ensures Redacted(tokens + [t], r + [t])
  {
    SnocProperties(tokens, t);
    SnocProperties(r, t);
    RedactSnoc(r, t);
    hide Redact, PrintTokens, ValidToken, NoLongString, ValidTokens;
    assert r + [t] == tokens + [t] ==> r == tokens by {
      assert (r + [t])[..|r|] == r && (tokens + [t])[..|tokens|] == tokens;
    }
  }

  lemma RedactedLong(tokens: seq<Token>, r: seq<Token>, t: Token)
    requires Redacted(tokens, r) && ValidToken(t) && RedactToken(t) != [t]
    ensures Redacted(tokens + [t], r + RedactToken(t))
  {
    var open, close := Plain(OPEN_BRACE), Plain(CLOSE_BRACE);
    SnocProperties(tokens, t);
    SnocProperties(r, open);
    SnocProperties(r + [open], close);
    BracesValid();
    RedactConcat(r, RedactToken(t));
    RedactTokenTwice(t);
    hide Redact, PrintTokens, ValidToken, NoLongString, ValidTokens;
    assert r + RedactToken(t) == r + [open] + [close];
  }

  /** Redaction changes nothing exactly when there is no long string; it leaves none, keeps
      the tokens well-formed, and is idempotent. */
  lemma {:induction false} RedactIsIdempotent(tokens: seq<Token>)
    requires ValidTokens(tokens)
    ensures Redacted(tokens, Redact(tokens))
  {
    if tokens == [] {
      RedactNone();
    } else {
      var init, last := tokens[..|tokens| - 1], tokens[|tokens| - 1];
      assert tokens == init + [last];
      RedactSnoc(init, last);
      SnocProperties(init, last);
      hide *;
      RedactIsIdempotent(init);
      if RedactToken(last) == [last] {
        RedactedShort(init, Redact(init), last);
      } else {
        RedactedLong(init, Redact(init), last);
      }
    }
  }

  lemma BracesValid()
    ensures ValidToken(Plain(OPEN_BRACE)) && ValidToken(Plain(CLOSE_BRACE))
  {
  }

  function RedactedBytes(input: seq<Byte>): seq<Byte> {
    PrintTokens(Redact(Read(input).tokens))
  }

  lemma PrintIsInjective(x: seq<Token>, y: seq<Token>)
    requires ValidTokens(x) && ValidTokens(y)
    ensures PrintTokens(x) == PrintTokens(y) <==> x == y
  {
    ReadTokens(x);
    ReadTokens(y);
  }

  /** Redacting twice is redacting once, and what is kept reads back as well-formed tokens
      without a long string; the bytes are kept verbatim exactly if every string is closed and
      none is longer than the limit. */
  lemma RedactionOnBytes(input: seq<Byte>)
    ensures Read(RedactedBytes(input)) == Document(Redact(Read(input).tokens), None)
    ensures NoLongString(Read(RedactedBytes(input)).tokens)
    ensures RedactedBytes(RedactedBytes(input)) == RedactedBytes(input)
    ensures RedactedBytes(input) == input <==> Read(input).open.None? && NoLongString(Read(input).tokens)
  {
    var tokens := Read(input).tokens;
    ReadPrints(input);
    RedactIsIdempotent(tokens);
    ReadTokens(Redact(tokens));
    PrintIsInjective(Redact(tokens), tokens);
    hide Read, PrintTokens, Redact, ValidToken, NoLongString;
    assert Read(input).open.None? ==> Print(Read(input)) == PrintTokens(tokens);
  }

  // ------------------------------------------------------------- the observation

  /** The envelope fields that are decoded; a missing field is empty or None. */
  datatype Envelope = Envelope(
    requestId: string, traceId: string, code: string,
    usageCharacters: Option<int>, extraCharacters: Option<int>, baseStatus: Option<string>)

  datatype TtsObservation = TtsObservation(
    requestId: string, providerCode: string, errored: bool, characters: int, final: bool)

  const NOTHING := TtsObservation("", "", false, 0, false)

  function Observe(e: Envelope, miniMax: bool): TtsObservation {
    var requestId := Text.TrimSpace(if miniMax then e.traceId else e.requestId);
    var providerCode :=
      if !miniMax then Text.TrimSpace(e.code) else if e.baseStatus.Some? then e.baseStatus.value else "";
    var errored := providerCode != "" && (miniMax ==> providerCode != "0");
    var characters := if miniMax then e.extraCharacters else e.usageCharacters;
    var final := !errored && characters.Some? && characters.value >= 0;
    TtsObservation(requestId, providerCode, errored, if final then characters.value else 0, final)
  }

  /** The observation of a whole response body. */
  ghost function TtsResult(
    input: seq<Byte>, miniMax: bool, complete: bool, decode: seq<Byte> -> Option<Envelope>): TtsObservation {
    if !complete || Spoiled(Read(input)) || Read(input).open.Some? || decode(RedactedBytes(input)).None? then NOTHING
    else Observe(decode(RedactedBytes(input)).value, miniMax)
  }

  // --------------------------------------------------------------- the byte machine

  datatype Collected = Collected(
    body: seq<Byte>, text: seq<Byte>, inString: bool, escaped: bool, large: bool, invalid: bool)

  const START := Collected([], [], false, false, false, false)

  /** What the machine's fields say about the input read so far. */
  ghost predicate Agrees(c: Collected, d: Document) {
    && (c.invalid <==> Spoiled(d))
    && (!c.invalid ==>
          && c.body == PrintTokens(Redact(d.tokens))
          && (c.inString <==> d.open.Some?)
          && (d.open.Some? ==>
                && (c.escaped <==> EscapesNext(d.open.value))
                && (c.large <==> |d.open.value| > STRING_LIMIT)
                && c.text == if c.large then [] else d.open.value)
          && (d.open.None? ==> !c.escaped))
  }

  lemma StartAgrees()
    ensures Agrees(START, Read([]))
  {
  }

  ghost predicate LiteralSpoiled(tokens: seq<Token>) {
    exists i :: 0 <= i < |tokens| && tokens[i].Literal? && Control(tokens[i].content)
  }

  lemma LiteralSpoiledSnoc(tokens: seq<Token>, t: Token)
    ensures LiteralSpoiled(tokens + [t]) <==> LiteralSpoiled(tokens) || (t.Literal? && Control(t.content))
  {
    var all := tokens + [t];
    assert all[|tokens|] == t;
    assert forall i :: 0 <= i < |tokens| ==> all[i] == tokens[i];
    if LiteralSpoiled(tokens) {
      var i :| 0 <= i < |tokens| && tokens[i].Literal? && Control(tokens[i].content);
      assert all[i] == tokens[i];
    }
  }

  lemma ControlSnoc(s: seq<Byte>, b: Byte)
    ensures Control(s + [b]) <==> Control(s) || b < 0x20
  {
    var t := s + [b];
    assert t[|s|] == b;
    if Control(s) {
      var i :| 0 <= i < |s| && s[i] < 0x20;
      assert t[i] == s[i];
    }
  }

  /** How one more byte changes what is spoiled. */
  lemma SpoiledExtend(d: Document, b: Byte)
    ensures Spoiled(d) ==> Spoiled(Extend(d, b))
    ensures d.open.Some? && Extend(d, b).open.Some? ==> (Spoiled(Extend(d, b)) <==> Spoiled(d) || b < 0x20)
    ensures Extend(d, b).open.None? ==>
      (Spoiled(Extend(d, b)) <==> Spoiled(d) || |PrintTokens(Redact(Extend(d, b).tokens))| > METADATA_LIMIT)
    ensures d.open.None? && b == QUOTE ==> (Spoiled(Extend(d, b)) <==> Spoiled(d))
  {
    assert Spoiled(d) <==> LiteralSpoiled(d.tokens) || (d.open.Some? && Control(d.open.value))
                           || |PrintTokens(Redact(d.tokens))| > METADATA_LIMIT;
    match d.open
    case None =>
      if b == QUOTE {
        assert !Control([]);
      } else {
        LiteralSpoiledSnoc(d.tokens, Plain(b));
        RedactSnoc(d.tokens, Plain(b));
      }
    case Some(s) =>
      ControlSnoc(s, b);
      LiteralSpoiledSnoc(d.tokens, Literal(s));
      RedactSnoc(d.tokens, Literal(s));
  }

  lemma OpeningAgrees(c: Collected, d: Document)
    requires Agrees(c, d) && !c.invalid && !c.inString
    ensures Agrees(c.(inString := true, text := [], large := false), Extend(d, QUOTE))
  {
    hide PrintTokens, Redact, Spoiled;
    SpoiledExtend(d, QUOTE);
  }

  function Kept(c: Collected, body: seq<Byte>): Collected {
    if |body| > METADATA_LIMIT then c.(body := [], invalid := true) else c.(body := body)
  }

  lemma PlainAgrees(c: Collected, d: Document, b: Byte)
    requires Agrees(c, d) && !c.invalid && !c.inString && b != QUOTE
    ensures Agrees(Kept(c, c.body + [b]), Extend(d, b))
  {
    SpoiledExtend(d, b);
    RedactSnoc(d.tokens, Plain(b));
    PrintRedacted(Plain(b));
    hide PrintTokens, Redact, Spoiled;
  }

  lemma ClosingAgrees(c: Collected, d: Document)
    requires Agrees(c, d) && !c.invalid && c.inString && !c.escaped
    ensures Agrees(
      Kept(
        c.(inString := false),
        c.body + if c.large then [OPEN_BRACE, CLOSE_BRACE] else [QUOTE] + c.text + [QUOTE]),
                   Extend(d, QUOTE))
  {
    SpoiledExtend(d, QUOTE);
    RedactSnoc(d.tokens, Literal(d.open.value));
    PrintRedacted(Literal(d.open.value));
    hide PrintTokens, Redact, Spoiled, EscapesNext;
  }

  function Inside(c: Collected, b: Byte): Collected {
    var full := |c.text| == STRING_LIMIT;
    Collected(c.body, if c.large || full then [] else c.text + [b], true,
              !c.escaped && b == BACKSLASH, c.large || full, b < 0x20)
  }

  lemma InsideAgrees(c: Collected, d: Document, b: Byte)
    requires Agrees(c, d) && !c.invalid && c.inString && !(b == QUOTE && !c.escaped)
    ensures Agrees(Inside(c, b), Extend(d, b))
  {
    SpoiledExtend(d, b);
    ContentSnoc(d.open.value, b);
    hide PrintTokens, Redact, Spoiled, EscapesNext, Content;
  }

  lemma SpoiledAgrees(c: Collected, d: Document, b: Byte)
    requires Agrees(c, d) && c.invalid
    ensures Agrees(c, Extend(d, b))
  {
    SpoiledExtend(d, b);
  }

  /** A collector fed the bytes of one response, in any chunks. */
  class TtsCollector {
    var body: seq<Byte>
    var text: seq<Byte>
    var inString: bool
    var escaped: bool
    var large: bool
    var invalid: bool
    ghost var seen: seq<Byte>

    function Fields(): Collected
      reads this
    {
      Collected(body, text, inString, escaped, large, invalid)
    }

    ghost predicate Valid()
      reads this
    {
      && Agrees(Fields(), Read(seen))
      && |text| <= STRING_LIMIT && |body| <= METADATA_LIMIT
    }

    constructor ()
      ensures Valid() && seen == []
    {
      body, text, inString, escaped, large, invalid, seen := [], [], false, false, false, false, [];
      new;
      StartAgrees();
    }

    /** After every byte the buffers are within their limits and the fields agree with the
        whole-input reading of all bytes so far. */
    method Write(data: seq<Byte>)
      requires Valid()
      modifies this
      ensures Valid() && seen == old(seen) + data
    {
      hide Agrees, Read;
      for i := 0 to |data|
        invariant Valid() && seen == old(seen) + data[..i]
      {
        WriteByte(data[i]);
        assert data[..i + 1] == data[..i] + [data[i]];
      }
      assert data[..|data|] == data;
    }

    method WriteByte(b: Byte)
      requires Valid()
      modifies this
      ensures Valid() && seen == old(seen) + [b]
    {
      hide Agrees;
      ghost var before, read := Fields(), Read(seen);
      ReadSnoc(seen, b);
      seen := seen + [b];
      if invalid {
        SpoiledAgrees(before, read, b);
        return;
      }
      if !inString {
        if b == QUOTE {
          inString, text, large := true, [], false;
          OpeningAgrees(before, read);
        } else {
          body := body + [b];
          PlainAgrees(before, read, b);
        }
      } else if !escaped && b == QUOTE {
        if large {
          body := body + [OPEN_BRACE, CLOSE_BRACE];
        } else {
          body := body + [QUOTE] + text + [QUOTE];
        }
        inString := false;
        ClosingAgrees(before, read);
        assert before.body + ([QUOTE] + before.text + [QUOTE]) == before.body + [QUOTE] + before.text + [QUOTE];
      } else {
        if b < 0x20 {
          invalid := true;
        }
        if !large {
          if |text| == STRING_LIMIT {
            large, text := true, [];
          } else {
            text := text + [b];
          }
        }
        if escaped {
          escaped := false;
        } else if b == BACKSLASH {
          escaped := true;
        }
        InsideAgrees(before, read, b);
        if before.large {
          LargeIsEmpty(before, read);
        }
      }
      if |body| > METADATA_LIMIT {
        invalid, body := true, [];
      }
    }

    /** The JSON decoding of the retained envelope is a parameter. */
    method Finish(miniMax: bool, complete: bool, decode: seq<Byte> -> Option<Envelope>) returns (obs: TtsObservation)
      requires Valid()
      ensures obs == TtsResult(seen, miniMax, complete, decode)
    {
      hide Spoiled, RedactToken, Read, Redact, PrintTokens, EscapesNext, Text.TrimSpace;
      if !complete || invalid || inString {
        return NOTHING;
      }
      var decoded := decode(body);
      if decoded.None? {
        return NOTHING;
      }
      var response := decoded.value;
      var requestId, providerCode, errored, characters := "", "", false, None;
      if miniMax {
        requestId := Text.TrimSpace(response.traceId);
        if response.baseStatus.Some? {
          providerCode := response.baseStatus.value;
          errored := providerCode != "" && providerCode != "0";
        }
        characters := response.extraCharacters;
      } else {
        requestId := Text.TrimSpace(response.requestId);
        providerCode := Text.TrimSpace(response.code);
        errored := providerCode != "";
        characters := response.usageCharacters;
      }
      obs := TtsObservation(requestId, providerCode, errored, 0, false);
      if !errored && characters.Some? && characters.value >= 0 {
        obs := obs.(characters := characters.value, final := true);
      }
    }
  }

  lemma LargeIsEmpty(c: Collected, d: Document)
    requires Agrees(c, d) && !c.invalid && c.inString && c.large
    ensures c.text == []
  {
  }

  /** However a response is cut into chunks, the observation is the one of the whole input. */
  method Collect(
    chunks: seq<seq<Byte>>, miniMax: bool, complete: bool,
    decode: seq<Byte> -> Option<Envelope>) returns (obs: TtsObservation)
    ensures obs == TtsResult(Flatten(chunks), miniMax, complete, decode)
  {
    var c := new TtsCollector();
    assert chunks[..0] == [];
    for i := 0 to |chunks|
      invariant c.Valid() && c.seen == Flatten(chunks[..i])
      invariant fresh(c)
    {
      c.Write(chunks[i]);
      assert chunks[..i + 1][..i] == chunks[..i];
    }
    assert chunks[..|chunks|] == chunks;
    obs := c.Finish(miniMax, complete, decode);
  }
}
