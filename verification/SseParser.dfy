/** The reader of event streams and JSON bodies: it is fed the response in arbitrary chunks,
    keeps a bounded part of it, and extracts the usage the protocol reports. */
module Sse {
  import opened Bytes
  import opened Options
  import opened Sequences
  import Text

  const NEWLINE: Byte := 0x0a
  const MAX_EVENT := 8 * 1024 * 1024

  // ---------------------------------------------------------------------- events

  datatype Tokens = Tokens(request: int, response: int, cacheHit: int, cacheMiss: int, cacheWrite: int, ok: bool)

  const NO_TOKENS := Tokens(0, 0, 0, 0, 0, false)

  predicate NonZero(t: Tokens) {
    t.request + t.response + t.cacheHit + t.cacheMiss + t.cacheWrite > 0
  }

  /** Visible characters, ASCII and other. */
  datatype Count = Count(ascii: int, other: int)

  function Add(a: Count, b: Count): Count {
    Count(a.ascii + b.ascii, a.other + b.other)
  }

  /** What the parser reads from one decoded JSON object: whether it has an error member, its
      type, the usage objects in their three places as far as the mapping extracts them, and
      the text of choices, of a string delta and of a content block delta. */
  datatype Event = Event(
    hasError: bool, kind: string,
    usage: Option<Tokens>, responseUsage: Option<Tokens>, messageUsage: Option<Tokens>,
    choices: Count, delta: Count, block: Count)

  /** The same for a whole JSON body; the usage under response counts only if there is no
      usage object of its own. */
  datatype Body = Body(
    hasError: bool, kind: string, hasUsage: bool, usage: Option<Tokens>, responseUsage: Option<Tokens>, visible: Count)

  /** String conversion and JSON decoding with the mapping applied are parameters. */
  datatype Codec = Codec(
    text: seq<Byte> -> string, decode: string -> Option<Event>, decodeBody: seq<Byte> -> Option<Body>)

  /** Chat stands for every endpoint without events of its own. */
  datatype Protocol = Chat | Responses | Anthropic

  datatype Observation = Observation(tokens: Tokens, final: bool, errored: bool, visible: Count)

  const NOTHING := Observation(NO_TOKENS, false, false, Count(0, 0))

  const DATA := "data:"

  /** The event on one line, if there is one. */
  function LineEvent(codec: Codec, raw: seq<Byte>): Option<Event> {
    var line := Text.TrimSpace(codec.text(raw));
    if !(DATA <= line) then None
    else
      var data := Text.TrimSpace(line[|DATA|..]);
      if data == "" || data == "[DONE]" then None else codec.decode(data)
  }

  // --------------------------------------------------------- whole-input reading

  /** The bytes after the last newline. */
  function Rest(input: seq<Byte>): seq<Byte> {
    if input == [] || input[|input| - 1] == NEWLINE then [] else Rest(input[..|input| - 1]) + [input[|input| - 1]]
  }

  /** The lines that a newline ends. */
  function Whole(input: seq<Byte>): seq<seq<Byte>> {
    if input == [] then []
    else
      var init := input[..|input| - 1];
      if input[|input| - 1] == NEWLINE then Whole(init) + [Rest(init)] else Whole(init)
  }

  function Join(lines: seq<seq<Byte>>): seq<Byte> {
    if lines == [] then [] else Join(lines[..|lines| - 1]) + lines[|lines| - 1] + [NEWLINE]
  }

  lemma ReadNewline(input: seq<Byte>)
    ensures Whole(input + [NEWLINE]) == Whole(input) + [Rest(input)] && Rest(input + [NEWLINE]) == []
  {
    assert (input + [NEWLINE])[..|input|] == input;
  }

  lemma {:induction false} ReadPiece(input: seq<Byte>, piece: seq<Byte>)
    requires NEWLINE !in piece
    ensures Whole(input + piece) == Whole(input) && Rest(input + piece) == Rest(input) + piece
  {
    if piece == [] {
      assert input + piece == input && Rest(input) + piece == Rest(input);
    } else {
      var init, last := piece[..|piece| - 1], piece[|piece| - 1];
      assert piece == init + [last];
      ReadPiece(input, init);
      ReadByte(input + init, last);
      hide *;
      Assoc(input, init, [last]);
      Assoc(Rest(input), init, [last]);
    }
  }

  lemma ReadByte(input: seq<Byte>, b: Byte)
    requires b != NEWLINE
    ensures Whole(input + [b]) == Whole(input) && Rest(input + [b]) == Rest(input) + [b]
  {
    assert (input + [b])[..|input|] == input;
  }

  /** No newline is left inside a line, and joining the lines gives the input back. */
  lemma {:induction false} LinesJoin(input: seq<Byte>)
    ensures Join(Whole(input)) + Rest(input) == input
    ensures NEWLINE !in Rest(input) && forall i :: 0 <= i < |Whole(input)| ==> NEWLINE !in Whole(input)[i]
  {
    if input != [] {
      var init, last := input[..|input| - 1], input[|input| - 1];
      assert input == init + [last];
      LinesJoin(init);
      if last == NEWLINE {
        ReadNewline(init);
        JoinSnoc(Whole(init), Rest(init));
        Assoc(Join(Whole(init)), Rest(init), [NEWLINE]);
      } else {
        ReadByte(init, last);
        Assoc(Join(Whole(init)), Rest(init), [last]);
      }
    }
  }

  lemma JoinSnoc(lines: seq<seq<Byte>>, line: seq<Byte>)
    ensures Join(lines + [line]) == Join(lines) + line + [NEWLINE]
  {
    assert (lines + [line])[..|lines|] == lines;
  }

  /** The only way to cut an input into lines. */
  lemma {:induction false} LinesAreUnique(lines: seq<seq<Byte>>, rest: seq<Byte>)
    requires NEWLINE !in rest && forall i :: 0 <= i < |lines| ==> NEWLINE !in lines[i]
    ensures Whole(Join(lines) + rest) == lines && Rest(Join(lines) + rest) == rest
  {
    if lines == [] {
      assert Whole([]) == [] && Rest([]) == [] && Join(lines) == [];
    } else {
      var init, last := lines[..|lines| - 1], lines[|lines| - 1];
      assert lines == init + [last];
      LinesAreUnique(init, last);
      JoinSnoc(init, last);
      ReadNewline(Join(init) + last);
    }
    hide *;
    ReadPiece(Join(lines), rest);
    assert [] + rest == rest;
  }

  /** The events of a list of lines; a line longer than the limit is skipped. */
  function Events(codec: Codec, lines: seq<seq<Byte>>): seq<Event> {
    if lines == [] then []
    else Events(codec, lines[..|lines| - 1]) + EventsOf(codec, lines[|lines| - 1])
  }

  function EventsOf(codec: Codec, line: seq<Byte>): seq<Event> {
    if |line| > MAX_EVENT || LineEvent(codec, line).None? then [] else [LineEvent(codec, line).value]
  }

  /** At the end the unfinished line is read too, unless it is empty. */
  function AllEvents(codec: Codec, input: seq<Byte>): seq<Event> {
    Events(codec, Whole(input)) + if Rest(input) == [] then [] else EventsOf(codec, Rest(input))
  }

  lemma LineTooLong(codec: Codec, line: seq<Byte>)
    ensures |line| > MAX_EVENT ==> EventsOf(codec, line) == []
  {
  }

  lemma EventsSnoc(codec: Codec, lines: seq<seq<Byte>>, line: seq<Byte>)
    ensures Events(codec, lines + [line]) == Events(codec, lines) + EventsOf(codec, line)
  {
    assert (lines + [line])[..|lines|] == lines;
  }

  // ------------------------------------------------- what a list of events reports

  function Last(found: seq<Option<Tokens>>): Option<Tokens> {
    if found == [] then None
    else if found[|found| - 1].Some? then found[|found| - 1] else Last(found[..|found| - 1])
  }

  /** Last finds the last report, whatever came before it. */
  lemma {:induction false} LastIsLast(found: seq<Option<Tokens>>)
    ensures Last(found).None? <==> forall i :: 0 <= i < |found| ==> found[i].None?
    ensures Last(found).Some? ==>
      exists i :: 0 <= i < |found| && found[i] == Last(found) && forall j :: i < j < |found| ==> found[j].None?
  {
    if found != [] {
      var init, last := found[..|found| - 1], found[|found| - 1];
      LastIsLast(init);
      assert forall i :: 0 <= i < |init| ==> found[i] == init[i];
      if last.None? && Last(init).Some? {
        var i :| 0 <= i < |init| && init[i] == Last(init) && forall j :: i < j < |init| ==> init[j].None?;
        assert found[i] == Last(found) && forall j :: i < j < |found| ==> found[j].None?;
      } else if last.Some? {
        assert found[|found| - 1] == Last(found);
      }
    }
  }

  function Usages(events: seq<Event>): seq<Option<Tokens>> {
    seq(|events|, i requires 0 <= i < |events| => events[i].usage)
  }

  function NonZeroUsages(events: seq<Event>): seq<Option<Tokens>> {
    seq(|events|, i requires 0 <= i < |events| =>
      if events[i].usage.Some? && NonZero(events[i].usage.value) then events[i].usage else None)
  }

  /** The last non-zero usage, else the last one. */
  function ChatTokens(events: seq<Event>): Tokens {
    if Last(NonZeroUsages(events)).Some? then Last(NonZeroUsages(events)).value
    else if Last(Usages(events)).Some? then Last(Usages(events)).value else NO_TOKENS
  }

  function ResponseUsages(events: seq<Event>): seq<Option<Tokens>> {
    seq(|events|, i requires 0 <= i < |events| => events[i].responseUsage)
  }

  predicate Terminal(kind: string) {
    kind == "response.completed" || kind == "response.incomplete" || kind == "response.failed"
  }

  function Counters(e: Event): Option<Tokens> {
    if e.kind == "message_start" then e.messageUsage
    else if e.kind == "message_delta" && e.usage.Some? && e.usage.value.request > 0 then e.usage else None
  }

  function Output(e: Event): Option<Tokens> {
    if e.kind == "message_start" then e.messageUsage
    else if e.kind == "message_delta" && e.usage.Some? then Some(e.usage.value.(ok := true)) else None
  }

  function CounterUsages(events: seq<Event>): seq<Option<Tokens>> {
    seq(|events|, i requires 0 <= i < |events| => Counters(events[i]))
  }

  function OutputUsages(events: seq<Event>): seq<Option<Tokens>> {
    seq(|events|, i requires 0 <= i < |events| => Output(events[i]))
  }

  predicate HasSuffix(s: string, suffix: string) {
    |suffix| <= |s| && s[|s| - |suffix|..] == suffix
  }

  function VisibleOf(p: Protocol, e: Event): Count {
    match p
    case Chat => e.choices
    case Responses => if HasSuffix(e.kind, ".delta") then e.delta else Count(0, 0)
    case Anthropic => if e.kind == "content_block_delta" then e.block else Count(0, 0)
  }

  function Visible(p: Protocol, events: seq<Event>): Count {
    if events == [] then Count(0, 0) else Add(Visible(p, events[..|events| - 1]), VisibleOf(p, events[|events| - 1]))
  }

  predicate IsError(p: Protocol, e: Event) {
    match p
    case Chat => e.hasError
    case Responses => e.kind == "error" || e.kind == "response.failed"
    case Anthropic => e.kind == "error"
  }

  predicate Errored(p: Protocol, events: seq<Event>) {
    exists i :: 0 <= i < |events| && IsError(p, events[i])
  }

  /** For Messages the request and cache counters come from the last event that has them and
      the output from the last that has any usage; else all come from one event. */
  function TokensOf(p: Protocol, events: seq<Event>): Tokens {
    match p
    case Chat => ChatTokens(events)
    case Responses => if Last(ResponseUsages(events)).Some? then Last(ResponseUsages(events)).value else NO_TOKENS
    case Anthropic =>
      var c := if Last(CounterUsages(events)).Some? then Last(CounterUsages(events)).value else NO_TOKENS;
      var o := if Last(OutputUsages(events)).Some? then Last(OutputUsages(events)).value else NO_TOKENS;
      Tokens(c.request, o.response, c.cacheHit, c.cacheMiss, c.cacheWrite, o.ok)
  }

  predicate Ends(p: Protocol, e: Event) {
    match p
    case Chat => false
    case Responses => Terminal(e.kind) && e.responseUsage.Some?
    case Anthropic => e.kind == "message_delta" && e.usage.Some?
  }

  predicate Ended(p: Protocol, events: seq<Event>) {
    exists i :: 0 <= i < |events| && Ends(p, events[i])
  }

  /** Zero usage in a chat stream counts only once the stream is complete. */
  predicate Final(p: Protocol, events: seq<Event>, complete: bool) {
    match p
    case Chat => Last(NonZeroUsages(events)).Some? || (Last(Usages(events)).Some? && complete)
    case _ => Ended(p, events)
  }

  function StreamResult(p: Protocol, events: seq<Event>, complete: bool): Observation {
    Observation(TokensOf(p, events), Final(p, events, complete), Errored(p, events), Visible(p, events))
  }

  function BodyResult(codec: Codec, input: seq<Byte>): Observation {
    if |input| > MAX_EVENT || codec.decodeBody(input).None? then NOTHING
    else
      var b := codec.decodeBody(input).value;
      var usage := if b.hasUsage then b.usage else b.responseUsage;
      Observation(
        if usage.Some? then usage.value else NO_TOKENS, usage.Some?, b.hasError || b.kind == "error", b.visible)
  }

  /** What a whole response reports. */
  function Result(codec: Codec, p: Protocol, stream: bool, input: seq<Byte>, complete: bool): Observation {
    if stream then StreamResult(p, AllEvents(codec, input), complete) else BodyResult(codec, input)
  }

  // ------------------------------------------------------------- one event further

  lemma LastSnoc(found: seq<Option<Tokens>>, x: Option<Tokens>)
    ensures Last(found + [x]) == if x.Some? then x else Last(found)
  {
    assert (found + [x])[..|found|] == found;
  }

  lemma ChatSnoc(events: seq<Event>, e: Event)
    ensures Last(Usages(events + [e])) == if e.usage.Some? then e.usage else Last(Usages(events))
    ensures Last(NonZeroUsages(events + [e])) ==
      if e.usage.Some? && NonZero(e.usage.value) then e.usage else Last(NonZeroUsages(events))
  {
    assert Usages(events + [e]) == Usages(events) + [e.usage];
    var nonZero := if e.usage.Some? && NonZero(e.usage.value) then e.usage else None;
    assert NonZeroUsages(events + [e]) == NonZeroUsages(events) + [nonZero];
    LastSnoc(Usages(events), e.usage);
    LastSnoc(NonZeroUsages(events), nonZero);
  }

  lemma ResponsesSnoc(events: seq<Event>, e: Event)
    ensures Last(ResponseUsages(events + [e])) ==
      if e.responseUsage.Some? then e.responseUsage else Last(ResponseUsages(events))
  {
    assert ResponseUsages(events + [e]) == ResponseUsages(events) + [e.responseUsage];
    LastSnoc(ResponseUsages(events), e.responseUsage);
  }

  lemma AnthropicSnoc(events: seq<Event>, e: Event)
    ensures Last(CounterUsages(events + [e])) == if Counters(e).Some? then Counters(e) else Last(CounterUsages(events))
    ensures Last(OutputUsages(events + [e])) == if Output(e).Some? then Output(e) else Last(OutputUsages(events))
  {
    assert CounterUsages(events + [e]) == CounterUsages(events) + [Counters(e)];
    assert OutputUsages(events + [e]) == OutputUsages(events) + [Output(e)];
    LastSnoc(CounterUsages(events), Counters(e));
    LastSnoc(OutputUsages(events), Output(e));
  }

  lemma FlagsSnoc(p: Protocol, events: seq<Event>, e: Event)
    ensures Errored(p, events + [e]) <==> Errored(p, events) || IsError(p, e)
    ensures Ended(p, events + [e]) <==> Ended(p, events) || Ends(p, e)
    ensures Visible(p, events + [e]) == Add(Visible(p, events), VisibleOf(p, e))
  {
    hide IsError, Ends, VisibleOf;
    var all := events + [e];
    assert all[..|events|] == events && all[|events|] == e;
    if Errored(p, events) {
      var i :| 0 <= i < |events| && IsError(p, events[i]);
      assert all[i] == events[i];
    }
    if Ended(p, events) {
      var i :| 0 <= i < |events| && Ends(p, events[i]);
      assert all[i] == events[i];
    }
  }

  // ------------------------------------------------------------------- the parser

  class Parser {
    const codec: Codec
    const protocol: Protocol
    const stream: bool
    var pending: seq<Byte>
    var dropping: bool
    var body: seq<Byte>
    var truncated: bool
    var sawUsage: bool
    var sawNonZero: bool
    var final: bool
    var tokens: Tokens
    var errored: bool
    var visible: Count
    ghost var seen: seq<Byte>
    ghost var events: seq<Event>

    /** The counters and flags are those of the events so far. */
    ghost predicate Summarizes()
      reads this`tokens, this`errored, this`visible, this`final, this`sawUsage, this`sawNonZero, this`events
    {
      && tokens == TokensOf(protocol, events)
      && (errored <==> Errored(protocol, events))
      && visible == Visible(protocol, events)
      && (final <==> Ended(protocol, events))
      && (protocol.Chat? ==>
        (sawUsage <==> Last(Usages(events)).Some?) && (sawNonZero <==> Last(NonZeroUsages(events)).Some?))
    }

    /** The unfinished line is kept while it is within the limit. */
    ghost predicate Buffered()
      reads this`seen, this`dropping, this`pending
    {
      && (dropping <==> |Rest(seen)| > MAX_EVENT)
      && pending == if dropping then [] else Rest(seen)
    }

    ghost predicate Valid()
      reads this
    {
      if stream then
        && Summarizes()
        && events == Events(codec, Whole(seen))
        && Buffered()
      else
        && (truncated <==> |seen| > MAX_EVENT)
        && body == (if truncated then seen[..MAX_EVENT] else seen)
    }

    constructor (codec: Codec, protocol: Protocol, stream: bool)
      ensures Valid() && seen == []
      ensures this.codec == codec && this.protocol == protocol && this.stream == stream
    {
      this.codec, this.protocol, this.stream := codec, protocol, stream;
      pending, dropping, body, truncated := [], false, [], false;
      sawUsage, sawNonZero, final, tokens, errored, visible := false, false, false, NO_TOKENS, false, Count(0, 0);
      seen, events := [], [];
    }

    method Write(data: seq<Byte>)
      requires Valid()
      modifies this
      ensures Valid() && seen == old(seen) + data
    {
      if stream {
        WriteStream(data);
        return;
      }
      seen := seen + data;
      if truncated {
        return;
      }
      if |body| + |data| > MAX_EVENT {
        truncated := true;
        body := body + data[..MAX_EVENT - |body|];
        return;
      }
      body := body + data;
    }

    method WriteStream(data: seq<Byte>)
      requires Valid() && stream
      modifies this
      ensures Valid() && seen == old(seen) + data
    {
      hide Whole, Rest, Events, Summarizes, Buffered;
      var left := data;
      while |left| > 0
        invariant Valid() && seen + left == old(seen) + data
      {
        var end := IndexByte(left, NEWLINE);
        var found := end < |left|;
        TakePiece(left[..end]);
        if !found {
          assert left[..end] == left;
          return;
        }
        TakeNewline();
        assert left == left[..end] + [NEWLINE] + left[end + 1..];
        left := left[end + 1..];
      }
    }

    /** Part of a line: kept, unless the line is now longer than the limit. */
    method TakePiece(piece: seq<Byte>)
      requires Buffered() && NEWLINE !in piece
      modifies this`seen, this`pending, this`dropping
      ensures Buffered() && seen == old(seen) + piece && Whole(seen) == Whole(old(seen))
    {
      ReadPiece(seen, piece);
      hide Whole, Rest;
      if !dropping {
        if |pending| + |piece| > MAX_EVENT {
          pending, dropping := [], true;
        } else {
          pending := pending + piece;
        }
      }
      seen := seen + piece;
    }

    method TakeNewline()
      requires Valid() && stream
      modifies this
      ensures Valid() && seen == old(seen) + [NEWLINE]
    {
      hide Whole, Rest, Events, EventsOf, Summarizes;
      ReadNewline(seen);
      LineTooLong(codec, Rest(seen));
      EventsSnoc(codec, Whole(seen), Rest(seen));
      if !dropping {
        Line(pending);
      }
      seen := seen + [NEWLINE];
      pending, dropping := [], false;
    }

    /** One line that is within the limit. */
    method Line(raw: seq<Byte>)
      requires Summarizes() && |raw| <= MAX_EVENT
      modifies this`sawUsage, this`sawNonZero, this`final, this`tokens, this`errored, this`visible, this`events
      ensures Summarizes() && events == old(events) + EventsOf(codec, raw)
    {
      hide Summarizes;
      var event := LineEvent(codec, raw);
      if event.Some? {
        match protocol
        case Chat => ChatEvent(event.value);
        case Responses => ResponsesEvent(event.value);
        case Anthropic => AnthropicEvent(event.value);
      }
    }

    method ChatEvent(e: Event)
      requires Summarizes() && protocol.Chat?
      modifies this`sawUsage, this`sawNonZero, this`tokens, this`errored, this`visible, this`events
      ensures Summarizes() && events == old(events) + [e]
    {
      ChatSnoc(events, e);
      FlagsSnoc(protocol, events, e);
      hide Usages, NonZeroUsages, Last, Errored, Ended, Visible;
      events := events + [e];
      if e.hasError {
        errored := true;
      }
      if e.usage.Some? {
        sawUsage := true;
        if NonZero(e.usage.value) {
          tokens, sawNonZero := e.usage.value, true;
        } else if !sawNonZero {
          tokens := e.usage.value;
        }
      }
      visible := Add(visible, e.choices);
    }

    method ResponsesEvent(e: Event)
      requires Summarizes() && protocol.Responses?
      modifies this`final, this`tokens, this`errored, this`visible, this`events
      ensures Summarizes() && events == old(events) + [e]
    {
      ResponsesSnoc(events, e);
      FlagsSnoc(protocol, events, e);
      hide ResponseUsages, Last, Errored, Ended, Visible;
      events := events + [e];
      if e.kind == "error" || e.kind == "response.failed" {
        errored := true;
      }
      if e.responseUsage.Some? {
        tokens := e.responseUsage.value;
        if e.kind == "response.completed" || e.kind == "response.incomplete" || e.kind == "response.failed" {
          final := true;
        }
      }
      if HasSuffix(e.kind, ".delta") {
        visible := Add(visible, e.delta);
      }
    }

    method AnthropicEvent(e: Event)
      requires Summarizes() && protocol.Anthropic?
      modifies this`final, this`tokens, this`errored, this`visible, this`events
      ensures Summarizes() && events == old(events) + [e]
    {
      AnthropicSnoc(events, e);
      FlagsSnoc(protocol, events, e);
      hide CounterUsages, OutputUsages, Last, Errored, Ended, Visible;
      events := events + [e];
      if e.kind == "error" {
        errored := true;
      } else if e.kind == "message_start" {
        if e.messageUsage.Some? {
          tokens := e.messageUsage.value;
        }
      } else if e.kind == "message_delta" {
        if e.usage.None? {
          return;
        }
        var u := e.usage.value;
        tokens := tokens.(response := u.response);
        if u.request > 0 {
          tokens :=
            tokens.(request := u.request, cacheHit := u.cacheHit, cacheMiss := u.cacheMiss, cacheWrite := u.cacheWrite);
        }
        tokens := tokens.(ok := true);
        final := true;
      } else if e.kind == "content_block_delta" {
        visible := Add(visible, e.block);
      }
    }

    method Finish(complete: bool) returns (obs: Observation)
      requires Valid()
      modifies this
      ensures obs == Result(codec, protocol, stream, old(seen), complete)
    {
      if stream {
        obs := FinishStream(complete);
        return;
      }
      obs := NOTHING;
      if truncated {
        return;
      }
      var payload := codec.decodeBody(body);
      if payload.None? {
        return;
      }
      var b := payload.value;
      if b.hasError || b.kind == "error" {
        obs := obs.(errored := true);
      }
      var usage := b.usage;
      if !b.hasUsage {
        usage := b.responseUsage;
      }
      if usage.Some? {
        obs := obs.(tokens := usage.value, final := true);
      }
      obs := obs.(visible := b.visible);
    }

    method FinishStream(complete: bool) returns (obs: Observation)
      requires Valid() && stream
      modifies this
      ensures obs == StreamResult(protocol, AllEvents(codec, old(seen)), complete)
    {
      hide Whole, Rest, Events, TokensOf, Errored, Visible, Ended, Usages, NonZeroUsages, Last;
      if !dropping && |pending| > 0 {
        Line(pending);
        pending := [];
      }
      assert events == AllEvents(codec, seen);
      obs := Observation(tokens, final, errored, visible);
      if protocol.Chat? {
        obs := obs.(final := sawNonZero || (sawUsage && complete));
      }
    }
  }

  method IndexByte(data: seq<Byte>, b: Byte) returns (index: nat)
    ensures index <= |data| && b !in data[..index]
    ensures index < |data| ==> data[index] == b
  {
    index := 0;
    while index < |data| && data[index] != b
      invariant index <= |data| && b !in data[..index]
    {
      index := index + 1;
    }
  }

  /** However a response is cut into chunks, the observation is the one of the whole input. */
  method Collect(
    codec: Codec, protocol: Protocol, stream: bool, chunks: seq<seq<Byte>>, complete: bool)
    returns (obs: Observation)
    ensures obs == Result(codec, protocol, stream, Flatten(chunks), complete)
  {
    hide Result;
    var p := new Parser(codec, protocol, stream);
    assert chunks[..0] == [];
    for i := 0 to |chunks|
      invariant p.Valid() && p.seen == Flatten(chunks[..i])
      invariant fresh(p) && p.codec == codec && p.protocol == protocol && p.stream == stream
    {
      p.Write(chunks[i]);
      assert chunks[..i + 1][..i] == chunks[..i];
    }
    assert chunks[..|chunks|] == chunks;
    obs := p.Finish(complete);
  }
}
