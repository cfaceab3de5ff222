/** What a response reports, event by event and line by line, in terms of the fields of its
    events alone. */
module StreamReports {
  import opened Bytes
  import opened Options
  import opened Sse

  // ------------------------------------------------------------------ which report

  /** The last of the reports is the one at i. */
  ghost predicate LastAt(found: seq<Option<Tokens>>, i: int) {
    0 <= i < |found| && found[i].Some? && forall j :: i < j < |found| ==> found[j].None?
  }

  lemma {:induction false} LastIsAt(found: seq<Option<Tokens>>, i: int)
    requires LastAt(found, i)
    ensures Last(found) == found[i]
    decreases |found|
  {
    if i < |found| - 1 {
      LastIsAt(found[..|found| - 1], i);
    }
  }

  lemma NoneIsLast(found: seq<Option<Tokens>>)
    requires forall i :: 0 <= i < |found| ==> found[i].None?
    ensures Last(found) == None
  {
    LastIsLast(found);
  }

  // ---------------------------------------------------------------- chat and others

  /** The event reports a usage other than zero. */
  predicate Counted(e: Event) {
    && e.usage.Some?
    && e.usage.value.request + e.usage.value.response + e.usage.value.cacheHit + e.usage.value.cacheMiss
       + e.usage.value.cacheWrite > 0
  }

  /** A chat response reports its last usage that is not zero, which is final at once. */
  lemma ChatReportsNonZero(events: seq<Event>, complete: bool, i: int)
    requires 0 <= i < |events| && Counted(events[i]) && forall j :: i < j < |events| ==> !Counted(events[j])
    ensures StreamResult(Chat, events, complete).tokens == events[i].usage.value
    ensures StreamResult(Chat, events, complete).final
  {
    assert LastAt(NonZeroUsages(events), i);
    LastIsAt(NonZeroUsages(events), i);
  }

  /** If all are zero it reports the last, which is final only once the response is complete. */
  lemma ChatReportsZero(events: seq<Event>, complete: bool, i: int)
    requires forall j :: 0 <= j < |events| ==> !Counted(events[j])
    requires 0 <= i < |events| && events[i].usage.Some? && forall j :: i < j < |events| ==> events[j].usage.None?
    ensures StreamResult(Chat, events, complete).tokens == events[i].usage.value
    ensures StreamResult(Chat, events, complete).final <==> complete
  {
    NoneIsLast(NonZeroUsages(events));
    assert LastAt(Usages(events), i);
    LastIsAt(Usages(events), i);
  }

  /** Without any usage it reports none, and nothing is final. */
  lemma ChatReportsNothing(events: seq<Event>, complete: bool)
    requires forall j :: 0 <= j < |events| ==> events[j].usage.None?
    ensures StreamResult(Chat, events, complete).tokens == Tokens(0, 0, 0, 0, 0, false)
    ensures !StreamResult(Chat, events, complete).final
  {
    NoneIsLast(NonZeroUsages(events));
    NoneIsLast(Usages(events));
  }

  // --------------------------------------------------------------------- responses

  /** A Responses stream reports its last usage, or none. */
  lemma ResponsesReport(events: seq<Event>, complete: bool, i: int)
    requires 0 <= i < |events| && events[i].responseUsage.Some?
    requires forall j :: i < j < |events| ==> events[j].responseUsage.None?
    ensures StreamResult(Responses, events, complete).tokens == events[i].responseUsage.value
  {
    assert LastAt(ResponseUsages(events), i);
    LastIsAt(ResponseUsages(events), i);
  }

  lemma ResponsesReportNothing(events: seq<Event>, complete: bool)
    requires forall j :: 0 <= j < |events| ==> events[j].responseUsage.None?
    ensures StreamResult(Responses, events, complete).tokens == Tokens(0, 0, 0, 0, 0, false)
  {
    NoneIsLast(ResponseUsages(events));
  }

  /** The event ends the response and carries a usage. */
  predicate Closes(e: Event) {
    e.kind in {"response.completed", "response.incomplete", "response.failed"} && e.responseUsage.Some?
  }

  /** It is final exactly if an event that ends the response carried a usage. */
  lemma ResponsesFinal(events: seq<Event>, complete: bool)
    ensures StreamResult(Responses, events, complete).final <==>
      exists i :: 0 <= i < |events| && Closes(events[i])
  {
    if StreamResult(Responses, events, complete).final {
      var i :| 0 <= i < |events| && Ends(Responses, events[i]);
      assert Closes(events[i]);
    }
    if i :| 0 <= i < |events| && Closes(events[i]) {
      assert Ends(Responses, events[i]);
    }
  }

  // ---------------------------------------------------------------------- messages

  /** The event carries the counters of the input. */
  predicate HasInput(e: Event) {
    || (e.kind == "message_start" && e.messageUsage.Some?)
    || (e.kind == "message_delta" && e.usage.Some? && e.usage.value.request > 0)
  }

  predicate HasOutput(e: Event) {
    || (e.kind == "message_start" && e.messageUsage.Some?)
    || (e.kind == "message_delta" && e.usage.Some?)
  }

  /** The usage that the start of a message or a later delta of it carries. */
  function UsageIn(e: Event): Tokens
    requires HasOutput(e)
  {
    if e.kind == "message_start" then e.messageUsage.value else e.usage.value
  }

  /** A Messages stream reports the input counters of the last event that has them. */
  lemma MessagesReportInput(events: seq<Event>, complete: bool, i: int)
    requires 0 <= i < |events| && HasInput(events[i]) && forall j :: i < j < |events| ==> !HasInput(events[j])
    ensures var t := StreamResult(Anthropic, events, complete).tokens; var u := UsageIn(events[i]);
      t.request == u.request && t.cacheHit == u.cacheHit && t.cacheMiss == u.cacheMiss && t.cacheWrite == u.cacheWrite
  {
    assert LastAt(CounterUsages(events), i);
    LastIsAt(CounterUsages(events), i);
  }

  /** It reports the output of the last event that has any usage; a delta makes it good. */
  lemma MessagesReportOutput(events: seq<Event>, complete: bool, i: int)
    requires 0 <= i < |events| && HasOutput(events[i]) && forall j :: i < j < |events| ==> !HasOutput(events[j])
    ensures var t := StreamResult(Anthropic, events, complete).tokens;
      && t.response == UsageIn(events[i]).response
      && (t.ok <==> events[i].kind == "message_delta" || UsageIn(events[i]).ok)
  {
    assert LastAt(OutputUsages(events), i);
    LastIsAt(OutputUsages(events), i);
  }

  lemma MessagesReportNothing(events: seq<Event>, complete: bool)
    ensures (forall j :: 0 <= j < |events| ==> !HasInput(events[j])) ==>
      var t := StreamResult(Anthropic, events, complete).tokens;
      t.request == 0 && t.cacheHit == 0 && t.cacheMiss == 0 && t.cacheWrite == 0
    ensures (forall j :: 0 <= j < |events| ==> !HasOutput(events[j])) ==>
      var t := StreamResult(Anthropic, events, complete).tokens; t.response == 0 && !t.ok
  {
    if forall j :: 0 <= j < |events| ==> !HasInput(events[j]) {
      NoneIsLast(CounterUsages(events));
    }
    if forall j :: 0 <= j < |events| ==> !HasOutput(events[j]) {
      NoneIsLast(OutputUsages(events));
    }
  }

  /** It is final exactly if a delta carried a usage. */
  lemma MessagesFinal(events: seq<Event>, complete: bool)
    ensures StreamResult(Anthropic, events, complete).final <==>
      exists i :: 0 <= i < |events| && events[i].kind == "message_delta" && events[i].usage.Some?
  {
    if StreamResult(Anthropic, events, complete).final {
      var i :| 0 <= i < |events| && Ends(Anthropic, events[i]);
    }
    if i :| 0 <= i < |events| && events[i].kind == "message_delta" && events[i].usage.Some? {
      assert Ends(Anthropic, events[i]);
    }
  }

  // -------------------------------------------------------------- errors and text

  /** The events that make a stream an error. */
  predicate Fails(p: Protocol, e: Event) {
    match p
    case Chat => e.hasError
    case Responses => e.kind in {"error", "response.failed"}
    case Anthropic => e.kind == "error"
  }

  lemma ErrorsReported(p: Protocol, events: seq<Event>, complete: bool)
    ensures StreamResult(p, events, complete).errored <==> exists i :: 0 <= i < |events| && Fails(p, events[i])
  {
    assert forall e :: Fails(p, e) <==> IsError(p, e);
    hide IsError, Fails;
  }

  /** The characters an event shows: choices of chat, string deltas of Responses, deltas of
      content blocks of Messages. */
  function Shown(p: Protocol, e: Event): Count {
    if p.Chat? then e.choices
    else if p.Responses? && |e.kind| >= 6 && e.kind[|e.kind| - 6..] == ".delta" then e.delta
    else if p.Anthropic? && e.kind == "content_block_delta" then e.block
    else Count(0, 0)
  }

  lemma ShownIs(p: Protocol, e: Event)
    ensures VisibleOf(p, e) == Shown(p, e)
  {
  }

  lemma ResultShows(p: Protocol, events: seq<Event>, complete: bool)
    ensures StreamResult(p, events, complete).visible == Visible(p, events)
  {
    hide TokensOf, Final, Errored, Visible;
  }

  lemma VisibleSnoc(p: Protocol, events: seq<Event>, e: Event)
    ensures Visible(p, []) == Count(0, 0)
    ensures Visible(p, events + [e]) == Add(Visible(p, events), Shown(p, e))
  {
    ShownIs(p, e);
    hide Shown, VisibleOf;
    assert (events + [e])[..|events|] == events;
  }

  /** Every event adds the characters it shows. */
  lemma TextAddsUp(p: Protocol, events: seq<Event>, e: Event, complete: bool)
    ensures StreamResult(p, [], complete).visible == Count(0, 0)
    ensures var before, after :=
        StreamResult(p, events, complete).visible, StreamResult(p, events + [e], complete).visible;
      after == Count(before.ascii + Shown(p, e).ascii, before.other + Shown(p, e).other)
  {
    hide Shown, Visible, StreamResult;
    ResultShows(p, [], complete);
    ResultShows(p, events, complete);
    ResultShows(p, events + [e], complete);
    VisibleSnoc(p, events, e);
  }

  // ----------------------------------------------------------------- lines and bodies

  lemma DataFound(payload: string)
    ensures "data:" <= "data:" + payload && ("data:" + payload)[|DATA|..] == payload
  {
  }

  /** A line with data: and something after it other than [DONE] is an event, whatever spaces
      are around. */
  lemma DataIsRead(codec: Codec, raw: seq<Byte>, a: string, b: string, payload: string, c: string)
    requires codec.text(raw) == a + ("data:" + (b + payload)) + c && Text.Trimmed(payload) && payload != ""
    requires (forall i :: 0 <= i < |a| ==> Text.IsSpace(a[i])) && (forall i :: 0 <= i < |b| ==> Text.IsSpace(b[i]))
    requires forall i :: 0 <= i < |c| ==> Text.IsSpace(c[i])
    ensures LineEvent(codec, raw) == if payload == "[DONE]" then None else codec.decode(payload)
  {
    var line := "data:" + (b + payload);
    assert Text.Trimmed(line) by {
      assert line[0] == 'd' && line[|line| - 1] == payload[|payload| - 1];
    }
    Text.TrimPadded(a, line, c);
    DataFound(b + payload);
    Text.TrimPadded(b, payload, "");
    assert b + payload + "" == b + payload;
    hide Text.TrimSpace;
  }

  /** A line without data: at its start, or with nothing after it, is none. */
  lemma OtherLinesAreSkipped(codec: Codec, raw: seq<Byte>)
    ensures !("data:" <= Text.TrimSpace(codec.text(raw))) ==> LineEvent(codec, raw) == None
    ensures Text.TrimSpace(codec.text(raw)) == "data:" ==> LineEvent(codec, raw) == None
  {
    assert Text.TrimSpace("") == "";
    assert "data:"[5..] == "";
    hide Text.TrimSpace;
  }

  /** Lines up to 8 MiB are read and longer ones are skipped. */
  lemma LongLinesAreSkipped(codec: Codec, lines: seq<seq<Byte>>, line: seq<Byte>)
    ensures Events(codec, lines + [line]) ==
      if |line| <= 8_388_608 && LineEvent(codec, line).Some?
      then Events(codec, lines) + [LineEvent(codec, line).value] else Events(codec, lines)
  {
    EventsSnoc(codec, lines, line);
    hide LineEvent, Events;
  }

  /** An unfinished last line counts like a finished one. */
  lemma LastLineCounts(codec: Codec, input: seq<Byte>)
    requires Rest(input) != []
    ensures AllEvents(codec, input) == AllEvents(codec, input + [NEWLINE])
  {
    ReadNewline(input);
    EventsSnoc(codec, Whole(input), Rest(input));
    hide Whole, Rest, Events, EventsOf;
  }

  /** A response that is not a stream: a body up to 8 MiB that decodes reports its own usage, or
      the one under response if it has no usage object. */
  lemma BodyReports(codec: Codec, p: Protocol, input: seq<Byte>, complete: bool)
    ensures var r := Result(codec, p, false, input, complete);
      if |input| > 8_388_608 || codec.decodeBody(input).None?
      then r == Observation(Tokens(0, 0, 0, 0, 0, false), false, false, Count(0, 0))
      else
        var b := codec.decodeBody(input).value;
        && (b.hasUsage && b.usage.Some? ==> r.final && r.tokens == b.usage.value)
        && (!b.hasUsage && b.responseUsage.Some? ==> r.final && r.tokens == b.responseUsage.value)
        && ((if b.hasUsage then b.usage.None? else b.responseUsage.None?) ==>
              !r.final && r.tokens == Tokens(0, 0, 0, 0, 0, false))
        && (r.errored <==> b.hasError || b.kind == "error")
        && r.visible == b.visible
  {
  }
}
