/** What a text-to-speech response reports, in terms of its decoded envelope, and when it
    reports anything at all. */
module TtsReports {
  import opened Bytes
  import opened Options
  import opened Tts

  /** Every string is closed and free of control bytes, and with strings over 4096 bytes
      replaced the response is within 256 KiB. */
  ghost predicate Intact(input: seq<Byte>) {
    var d := Read(input);
    && d.open.None?
    && (forall i, k :: 0 <= i < |d.tokens| && d.tokens[i].Literal? && 0 <= k < |d.tokens[i].content| ==>
          d.tokens[i].content[k] >= 32)
    && |RedactedBytes(input)| <= 262_144
  }

  lemma IntactIff(input: seq<Byte>)
    ensures Intact(input) <==> Read(input).open.None? && !Spoiled(Read(input))
  {
    var d := Read(input);
    hide Read, Redact, PrintTokens;
    if d.open.None? && !Spoiled(d) {
      forall i, k | 0 <= i < |d.tokens| && d.tokens[i].Literal? && 0 <= k < |d.tokens[i].content|
        ensures d.tokens[i].content[k] >= 32
      {
        assert !Control(d.tokens[i].content);
      }
    }
  }

  /** An incomplete, broken or undecodable response reports nothing. */
  lemma NothingReported(input: seq<Byte>, miniMax: bool, complete: bool, decode: seq<Byte> -> Option<Envelope>)
    requires !complete || !Intact(input) || decode(RedactedBytes(input)).None?
    ensures TtsResult(input, miniMax, complete, decode) == TtsObservation("", "", false, 0, false)
  {
    IntactIff(input);
    hide Intact, Spoiled, Read, RedactedBytes;
  }

  /** DashScope: the request id and the code, trimmed; the characters under usage, final unless
      there is a code or they are missing or negative. */
  lemma DashScopeReports(input: seq<Byte>, decode: seq<Byte> -> Option<Envelope>, e: Envelope)
    requires Intact(input) && decode(RedactedBytes(input)) == Some(e)
    ensures var r := TtsResult(input, false, true, decode);
      && r.requestId == Text.TrimSpace(e.requestId) && r.providerCode == Text.TrimSpace(e.code)
      && (r.errored <==> Text.TrimSpace(e.code) != "")
      && (r.final <==> Text.TrimSpace(e.code) == "" && e.usageCharacters.Some? && e.usageCharacters.value >= 0)
      && (r.final ==> r.characters == e.usageCharacters.value) && (!r.final ==> r.characters == 0)
  {
    IntactIff(input);
    hide Intact, Spoiled, Read, RedactedBytes, Text.TrimSpace;
  }

  /** MiniMax: the trace id, trimmed, and the status code as it is; the characters under
      extra_info, final unless the status is something other than 0. */
  lemma MiniMaxReports(input: seq<Byte>, decode: seq<Byte> -> Option<Envelope>, e: Envelope)
    requires Intact(input) && decode(RedactedBytes(input)) == Some(e)
    ensures var r := TtsResult(input, true, true, decode);
      var good := e.baseStatus in {None, Some(""), Some("0")};
      && r.requestId == Text.TrimSpace(e.traceId)
      && (e.baseStatus.Some? ==> r.providerCode == e.baseStatus.value) && (e.baseStatus.None? ==> r.providerCode == "")
      && (r.errored <==> !good)
      && (r.final <==> good && e.extraCharacters.Some? && e.extraCharacters.value >= 0)
      && (r.final ==> r.characters == e.extraCharacters.value) && (!r.final ==> r.characters == 0)
  {
    IntactIff(input);
    hide Intact, Spoiled, Read, RedactedBytes, Text.TrimSpace;
  }

  /** A string of up to 4096 bytes is kept in its quotation marks, a longer one becomes an empty
      object, and every other byte is kept. */
  lemma StringsKept(tokens: seq<Token>, t: Token)
    ensures PrintTokens(Redact(tokens + [t])) == PrintTokens(Redact(tokens)) +
      match t
      case Plain(b) => [b]
      case Literal(s) => if |s| <= 4096 then [0x22] + s + [0x22] else [0x7b, 0x7d]
  {
    RedactSnoc(tokens, t);
    PrintRedacted(t);
    hide Redact, PrintTokens, RedactToken;
  }
}
