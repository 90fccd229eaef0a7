/** The events that a server sends for a completion, and what the reader makes of them. */
module CompletionFormat {
  import opened Wrappers
  import opened Json
  import opened SseParser
  import opened Stream = ParsedStream

  // ---------- The server's events ----------

  function UsageObject(usage: Usage): Value {
    Obj(map["prompt_tokens" := Int(usage.prompt), "completion_tokens" := Int(usage.completion),
            "total_tokens" := Int(usage.total)])
  }

  /** A chunk of text. */
  function TextChunk(text: string): Value {
    Obj(map["choices" := Arr([Obj(map["delta" := Obj(map["content" := Str(text)])])])])
  }

  /** The last chunk: an empty delta, the reason for the end, and the token usage. */
  function LastChunk(reason: string, usage: Usage): Value {
    Obj(map["choices" := Arr([Obj(map["delta" := Obj(map[]), "finish_reason" := Str(reason)])]),
            "usage" := UsageObject(usage)])
  }

  /** JSON text that reads back, and is never the text of the end mark. */
  ghost predicate Codec(dumps: Value -> string, loads: Decoder) {
    forall v :: loads(dumps(v)) == Some(v) && dumps(v) != "[DONE]"
  }

  function TextEvents(texts: seq<string>, ns: int, dumps: Value -> string): seq<SseEvent> {
    if texts == [] then [] else
    var last := |texts| - 1;
    TextEvents(texts[..last], ns, dumps) + [SseEvent(dumps(TextChunk(texts[last])), ns)]
  }

  function Served(texts: seq<string>, reason: string, usage: Usage, ns: int, dumps: Value -> string): seq<SseEvent> {
    TextEvents(texts, ns, dumps) + [SseEvent(dumps(LastChunk(reason, usage)), ns), SseEvent("[DONE]", ns)]
  }

  // ---------- What one event means ----------

  /** Usage is read from its three counts, and only when they add up. */
  lemma UsageReads(v: Value, usage: Usage)
    ensures ParseUsage(v) == Some(usage) <==>
              && v.Obj? && usage.total == usage.prompt + usage.completion
              && Get(v.fields, "prompt_tokens") == Int(usage.prompt)
              && Get(v.fields, "completion_tokens") == Int(usage.completion)
              && Get(v.fields, "total_tokens") == Int(usage.total)
  {
  }

  lemma TextChunkReads(text: string, data: string, loads: Decoder)
    requires loads(data) == Some(TextChunk(text))
    ensures Fits(data, loads) && Content(data, loads) == text
    ensures !Terminal(data, loads) && !StatesUsage(data, loads) && !HasRole(data, loads)
  {
  }

  lemma LastChunkReads(reason: string, usage: Usage, data: string, loads: Decoder)
    requires loads(data) == Some(LastChunk(reason, usage)) && usage.total == usage.prompt + usage.completion
    ensures Fits(data, loads) && Content(data, loads) == "" && Terminal(data, loads)
    ensures forall last :: StatedUsage(data, loads, last) == Some(usage)
  {
    UsageReads(UsageObject(usage), usage);
  }

  /** A usage report without a choice is accepted. */
  lemma UsageAloneReads(usage: Usage, data: string, loads: Decoder)
    requires loads(data) == Some(Obj(map["choices" := Arr([]), "usage" := UsageObject(usage)]))
    requires usage.total == usage.prompt + usage.completion
    ensures Fits(data, loads) && Content(data, loads) == "" && !Terminal(data, loads)
    ensures forall last :: StatedUsage(data, loads, last) == Some(usage)
  {
    UsageReads(UsageObject(usage), usage);
  }

  /** A textual identity, telemetry and role are taken over; other identities are passed over. */
  lemma MetadataReads(fields: Fields, id: string, telemetry: Fields, lastId: Option<string>, last: Option<Fields>)
    ensures Get(fields, "id") == Str(id) ==> StatedId(fields, lastId) == Some(id)
    ensures (forall s :: Get(fields, "id") != Str(s)) ==> StatedId(fields, lastId) == lastId
    ensures Get(fields, "leone_telemetry") == Obj(telemetry) ==> StatedTelemetry(fields, last) == Some(telemetry)
    ensures Get(fields, "leone_telemetry").Null? ==> StatedTelemetry(fields, last) == last
  {
    if Get(fields, "id").Str? {
      assert Get(fields, "id") == Str(Get(fields, "id").s);
    }
  }

  lemma RoleReads(role: string, data: string, loads: Decoder)
    requires loads(data) == Some(Obj(map["choices" := Arr([Obj(map["delta" := Obj(map["role" := Str(role)])])])]))
    ensures Fits(data, loads) && HasRole(data, loads) && Content(data, loads) == "" && !Terminal(data, loads)
  {
  }

  /** Events that are rejected, whatever else they hold. */
  lemma RejectedEvents(data: string, loads: Decoder)
    ensures loads(data).None? ==> !Fits(data, loads)
    ensures loads(data).Some? && !loads(data).value.Obj? ==> !Fits(data, loads)
    ensures loads(data).Some? && loads(data).value.Obj? ==>
              var fields := loads(data).value.fields;
              var choices, usage := Get(fields, "choices"), Get(fields, "usage");
              var telemetry := Get(fields, "leone_telemetry");
              && (!choices.Arr? ==> !Fits(data, loads))
              && (choices.Arr? && |choices.items| > 1 ==> !Fits(data, loads))
              && (choices == Arr([]) && usage.Null? ==> !Fits(data, loads))
              && (choices.Arr? && choices.items != [] && !choices.items[0].Obj? ==> !Fits(data, loads))
              && (!telemetry.Null? && !telemetry.Obj? ==> !Fits(data, loads))
              && (!usage.Null? && (forall u :: ParseUsage(usage) != Some(u)) ==> !Fits(data, loads))
  {
  }

  /** A text that is no text rejects its event. */
  lemma RejectedContent(data: string, loads: Decoder, fields: Fields, choice: Fields, delta: Fields)
    requires loads(data) == Some(Obj(fields)) && Get(fields, "choices") == Arr([Obj(choice)])
    requires Get(choice, "delta") == Obj(delta)
    requires !Get(delta, "content").Null? && !Get(delta, "content").Str?
    ensures !Fits(data, loads)
  {
  }

  // ---------- A whole completion ----------

  function Concat(texts: seq<string>): string {
    if texts == [] then "" else Concat(texts[..|texts| - 1]) + texts[|texts| - 1]
  }

  lemma BodySnoc(events: seq<SseEvent>, event: SseEvent, loads: Decoder)
    requires BodyFits(events, loads) && event.data != "[DONE]" && Fits(event.data, loads)
    ensures BodyFits(events + [event], loads)
    ensures Deltas(events + [event], loads) == Deltas(events, loads) + Content(event.data, loads)
    ensures HasTerminal(events + [event], loads) <==> HasTerminal(events, loads) || Terminal(event.data, loads)
    ensures LastUsage(events + [event], loads) == StatedUsage(event.data, loads, LastUsage(events, loads))
  {
    hide Fits, Content, StatedUsage, Terminal, StatesUsage;
    var longer := events + [event];
    assert longer[..|events|] == events && longer[|events|] == event;
    if HasTerminal(events, loads) {
      var k :| 0 <= k < |events| && Terminal(events[k].data, loads);
      assert longer[k] == events[k];
    }
  }

  lemma {:induction false} TextEventsRead(
    texts: seq<string>, ns: int, dumps: Value -> string, loads: Decoder)
    requires Codec(dumps, loads)
    ensures var events := TextEvents(texts, ns, dumps);
            && BodyFits(events, loads) && Deltas(events, loads) == Concat(texts)
            && !HasTerminal(events, loads) && LastUsage(events, loads) == None
  {
    hide Fits, Content, StatedUsage, Terminal, StatesUsage, Deltas, LastUsage, HasTerminal, TextChunk, BodyFits;
    if texts == [] {
      NothingRead(loads);
    } else {
      var last := |texts| - 1;
      TextEventsRead(texts[..last], ns, dumps, loads);
      var data := dumps(TextChunk(texts[last]));
      TextChunkReads(texts[last], data, loads);
      BodySnoc(TextEvents(texts[..last], ns, dumps), SseEvent(data, ns), loads);
      KeepsUsage(data, loads);
    }
  }

  lemma KeepsUsage(data: string, loads: Decoder)
    requires Fits(data, loads) && !StatesUsage(data, loads)
    ensures StatedUsage(data, loads, None) == None
  {
  }

  lemma NothingRead(loads: Decoder)
    ensures BodyFits([], loads) && Deltas([], loads) == "" && !HasTerminal([], loads) && LastUsage([], loads) == None
  {
  }

  /** A served completion is accepted, and reads back as the server's text and usage. */
  lemma ServedCompletion(
    texts: seq<string>, reason: string, usage: Usage, ns: int, dumps: Value -> string, loads: Decoder)
    requires Codec(dumps, loads) && usage.total == usage.prompt + usage.completion
    ensures var stream := Served(texts, reason, usage, ns, dumps);
            var body := stream[..|stream| - 1];
            && Complete(stream, loads)
            && Stream.Text(Contents(body, loads)) == Concat(texts)
            && LastUsage(body, loads) == Some(usage)
  {
    hide Fits, Content, StatedUsage, Terminal, StatesUsage, Deltas, LastUsage, HasTerminal, LastChunk, BodyFits,
         TextEvents;
    var events, data := TextEvents(texts, ns, dumps), dumps(LastChunk(reason, usage));
    var stream := Served(texts, reason, usage, ns, dumps);
    TextEventsRead(texts, ns, dumps, loads);
    LastChunkReads(reason, usage, data, loads);
    BodySnoc(events, SseEvent(data, ns), loads);
    var body := events + [SseEvent(data, ns)];
    assert stream[..|stream| - 1] == body && stream[|stream| - 1].data == "[DONE]";
    ContentsKeepText(body, loads);
  }
}
