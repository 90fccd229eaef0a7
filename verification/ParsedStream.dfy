/** The content events and terminal facts of one streamed completion, and their timing. */
module ParsedStream {
  import opened Wrappers
  import opened Json
  import SseParser

  type SseEvent = SseParser.SseEvent

  const DONE := "[DONE]"

  datatype Usage = Usage(prompt: nat, completion: nat, total: nat)

  /** The decoder of JSON text, which this model leaves open; None is a decoding error. */
  type Decoder = string -> Option<Value>

  function Count(fields: Fields, key: string): Option<nat> {
    var v := Get(fields, key);
    if v.Int? && v.n >= 0 then Some(v.n) else None
  }

  function ParseUsage(v: Value): Option<Usage> {
    if !v.Obj? then None else
    var prompt :- Count(v.fields, "prompt_tokens");
    var completion :- Count(v.fields, "completion_tokens");
    var total :- Count(v.fields, "total_tokens");
    if total == prompt + completion then Some(Usage(prompt, completion, total)) else None
  }

  // ---------- What a single event must look like ----------

  predicate MetadataFits(fields: Fields) {
    && (Get(fields, "leone_telemetry").Null? || Get(fields, "leone_telemetry").Obj?)
    && (Get(fields, "usage").Null? || ParseUsage(Get(fields, "usage")).Some?)
  }

  predicate ChoiceFits(choice: Value) {
    && choice.Obj?
    && (Get(choice.fields, "delta").Obj? ==>
          var content := Get(Get(choice.fields, "delta").fields, "content");
          content.Null? || content.Str?)
  }

  predicate ChoicesFit(fields: Fields) {
    var choices := Get(fields, "choices");
    && choices.Arr?
    && |choices.items| <= 1
    && (choices.items == [] ==> !Get(fields, "usage").Null?)
    && (choices.items != [] ==> ChoiceFits(choices.items[0]))
  }

  predicate Fits(data: string, loads: Decoder) {
    match loads(data)
    case Some(Obj(fields)) => MetadataFits(fields) && ChoicesFit(fields)
    case _ => false
  }

  /** The single choice of an event that fits, if it has one. */
  function Choice(data: string, loads: Decoder): Option<Fields>
    requires Fits(data, loads)
  {
    var items := Get(loads(data).value.fields, "choices").items;
    if items == [] then None else Some(items[0].fields)
  }

  predicate Terminal(data: string, loads: Decoder)
    requires Fits(data, loads)
  {
    var choice := Choice(data, loads);
    choice.Some? && !Get(choice.value, "finish_reason").Null?
  }

  predicate HasRole(data: string, loads: Decoder)
    requires Fits(data, loads)
  {
    var choice := Choice(data, loads);
    choice.Some? && Get(choice.value, "delta").Obj? && Get(Get(choice.value, "delta").fields, "role").Str?
  }

  /** The response's identity after an event: a textual one replaces the last. */
  function StatedId(fields: Fields, last: Option<string>): Option<string> {
    if Get(fields, "id").Str? then Some(Get(fields, "id").s) else last
  }

  function StatedTelemetry(fields: Fields, last: Option<Fields>): Option<Fields> {
    if Get(fields, "leone_telemetry").Obj? then Some(Get(fields, "leone_telemetry").fields) else last
  }

  predicate StatesUsage(data: string, loads: Decoder)
    requires Fits(data, loads)
  {
    !Get(loads(data).value.fields, "usage").Null?
  }

  /** The token usage after an event: a stated one replaces the last. */
  function StatedUsage(data: string, loads: Decoder, last: Option<Usage>): (r: Option<Usage>)
    requires Fits(data, loads)
    ensures r.Some? <==> last.Some? || StatesUsage(data, loads)
  {
    if StatesUsage(data, loads) then ParseUsage(Get(loads(data).value.fields, "usage")) else last
  }

  /** The text that an event adds; most events add none. */
  function Content(data: string, loads: Decoder): string
    requires Fits(data, loads)
  {
    var choice := Choice(data, loads);
    if choice.Some? && Get(choice.value, "delta").Obj? then
      var content := Get(Get(choice.value, "delta").fields, "content");
      if content.Str? then content.s else ""
    else ""
  }

  function ContentEvent(event: SseEvent, loads: Decoder): (r: seq<(string, int)>)
    requires Fits(event.data, loads)
  {
    var content := Content(event.data, loads);
    if content == "" then [] else [(content, event.receivedNs)]
  }

  // ---------- A whole stream ----------

  predicate BodyFits(events: seq<SseEvent>, loads: Decoder) {
    forall k :: 0 <= k < |events| ==> events[k].data != DONE && Fits(events[k].data, loads)
  }

  predicate HasTerminal(events: seq<SseEvent>, loads: Decoder)
    requires BodyFits(events, loads)
  {
    exists k :: 0 <= k < |events| && Terminal(events[k].data, loads)
  }

  /** A complete stream: events that fit, one of them terminal, and `[DONE]` once, at the end. */
  predicate Complete(events: seq<SseEvent>, loads: Decoder) {
    && events != []
    && events[|events| - 1].data == DONE
    && BodyFits(events[..|events| - 1], loads)
    && HasTerminal(events[..|events| - 1], loads)
  }

  function Contents(events: seq<SseEvent>, loads: Decoder): seq<(string, int)>
    requires BodyFits(events, loads)
  {
    if events == [] then [] else
    var last := |events| - 1;
    Contents(events[..last], loads) + ContentEvent(events[last], loads)
  }

  predicate HasUsage(events: seq<SseEvent>, loads: Decoder)
    requires BodyFits(events, loads)
  {
    exists k :: 0 <= k < |events| && StatesUsage(events[k].data, loads)
  }

  /** The last usage that the events state. */
  function LastUsage(events: seq<SseEvent>, loads: Decoder): (r: Option<Usage>)
    requires BodyFits(events, loads)
    ensures r.Some? <==> HasUsage(events, loads)
  {
    if events == [] then None else
    var last := |events| - 1;
    StatedUsage(events[last].data, loads, LastUsage(events[..last], loads))
  }

  class ParsedStream {
    const loads: Decoder
    var events: seq<Fields>
    var contentEvents: seq<(string, int)>
    var usage: Option<Usage>
    var doneSeen: bool
    var roleSeen: bool
    var terminalSeen: bool
    var responseId: Option<string>
    var telemetry: Option<Fields>

    constructor (loads: Decoder)
      ensures this.loads == loads && events == [] && contentEvents == [] && usage == None
      ensures !doneSeen && !roleSeen && !terminalSeen && responseId == None && telemetry == None
    {
      this.loads := loads;
      events, contentEvents, usage := [], [], None;
      doneSeen, roleSeen, terminalSeen := false, false, false;
      responseId, telemetry := None, None;
    }

    /** Consumes one event; the result says whether it added content. A rejection keeps the content so far. */
    method Consume(event: SseEvent) returns (r: Result<bool, string>)
      modifies this
      ensures r.Ok? <==> !old(doneSeen) && (event.data == DONE || Fits(event.data, loads))
      ensures doneSeen == (old(doneSeen) || event.data == DONE)
      ensures r.Ok? && event.data != DONE ==>
                && contentEvents == old(contentEvents) + ContentEvent(event, loads)
                && r.value == (Content(event.data, loads) != "")
                && terminalSeen == (old(terminalSeen) || Terminal(event.data, loads))
                && events == old(events) + [loads(event.data).value.fields]
      ensures r.Ok? && event.data != DONE ==> usage == StatedUsage(event.data, loads, old(usage))
      ensures r.Ok? && event.data != DONE ==>
                var fields := loads(event.data).value.fields;
                && responseId == StatedId(fields, old(responseId))
                && telemetry == StatedTelemetry(fields, old(telemetry))
                && roleSeen == (old(roleSeen) || HasRole(event.data, loads))
      ensures event.data == DONE || r.Err? ==> contentEvents == old(contentEvents)
      ensures event.data == DONE ==>
                && terminalSeen == old(terminalSeen) && events == old(events) && usage == old(usage)
                && responseId == old(responseId) && telemetry == old(telemetry) && roleSeen == old(roleSeen)
    {
      if event.data == DONE {
        if doneSeen {
          return Err("duplicate SSE [DONE] event");
        }
        doneSeen := true;
        return Ok(false);
      }
      if doneSeen {
        return Err("SSE data appeared after [DONE]");
      }
      var contentCount := |contentEvents|;
      var payload := loads(event.data);
      if payload.None? {
        return Err("SSE data is not JSON");
      }
      if !payload.value.Obj? {
        return Err("SSE JSON data must be an object");
      }
      var fields := payload.value.fields;
      events := events + [fields];
      var fault := ConsumeMetadata(fields);
      if fault.Some? {
        return Err(fault.value);
      }
      var choices := Get(fields, "choices");
      if !choices.Arr? {
        return Err("SSE event has no choices list");
      }
      if choices.items == [] {
        if Get(fields, "usage").Null? {
          return Err("empty choices without usage");
        }
        return Ok(false);
      }
      if |choices.items| != 1 {
        return Err("SSE event has multiple choices");
      }
      fault := ConsumeChoice(choices.items[0], event.receivedNs);
      if fault.Some? {
        return Err(fault.value);
      }
      r := Ok(|contentEvents| > contentCount);
    }

    method ConsumeMetadata(fields: Fields) returns (fault: Option<string>)
      modifies this`responseId, this`telemetry, this`usage
      ensures fault.None? <==> MetadataFits(fields)
      ensures fault.None? ==>
                var stated := Get(fields, "usage");
                usage == if stated.Null? then old(usage) else ParseUsage(stated)
      ensures fault.None? ==>
                responseId == StatedId(fields, old(responseId)) && telemetry == StatedTelemetry(fields, old(telemetry))
    {
      var id := Get(fields, "id");
      if id.Str? {
        responseId := Some(id.s);
      }
      var observed := Get(fields, "leone_telemetry");
      if !observed.Null? {
        if !observed.Obj? {
          return Some("leone_telemetry is not an object");
        }
        telemetry := Some(observed.fields);
      }
      var stated := Get(fields, "usage");
      if !stated.Null? {
        var parsed := ParseUsage(stated);
        if parsed.None? {
          return Some("SSE usage is invalid");
        }
        usage := parsed;
      }
      fault := None;
    }

    method ConsumeChoice(choice: Value, receivedNs: int) returns (fault: Option<string>)
      modifies this`terminalSeen, this`roleSeen, this`contentEvents
      ensures fault.None? <==> ChoiceFits(choice)
      ensures fault.Some? ==> contentEvents == old(contentEvents)
      ensures fault.None? ==>
                var delta := Get(choice.fields, "delta");
                var content := if delta.Obj? then Get(delta.fields, "content") else Null;
                && terminalSeen == (old(terminalSeen) || !Get(choice.fields, "finish_reason").Null?)
                && roleSeen == (old(roleSeen) || (delta.Obj? && Get(delta.fields, "role").Str?))
                && contentEvents == old(contentEvents) +
                   if content.Str? && content.s != "" then [(content.s, receivedNs)] else []
    {
      if !choice.Obj? {
        return Some("SSE choice is not an object");
      }
      if !Get(choice.fields, "finish_reason").Null? {
        terminalSeen := true;
      }
      var delta := Get(choice.fields, "delta");
      if !delta.Obj? {
        return None;
      }
      roleSeen := roleSeen || Get(delta.fields, "role").Str?;
      var content := Get(delta.fields, "content");
      if !content.Null? && !content.Str? {
        return Some("SSE delta.content is not a string");
      }
      if content.Str? && content.s != "" {
        contentEvents := contentEvents + [(content.s, receivedNs)];
      }
      fault := None;
    }

    method Finish() returns (fault: Option<string>)
      ensures fault.None? <==> doneSeen && terminalSeen
    {
      if !doneSeen {
        return Some("SSE stream has no [DONE] event");
      }
      if !terminalSeen {
        return Some("SSE stream has no terminal choice");
      }
      fault := None;
    }
  }

  datatype Completion = Completion(content: seq<(string, int)>, usage: Option<Usage>)

  /**
   Consumes a whole stream. It is accepted exactly when it is complete. The content is that of its events in order, and
   the usage is the last stated one, so that there is one exactly when some event states it.
   */
  method ReadStream(stream: seq<SseEvent>, loads: Decoder) returns (r: Result<Completion, string>)
    ensures r.Ok? <==> Complete(stream, loads)
    ensures r.Ok? ==>
              var body := stream[..|stream| - 1];
              && r.value.content == Contents(body, loads)
              && r.value.usage == LastUsage(body, loads)
              && (r.value.usage.Some? <==> HasUsage(body, loads))
  {
    hide Fits, Terminal, ContentEvent, StatedUsage, StatesUsage;
    var parsed := new ParsedStream(loads);
    for n := 0 to |stream|
      invariant fresh(parsed) && parsed.loads == loads
      invariant Progress(parsed, stream[..n])
    {
      assert stream[..n + 1] == stream[..n] + [stream[n]];
      var consumed := parsed.Consume(stream[n]);
      if consumed.Err? {
        NotComplete(stream, n, loads);
        return Err(consumed.error);
      }
      Consumed(stream[..n], stream[n], loads);
    }
    assert stream[..|stream|] == stream;
    var fault := parsed.Finish();
    r := if fault.Some? then Err(fault.value) else Ok(Completion(parsed.contentEvents, parsed.usage));
  }

  function Body(events: seq<SseEvent>): (r: seq<SseEvent>)
  {
    if events != [] && events[|events| - 1].data == DONE then events[..|events| - 1] else events
  }

  /** The object after a prefix of a stream that it has accepted so far. */
  ghost predicate Progress(parsed: ParsedStream, prefix: seq<SseEvent>)
    reads parsed
  {
    var body := Body(prefix);
    && BodyFits(body, parsed.loads)
    && parsed.doneSeen == (|body| < |prefix|)
    && parsed.terminalSeen == HasTerminal(body, parsed.loads)
    && parsed.contentEvents == Contents(body, parsed.loads)
    && parsed.usage == LastUsage(body, parsed.loads)
  }

  lemma Consumed(prefix: seq<SseEvent>, event: SseEvent, loads: Decoder)
    requires Body(prefix) == prefix && BodyFits(prefix, loads)
    requires event.data == DONE || Fits(event.data, loads)
    ensures var longer := prefix + [event];
            if event.data == DONE then Body(longer) == prefix else
            && Body(longer) == longer && BodyFits(longer, loads)
            && HasTerminal(longer, loads) == (HasTerminal(prefix, loads) || Terminal(event.data, loads))
            && Contents(longer, loads) == Contents(prefix, loads) + ContentEvent(event, loads)
            && LastUsage(longer, loads) == StatedUsage(event.data, loads, LastUsage(prefix, loads))
  {
    hide Fits, Terminal, ContentEvent, StatedUsage, StatesUsage;
    var longer := prefix + [event];
    assert longer[..|prefix|] == prefix;
    if event.data != DONE && HasTerminal(prefix, loads) {
      var k :| 0 <= k < |prefix| && Terminal(prefix[k].data, loads);
      assert longer[k] == prefix[k];
    }
    if event.data != DONE && Terminal(event.data, loads) {
      assert longer[|prefix|] == event;
    }
  }

  lemma NotComplete(stream: seq<SseEvent>, n: nat, loads: Decoder)
    requires n < |stream|
    requires (n > 0 && stream[n - 1].data == DONE) || (stream[n].data != DONE && !Fits(stream[n].data, loads))
    ensures !Complete(stream, loads)
  {
    hide Fits, Terminal;
    var body := stream[..|stream| - 1];
    assert n > 0 ==> body[n - 1] == stream[n - 1];
    assert n < |stream| - 1 ==> body[n] == stream[n];
  }

  const STOP := "{\"choices\":[{\"finish_reason\":\"stop\"}]}"

  /** A stream that is accepted although none of its events states the token usage. */
  lemma FinishedWithoutUsage(loads: Decoder, receivedNs: int)
    requires loads(STOP) == Some(Obj(map["choices" := Arr([Obj(map["finish_reason" := Str("stop")])])]))
    ensures var body := [SseParser.SseEvent(STOP, receivedNs)];
            && Complete(body + [SseParser.SseEvent(DONE, receivedNs)], loads)
            && !HasUsage(body, loads) && LastUsage(body, loads) == None
  {
    var body := [SseParser.SseEvent(STOP, receivedNs)];
    var stream := body + [SseParser.SseEvent(DONE, receivedNs)];
    assert STOP[0] != DONE[0];
    assert stream[..|stream| - 1] == body;
    assert Terminal(body[0].data, loads);
  }

  function Text(content: seq<(string, int)>): string {
    if content == [] then "" else
    var last := |content| - 1;
    Text(content[..last]) + content[last].0
  }

  function Deltas(events: seq<SseEvent>, loads: Decoder): string
    requires BodyFits(events, loads)
  {
    if events == [] then "" else
    var last := |events| - 1;
    Deltas(events[..last], loads) + Content(events[last].data, loads)
  }

  /** Leaving out the empty deltas loses no text. */
  lemma {:induction false} ContentsKeepText(events: seq<SseEvent>, loads: Decoder)
    requires BodyFits(events, loads)
    ensures Text(Contents(events, loads)) == Deltas(events, loads)
  {
    hide Fits, Content;
    if events != [] {
      var last := |events| - 1;
      ContentsKeepText(events[..last], loads);
      var before, added := Contents(events[..last], loads), ContentEvent(events[last], loads);
      assert added != [] ==> (before + added)[..|before|] == before;
      assert added == [] ==> before + added == before;
      assert Deltas(events[..last], loads) + "" == Deltas(events[..last], loads);
    }
  }

  // ---------- Timing ----------

  const NS_PER_MS := 1000000.0

  function Elapsed(startNs: int, ns: int): real {
    (ns - startNs) as real / NS_PER_MS
  }

  /** Elapsed times are in milliseconds. */
  lemma ElapsedMilliseconds(startNs: int, ms: int)
    ensures Elapsed(startNs, startNs + 1_000_000 * ms) == ms as real
  {
  }

  function Total(intervals: seq<Option<real>>): real {
    if intervals == [] then 0.0 else
    var last := intervals[|intervals| - 1];
    Total(intervals[..|intervals| - 1]) + if last.Some? then last.value else 0.0
  }

  predicate NonDecreasing(content: seq<(string, int)>) {
    forall i, j :: 0 <= i < j < |content| ==> content[i].1 <= content[j].1
  }

  /** The elapsed times of the content events and the intervals between neighbours; the first event has no interval. */
  method StreamTiming(content: seq<(string, int)>, startNs: int)
    returns (elapsed: seq<real>, intervals: seq<Option<real>>)
    ensures |elapsed| == |intervals| == |content|
    ensures forall k :: 0 <= k < |content| ==> elapsed[k] == Elapsed(startNs, content[k].1)
    ensures forall k :: 0 <= k < |content| ==> (intervals[k].None? <==> k == 0)
    ensures NonDecreasing(content) ==> forall k :: 0 < k < |content| ==> intervals[k].value >= 0.0
    ensures content != [] ==> Total(intervals) == elapsed[|content| - 1] - elapsed[0]
  {
    elapsed := seq(|content|, i requires 0 <= i < |content| => Elapsed(startNs, content[i].1));
    intervals := [];
    for index := 0 to |elapsed|
      invariant |intervals| == index
      invariant forall k :: 0 <= k < index ==> (intervals[k].None? <==> k == 0)
      invariant NonDecreasing(content) ==> forall k :: 0 < k < index ==> intervals[k].value >= 0.0
      invariant index > 0 ==> Total(intervals) == elapsed[index - 1] - elapsed[0]
    {
      ghost var before := intervals;
      if index == 0 {
        intervals := intervals + [None];
      } else {
        intervals := intervals + [Some(elapsed[index] - elapsed[index - 1])];
      }
      assert intervals[..index] == before;
    }
  }
}
