/** From the chunks of a response to its content intervals: read times that never go back give no negative interval. */
module StreamTimes {
  import Bytes
  import opened Wrappers
  import opened SseParser
  import opened ParsedStream

  predicate TimesAscend(chunks: seq<Chunk>) {
    forall i, j :: 0 <= i < j < |chunks| ==> chunks[i].receivedNs <= chunks[j].receivedNs
  }

  predicate EventsAscend(events: seq<Located>) {
    forall i, j :: 0 <= i < j < |events| ==> events[i].lf < events[j].lf
  }

  predicate LinesAscend(lines: seq<Line>) {
    forall i, j :: 0 <= i < j < |lines| ==> lines[i].lf < lines[j].lf
  }

  lemma NoLines()
    ensures LinesAscend([])
  {
  }

  /** Lines end one after the other. */
  lemma {:induction false} LinesInOrder(s: seq<Bytes.byte>, base: nat)
    ensures LinesAscend(Lines(s, base))
    decreases |s|
  {
    hide Lines, Find, LinesAscend, Tail;
    NoLines();
    NextLine(s, base);
    var i := Find(s, LF);
    if i < |s| {
      LinesInOrder(s[i + 1..], base + i + 1);
      LinesBounds(s[i + 1..], base + i + 1);
      FirstInOrder(Line(s[..i], base + i), Lines(s[i + 1..], base + i + 1));
    }
  }

  lemma FirstInOrder(first: Line, rest: seq<Line>)
    requires LinesAscend(rest) && forall k :: 0 <= k < |rest| ==> first.lf < rest[k].lf
    ensures LinesAscend([first] + rest)
  {
  }

  /** Events complete one after the other. */
  lemma {:induction false} EventsInOrder(lines: seq<Line>, p: Parse)
    requires LinesAscend(lines) && EventsAscend(p.events)
    requires forall k, j :: 0 <= k < |p.events| && 0 <= j < |lines| ==> p.events[k].lf < lines[j].lf
    ensures EventsAscend(Interpret(lines, p).events)
    decreases |lines|
  {
    hide Classify;
    if p.fault.None? && lines != [] {
      EventsInOrder(lines[1..], Step(p, lines[0]));
    }
  }

  /** A later byte arrives no earlier. */
  lemma {:induction false} ArrivalGrows(chunks: seq<Chunk>, one: nat, two: nat)
    requires TimesAscend(chunks) && one <= two < |Stream(chunks)|
    ensures chunks != [] && chunks[0].receivedNs <= ArrivalAt(chunks, one) <= ArrivalAt(chunks, two)
  {
    if one >= |chunks[0].body| {
      ArrivalGrows(chunks[1..], one - |chunks[0].body|, two - |chunks[0].body|);
    } else if two >= |chunks[0].body| {
      var later := two - |chunks[0].body|;
      ArrivalGrows(chunks[1..], later, later);
    }
  }

  predicate Punctual(events: seq<SseEvent>) {
    forall i, j :: 0 <= i < j < |events| ==> events[i].receivedNs <= events[j].receivedNs
  }

  lemma ArrivalsInOrder(chunks: seq<Chunk>)
    requires TimesAscend(chunks)
    ensures Punctual(Arrivals(OneShot(Stream(chunks)).events, chunks))
  {
    hide Lines, Interpret, TimesAscend;
    var stream := Stream(chunks);
    var events := OneShot(stream).events;
    LinesInOrder(stream, 0);
    EventsInOrder(Lines(stream, 0), Start([], 0));
    OldEvents(stream);
    forall i, j | 0 <= i < j < |events|
      ensures Arrivals(events, chunks)[i].receivedNs <= Arrivals(events, chunks)[j].receivedNs
    {
      ArrivalGrows(chunks, events[i].lf, events[j].lf);
    }
  }

  /** Content keeps the times of its events, in their order. */
  lemma {:induction false} ContentInOrder(events: seq<SseEvent>, loads: Decoder)
    requires BodyFits(events, loads) && Punctual(events)
    ensures NonDecreasing(Contents(events, loads))
    ensures forall k :: 0 <= k < |Contents(events, loads)| ==>
              events != [] && Contents(events, loads)[k].1 <= events[|events| - 1].receivedNs
  {
    hide Fits, Content;
    if events != [] {
      ContentInOrder(events[..|events| - 1], loads);
    }
  }

  datatype Status = Completed(usage: Usage) | CompletedMissingUsage

  datatype Measured = Measured(status: Status, elapsed: seq<real>, intervals: seq<Option<real>>)

  /**
   A whole response: it is accepted exactly when its bytes parse to a complete stream, and it is missing its usage
   exactly when none of its events states one. The intervals are those of its content, and none is negative when the
   chunks were read at times that never go back.
   */
  method MeasureStream(chunks: seq<Chunk>, loads: Decoder, startNs: int) returns (r: Result<Measured, string>)
    ensures var stream := Stream(chunks);
            var p := OneShot(stream);
            r.Ok? <==>
              && p.fault.None? && p.next == |stream| && p.pending == []
              && Complete(Arrivals(p.events, chunks), loads)
    ensures r.Ok? ==>
              var events := Arrivals(OneShot(Stream(chunks)).events, chunks);
              var body := events[..|events| - 1];
              var content := Contents(body, loads);
              && |r.value.elapsed| == |content|
              && (forall k :: 0 <= k < |content| ==> r.value.elapsed[k] == Elapsed(startNs, content[k].1))
              && (r.value.status.Completed? <==> HasUsage(body, loads))
              && (r.value.status.Completed? ==> LastUsage(body, loads) == Some(r.value.status.usage))
    ensures r.Ok? && TimesAscend(chunks) ==>
              forall k :: 0 < k < |r.value.intervals| ==>
                            r.value.intervals[k].Some? && r.value.intervals[k].value >= 0.0
    ensures r.Ok? && r.value.elapsed != [] ==>
              var elapsed := r.value.elapsed;
              |r.value.intervals| == |elapsed| && Total(r.value.intervals) == elapsed[|elapsed| - 1] - elapsed[0]
  {
    hide OneShot, Arrivals, TimesAscend, Complete, Contents, Stream, NonDecreasing, Elapsed, Total, Punctual;
    hide HasUsage, LastUsage;
    var events := ParseSseEvents(chunks);
    if events.Err? {
      return Err("malformed or incomplete event stream");
    }
    var completion := ReadStream(events.value, loads);
    if completion.Err? {
      return Err(completion.error);
    }
    var elapsed, intervals := StreamTiming(completion.value.content, startNs);
    if TimesAscend(chunks) {
      ArrivalsInOrder(chunks);
      BodyInOrder(events.value, loads);
    }
    var usage := completion.value.usage;
    var status := if usage.Some? then Completed(usage.value) else CompletedMissingUsage;
    r := Ok(Measured(status, elapsed, intervals));
  }

  lemma BodyInOrder(events: seq<SseEvent>, loads: Decoder)
    requires Complete(events, loads) && Punctual(events)
    ensures BodyFits(events[..|events| - 1], loads)
    ensures NonDecreasing(Contents(events[..|events| - 1], loads))
  {
    hide BodyFits, HasTerminal, Contents, NonDecreasing;
    ContentInOrder(events[..|events| - 1], loads);
  }
}
