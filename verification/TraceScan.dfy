/**
 The scan that decides whether a service trace shows resident progress: a decode of one request between two positive
 prefill chunks of another.
 */
module TraceScan {
  import opened Wrappers

  /** A request identity is text or a number; both are compared by their text. */
  datatype Identity = Text(text: string) | Number(n: int)

  /** A decoded trace event. A number's text is left open: `Digits` is a parameter of the scan. */
  datatype Event =
    | NotAnObject
    | NoIdentity
    | PrefillChunk(id: Identity, processed: int, ready: bool)
    | DecodeProgress(id: Identity, during: Option<Identity>, emitted: int)
    | Other(id: Identity)

  type Digits = int -> string

  function Name(id: Identity, digits: Digits): string {
    match id
    case Text(text) => text
    case Number(n) => digits(n)
  }

  predicate Malformed(e: Event) {
    e.NotAnObject? || e.NoIdentity?
  }

  /** The length of the longest prefix without a malformed event. */
  function WellFormed(events: seq<Event>): (n: nat)
    ensures n <= |events|
    ensures forall k :: 0 <= k < n ==> !Malformed(events[k])
    ensures n < |events| ==> Malformed(events[n])
  {
    if events == [] || Malformed(events[0]) then 0 else 1 + WellFormed(events[1..])
  }

  // ---------- The pattern ----------

  predicate PositiveChunk(e: Event, r: string, digits: Digits) {
    e.PrefillChunk? && Name(e.id, digits) == r && e.processed > 0
  }

  /** A positive chunk after which the request still needs more prefill. */
  predicate OpenChunk(e: Event, r: string, digits: Digits) {
    PositiveChunk(e, r, digits) && !e.ready
  }

  /** A positive decode of another request while `r` is in prefill. */
  predicate DecodeDuring(e: Event, r: string, digits: Digits) {
    && e.DecodeProgress? && e.emitted > 0
    && e.during.Some? && Name(e.during.value, digits) == r && Name(e.id, digits) != r
  }

  predicate Opened(events: seq<Event>, r: string, digits: Digits) {
    exists i :: 0 <= i < |events| && OpenChunk(events[i], r, digits)
  }

  predicate Interleaved(events: seq<Event>, r: string, digits: Digits) {
    exists i, j :: 0 <= i < j < |events| && OpenChunk(events[i], r, digits) && DecodeDuring(events[j], r, digits)
  }

  predicate Resumed(events: seq<Event>, r: string, digits: Digits) {
    exists i, j, k :: 0 <= i < j < k < |events| &&
      OpenChunk(events[i], r, digits) && DecodeDuring(events[j], r, digits) && PositiveChunk(events[k], r, digits)
  }

  ghost predicate Progress(events: seq<Event>, digits: Digits) {
    exists r :: Resumed(events, r, digits)
  }

  // ---------- One more event ----------

  lemma OpenedSnoc(events: seq<Event>, e: Event, r: string, digits: Digits)
    ensures Opened(events + [e], r, digits) <==> Opened(events, r, digits) || OpenChunk(e, r, digits)
  {
    var longer := events + [e];
    if Opened(events, r, digits) {
      var i :| 0 <= i < |events| && OpenChunk(events[i], r, digits);
      assert longer[i] == events[i];
    }
    assert longer[|events|] == e;
  }

  lemma InterleavedSnoc(events: seq<Event>, e: Event, r: string, digits: Digits)
    ensures Interleaved(events + [e], r, digits) <==>
            Interleaved(events, r, digits) || (Opened(events, r, digits) && DecodeDuring(e, r, digits))
    ensures Interleaved(events, r, digits) ==> Opened(events, r, digits)
  {
    hide OpenChunk, DecodeDuring;
    var longer := events + [e];
    assert forall i :: 0 <= i < |events| ==> longer[i] == events[i];
    assert longer[|events|] == e;
    if Interleaved(events, r, digits) {
      var i, j :| 0 <= i < j < |events| && OpenChunk(events[i], r, digits) && DecodeDuring(events[j], r, digits);
      assert OpenChunk(longer[i], r, digits) && DecodeDuring(longer[j], r, digits);
    }
    if Opened(events, r, digits) && DecodeDuring(e, r, digits) {
      var i :| 0 <= i < |events| && OpenChunk(events[i], r, digits);
      assert OpenChunk(longer[i], r, digits) && DecodeDuring(longer[|events|], r, digits);
    }
  }

  lemma ResumedStays(events: seq<Event>, later: seq<Event>, r: string, digits: Digits)
    requires Resumed(events, r, digits)
    ensures Resumed(events + later, r, digits)
  {
    hide OpenChunk, DecodeDuring, PositiveChunk;
    var i, j, k :| 0 <= i < j < k < |events| &&
      OpenChunk(events[i], r, digits) && DecodeDuring(events[j], r, digits) && PositiveChunk(events[k], r, digits);
    var all := events + later;
    assert OpenChunk(all[i], r, digits) && DecodeDuring(all[j], r, digits) && PositiveChunk(all[k], r, digits);
  }

  lemma ResumedByLast(events: seq<Event>, e: Event, r: string, digits: Digits)
    requires Interleaved(events, r, digits) && PositiveChunk(e, r, digits)
    ensures Resumed(events + [e], r, digits)
  {
    hide OpenChunk, DecodeDuring, PositiveChunk;
    var longer := events + [e];
    var i, j :| 0 <= i < j < |events| && OpenChunk(events[i], r, digits) && DecodeDuring(events[j], r, digits);
    assert OpenChunk(longer[i], r, digits) && DecodeDuring(longer[j], r, digits)
        && PositiveChunk(longer[|events|], r, digits);
  }

  lemma ResumedBefore(events: seq<Event>, e: Event, r: string, digits: Digits)
    requires Resumed(events + [e], r, digits)
    ensures Resumed(events, r, digits) || (Interleaved(events, r, digits) && PositiveChunk(e, r, digits))
  {
    hide OpenChunk, DecodeDuring, PositiveChunk;
    var longer := events + [e];
    var i, j, k :| 0 <= i < j < k < |longer| &&
      OpenChunk(longer[i], r, digits) && DecodeDuring(longer[j], r, digits) && PositiveChunk(longer[k], r, digits);
    assert OpenChunk(events[i], r, digits) && DecodeDuring(events[j], r, digits);
    if k < |events| {
      assert PositiveChunk(events[k], r, digits);
    }
  }

  lemma ResumedSnoc(events: seq<Event>, e: Event, r: string, digits: Digits)
    ensures Resumed(events + [e], r, digits) <==>
            Resumed(events, r, digits) || (Interleaved(events, r, digits) && PositiveChunk(e, r, digits))
  {
    hide Resumed, Interleaved, PositiveChunk;
    if Resumed(events + [e], r, digits) {
      ResumedBefore(events, e, r, digits);
    }
    if Resumed(events, r, digits) {
      ResumedStays(events, [e], r, digits);
    }
    if Interleaved(events, r, digits) && PositiveChunk(e, r, digits) {
      ResumedByLast(events, e, r, digits);
    }
  }

  /** Later events never retract the finding. */
  lemma ProgressIsPermanent(events: seq<Event>, later: seq<Event>, digits: Digits)
    requires Progress(events, digits)
    ensures Progress(events + later, digits)
  {
    hide Resumed;
    var r :| Resumed(events, r, digits);
    ResumedStays(events, later, r, digits);
  }

  // ---------- The scan, as a fold over the events ----------

  /**
   What the scan knows: its counters, the requests with an open chunk, those decoded around since, and the finding.
   */
  datatype Seen = Seen(prefill: nat, progress: nat, waiting: set<string>, interleaved: set<string>, proven: bool)

  function Next(seen: Seen, e: Event, digits: Digits): Seen {
    if e.PrefillChunk? then
      var r := Name(e.id, digits);
      var counted := seen.(prefill := seen.prefill + 1);
      if e.processed <= 0 then counted else
      counted.(proven := seen.proven || r in seen.interleaved,
               waiting := if e.ready then seen.waiting else seen.waiting + {r})
    else if e.DecodeProgress? then
      var counted := seen.(progress := seen.progress + 1);
      if e.during.None? || e.emitted <= 0 then counted else
      var r := Name(e.during.value, digits);
      if r == Name(e.id, digits) || r !in seen.waiting then counted
      else counted.(interleaved := seen.interleaved + {r})
    else
      seen
  }

  function Scan(events: seq<Event>, digits: Digits): Seen {
    if events == [] then Seen(0, 0, {}, {}, false) else
    var last := |events| - 1;
    Next(Scan(events[..last], digits), events[last], digits)
  }

  /** What the scan's sets mean for one request. */
  lemma {:induction false} ScanSets(events: seq<Event>, r: string, digits: Digits)
    ensures r in Scan(events, digits).waiting <==> Opened(events, r, digits)
    ensures r in Scan(events, digits).interleaved <==> Interleaved(events, r, digits)
    ensures Interleaved(events, r, digits) ==> Opened(events, r, digits)
  {
    hide Opened, Interleaved;
    if events == [] {
      NothingSeen(r, digits);
    } else {
      var init, e := events[..|events| - 1], events[|events| - 1];
      assert events == init + [e];
      ScanSets(init, r, digits);
      OpenedSnoc(init, e, r, digits);
      InterleavedSnoc(init, e, r, digits);
    }
  }

  lemma NothingSeen(r: string, digits: Digits)
    ensures !Opened([], r, digits) && !Interleaved([], r, digits) && !Resumed([], r, digits)
  {
  }

  /** The finding is the pattern: some request with an open chunk, a decode of another during it, and a chunk after. */
  lemma {:induction false} ScanProven(events: seq<Event>, digits: Digits)
    ensures Scan(events, digits).proven <==> Progress(events, digits)
    ensures Scan(events, digits).interleaved <= Scan(events, digits).waiting
  {
    hide Opened, Interleaved, Resumed;
    if events == [] {
      forall r ensures !Resumed(events, r, digits) {
        NothingSeen(r, digits);
      }
    } else {
      var init, e := events[..|events| - 1], events[|events| - 1];
      assert events == init + [e];
      ScanProven(init, digits);
      forall r
        ensures Resumed(events, r, digits) <==>
                Resumed(init, r, digits) || (r in Scan(init, digits).interleaved && PositiveChunk(e, r, digits))
      {
        ResumedSnoc(init, e, r, digits);
        ScanSets(init, r, digits);
      }
      if Scan(events, digits).proven && !Scan(init, digits).proven {
        assert Resumed(events, Name(e.id, digits), digits);
      }
    }
  }

  lemma {:induction false} ScanCounts(events: seq<Event>, digits: Digits)
    ensures Scan(events, digits).prefill == |Chunks(events)| && Scan(events, digits).progress == |Decodes(events)|
  {
    if events != [] {
      ScanCounts(events[..|events| - 1], digits);
    }
  }

  function Chunks(events: seq<Event>): seq<Event> {
    if events == [] then [] else
    var last := |events| - 1;
    Chunks(events[..last]) + if events[last].PrefillChunk? then [events[last]] else []
  }

  function Decodes(events: seq<Event>): seq<Event> {
    if events == [] then [] else
    var last := |events| - 1;
    Decodes(events[..last]) + if events[last].DecodeProgress? then [events[last]] else []
  }

  // ---------- The scan, in place ----------

  class TraceState {
    const digits: Digits
    var prefill: nat
    var progress: nat
    var proven: bool
    var previousChunks: set<string>
    var interleaved: set<string>

    function Contents(): Seen
      reads this
    {
      Seen(prefill, progress, previousChunks, interleaved, proven)
    }

    constructor (digits: Digits)
      ensures this.digits == digits && Contents() == Scan([], digits)
    {
      this.digits := digits;
      prefill, progress, proven, previousChunks, interleaved := 0, 0, false, {}, {};
    }

    /** Scans one event; a malformed one leaves the state alone. */
    method ScanEvent(event: Event) returns (error: Option<string>)
      modifies this
      ensures error.Some? <==> Malformed(event)
      ensures Contents() == if error.Some? then old(Contents()) else Next(old(Contents()), event, digits)
    {
      if event.NotAnObject? {
        return Some("trace contains a non-object event");
      }
      if event.NoIdentity? {
        return Some("trace event lacks a request identity");
      }
      var requestId := Name(event.id, digits);
      if event.PrefillChunk? {
        prefill := prefill + 1;
        if event.processed > 0 {
          if requestId in interleaved {
            proven := true;
          }
          if !event.ready {
            previousChunks := previousChunks + {requestId};
          }
        }
      } else if event.DecodeProgress? {
        ScanProgressEvent(event, requestId);
      }
      error := None;
    }

    method ScanProgressEvent(event: Event, requestId: string)
      requires event.DecodeProgress?
      modifies this`progress, this`interleaved
      ensures progress == old(progress) + 1
      ensures interleaved == old(interleaved) +
              if event.during.Some? && Name(event.during.value, digits) != requestId
                 && Name(event.during.value, digits) in previousChunks && event.emitted > 0
              then {Name(event.during.value, digits)} else {}
    {
      progress := progress + 1;
      if event.during.None? {
        return;
      }
      var during := Name(event.during.value, digits);
      if during != requestId && during in previousChunks && event.emitted > 0 {
        interleaved := interleaved + {during};
      }
    }
  }

  /** Scans until the first malformed event. The finding is the three-event pattern over the events before it. */
  method ScanTraceEvents(events: seq<Event>, digits: Digits)
    returns (prefill: nat, progress: nat, proven: bool, error: Option<string>)
    ensures var n := WellFormed(events);
            && prefill == |Chunks(events[..n])| && progress == |Decodes(events[..n])|
            && (proven <==> Progress(events[..n], digits))
            && (error.Some? <==> n < |events|)
  {
    hide Progress;
    var state := new TraceState(digits);
    for n := 0 to |events|
      invariant fresh(state) && state.digits == digits
      invariant state.Contents() == Scan(events[..n], digits)
      invariant forall k :: 0 <= k < n ==> !Malformed(events[k])
    {
      ScanProven(events[..n], digits);
      ScanCounts(events[..n], digits);
      error := state.ScanEvent(events[n]);
      if error.Some? {
        FirstMalformed(events, n);
        return state.prefill, state.progress, state.proven, error;
      }
      assert events[..n + 1][..n] == events[..n];
    }
    FirstMalformed(events, |events|);
    ScanProven(events[..|events|], digits);
    ScanCounts(events[..|events|], digits);
    return state.prefill, state.progress, state.proven, None;
  }

  lemma {:induction false} FirstMalformed(events: seq<Event>, n: nat)
    requires n <= |events|
    requires forall k :: 0 <= k < n ==> !Malformed(events[k])
    requires n < |events| ==> Malformed(events[n])
    ensures WellFormed(events) == n
  {
    if n > 0 {
      FirstMalformed(events[1..], n - 1);
    }
  }

  datatype Validation = Validation(eventCount: nat, prefill: nat, progress: nat, proven: bool, error: Option<string>)

  /** A decoded trace: not an object, or one with a schema version and, if it is a list, its events. */
  datatype Trace = NoObject | Trace(schema: Option<string>, events: Option<seq<Event>>)

  const TRACE_SCHEMA := "leone.service-trace.v1"

  predicate Readable(trace: Trace) {
    trace.Trace? && trace.schema == Some(TRACE_SCHEMA) && trace.events.Some?
  }

  /** The verdict on a trace: no error means a well-formed trace of the known schema that shows the pattern. */
  method ResidentProgressTrace(trace: Trace, digits: Digits) returns (v: Validation)
    ensures v.error.None? <==>
              && Readable(trace) && WellFormed(trace.events.value) == |trace.events.value|
              && Progress(trace.events.value, digits)
    ensures v.eventCount == if Readable(trace) then |trace.events.value| else 0
    ensures v.proven <==> Readable(trace) && Progress(trace.events.value[..WellFormed(trace.events.value)], digits)
    ensures var scanned := if Readable(trace) then trace.events.value[..WellFormed(trace.events.value)] else [];
            v.prefill == |Chunks(scanned)| && v.progress == |Decodes(scanned)|
  {
    if trace.NoObject? {
      return Validation(0, 0, 0, false, Some("trace is not an object"));
    }
    if trace.schema != Some(TRACE_SCHEMA) {
      return Validation(0, 0, 0, false, Some("trace schema_version differs"));
    }
    if trace.events.None? {
      return Validation(0, 0, 0, false, Some("trace.events is not a list"));
    }
    var events := trace.events.value;
    var prefill, progress, proven, error := ScanTraceEvents(events, digits);
    assert events[..|events|] == events;
    if error.None? && !proven {
      error := Some("trace lacks resident decode between two chunks of another request");
    }
    v := Validation(|events|, prefill, progress, proven, error);
  }
}
