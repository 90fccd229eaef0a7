/**
 The incremental server-sent-event parser of the concurrent service study.

 The bytes arrive in chunks that may split a line, a CRLF pair or a UTF-8 sequence anywhere. The reference is a parse of
 the whole stream at once: cut it at every line feed, then interpret the lines from left to right. The format is the
 data and comment subset of sections 9.2.5 and 9.2.6 of the WHATWG HTML Living Standard, with LF or CRLF line ends.
 */
module SseParser {
  import opened Bytes
  import opened Wrappers
  import Utf8
  import Text

  const LF: byte := 10
  const CR: byte := 13
  const SPACE: byte := 32
  const COLON: byte := 58
  const DATA_FIELD: bytes := [100, 97, 116, 97, 58]

  datatype SseEvent = SseEvent(data: string, receivedNs: int)

  datatype Malformed = UnsupportedField | NotUtf8

  datatype Chunk = Chunk(body: bytes, receivedNs: int)

  // ---------- Lines of a byte stream ----------

  /** The first position of `b` in `s`, or the length of `s`. */
  function Find(s: bytes, b: byte): (i: nat)
    ensures i <= |s|
    ensures b !in s[..i]
    ensures i < |s| ==> s[i] == b
  {
    if s == [] || s[0] == b then 0 else
    var i := 1 + Find(s[1..], b);
    assert s[..i] == [s[0]] + s[1..][..i - 1];
    i
  }

  lemma FindIsFirst(s: bytes, b: byte, i: nat)
    requires i < |s| && s[i] == b && b !in s[..i]
    ensures Find(s, b) == i
  {
    var k := Find(s, b);
    assert forall j :: 0 <= j < i ==> s[j] == s[..i][j];
    assert forall j :: 0 <= j < k ==> s[j] == s[..k][j];
  }

  /** A terminated line: its bytes before the line feed, and the stream offset of that line feed. */
  datatype Line = Line(body: bytes, lf: nat)

  /** The terminated lines of `s`, whose first byte has stream offset `base`. */
  function Lines(s: bytes, base: nat): seq<Line>
    decreases |s|
  {
    var i := Find(s, LF);
    if i == |s| then [] else [Line(s[..i], base + i)] + Lines(s[i + 1..], base + i + 1)
  }

  /** What follows the last line feed of `s`. */
  function Tail(s: bytes): (t: bytes)
    ensures |t| <= |s|
    decreases |s|
  {
    var i := Find(s, LF);
    if i == |s| then s else Tail(s[i + 1..])
  }

  /** The first line of `s`, or none. */
  lemma NextLine(s: bytes, base: nat)
    ensures var i := Find(s, LF);
            if i == |s| then Lines(s, base) == [] && Tail(s) == s
            else
              && Lines(s, base) == [Line(s[..i], base + i)] + Lines(s[i + 1..], base + i + 1)
              && Tail(s) == Tail(s[i + 1..])
  {
    hide Find;
  }

  lemma LinesCons(line: bytes, rest: bytes, base: nat)
    requires LF !in line
    ensures Lines(line + [LF] + rest, base) == [Line(line, base + |line|)] + Lines(rest, base + |line| + 1)
    ensures Tail(line + [LF] + rest) == Tail(rest)
  {
    hide Lines, Tail, Find;
    var s := line + [LF] + rest;
    assert s[..|line|] == line && s[|line| + 1..] == rest;
    FindIsFirst(s, LF, |line|);
    NextLine(s, base);
  }

  // ---------- Interpreting the lines ----------

  datatype Located = Located(data: string, lf: nat)

  /** How far a parse has come: `next` is the offset after the last line read, `fault` the reason it stopped. */
  datatype Parse = Parse(pending: seq<string>, seen: nat, events: seq<Located>, next: nat, fault: Option<Malformed>)

  function Start(pending: seq<string>, seen: nat): Parse {
    Parse(pending, seen, [], 0, None)
  }

  function StripCr(line: bytes): bytes {
    if line != [] && line[|line| - 1] == CR then line[..|line| - 1] else line
  }

  function DropSpace(text: string): string {
    if text != [] && text[0] == ' ' then text[1..] else text
  }

  datatype Kind = Blank | Comment | Data(text: string) | Bad(why: Malformed)

  /** What one line means, its line end already removed. */
  function Classify(body: bytes): (kind: Kind)
    ensures kind == Blank <==> body == []
  {
    if body == [] then Blank
    else if body[0] == COLON then Comment
    else if !(DATA_FIELD <= body) then Bad(UnsupportedField)
    else match Utf8.Decode(body[|DATA_FIELD|..])
      case None => Bad(NotUtf8)
      case Some(text) => Data(DropSpace(text))
  }

  function Advance(p: Parse, kind: Kind, lf: nat): Parse {
    var q := p.(next := lf + 1);
    match kind
    case Blank =>
      if p.pending == [] then q
      else q.(pending := [], seen := p.seen + 1, events := p.events + [Located(Text.Join(p.pending, '\n'), lf)])
    case Comment => q
    case Data(text) => q.(pending := p.pending + [text])
    case Bad(why) => q.(fault := Some(why))
  }

  function Step(p: Parse, line: Line): Parse {
    Advance(p, Classify(StripCr(line.body)), line.lf)
  }

  function Interpret(lines: seq<Line>, p: Parse): Parse {
    if p.fault.Some? || lines == [] then p else Interpret(lines[1..], Step(p, lines[0]))
  }

  /** One step of reading `s`: its first line, or nothing when it holds no line feed. */
  lemma InterpretNext(s: bytes, base: nat, p: Parse)
    requires p.fault == None
    ensures LF !in s ==> Interpret(Lines(s, base), p) == p
    ensures LF in s ==>
              var i := Find(s, LF);
              && i < |s|
              && Interpret(Lines(s, base), p) ==
                 Interpret(Lines(s[i + 1..], base + i + 1), Step(p, Line(s[..i], base + i)))
  {
    hide Step, Interpret, Lines, Find;
    NextLine(s, base);
    var i := Find(s, LF);
    assert s[..|s|] == s;
    if i == |s| {
      InterpretNothing(p);
    } else {
      InterpretFirst(Line(s[..i], base + i), Lines(s[i + 1..], base + i + 1), p);
    }
  }

  lemma InterpretNothing(p: Parse)
    ensures Interpret([], p) == p
  {
  }

  lemma InterpretFirst(first: Line, rest: seq<Line>, p: Parse)
    requires p.fault == None
    ensures Interpret([first] + rest, p) == Interpret(rest, Step(p, first))
  {
    assert ([first] + rest)[1..] == rest;
  }

  lemma InterpretFault(lines: seq<Line>, p: Parse)
    requires p.fault.Some?
    ensures Interpret(lines, p) == p
  {
  }

  /** The parse of a complete stream in one piece. */
  function OneShot(stream: bytes): Parse {
    Interpret(Lines(stream, 0), Start([], 0))
  }

  // ---------- The parser object ----------

  function Stamp(events: seq<Located>, receivedNs: int): seq<SseEvent> {
    seq(|events|, i requires 0 <= i < |events| => SseEvent(events[i].data, receivedNs))
  }

  lemma NothingToStamp(receivedNs: int)
    ensures Stamp([], receivedNs) == []
  {
  }

  lemma StampSnoc(events: seq<Located>, receivedNs: int)
    requires events != []
    ensures var last := |events| - 1;
            Stamp(events, receivedNs) == Stamp(events[..last], receivedNs) + [SseEvent(events[last].data, receivedNs)]
  {
  }

  class SseEventParser {
    var buffer: bytes
    var dataLines: seq<string>
    var eventsSeen: nat

    constructor ()
      ensures buffer == [] && dataLines == [] && eventsSeen == 0
    {
      buffer, dataLines, eventsSeen := [], [], 0;
    }

    /** Consumes one chunk. A malformed line is already removed from the buffer when the call rejects it. */
    method Feed(chunk: bytes, receivedNs: int) returns (r: Result<seq<SseEvent>, Malformed>)
      modifies this
      ensures var input := old(buffer) + chunk;
              var p := Interpret(Lines(input, 0), Start(old(dataLines), old(eventsSeen)));
              && p.next <= |input|
              && buffer == input[p.next..] && dataLines == p.pending && eventsSeen == p.seen
              && r == match p.fault case Some(e) => Err(e) case None => Ok(Stamp(p.events, receivedNs))
    {
      hide Lines, Interpret, Classify, Text.Join, StripCr, Find, Stamp, DropSpace;
      NothingToStamp(receivedNs);
      buffer := buffer + chunk;
      ghost var input := buffer;
      ghost var q := Start(dataLines, eventsSeen);
      ghost var whole := Interpret(Lines(input, 0), q);
      var events: seq<SseEvent> := [];
      while true
        invariant q.next <= |input| && buffer == input[q.next..]
        invariant q.fault == None && dataLines == q.pending && eventsSeen == q.seen
        invariant events == Stamp(q.events, receivedNs)
        invariant Interpret(Lines(buffer, q.next), q) == whole
        decreases |buffer|
      {
        InterpretNext(buffer, q.next, q);
        var separator := FindLineSeparator();
        if separator.None? {
          break;
        }
        var (line, consumed) := separator.value;
        q := Step(q, Line(buffer[..consumed - 1], q.next + consumed - 1));
        buffer := buffer[consumed..];
        if line == [] {
          var event := FinishEvent(receivedNs);
          if event.Some? {
            StampSnoc(q.events, receivedNs);
            events := events + [event.value];
          }
          continue;
        }
        var fault := ParseLine(line);
        if fault.Some? {
          InterpretFault(Lines(buffer, q.next), q);
          return Err(fault.value);
        }
      }
      r := Ok(events);
    }

    /** Rejects a stream that ends inside a line or inside an event. */
    method Finish() returns (complete: bool)
      ensures complete <==> buffer == [] && dataLines == []
    {
      complete := !(buffer != [] || dataLines != []);
    }

    method FindLineSeparator() returns (r: Option<(bytes, nat)>)
      ensures r.None? <==> LF !in buffer
      ensures r.None? ==> Find(buffer, LF) == |buffer|
      ensures r.Some? ==> r.value.1 == Find(buffer, LF) + 1 <= |buffer| && r.value.0 == StripCr(buffer[..r.value.1 - 1])
    {
      var newline := Find(buffer, LF);
      if newline == |buffer| {
        assert buffer[..newline] == buffer;
        return None;
      }
      var line := buffer[..newline];
      if line != [] && line[|line| - 1] == CR {
        line := line[..|line| - 1];
      }
      r := Some((line, newline + 1));
    }

    method ParseLine(line: bytes) returns (fault: Option<Malformed>)
      requires line != []
      modifies this`dataLines
      ensures fault == if Classify(line).Bad? then Some(Classify(line).why) else None
      ensures dataLines == old(dataLines) + if Classify(line).Data? then [Classify(line).text] else []
    {
      if line[0] == COLON {
        return None;
      }
      if !(DATA_FIELD <= line) {
        return Some(UnsupportedField);
      }
      var decoded := Utf8.Decode(line[|DATA_FIELD|..]);
      if decoded.None? {
        return Some(NotUtf8);
      }
      var text := decoded.value;
      if text != [] && text[0] == ' ' {
        text := text[1..];
      }
      dataLines := dataLines + [text];
      fault := None;
    }

    method FinishEvent(receivedNs: int) returns (event: Option<SseEvent>)
      modifies this`dataLines, this`eventsSeen
      ensures dataLines == []
      ensures old(dataLines) == [] ==> event == None && eventsSeen == old(eventsSeen)
      ensures old(dataLines) != [] ==>
                && event == Some(SseEvent(Text.Join(old(dataLines), '\n'), receivedNs))
                && eventsSeen == old(eventsSeen) + 1
    {
      if dataLines == [] {
        return None;
      }
      var data := Text.Join(dataLines, '\n');
      dataLines := [];
      eventsSeen := eventsSeen + 1;
      event := Some(SseEvent(data, receivedNs));
    }
  }

  // ---------- Cutting a stream into chunks changes nothing ----------

  function Stream(chunks: seq<Chunk>): bytes {
    if chunks == [] then [] else chunks[0].body + Stream(chunks[1..])
  }

  /** The read time of the chunk that holds the byte at `offset`. */
  function ArrivalAt(chunks: seq<Chunk>, offset: nat): int {
    if chunks == [] then 0
    else if offset < |chunks[0].body| then chunks[0].receivedNs
    else ArrivalAt(chunks[1..], offset - |chunks[0].body|)
  }

  /** The events of a whole-stream parse, each with the read time of the chunk that completed its blank line. */
  function Arrivals(events: seq<Located>, chunks: seq<Chunk>): seq<SseEvent> {
    seq(|events|, i requires 0 <= i < |events| => SseEvent(events[i].data, ArrivalAt(chunks, events[i].lf)))
  }

  lemma {:induction false} StreamSnoc(chunks: seq<Chunk>, last: Chunk)
    ensures Stream(chunks + [last]) == Stream(chunks) + last.body
  {
    if chunks == [] {
      assert Stream([last]) == last.body + Stream([]);
      assert chunks + [last] == [last];
    } else {
      assert (chunks + [last])[1..] == chunks[1..] + [last];
      StreamSnoc(chunks[1..], last);
    }
  }

  lemma {:induction false} ArrivalSnoc(chunks: seq<Chunk>, last: Chunk, offset: nat)
    ensures offset < |Stream(chunks)| ==> ArrivalAt(chunks + [last], offset) == ArrivalAt(chunks, offset)
    ensures |Stream(chunks)| <= offset < |Stream(chunks)| + |last.body| ==>
              ArrivalAt(chunks + [last], offset) == last.receivedNs
  {
    if chunks == [] {
      assert chunks + [last] == [last];
    } else {
      assert (chunks + [last])[1..] == chunks[1..] + [last];
      if |chunks[0].body| <= offset {
        ArrivalSnoc(chunks[1..], last, offset - |chunks[0].body|);
      }
    }
  }

  /** A stream without a line feed is all tail; any other starts with a terminated line. */
  lemma FirstLine(s: bytes) returns (line: bytes, rest: bytes)
    ensures LF !in s ==> Tail(s) == s && forall base :: Lines(s, base) == []
    ensures LF in s ==> LF !in line && s == line + [LF] + rest
  {
    var i := Find(s, LF);
    line, rest := s[..i], [];
    if i < |s| {
      rest := s[i + 1..];
    } else {
      assert line == s;
    }
  }

  /** Reading `a` and then its unterminated rest with `b` behind it gives the lines of `a + b`. */
  lemma {:induction false} LinesAppend(a: bytes, b: bytes, base: nat)
    ensures Lines(a + b, base) == Lines(a, base) + Lines(Tail(a) + b, base + |a| - |Tail(a)|)
    decreases |a|
  {
    hide Lines, Tail;
    var line, rest := FirstLine(a);
    if LF in a {
      LinesCons(line, rest, base);
      LinesCons(line, rest + b, base);
      LinesAppend(rest, b, base + |line| + 1);
      assert a + b == line + [LF] + (rest + b);
    } else {
      assert Lines(a, base) == [];
    }
  }

  /** Line feeds end the lines of `s`, in order; the tail of `s` holds none and starts after the last. */
  lemma {:induction false} LinesBounds(s: bytes, base: nat)
    ensures var lines := Lines(s, base);
            && (forall k :: 0 <= k < |lines| ==> base <= lines[k].lf < base + |s| && s[lines[k].lf - base] == LF)
            && base + |s| - |Tail(s)| == (if lines == [] then base else lines[|lines| - 1].lf + 1)
    ensures LF !in Tail(s) && Tail(s) == s[|s| - |Tail(s)|..]
    decreases |s|
  {
    hide Lines, Tail;
    var line, rest := FirstLine(s);
    if LF in s {
      LinesCons(line, rest, base);
      LinesBounds(rest, base + |line| + 1);
      forall k | 0 <= k < |Lines(s, base)|
        ensures base <= Lines(s, base)[k].lf < base + |s| && s[Lines(s, base)[k].lf - base] == LF
      {
        if k > 0 {
          assert Lines(s, base)[k] == Lines(rest, base + |line| + 1)[k - 1];
        }
      }
    }
  }

  lemma {:induction false} InterpretAppend(one: seq<Line>, two: seq<Line>, p: Parse)
    ensures Interpret(one + two, p) == Interpret(two, Interpret(one, p))
  {
    hide Step;
    if one == [] {
      assert one + two == two;
    } else {
      assert (one + two)[1..] == one[1..] + two;
      InterpretAppend(one[1..], two, Step(p, one[0]));
    }
  }

  predicate EndsALine(lf: nat, lines: seq<Line>) {
    exists k :: 0 <= k < |lines| && lines[k].lf == lf
  }

  /** New events sit on line ends, and a parse without a fault stops after the last line. */
  lemma {:induction false} InterpretBounds(lines: seq<Line>, p: Parse)
    requires p.fault == None
    ensures var q := Interpret(lines, p);
            && p.events <= q.events
            && (forall k :: |p.events| <= k < |q.events| ==> EndsALine(q.events[k].lf, lines))
            && (lines == [] ==> q.next == p.next)
            && (lines != [] ==> exists k :: 0 <= k < |lines| && q.next == lines[k].lf + 1)
            && (q.fault == None && lines != [] ==> q.next == lines[|lines| - 1].lf + 1)
  {
    hide Classify, Text.Join;
    if lines != [] {
      var p' := Step(p, lines[0]);
      if p'.fault == None {
        InterpretBounds(lines[1..], p');
        var q := Interpret(lines, p);
        forall k | |p.events| <= k < |q.events| ensures EndsALine(q.events[k].lf, lines) {
          if k < |p'.events| {
            assert lines[0].lf == q.events[k].lf;
          } else {
            var j :| 0 <= j < |lines[1..]| && lines[1..][j].lf == q.events[k].lf;
            assert lines[j + 1].lf == q.events[k].lf;
          }
        }
        if lines[1..] != [] {
          var j :| 0 <= j < |lines[1..]| && q.next == lines[1..][j].lf + 1;
          assert lines[j + 1] == lines[1..][j];
        }
      }
    }
  }

  /** How a parse of `s` leaves its offset: inside `s`, and at the unterminated tail when there was no fault. */
  lemma ReadBounds(s: bytes, base: nat, p: Parse)
    requires p.fault == None && p.next == base
    ensures var q := Interpret(Lines(s, base), p);
            && base <= q.next <= base + |s|
            && p.events <= q.events
            && (forall k :: |p.events| <= k < |q.events| ==>
                 base <= q.events[k].lf < base + |s| && s[q.events[k].lf - base] == LF)
            && (q.fault == None ==> q.next == base + |s| - |Tail(s)| && s[q.next - base..] == Tail(s))
  {
    hide Step, Lines, Tail;
    LinesBounds(s, base);
    InterpretBounds(Lines(s, base), p);
  }

  /** Reading in two parts, the second starting with the unread rest of the first. */
  lemma Resume(a: bytes, b: bytes)
    ensures var p := OneShot(a);
            OneShot(a + b) ==
            if p.fault.Some? then p else Interpret(Lines(Tail(a) + b, |a| - |Tail(a)|), p)
  {
    hide Step, Lines, Tail;
    LinesAppend(a, b, 0);
    InterpretAppend(Lines(a, 0), Lines(Tail(a) + b, |a| - |Tail(a)|), Start([], 0));
  }

  function Rebase(p: Parse, base: nat, earlier: seq<Located>): Parse {
    var moved := seq(|p.events|, i requires 0 <= i < |p.events| => p.events[i].(lf := p.events[i].lf + base));
    p.(events := earlier + moved, next := p.next + base)
  }

  function Moved(lines: seq<Line>, base: nat): seq<Line> {
    seq(|lines|, i requires 0 <= i < |lines| => lines[i].(lf := lines[i].lf + base))
  }

  lemma {:induction false} LinesMoved(s: bytes, from: nat, base: nat)
    ensures Lines(s, from + base) == Moved(Lines(s, from), base)
    decreases |s|
  {
    hide Lines;
    var line, rest := FirstLine(s);
    if LF in s {
      LinesCons(line, rest, from);
      LinesCons(line, rest, from + base);
      LinesMoved(rest, from + |line| + 1, base);
    } else {
      assert Lines(s, from) == [] == Lines(s, from + base);
    }
  }

  lemma RebaseAdvance(p: Parse, kind: Kind, lf: nat, base: nat, earlier: seq<Located>)
    ensures Advance(Rebase(p, base, earlier), kind, lf + base) == Rebase(Advance(p, kind, lf), base, earlier)
  {
  }

  /** Line offsets count from the start of whatever the lines are cut from. */
  lemma {:induction false} RebaseInterpret(lines: seq<Line>, base: nat, earlier: seq<Located>, p: Parse)
    ensures Interpret(Moved(lines, base), Rebase(p, base, earlier)) ==
            Rebase(Interpret(lines, p), base, earlier)
  {
    hide Classify, Advance;
    if lines != [] && p.fault == None {
      RebaseAdvance(p, Classify(StripCr(lines[0].body)), lines[0].lf, base, earlier);
      assert Moved(lines, base)[1..] == Moved(lines[1..], base);
      RebaseInterpret(lines[1..], base, earlier, Step(p, lines[0]));
    }
  }

  /**
   Feeds every chunk and finishes. The outcome depends on the bytes alone: it is the outcome of the whole stream
   read in one piece, and each event carries the time of the chunk that holds the line feed of its blank line.
   */
  method ParseSseEvents(chunks: seq<Chunk>) returns (r: Result<seq<SseEvent>, Option<Malformed>>)
    ensures var stream := Stream(chunks);
            var p := OneShot(stream);
            && p.next <= |stream|
            && r == (if p.fault.Some? then Err(p.fault)
                     else if stream[p.next..] != [] || p.pending != [] then Err(None)
                     else Ok(Arrivals(p.events, chunks)))
  {
    var parser := new SseEventParser();
    var events: seq<SseEvent> := [];
    hide Step, Lines, Tail, Interpret, Arrivals, Stamp;
    NoArrivals();
    assert chunks[..0] == [];
    for n := 0 to |chunks|
      invariant fresh(parser)
      invariant Synchronised(parser, chunks[..n])
      invariant events == Arrivals(OneShot(Stream(chunks[..n])).events, chunks[..n])
    {
      ghost var before, fed := Stream(chunks[..n]), chunks[n];
      ghost var p, held := OneShot(before), parser.buffer;
      assert chunks[..n + 1] == chunks[..n] + [fed];
      StreamSnoc(chunks[..n], fed);
      var fresh' := parser.Feed(chunks[n].body, chunks[n].receivedNs);
      FeedContinues(before, fed.body);
      FedRest(before, fed.body);
      if fresh'.Err? {
        ghost var rest := Stream(chunks[n + 1..]);
        StreamSplit(chunks, n + 1);
        Resume(before + fed.body, rest);
        ReadBounds(Stream(chunks), 0, Start([], 0));
        return Err(Some(fresh'.error));
      }
      events := events + fresh'.value;
      NewArrivals(chunks[..n], fed);
    }
    assert chunks[..|chunks|] == chunks;
    var complete := parser.Finish();
    r := if complete then Ok(events) else Err(None);
  }

  lemma NoArrivals()
    ensures OneShot([]) == Start([], 0)
    ensures Arrivals(OneShot([]).events, []) == []
  {
    InterpretNext([], 0, Start([], 0));
  }

  /** The parser has read exactly `chunks` without a fault. */
  ghost predicate Synchronised(parser: SseEventParser, chunks: seq<Chunk>)
    reads parser
  {
    var stream := Stream(chunks);
    var p := OneShot(stream);
    && p.fault == None && p.next <= |stream|
    && parser.buffer == stream[p.next..] && parser.dataLines == p.pending && parser.eventsSeen == p.seen
  }

  lemma {:induction false} StreamSplit(chunks: seq<Chunk>, n: nat)
    requires n <= |chunks|
    ensures Stream(chunks) == Stream(chunks[..n]) + Stream(chunks[n..])
  {
    if n == 0 {
      assert chunks[0..] == chunks;
    } else {
      StreamSplit(chunks[1..], n - 1);
      assert chunks[1..][..n - 1] == chunks[..n][1..] && chunks[1..][n - 1..] == chunks[n..];
    }
  }

  /** The parse that one feed makes of the held bytes and the new chunk. */
  function Fed(before: bytes, chunk: bytes): Parse {
    var p := OneShot(before);
    Interpret(Lines(Tail(before) + chunk, 0), Start(p.pending, p.seen))
  }

  /** One feed, seen from the start of the stream. */
  lemma FeedContinues(before: bytes, chunk: bytes)
    requires OneShot(before).fault == None
    ensures var p := OneShot(before);
            && p.next == |before| - |Tail(before)| && before[p.next..] == Tail(before)
            && OneShot(before + chunk) == Rebase(Fed(before, chunk), p.next, p.events)
  {
    hide Step, Lines, Tail, Interpret;
    var p, held := OneShot(before), Tail(before);
    var from := Start(p.pending, p.seen);
    ReadBounds(before, 0, Start([], 0));
    Resume(before, chunk);
    LinesMoved(held + chunk, 0, p.next);
    assert Rebase(from, p.next, p.events) == p;
    RebaseInterpret(Lines(held + chunk, 0), p.next, p.events, from);
  }

  /** Its events complete inside the new chunk. */
  lemma FedEvents(before: bytes, chunk: bytes)
    requires OneShot(before).fault == None
    ensures var p, fed := OneShot(before), Fed(before, chunk);
            forall k :: 0 <= k < |fed.events| ==> |before| <= fed.events[k].lf + p.next < |before + chunk|
  {
    hide Step, Lines, Tail, Interpret;
    var held := Tail(before);
    ReadBounds(before, 0, Start([], 0));
    LinesBounds(before, 0);
    ReadBounds(held + chunk, 0, Start(OneShot(before).pending, OneShot(before).seen));
    var fed := Fed(before, chunk);
    assert forall j :: 0 <= j < |held| ==> (held + chunk)[j] == held[j] != LF;
  }

  /** What it leaves in the buffer is the unread part of the whole stream. */
  lemma FedRest(before: bytes, chunk: bytes)
    requires OneShot(before).fault == None
    ensures var fed, whole := Fed(before, chunk), OneShot(before + chunk);
            && fed.next <= |Tail(before) + chunk| && whole.next <= |before + chunk|
            && (Tail(before) + chunk)[fed.next..] == (before + chunk)[whole.next..]
  {
    hide Step, Lines, Tail, Interpret, OneShot;
    FeedContinues(before, chunk);
    FedBounds(before, chunk);
    SameRest(before, Tail(before), chunk, OneShot(before).next, Fed(before, chunk).next);
  }

  lemma FedBounds(before: bytes, chunk: bytes)
    ensures Fed(before, chunk).next <= |Tail(before) + chunk|
  {
    hide Step, Lines, Tail, Interpret, OneShot;
    ReadBounds(Tail(before) + chunk, 0, Start(OneShot(before).pending, OneShot(before).seen));
  }

  lemma SameRest(before: bytes, held: bytes, chunk: bytes, start: nat, next: nat)
    requires start <= |before| && before[start..] == held && next <= |held + chunk|
    ensures (held + chunk)[next..] == (before + chunk)[start + next..]
  {
    assert held + chunk == (before + chunk)[start..];
  }

  lemma NewArrivals(chunks: seq<Chunk>, last: Chunk)
    requires OneShot(Stream(chunks)).fault == None
    ensures var before := Stream(chunks);
            Arrivals(OneShot(before).events, chunks) + Stamp(Fed(before, last.body).events, last.receivedNs) ==
            Arrivals(OneShot(before + last.body).events, chunks + [last])
  {
    hide Step, Lines, Tail, Interpret, OneShot;
    var before := Stream(chunks);
    FeedContinues(before, last.body);
    FedEvents(before, last.body);
    OldEvents(before);
    var p, whole := OneShot(before), OneShot(before + last.body);
    forall k | 0 <= k < |whole.events| {
      ArrivalSnoc(chunks, last, whole.events[k].lf);
    }
  }

  lemma OldEvents(before: bytes)
    ensures var p := OneShot(before); forall k :: 0 <= k < |p.events| ==> p.events[k].lf < |before|
  {
    hide Step, Lines, Tail, Interpret;
    ReadBounds(before, 0, Start([], 0));
  }
}
