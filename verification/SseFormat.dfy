/**
 Printers of event streams, and what the parser reads back: with either line end, with or without the space after the
 colon, and with comments in between.
 */
module SseFormat {
  import opened Bytes
  import opened Wrappers
  import opened SseParser
  import Text
  import Utf8

  // ---------- The printers ----------

  /** How a printer ends its lines, and whether it puts a space after the colon. */
  datatype Style = Style(crlf: bool, spaced: bool)

  function Ending(style: Style): bytes {
    if style.crlf then [13, 10] else [10]
  }

  function Label(style: Style): string {
    if style.spaced then "data: " else "data:"
  }

  function PrintLines(lines: seq<string>, style: Style): bytes {
    if lines == [] then [] else Utf8.Encode(Label(style) + lines[0]) + Ending(style) + PrintLines(lines[1..], style)
  }

  /** One event on the wire: a data line for each of its lines, then a blank line. */
  function Print(data: string, style: Style): bytes {
    PrintLines(Text.Split(data, '\n'), style) + Ending(style)
  }

  function PrintAll(events: seq<string>, style: Style): bytes {
    if events == [] then [] else Print(events[0], style) + PrintAll(events[1..], style)
  }

  // ---------- What a reader recovers ----------

  predicate EndsInCr(line: string) {
    line != [] && line[|line| - 1] == '\r'
  }

  predicate StartsWithSpace(line: string) {
    line != [] && line[0] == ' '
  }

  /** The printer adds nothing to the line that the reader would not take off again. */
  predicate Kept(line: string, style: Style) {
    (style.crlf || !EndsInCr(line)) && (style.spaced || !StartsWithSpace(line))
  }

  predicate KeptAll(data: string, style: Style) {
    forall l :: l in Text.Split(data, '\n') ==> Kept(l, style)
  }

  function Cut(line: string, style: Style): string {
    if !style.crlf && EndsInCr(line) then line[..|line| - 1] else line
  }

  function Recover(line: string, style: Style): (r: string)
    ensures |r| <= |line|
    ensures if Kept(line, style) then r == line else |r| < |line|
  {
    var cut := Cut(line, style);
    if !style.spaced && StartsWithSpace(cut) then cut[1..] else cut
  }

  function RecoverLines(lines: seq<string>, style: Style): (r: seq<string>)
    ensures |r| == |lines|
  {
    if lines == [] then [] else [Recover(lines[0], style)] + RecoverLines(lines[1..], style)
  }

  function Recovered(data: string, style: Style): string {
    Text.Join(RecoverLines(Text.Split(data, '\n'), style), '\n')
  }

  // ---------- One line ----------

  /** The bytes of a data line before its line feed. */
  function LineBytes(line: string, style: Style): bytes {
    Utf8.Encode(Label(style) + line) + if style.crlf then [13] else []
  }

  lemma LineWithoutCr(line: string, style: Style)
    requires '\n' !in line
    ensures LF !in LineBytes(line, style)
    ensures StripCr(LineBytes(line, style)) == Utf8.Encode(Label(style) + Cut(line, style))
  {
    hide Utf8.Encode, StripCr, Label;
    LabelHasNoLine(style);
    var text := Label(style) + line;
    Utf8.AsciiByte(text, LF);
    if style.crlf {
      StripAddedCr(Utf8.Encode(text));
    } else {
      assert LineBytes(line, style) == Utf8.Encode(text);
      StripEncoded(text);
      assert line != [] ==> text[|text| - 1] == line[|line| - 1];
      assert line == [] ==> text == Label(style);
      assert EndsInCr(line) ==> text[..|text| - 1] == Label(style) + Cut(line, style);
    }
  }

  lemma LabelHasNoLine(style: Style)
    ensures '\n' !in Label(style) && Label(style) != [] && !EndsInCr(Label(style))
  {
  }

  lemma StripAddedCr(line: bytes)
    ensures StripCr(line + [CR]) == line
  {
    assert (line + [CR])[..|line|] == line;
  }

  lemma StripEncoded(text: string)
    requires text != []
    ensures StripCr(Utf8.Encode(text)) == Utf8.Encode(if EndsInCr(text) then text[..|text| - 1] else text)
  {
    hide Utf8.Encode;
    Utf8.AsciiSuffix(text, CR);
    if EndsInCr(text) {
      StripAddedCr(Utf8.Encode(text[..|text| - 1]));
    }
  }

  lemma LabelBytes()
    ensures Utf8.Encode("data:") == DATA_FIELD
  {
    assert "data:"[1..] == "ata:" && "ata:"[1..] == "ta:" && "ta:"[1..] == "a:" && "a:"[1..] == ":";
  }

  lemma LabelledText(style: Style, text: string)
    ensures Classify(Utf8.Encode(Label(style) + text))
         == Data(if !style.spaced && StartsWithSpace(text) then text[1..] else text)
  {
    hide Utf8.Encode, Utf8.Decode;
    LabelBytes();
    var rest := if style.spaced then " " + text else text;
    assert Label(style) + text == "data:" + rest;
    Utf8.EncodeAppend("data:", rest);
    var body := Utf8.Encode(Label(style) + text);
    assert body[|DATA_FIELD|..] == Utf8.Encode(rest);
    Utf8.DecodeEncode(rest);
  }

  lemma ReadOne(line: bytes, rest: bytes, base: nat, p: Parse)
    requires LF !in line && p.fault == None
    ensures Interpret(Lines(line + [LF] + rest, base), p) ==
            Interpret(Lines(rest, base + |line| + 1), Advance(p, Classify(StripCr(line)), base + |line|))
  {
    hide Lines, Classify, StripCr, Advance;
    LinesCons(line, rest, base);
  }

  lemma ReadDataLine(line: string, style: Style, rest: bytes, base: nat, p: Parse)
    requires '\n' !in line && p.fault == None
    ensures var after := base + |LineBytes(line, style)| + 1;
            Interpret(Lines(LineBytes(line, style) + [LF] + rest, base), p) ==
            Interpret(Lines(rest, after), p.(pending := p.pending + [Recover(line, style)], next := after))
  {
    hide Interpret, Lines, Classify, StripCr, LineBytes, Label;
    LineWithoutCr(line, style);
    LabelledText(style, Cut(line, style));
    ReadOne(LineBytes(line, style), rest, base, p);
  }

  // ---------- Lines and events ----------

  lemma PrintCons(lines: seq<string>, style: Style, rest: bytes)
    requires lines != []
    ensures var head, tail := LineBytes(lines[0], style), PrintLines(lines[1..], style);
            && PrintLines(lines, style) + rest == head + [LF] + (tail + rest)
            && |PrintLines(lines, style)| == |head| + 1 + |tail|
  {
    hide Utf8.Encode, Label;
    assert style.crlf ==> Ending(style) == [13] + [LF];
  }

  lemma RecoverCons(lines: seq<string>, style: Style)
    ensures lines == [] ==> RecoverLines(lines, style) == [] && PrintLines(lines, style) == []
    ensures lines != [] ==>
              RecoverLines(lines, style) == [Recover(lines[0], style)] + RecoverLines(lines[1..], style)
  {
    hide Recover;
  }

  lemma {:induction false} ReadLines(lines: seq<string>, style: Style, rest: bytes, base: nat, p: Parse)
    requires forall l :: l in lines ==> '\n' !in l
    requires p.fault == None && p.next == base
    ensures var after := base + |PrintLines(lines, style)|;
            Interpret(Lines(PrintLines(lines, style) + rest, base), p) ==
            Interpret(Lines(rest, after), p.(pending := p.pending + RecoverLines(lines, style), next := after))
    decreases |lines|
  {
    hide Interpret, Lines, LineBytes, Recover, PrintLines, RecoverLines;
    RecoverCons(lines, style);
    if lines == [] {
      assert PrintLines(lines, style) + rest == rest;
      assert p.pending + [] == p.pending;
    } else {
      var head, tail := LineBytes(lines[0], style), PrintLines(lines[1..], style);
      PrintCons(lines, style, rest);
      ReadDataLine(lines[0], style, tail + rest, base, p);
      var first := Recover(lines[0], style);
      var p' := p.(pending := p.pending + [first], next := base + |head| + 1);
      ReadLines(lines[1..], style, rest, base + |head| + 1, p');
      assert p'.pending + RecoverLines(lines[1..], style) == p.pending + RecoverLines(lines, style);
    }
  }

  lemma ReadBlank(style: Style, rest: bytes, base: nat, p: Parse)
    requires p.fault == None && p.pending != []
    ensures var lf := base + |Ending(style)| - 1;
            Interpret(Lines(Ending(style) + rest, base), p) ==
            Interpret(Lines(rest, lf + 1),
              p.(pending := [], seen := p.seen + 1, next := lf + 1,
                 events := p.events + [Located(Text.Join(p.pending, '\n'), lf)]))
  {
    hide Interpret, Lines, Text.Join;
    var line: bytes := if style.crlf then [13] else [];
    assert Ending(style) == line + [LF];
    ReadOne(line, rest, base, p);
  }

  lemma ReadEvent(data: string, style: Style, rest: bytes, base: nat, p: Parse)
    requires p.fault == None && p.next == base && p.pending == []
    ensures var lf := base + |Print(data, style)| - 1;
            Interpret(Lines(Print(data, style) + rest, base), p) ==
            Interpret(Lines(rest, lf + 1),
              p.(seen := p.seen + 1, next := lf + 1, events := p.events + [Located(Recovered(data, style), lf)]))
  {
    hide Interpret, Lines, Text.Join, Text.Split, PrintLines, RecoverLines, Ending;
    var lines := Text.Split(data, '\n');
    var text := PrintLines(lines, style);
    Text.SplitHasNoSeparator(data, '\n');
    assert Print(data, style) + rest == text + (Ending(style) + rest);
    ReadLines(lines, style, Ending(style) + rest, base, p);
    assert [] + RecoverLines(lines, style) == RecoverLines(lines, style);
    ReadBlank(style, rest, base + |text|, p.(pending := RecoverLines(lines, style), next := base + |text|));
  }

  function Texts(events: seq<Located>): seq<string> {
    seq(|events|, i requires 0 <= i < |events| => events[i].data)
  }

  function RecoveredAll(events: seq<string>, style: Style): seq<string> {
    seq(|events|, i requires 0 <= i < |events| => Recovered(events[i], style))
  }

  lemma {:induction false} ReadAll(events: seq<string>, style: Style, base: nat, p: Parse)
    requires p.fault == None && p.next == base && p.pending == []
    ensures var q := Interpret(Lines(PrintAll(events, style), base), p);
            && q.fault == None && q.pending == [] && q.next == base + |PrintAll(events, style)|
            && q.seen == p.seen + |events| && Texts(q.events) == Texts(p.events) + RecoveredAll(events, style)
    decreases |events|
  {
    hide Lines, Interpret, Recovered, PrintAll, RecoveredAll, Texts, Print;
    PrintFirst(events, style);
    if events == [] {
      InterpretNext([], base, p);
    } else {
      var lf := base + |Print(events[0], style)| - 1;
      var event := Located(Recovered(events[0], style), lf);
      var p' := p.(seen := p.seen + 1, next := lf + 1, events := p.events + [event]);
      ReadEvent(events[0], style, PrintAll(events[1..], style), base, p);
      ReadAll(events[1..], style, lf + 1, p');
      TextsSnoc(p.events, event);
    }
  }

  lemma PrintFirst(events: seq<string>, style: Style)
    ensures events == [] ==> PrintAll(events, style) == [] && RecoveredAll(events, style) == []
    ensures events != [] ==>
              && PrintAll(events, style) == Print(events[0], style) + PrintAll(events[1..], style)
              && RecoveredAll(events, style) == [Recovered(events[0], style)] + RecoveredAll(events[1..], style)
              && |Print(events[0], style)| > 0
  {
    hide Recovered, PrintLines;
  }

  lemma TextsSnoc(events: seq<Located>, e: Located)
    ensures Texts(events + [e]) == Texts(events) + [e.data]
  {
  }

  lemma {:induction false} JoinLength(lines: seq<string>, style: Style)
    ensures |Text.Join(RecoverLines(lines, style), '\n')| <= |Text.Join(lines, '\n')|
    ensures (exists l :: l in lines && !Kept(l, style)) ==>
              |Text.Join(RecoverLines(lines, style), '\n')| < |Text.Join(lines, '\n')|
    ensures (forall l :: l in lines ==> Kept(l, style)) ==> RecoverLines(lines, style) == lines
  {
    hide Kept, Recover;
    if lines == [] {
    } else {
      JoinLength(lines[1..], style);
      assert lines == [lines[0]] + lines[1..];
      assert RecoverLines(lines, style)[1..] == RecoverLines(lines[1..], style);
      assert forall l :: l in lines[1..] ==> l in lines;
      assert lines[0] in lines;
    }
  }

  lemma RecoveredIff(data: string, style: Style)
    ensures Recovered(data, style) == data <==> KeptAll(data, style)
  {
    hide Kept;
    Text.JoinSplit(data, '\n');
    JoinLength(Text.Split(data, '\n'), style);
  }

  /**
   Reading printed events gives them back exactly when no line loses anything: a printer with CRLF line ends loses no
   carriage return, and one with a space after the colon loses no space. Every event is read in any case, without a
   fault and with nothing left over.
   */
  lemma PrintRoundTrip(events: seq<string>, style: Style)
    ensures var q := OneShot(PrintAll(events, style));
            && q.fault == None && q.pending == [] && q.next == |PrintAll(events, style)| && q.seen == |events|
            && |q.events| == |events|
            && (Texts(q.events) == events <==> forall k :: 0 <= k < |events| ==> KeptAll(events[k], style))
  {
    hide Lines, Interpret, PrintAll, KeptAll;
    ReadAll(events, style, 0, Start([], 0));
    var q := OneShot(PrintAll(events, style));
    assert Texts(q.events) == RecoveredAll(events, style);
    forall k | 0 <= k < |events| ensures RecoveredAll(events, style)[k] == events[k] <==> KeptAll(events[k], style) {
      RecoveredIff(events[k], style);
    }
  }

  /** With CRLF line ends and the space, every list of events reads back. */
  lemma CrlfRoundTrip(events: seq<string>)
    ensures Texts(OneShot(PrintAll(events, Style(true, true))).events) == events
  {
    hide OneShot, PrintAll, Texts, Text.Split;
    PrintRoundTrip(events, Style(true, true));
  }

  // ---------- Two spellings of one stream ----------

  /** Two parses that differ only in offsets. */
  predicate Alike(p: Parse, q: Parse) {
    p.pending == q.pending && p.seen == q.seen && p.fault == q.fault && Texts(p.events) == Texts(q.events)
  }

  lemma AdvanceAlike(p: Parse, q: Parse, kind: Kind, lf: nat, lf': nat)
    requires Alike(p, q)
    ensures Alike(Advance(p, kind, lf), Advance(q, kind, lf'))
  {
    hide Text.Join;
    if kind.Blank? && p.pending != [] {
      TextsSnoc(p.events, Located(Text.Join(p.pending, '\n'), lf));
      TextsSnoc(q.events, Located(Text.Join(q.pending, '\n'), lf'));
    }
  }

  /** Reading on from two such parses. */
  lemma {:induction false} InterpretAlike(s: bytes, base: nat, base': nat, p: Parse, q: Parse)
    requires Alike(p, q)
    ensures Alike(Interpret(Lines(s, base), p), Interpret(Lines(s, base'), q))
    decreases |s|
  {
    hide Lines, Interpret, Advance, Alike, Classify;
    if p.fault.Some? {
      AlikeFault(p, q);
      InterpretFault(Lines(s, base), p);
      InterpretFault(Lines(s, base'), q);
    } else {
      AlikeFault(p, q);
      InterpretNext(s, base, p);
      InterpretNext(s, base', q);
      if LF in s {
        var i := Find(s, LF);
        AdvanceAlike(p, q, Classify(StripCr(s[..i])), base + i, base' + i);
        InterpretAlike(s[i + 1..], base + i + 1, base' + i + 1, Step(p, Line(s[..i], base + i)),
                       Step(q, Line(s[..i], base' + i)));
      }
    }
  }

  lemma AlikeFault(p: Parse, q: Parse)
    requires Alike(p, q)
    ensures p.fault == q.fault
  {
  }

  /** Every line feed becomes a carriage return and a line feed. */
  function ToCrlf(s: bytes): bytes {
    if s == [] then [] else (if s[0] == 10 then [13, 10] else [s[0]]) + ToCrlf(s[1..])
  }

  /** No line feed follows a carriage return. */
  predicate LfOnly(s: bytes) {
    forall i :: 0 <= i < |s| - 1 && s[i + 1] == 10 ==> s[i] != 13
  }

  lemma {:induction false} ToCrlfLine(line: bytes, rest: bytes)
    requires LF !in line
    ensures ToCrlf(line) == line
    ensures ToCrlf(line + [LF] + rest) == line + [CR] + [LF] + ToCrlf(rest)
  {
    var s := line + [LF] + rest;
    if line == [] {
      assert s[1..] == rest;
    } else {
      ToCrlfLine(line[1..], rest);
      assert s[1..] == line[1..] + [LF] + rest;
      assert line == [line[0]] + line[1..] && line[0] in line;
    }
  }

  lemma LfOnlyLine(line: bytes, rest: bytes)
    requires LfOnly(line + [LF] + rest)
    ensures LfOnly(rest) && StripCr(line) == line
  {
    var s := line + [LF] + rest;
    if line != [] {
      assert s[|line|] == 10 && s[|line| - 1] == line[|line| - 1];
    }
    forall i | 0 <= i < |rest| - 1 && rest[i + 1] == 10 ensures rest[i] != 13 {
      assert s[|line| + 1 + i] == rest[i] && s[|line| + 2 + i] == rest[i + 1];
    }
  }

  /** The interpretation of both spellings, from alike parses. */
  lemma {:induction false} CrlfAlike(s: bytes, base: nat, base': nat, p: Parse, q: Parse)
    requires Alike(p, q) && LfOnly(s)
    ensures Alike(Interpret(Lines(s, base), p), Interpret(Lines(ToCrlf(s), base'), q))
    decreases |s|
  {
    hide Lines, Interpret, Advance, Alike, Classify, StripCr, ToCrlf, LfOnly;
    AlikeFault(p, q);
    if p.fault.Some? {
      InterpretFault(Lines(s, base), p);
      InterpretFault(Lines(ToCrlf(s), base'), q);
    } else {
      var line, rest := FirstLine(s);
      if LF in s {
        ToCrlfLine(line, rest);
        LfOnlyLine(line, rest);
        StripAddedCr(line);
        var kind, one, two := Classify(line), base + |line|, base' + |line| + 1;
        ReadOne(line, rest, base, p);
        ReadOne(line + [CR], ToCrlf(rest), base', q);
        AdvanceAlike(p, q, kind, one, two);
        CrlfAlike(rest, one + 1, two + 1, Advance(p, kind, one), Advance(q, kind, two));
      } else {
        ToCrlfLine(s, []);
        InterpretNext(s, base, p);
        InterpretNext(s, base', q);
      }
    }
  }

  /** A stream with LF line ends reads as the same stream with CRLF line ends. */
  lemma LineEndsAgree(s: bytes)
    requires LfOnly(s)
    ensures Alike(OneShot(s), OneShot(ToCrlf(s)))
  {
    hide Lines, Interpret, ToCrlf, LfOnly, Texts;
    CrlfAlike(s, 0, 0, Start([], 0), Start([], 0));
  }

  /** A comment line between two lines changes nothing but offsets. */
  lemma CommentIsIgnored(before: bytes, comment: string, after: bytes, crlf: bool)
    requires Tail(before) == [] && '\n' !in comment
    ensures var line := Utf8.Encode(":" + comment) + Ending(Style(crlf, true));
            Alike(OneShot(before + after), OneShot(before + (line + after)))
  {
    hide Lines, Interpret, Texts, Tail, Advance, Utf8.Encode;
    var p, base := OneShot(before), |before|;
    var body := Utf8.Encode(":" + comment) + if crlf then [13] else [];
    var line := Utf8.Encode(":" + comment) + Ending(Style(crlf, true));
    assert line + after == body + [LF] + after;
    Resume(before, after);
    Resume(before, line + after);
    assert Tail(before) + after == after && Tail(before) + (line + after) == line + after;
    if p.fault == None {
      CommentBody(comment, crlf);
      ReadOne(body, after, base, p);
      CommentAdvance(p, base + |body|);
      InterpretAlike(after, base, base + |body| + 1, p, Advance(p, Comment, base + |body|));
    }
  }

  lemma CommentAdvance(p: Parse, lf: nat)
    ensures Alike(p, Advance(p, Comment, lf))
  {
  }

  lemma CommentBody(comment: string, crlf: bool)
    requires '\n' !in comment
    ensures var body := Utf8.Encode(":" + comment) + if crlf then [13] else [];
            LF !in body && Classify(StripCr(body)) == Comment
  {
    Utf8.AsciiByte(":" + comment, LF);
    assert (":" + comment)[1..] == comment;
    assert Utf8.Encode(":" + comment) == [58] + Utf8.Encode(comment);
  }

  // ---------- Rejected lines ----------

  /** A line that is neither blank, nor a comment, nor a data field is rejected wherever it stands. */
  lemma OtherFieldIsRejected(before: bytes, line: bytes, after: bytes)
    requires Tail(before) == [] && OneShot(before).fault == None
    requires 10 !in line && line != [] && line[0] != 58 && line != [13]
    requires !(Utf8.Encode("data:") <= line)
    ensures OneShot(before + (line + [10] + after)).fault == Some(UnsupportedField)
  {
    hide Lines, Interpret, Tail, Utf8.Encode;
    LabelBytes();
    StripKeepsStart(line);
    Rejected(before, line, after, UnsupportedField);
  }

  lemma StripKeepsStart(line: bytes)
    requires line != [] && line != [13] && !(DATA_FIELD <= line)
    ensures StripCr(line) != [] && StripCr(line)[0] == line[0] && !(DATA_FIELD <= StripCr(line))
  {
  }

  /** So is a data field that is not UTF-8. */
  lemma NotUtf8IsRejected(before: bytes, value: bytes, after: bytes, style: Style)
    requires Tail(before) == [] && OneShot(before).fault == None
    requires 10 !in value && (style.crlf || value == [] || value[|value| - 1] != 13)
    requires Utf8.Decode(value).None?
    ensures OneShot(before + (Utf8.Encode("data:") + value + Ending(style) + after)).fault == Some(NotUtf8)
  {
    hide Lines, Interpret, Tail, Utf8.Encode, Utf8.Decode;
    LabelBytes();
    var line := DATA_FIELD + value;
    var body := line + if style.crlf then [13] else [];
    assert Utf8.Encode("data:") + value + Ending(style) + after == body + [10] + after;
    assert StripCr(body) == line by {
      if style.crlf {
        StripAddedCr(line);
      }
    }
    assert line[|DATA_FIELD|..] == value;
    Rejected(before, body, after, NotUtf8);
  }

  lemma Rejected(before: bytes, line: bytes, after: bytes, why: Malformed)
    requires Tail(before) == [] && OneShot(before).fault == None
    requires LF !in line && Classify(StripCr(line)) == Bad(why)
    ensures OneShot(before + (line + [LF] + after)).fault == Some(why)
  {
    hide Lines, Interpret, Tail, Classify, StripCr;
    var p, base := OneShot(before), |before|;
    Resume(before, line + [LF] + after);
    assert Tail(before) + (line + [LF] + after) == line + [LF] + after;
    ReadOne(line, after, base, p);
    InterpretFault(Lines(after, base + |line| + 1), Advance(p, Bad(why), base + |line|));
  }
}
