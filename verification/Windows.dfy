/**
 The window loop of the logits dump. Windows of `window` tokens overlap in one token, and every token but the last gets
 one row of logits, computed from the tokens of its window up to and including its own.
 */
module Windows {
  import opened Arithmetic
  import opened Bytes
  import opened Wrappers

  const INT32_MAX: int := 0x7FFF_FFFF

  newtype size_t = x: int | 0 <= x < 0x1_0000_0000_0000_0000
  newtype uint32_t = x: int | 0 <= x < 0x1_0000_0000
  newtype int32_t = x: int | -0x8000_0000 <= x < 0x8000_0000

  // ---------- Arguments and the token file ----------

  /** A window argument that has been read as an unsigned number. */
  function ReadWindow(value: nat): (r: Option<uint32_t>)
    ensures r.Some? <==> 2 <= value <= INT32_MAX
    ensures r.Some? ==> r.value as int == value
  {
    if value < 2 || value > INT32_MAX then None else Some(value as uint32_t)
  }

  /** The token count of a file of `size` bytes; a negative size stands for a failed `ftell`. */
  function PrepareTokenFile(size: int): (r: Option<size_t>)
    requires size < 0x8000_0000_0000_0000
    ensures r.Some? <==> size % 4 == 0 && 2 <= size / 4 <= INT32_MAX
    ensures r.Some? ==> r.value as int * 4 == size
  {
    if size < 0 || size % 4 != 0 then None
    else if size / 4 < 2 || size / 4 > INT32_MAX then None
    else Some((size / 4) as size_t)
  }

  /** One token of the file; values beyond the signed range are rejected. */
  function ReadToken(encoded: bytes): (r: Option<int32_t>)
    requires |encoded| == 4
    ensures r.Some? <==> FromLe(encoded) <= INT32_MAX
    ensures r.Some? ==> r.value as int == FromLe(encoded)
  {
    var value := FromLe(encoded);
    if value > INT32_MAX then None else Some(value as int32_t)
  }

  function FileTokens(file: bytes): Option<seq<int32_t>>
    requires |file| % 4 == 0
  {
    if file == [] then Some([]) else
    var token :- ReadToken(file[..4]);
    var rest :- FileTokens(file[4..]);
    Some([token] + rest)
  }

  lemma NoTokens()
    ensures FileTokens([]) == Some([])
  {
  }

  lemma NextToken(file: bytes, at: nat)
    requires |file| % 4 == 0 && at % 4 == 0 && at + 4 <= |file|
    ensures FileTokens(file[at..]) ==
            match (ReadToken(file[at..at + 4]), FileTokens(file[at + 4..]))
            case (Some(token), Some(rest)) => Some([token] + rest)
            case _ => None
  {
    hide ReadToken;
    var rest := file[at..];
    assert rest[..4] == file[at..at + 4] && rest[4..] == file[at + 4..];
  }

  function Word(file: bytes, k: nat): nat
    requires 4 * k + 4 <= |file|
  {
    FromLe(file[4 * k..4 * k + 4])
  }

  lemma NextWord(file: bytes, k: nat)
    requires k > 0 && 4 * k + 4 <= |file|
    ensures Word(file, k) == Word(file[4..], k - 1)
  {
    assert file[4..][4 * (k - 1)..4 * (k - 1) + 4] == file[4 * k..4 * k + 4];
  }

  /** Token `k` is the little-endian number of its four bytes, and a file reads when no such number is too large. */
  lemma {:induction false} TokensAreWords(file: bytes)
    requires |file| % 4 == 0
    ensures FileTokens(file).Some? <==> forall k :: 0 <= k < |file| / 4 ==> Word(file, k) <= 0x7FFF_FFFF
    ensures FileTokens(file).Some? ==>
              && |FileTokens(file).value| == |file| / 4
              && forall k :: 0 <= k < |file| / 4 ==> FileTokens(file).value[k] as int == Word(file, k)
    decreases |file|
  {
    hide FromLe, Word;
    if file != [] {
      var rest := file[4..];
      TokensAreWords(rest);
      FirstWord(file);
      forall k | 0 < k < |file| / 4 ensures Word(file, k) == Word(rest, k - 1) {
        NextWord(file, k);
      }
      assert forall k :: 0 <= k < |rest| / 4 ==> Word(rest, k) == Word(file, k + 1);
    }
  }

  lemma FirstWord(file: bytes)
    requires |file| >= 4
    ensures Word(file, 0) == FromLe(file[..4])
  {
  }

  /** Reads a token file into a buffer of its exact length. */
  method ReadTokens(file: bytes) returns (r: Option<array<int32_t>>)
    requires |file| < 0x8000_0000_0000_0000
    ensures r.Some? ==> fresh(r.value)
    ensures r.Some? <==> |file| % 4 == 0 && 2 <= |file| / 4 <= INT32_MAX && FileTokens(file).Some?
    ensures r.Some? ==> r.value.Length * 4 == |file| && r.value[..] == FileTokens(file).value
  {
    hide ReadToken, FromLe, FileTokens;
    var count := PrepareTokenFile(|file|);
    if count.None? {
      return None;
    }
    var values := new int32_t[count.value as int];
    var index: size_t := 0;
    assert file[0..] == file && file[|file|..] == [];
    NoTokens();
    while index < count.value
      invariant index <= count.value
      invariant FileTokens(file).Some? <==> FileTokens(file[4 * index as int..]).Some?
      invariant FileTokens(file).Some? ==>
                  FileTokens(file).value == values[..index as int] + FileTokens(file[4 * index as int..]).value
    {
      var at := 4 * index as int;
      NextToken(file, at);
      var token := ReadToken(file[at..at + 4]);
      if token.None? {
        return None;
      }
      ghost var before := values[..index as int];
      values[index as int] := token.value;
      index := index + 1;
      assert values[..index as int] == before + [token.value];
    }
    r := Some(values);
  }

  // ---------- The batch and the decoder ----------

  /** A row of logits as its raw words; the model never looks inside. */
  type Row = seq<int>

  /** One position of a batch: its token, where it stands, and the sequences it belongs to. */
  datatype Cell = Cell(token: int32_t, pos: int, sequences: int, sequence: int)

  /** The language model: which batches decode, and the logits after the cells of one from a cleared memory. */
  datatype Decoder = Decoder(decodes: seq<Cell> -> bool, logits: seq<Cell> -> Row)

  /** A window as the decoder must see it: one sequence, from its start. */
  function Presented(window: seq<int32_t>): (cells: seq<Cell>)
    ensures |cells| == |window|
  {
    seq(|window|, i requires 0 <= i < |window| => Cell(window[i], i, 1, 0))
  }

  class Batch {
    const capacity: int32_t
    var nTokens: int32_t
    const token: array<int32_t>
    const pos: array<int32_t>
    const nSeqId: array<int32_t>
    const seqId: array<int32_t>
    const logits: array<bool>

    predicate Valid()
      reads this
    {
      && capacity as int == token.Length == pos.Length == nSeqId.Length == seqId.Length == logits.Length
      && token != pos && token != nSeqId && token != seqId && pos != nSeqId && pos != seqId && nSeqId != seqId
      && 0 <= nTokens <= capacity
    }

    constructor (capacity: int32_t)
      requires 0 <= capacity
      ensures Valid() && this.capacity == capacity
      ensures fresh(token) && fresh(pos) && fresh(nSeqId) && fresh(seqId) && fresh(logits)
    {
      this.capacity, nTokens := capacity, 0;
      token := new int32_t[capacity as int];
      pos := new int32_t[capacity as int];
      nSeqId := new int32_t[capacity as int];
      seqId := new int32_t[capacity as int];
      logits := new bool[capacity as int];
    }

    /** What the decoder reads of the batch. */
    function Cells(): (cells: seq<Cell>)
      requires Valid()
      reads this, token, pos, nSeqId, seqId
      ensures |cells| == nTokens as int
    {
      seq(nTokens as int, i requires 0 <= i < nTokens as int && Valid() reads this, token, pos, nSeqId, seqId =>
        Cell(token[i], pos[i] as int, nSeqId[i] as int, seqId[i] as int))
    }

    /** The logits at a position of a decoded batch; the decoder keeps them only where they were asked for. */
    function LogitsIth(i: int, decoder: Decoder): Option<Row>
      requires Valid() && 0 <= i < nTokens as int
      reads this, token, pos, nSeqId, seqId, logits
    {
      if logits[i] then Some(decoder.logits(Cells()[..i + 1])) else None
    }
  }

  /** An output file: which of its writes succeed, and whether it can be flushed. Only whole rows are recorded. */
  class Output {
    const accepts: nat -> bool
    const flushes: bool
    var rows: seq<Row>

    constructor (accepts: nat -> bool, flushes: bool)
      ensures rows == [] && this.accepts == accepts && this.flushes == flushes
    {
      this.accepts, this.flushes, rows := accepts, flushes, [];
    }

    method Write(row: Row) returns (ok: bool)
      modifies this
      ensures ok <==> accepts(|old(rows)|)
      ensures rows == if ok then old(rows) + [row] else old(rows)
    {
      ok := accepts(|rows|);
      if ok {
        rows := rows + [row];
      }
    }
  }

  // ---------- What the loop should write ----------

  /** The tokens of the window that starts at `start`. */
  function Window(tokens: seq<int32_t>, start: nat, window: nat): seq<int32_t>
    requires start <= |tokens|
  {
    if |tokens| - start < window then tokens[start..] else tokens[start..start + window]
  }

  /** The rows of the first `n` positions of a window. */
  function Scored(window: seq<int32_t>, decoder: Decoder, n: nat): (rows: seq<Row>)
    requires n <= |window|
    ensures |rows| == n
  {
    seq(n, i requires 0 <= i < n => decoder.logits(Presented(window[..i + 1])))
  }

  lemma PresentedPart(window: seq<int32_t>, n: nat)
    requires n <= |window|
    ensures Presented(window)[..n] == Presented(window[..n])
  {
  }

  predicate Decodes(window: seq<int32_t>, decoder: Decoder) {
    decoder.decodes(Presented(window))
  }

  /** The start of the window that scores row `r`. */
  function ContextStart(r: nat, window: nat): (s: nat)
    requires window >= 2
  {
    r / (window - 1) * (window - 1)
  }

  lemma ContextStartBelow(r: nat, window: nat)
    requires window >= 2
    ensures ContextStart(r, window) <= r < ContextStart(r, window) + window - 1
  {
    DivMod(r, window - 1);
  }

  /** The row of position `r`: the logits after the tokens of its window up to `r`. */
  function RowAt(tokens: seq<int32_t>, window: nat, decoder: Decoder, r: nat): Row
    requires window >= 2 && r < |tokens|
  {
    ContextStartBelow(r, window);
    decoder.logits(Presented(tokens[ContextStart(r, window)..r + 1]))
  }

  predicate RowsMatch(rows: seq<Row>, tokens: seq<int32_t>, window: nat, decoder: Decoder)
    requires window >= 2 && |rows| <= |tokens|
  {
    forall r :: 0 <= r < |rows| ==> rows[r] == RowAt(tokens, window, decoder, r)
  }

  function Ceiling(n: nat, d: nat): nat
    requires d > 0
  {
    (n + d - 1) / d
  }

  // ---------- The loop ----------

  /** Presents a window to the decoder and asks for the logits of all its positions but the last. */
  method FillBatch(batch: Batch, tokens: array<int32_t>, start: size_t, count: size_t)
    requires batch.Valid() && 2 <= count as int <= batch.capacity as int
    requires start as int + count as int <= tokens.Length
    requires tokens != batch.token && tokens != batch.pos && tokens != batch.nSeqId && tokens != batch.seqId
    modifies batch, batch.token, batch.pos, batch.nSeqId, batch.seqId, batch.logits
    ensures batch.Valid() && batch.nTokens as int == count as int
    ensures batch.Cells() == Presented(tokens[start as int..start as int + count as int])
    ensures forall i :: 0 <= i < count as int - 1 ==> batch.logits[i]
  {
    ghost var window := tokens[start as int..start as int + count as int];
    batch.nTokens := count as int32_t;
    var index: size_t := 0;
    while index < count
      invariant index <= count && batch.nTokens as int == count as int
      invariant tokens[..] == old(tokens[..])
      invariant forall i :: 0 <= i < index as int ==>
                  && batch.token[i] == window[i] && batch.pos[i] as int == i
                  && batch.nSeqId[i] == 1 && batch.seqId[i] == 0 && (batch.logits[i] <==> i + 1 < count as int)
    {
      batch.token[index as int] := tokens[start as int + index as int];
      batch.pos[index as int] := index as int32_t;
      batch.nSeqId[index as int] := 1;
      batch.seqId[index as int] := 0;
      batch.logits[index as int] := index + 1 < count;
      index := index + 1;
    }
    assert batch.Cells() == Presented(window);
  }

  /**
   Decodes one window and writes the rows of all its positions but the last. It stops at a window that does not decode,
   before any row, or at the first row that cannot be written.
   */
  method DumpWindow(batch: Batch, tokens: array<int32_t>, start: size_t, count: size_t, decoder: Decoder,
                    output: Output)
    returns (success: bool)
    requires batch.Valid() && 2 <= count as int <= batch.capacity as int
    requires start as int + count as int <= tokens.Length
    requires tokens != batch.token && tokens != batch.pos && tokens != batch.nSeqId && tokens != batch.seqId
    modifies batch, batch.token, batch.pos, batch.nSeqId, batch.seqId, batch.logits, output
    ensures batch.Valid()
    ensures var window, before := tokens[start as int..start as int + count as int], old(output.rows);
            var n := |output.rows| - |before|;
            && 0 <= n < |window| && output.rows == before + Scored(window, decoder, n)
            && (forall k :: |before| <= k < |output.rows| ==> output.accepts(k))
            && (success ==> Decodes(window, decoder) && n == |window| - 1)
            && (!success ==>
                 if Decodes(window, decoder) then n < |window| - 1 && !output.accepts(|output.rows|) else n == 0)
  {
    hide Presented;
    ghost var window := tokens[start as int..start as int + count as int];
    FillBatch(batch, tokens, start, count);
    if !decoder.decodes(batch.Cells()) {
      return false;
    }
    var index: size_t := 0;
    while index + 1 < count
      invariant index as int <= count as int - 1
      invariant batch.Valid() && batch.nTokens as int == count as int && batch.Cells() == Presented(window)
      invariant forall i :: 0 <= i < count as int - 1 ==> batch.logits[i]
      invariant output.rows == old(output.rows) + Scored(window, decoder, index as int)
      invariant forall k :: |old(output.rows)| <= k < |output.rows| ==> output.accepts(k)
    {
      PresentedPart(window, index as int + 1);
      var logits := batch.LogitsIth(index as int, decoder);
      if logits.None? {
        return false;
      }
      var written := output.Write(logits.value);
      if !written {
        return false;
      }
      index := index + 1;
    }
    success := true;
  }

  /** Every window of the loop decodes. */
  predicate AllDecode(tokens: seq<int32_t>, window: nat, decoder: Decoder)
    requires window >= 2
  {
    forall start :: 0 <= start && start + 1 < |tokens| && start % (window - 1) == 0 ==>
      Decodes(Window(tokens, start, window), decoder)
  }

  /** Every row of the file can be written, and the file flushed. */
  predicate AllWritten(rows: nat, output: Output) {
    output.flushes && forall r :: 0 <= r < rows ==> output.accepts(r)
  }

  /**
   Decodes overlapping windows. When every window decodes and the output takes every row, it writes one row for each
   position but the last, in order and once, in the least number of windows that covers them. Otherwise it stops with
   the rows before the window that does not decode, or before the row that cannot be written, or with all rows
   unflushed.
   */
  method DecodeWindows(batch: Batch, tokens: array<int32_t>, tokenCount: size_t, window: uint32_t, decoder: Decoder,
                       output: Output)
    returns (success: bool, windowCount: size_t)
    requires tokenCount as int == tokens.Length && 2 <= tokenCount as int <= INT32_MAX
    requires 2 <= window as int <= INT32_MAX && batch.Valid() && batch.capacity as int == window as int
    requires tokens != batch.token && tokens != batch.pos && tokens != batch.nSeqId && tokens != batch.seqId
    requires output.rows == []
    modifies batch, batch.token, batch.pos, batch.nSeqId, batch.seqId, batch.logits, output
    ensures tokens[..] == old(tokens[..])
    ensures success <==> AllDecode(tokens[..], window as int, decoder) && AllWritten(tokens.Length - 1, output)
    ensures |output.rows| < tokens.Length && RowsMatch(output.rows, tokens[..], window as int, decoder)
    ensures success ==> |output.rows| == tokens.Length - 1
    ensures success ==> windowCount as int == Ceiling(tokens.Length - 1, window as int - 1)
    ensures !success ==>
              || (|output.rows| == tokens.Length - 1 && !output.flushes)
              || (|output.rows| < tokens.Length - 1 && !output.accepts(|output.rows|))
              || (|output.rows| == windowCount as int * (window as int - 1)
                  && !Decodes(Window(tokens[..], |output.rows|, window as int), decoder))
  {
    hide Window, RowAt, ContextStart, Ceiling, Decodes, Scored, Presented;
    ghost var all, w := tokens[..], window as int;
    windowCount := 0;
    var stride: size_t := window as size_t - 1;
    ghost var d := w - 1;
    success := true;
    var start: size_t := 0;
    while start + 1 < tokenCount
      invariant batch.Valid() && tokens[..] == all
      invariant start as int < |all| + d
      invariant start as int == windowCount as int * d && windowCount <= start
      invariant |output.rows| == (if start + 1 < tokenCount then start as int else |all| - 1)
      invariant start + 1 >= tokenCount ==> windowCount as int == Ceiling(|all| - 1, d)
      invariant RowsMatch(output.rows, all, w, decoder)
      invariant forall k :: 0 <= k < |output.rows| ==> output.accepts(k)
      invariant forall s :: 0 <= s < start as int && s + 1 < |all| && s % d == 0 ==> Decodes(Window(all, s, w), decoder)
    {
      var remaining := tokenCount - start;
      var count := if remaining < window as size_t then remaining else window as size_t;
      ghost var context, rows := all[start as int..start as int + count as int], output.rows;
      WindowIs(all, start as int, w, count as int);
      MultipleHasNoRest(windowCount as int, d);
      var dumped := DumpWindow(batch, tokens, start, count, decoder, output);
      NewRows(all, w, decoder, windowCount as int, count as int, |output.rows| - |rows|, rows, output.rows);
      if !dumped {
        success := false;
        break;
      }
      NextStart(windowCount as int, d, decoder, all, w);
      ghost var q := windowCount as int;
      if start as int + d + 1 >= |all| {
        LastWindow(|all| - 1, d, q);
      }
      assert (q + 1) * d == q * d + d;
      start := start + stride;
      windowCount := windowCount + 1;
    }
    if !success || !output.flushes {
      success := false;
    }
  }

  lemma WindowIs(tokens: seq<int32_t>, start: nat, window: nat, count: nat)
    requires start <= |tokens| && count == if |tokens| - start < window then |tokens| - start else window
    ensures Window(tokens, start, window) == tokens[start..start + count]
  {
  }

  lemma MultipleHasNoRest(q: nat, d: nat)
    requires d > 0
    ensures (q * d) % d == 0
  {
    QuotientIs(q * d, d, q);
    DivMod(q * d, d);
  }

  /** No other window starts before the next multiple of the stride. */
  lemma NextStart(q: nat, d: nat, decoder: Decoder, tokens: seq<int32_t>, window: nat)
    requires d > 0 && window == d + 1
    ensures forall s :: q * d < s < q * d + d ==> s % d != 0
  {
    forall s | q * d < s < q * d + d ensures s % d != 0 {
      QuotientIs(s, d, q);
      DivMod(s, d);
    }
  }

  lemma LastWindow(rows: nat, d: nat, q: nat)
    requires d > 0 && q * d < rows <= q * d + d
    ensures Ceiling(rows, d) == q + 1
  {
    assert (q + 1) * d == q * d + d;
    QuotientIs(rows + d - 1, d, q + 1);
  }

  /** The rows of one window continue the rows before it. */
  lemma NewRows(tokens: seq<int32_t>, window: nat, decoder: Decoder, q: nat, count: nat, n: nat, rows: seq<Row>,
                more: seq<Row>)
    requires window >= 2 && n < count <= window
    requires |rows| == q * (window - 1) && |rows| + count <= |tokens| && RowsMatch(rows, tokens, window, decoder)
    requires more == rows + Scored(tokens[|rows|..|rows| + count], decoder, n)
    ensures RowsMatch(more, tokens, window, decoder)
  {
    var d, context := window - 1, tokens[|rows|..|rows| + count];
    forall r | |rows| <= r < |more| ensures more[r] == RowAt(tokens, window, decoder, r) {
      QuotientIs(r, d, q);
      assert ContextStart(r, window) == |rows|;
      assert context[..r - |rows| + 1] == tokens[|rows|..r + 1];
    }
  }

  // ---------- The declared input shape ----------

  /** The shape that the quality stage demands of a recorded input. */
  predicate InputShape(count: int, bytes: int, window: int, stride: int, rows: int) {
    && count >= 2 && bytes == count * 4 && window >= 2 && stride >= 1 && rows >= 1
    && window <= count && window <= rows && rows == count - 1 && stride == window - 1
  }

  /** An accepted shape within the dump's limits is what the dump writes: all rows, with full first windows. */
  lemma ShapeMatchesDump(count: int, size: int, window: int, stride: int, rows: int)
    requires InputShape(count, size, window, stride, rows) && count <= INT32_MAX
    ensures PrepareTokenFile(size) == Some(count as size_t)
    ensures ReadWindow(window) == Some(window as uint32_t)
    ensures rows == count - 1 && Ceiling(rows, stride) * stride >= rows > (Ceiling(rows, stride) - 1) * stride
  {
    var c := Ceiling(rows, stride);
    DivMod(rows + stride - 1, stride);
    assert (c - 1) * stride == c * stride - stride;
  }
}
