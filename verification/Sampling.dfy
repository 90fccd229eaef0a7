/**
 Sampling of full logits files: which rows are kept, what the two writers and the freezer record about them, and what
 the validator can conclude about the full files from the sample alone.
 */
module Sampling {
  import opened Argmax
  import opened Bytes
  import opened Orders
  import opened Wrappers
  import Text

  const SAMPLE_ROWS: nat := 128
  const F32_SIZE: nat := 4

  // ---------- The rows ----------

  function Requested(rows: nat): nat {
    if rows < SAMPLE_ROWS then rows else SAMPLE_ROWS
  }

  /** `index * n / d`, rounded down. */
  function Scaled(index: nat, n: nat, d: nat): nat
    requires d > 0
  {
    Product(index, n) / d
  }

  function Product(a: nat, b: nat): nat {
    a * b
  }

  /** Evenly spaced rows, from the first to the last. */
  function BaseRows(rows: nat): (base: seq<nat>)
    ensures |base| == Requested(rows)
  {
    var requested := Requested(rows);
    if requested == 1 then [0]
    else seq(requested, index requires 0 <= index < requested => Scaled(index, rows - 1, requested - 1))
  }

  predicate Before(one: nat, two: nat) {
    one < two
  }

  predicate Increasing(list: seq<nat>) {
    SortedBy(list, Before)
  }

  function Insert(row: nat, sorted: seq<nat>): seq<nat> {
    if sorted == [] || row < sorted[0] then [row] + sorted
    else if row == sorted[0] then sorted
    else [sorted[0]] + Insert(row, sorted[1..])
  }

  /** The members of a list, in increasing order and without repeats. */
  function SortedSet(rows: seq<nat>): seq<nat> {
    if rows == [] then [] else Insert(rows[0], SortedSet(rows[1..]))
  }

  /** The list of the CUDA writer and freezer: the evenly spaced rows and the rows of the task's answer. */
  function SampledRows(rows: nat, taskRows: seq<nat>): seq<nat> {
    SortedSet(BaseRows(rows) + taskRows)
  }

  /** The Metal writer and the validator build the same list, and also check that it stays inside the source. */
  function CheckedRows(rows: nat, taskRows: seq<nat>): Result<(nat, seq<nat>), string> {
    var indices := SampledRows(rows, taskRows);
    if forall k :: 0 <= k < |indices| ==> indices[k] < rows then Ok((Requested(rows), indices))
    else Err("sample row is outside the source")
  }

  lemma DivMod(x: nat, d: nat)
    requires d > 0
    ensures x == Product(d, x / d) + x % d && x % d < d
  {
  }

  lemma Quotient(d: nat, q: nat, r: nat)
    requires r < d
    ensures (Product(d, q) + r) / d == q
  {
    var x := Product(d, q) + r;
    DivMod(x, d);
    if x / d < q {
      ProductGap(d, x / d, q);
    } else if x / d > q {
      ProductGap(d, q, x / d);
    }
  }

  lemma ProductGap(d: nat, a: nat, b: nat)
    requires a < b
    ensures Product(d, a) + d <= Product(d, b)
  {
    assert Product(d, b) == Product(d, a) + Product(d, b - a) by { Distribute(d, a, b - a); }
    assert Product(d, b - a) == d + Product(d, b - a - 1) by { Distribute(d, 1, b - a - 1); }
  }

  lemma Distribute(d: nat, a: nat, b: nat)
    ensures Product(d, a + b) == Product(d, a) + Product(d, b) && Product(a + b, d) == Product(a, d) + Product(b, d)
    ensures Product(d, 1) == d && Product(1, d) == d
  {
  }

  lemma SumQuotient(x: nat, n: nat, d: nat)
    requires d > 0
    ensures x / d + n / d <= (x + n) / d <= x / d + n / d + 1
  {
    hide Product;
    DivMod(x, d);
    DivMod(n, d);
    Distribute(d, x / d, n / d);
    var r := x % d + n % d;
    if r < d {
      Quotient(d, x / d + n / d, r);
    } else {
      Distribute(d, x / d + n / d, 1);
      Quotient(d, x / d + n / d + 1, r - d);
    }
  }

  lemma StepGrows(index: nat, n: nat, d: nat)
    requires n >= d > 0
    ensures n / d >= 1
    ensures n / d <= Scaled(index + 1, n, d) - Scaled(index, n, d) <= n / d + 1
  {
    hide Product;
    Distribute(n, index, 1);
    SumQuotient(Product(index, n), n, d);
    SumQuotient(n - d, d, d);
  }

  /** Consecutive sampled rows are never further apart than any other two by more than one. */
  lemma EvenSpacing(rows: nat, index: nat)
    requires index + 1 < Requested(rows)
    ensures var base, gap := BaseRows(rows), (rows - 1) / (Requested(rows) - 1);
            && gap >= 1
            && gap <= base[index + 1] - base[index] <= gap + 1
  {
    StepGrows(index, rows - 1, Requested(rows) - 1);
  }

  lemma {:induction false} StepsAdd(list: seq<nat>, i: nat, j: nat)
    requires i < j < |list|
    requires forall k :: 0 <= k && k + 1 < |list| ==> list[k] < list[k + 1]
    ensures list[i] < list[j]
    decreases j - i
  {
    if i + 1 < j {
      StepsAdd(list, i + 1, j);
    }
    assert list[i] < list[i + 1];
  }

  /** The evenly spaced rows increase strictly from row 0 to the last row, and are all the rows of a small source. */
  lemma Linspace(rows: nat)
    requires rows > 0
    ensures Increasing(BaseRows(rows))
    ensures BaseRows(rows)[0] == 0 && BaseRows(rows)[Requested(rows) - 1] == rows - 1
    ensures rows <= SAMPLE_ROWS ==> forall k :: 0 <= k < rows ==> BaseRows(rows)[k] == k
  {
    hide BaseRows;
    var base := BaseRows(rows);
    forall k | 0 <= k && k + 1 < |base| ensures base[k] < base[k + 1] {
      EvenSpacing(rows, k);
    }
    forall i, j | 0 <= i < j < |base| ensures base[i] < base[j] {
      StepsAdd(base, i, j);
    }
    Ends(rows);
    if rows <= SAMPLE_ROWS {
      forall k | 0 <= k < rows ensures base[k] == k {
        WholeSource(rows, k);
      }
    }
  }

  lemma Ends(rows: nat)
    requires rows > 0
    ensures BaseRows(rows)[0] == 0 && BaseRows(rows)[Requested(rows) - 1] == rows - 1
  {
    if Requested(rows) > 1 {
      Exact(Requested(rows) - 1, rows - 1);
      Exact(Requested(rows) - 1, 0);
      assert Scaled(0, rows - 1, Requested(rows) - 1) == 0;
    }
  }

  lemma Exact(d: nat, q: nat)
    requires d > 0
    ensures Scaled(d, q, d) == q && Scaled(q, d, d) == q
  {
    hide Product;
    Commutes(d, q);
    Quotient(d, q, 0);
  }

  lemma Commutes(a: nat, b: nat)
    ensures Product(a, b) == Product(b, a)
  {
  }

  lemma WholeSource(rows: nat, k: nat)
    requires k < rows <= SAMPLE_ROWS
    ensures BaseRows(rows)[k] == k
  {
    hide Scaled;
    if rows > 1 {
      Exact(rows - 1, k);
    }
  }

  lemma {:induction false} InsertExact(row: nat, sorted: seq<nat>)
    requires Increasing(sorted)
    ensures Increasing(Insert(row, sorted))
    ensures forall x :: x in Insert(row, sorted) <==> x == row || x in sorted
  {
    if sorted == [] || row <= sorted[0] {
    } else {
      InsertExact(row, sorted[1..]);
      assert sorted == [sorted[0]] + sorted[1..];
      var rest := Insert(row, sorted[1..]);
      forall k | 0 <= k < |rest| ensures sorted[0] < rest[k] {
        assert rest[k] in rest;
      }
    }
  }

  lemma {:induction false} SortedSetExact(rows: seq<nat>)
    ensures Increasing(SortedSet(rows))
    ensures forall x :: x in SortedSet(rows) <==> x in rows
  {
    if rows != [] {
      SortedSetExact(rows[1..]);
      InsertExact(rows[0], SortedSet(rows[1..]));
      assert rows == [rows[0]] + rows[1..];
    }
  }

  /**
   The row list holds the evenly spaced rows and the task's, in strictly increasing order. The checked variant accepts
   exactly task rows inside the source; the list then runs from row 0 to the last row, and a small source is kept whole.
   */
  lemma SampledRowsExact(rows: nat, taskRows: seq<nat>)
    requires rows > 0
    ensures var list := SampledRows(rows, taskRows);
            && Increasing(list)
            && (forall x :: x in list <==> x in BaseRows(rows) || x in taskRows)
            && (CheckedRows(rows, taskRows).Ok? <==> forall x :: x in taskRows ==> x < rows)
            && (CheckedRows(rows, taskRows).Ok? ==>
                 && CheckedRows(rows, taskRows).value == (Requested(rows), list)
                 && list != [] && list[0] == 0 && list[|list| - 1] == rows - 1
                 && (rows <= SAMPLE_ROWS ==> list == seq(rows, k => k)))
  {
    hide SortedSet, BaseRows;
    var base, list := BaseRows(rows), SampledRows(rows, taskRows);
    SortedSetExact(base + taskRows);
    Linspace(rows);
    BaseInside(rows);
    assert forall k :: 0 <= k < |list| ==> list[k] in list;
    if CheckedRows(rows, taskRows).Ok? {
      assert base[0] in list && base[Requested(rows) - 1] in list;
      if rows <= SAMPLE_ROWS {
        SmallSource(rows, list);
      }
    }
  }

  lemma SmallSource(rows: nat, list: seq<nat>)
    requires 0 < rows <= SAMPLE_ROWS && Increasing(list)
    requires forall x :: x in BaseRows(rows) ==> x in list
    requires forall x :: x in list ==> x < rows
    ensures list == seq(rows, k => k)
  {
    hide BaseRows;
    Linspace(rows);
    var all: seq<nat> := seq(rows, k => k);
    forall x: nat | x < rows ensures x in list && x in all {
      assert BaseRows(rows)[x] in BaseRows(rows) && all[x] == x;
    }
    OneStrictArrangement(list, all, Before);
  }

  lemma BaseInside(rows: nat)
    requires rows > 0
    ensures forall x :: x in BaseRows(rows) ==> x < rows
  {
    hide BaseRows;
    Linspace(rows);
  }

  // ---------- Reading rows ----------

  /** What a seek to `offset` and a read of `count` bytes return. */
  function ReadAt(file: bytes, offset: nat, count: nat): (data: bytes)
    ensures |data| <= count
  {
    if offset >= |file| then []
    else if offset + count <= |file| then file[offset..offset + count]
    else file[offset..]
  }

  function Row(file: bytes, row: nat, width: nat): bytes {
    ReadAt(file, Product(row, width), width)
  }

  /** Row `row` is the stretch of `width` bytes from `row * width` on, cut off at the end of the file. */
  lemma RowIsStretch(file: bytes, row: nat, width: nat)
    ensures row * width + width <= |file| ==> Row(file, row, width) == file[row * width..row * width + width]
    ensures row * width <= |file| < row * width + width ==> Row(file, row, width) == file[row * width..]
    ensures |file| < row * width ==> Row(file, row, width) == []
  {
  }

  /** The rows of a list, one after the other. */
  function RowsOf(file: bytes, indices: seq<nat>, width: nat): bytes {
    if indices == [] then []
    else RowsOf(file, indices[..|indices| - 1], width) + Row(file, indices[|indices| - 1], width)
  }

  function HashesOf(file: bytes, indices: seq<nat>, width: nat, hash: bytes -> string): (hashes: seq<string>)
    ensures |hashes| == |indices|
  {
    seq(|indices|, k requires 0 <= k < |indices| => hash(Row(file, indices[k], width)))
  }

  predicate AllRead(file: bytes, indices: seq<nat>, width: nat) {
    forall k :: 0 <= k < |indices| ==> |Row(file, indices[k], width)| == width
  }

  /** A row can be read exactly when the file reaches its end. */
  lemma RowIsRead(file: bytes, row: nat, width: nat)
    ensures |Row(file, row, width)| == width <==> width == 0 || Product(row + 1, width) <= |file|
  {
    hide Product;
    Distribute(width, row, 1);
  }

  datatype SampleRecord = SampleRecord(sha256: string, size: nat, encoding: string, rowHashes: seq<string>)

  const ENCODING := "row-major-f32-le"

  /** What a sample of these rows is on disk and in the records. */
  function SampleOf(file: bytes, indices: seq<nat>, vocab: nat, hash: bytes -> string): (bytes, SampleRecord) {
    var width := vocab * F32_SIZE;
    var body := RowsOf(file, indices, width);
    (body, SampleRecord(hash(body), |body|, ENCODING, HashesOf(file, indices, width, hash)))
  }

  lemma OneMoreRow(file: bytes, indices: seq<nat>, n: nat, width: nat)
    requires n < |indices|
    ensures RowsOf(file, indices[..n + 1], width) == RowsOf(file, indices[..n], width) + Row(file, indices[n], width)
  {
    assert indices[..n + 1][..n] == indices[..n];
  }

  /**
   The CUDA writer: copies the rows to the sample file and records their hashes. `sourceAfter` is what the source holds
   once the rows are written.
   */
  method SampleFile(source: bytes, sourceAfter: bytes, indices: seq<nat>, vocab: nat, expectedHash: string,
                    hash: bytes -> string)
    returns (r: Result<(bytes, SampleRecord), string>)
    ensures r.Ok? <==> hash(source) == hash(sourceAfter) == expectedHash && AllRead(source, indices, vocab * F32_SIZE)
    ensures r.Ok? ==> r.value == SampleOf(source, indices, vocab, hash)
  {
    hide Row, RowsOf;
    if hash(source) != expectedHash {
      return Err("source logits changed before sampling");
    }
    var rowBytes := vocab * F32_SIZE;
    var target: bytes, rowHashes := [], [];
    assert indices[..0] == [];
    assert RowsOf(source, indices[..0], rowBytes) == [] by { NoRows(source, rowBytes); }
    for n := 0 to |indices|
      invariant target == RowsOf(source, indices[..n], rowBytes)
      invariant |rowHashes| == n && forall k :: 0 <= k < n ==> rowHashes[k] == hash(Row(source, indices[k], rowBytes))
      invariant AllRead(source, indices[..n], rowBytes)
    {
      var data := Row(source, indices[n], rowBytes);
      if |data| != rowBytes {
        return Err("logits source row is truncated");
      }
      target := target + data;
      rowHashes := rowHashes + [hash(data)];
      OneMoreRow(source, indices, n, rowBytes);
    }
    assert indices[..|indices|] == indices;
    assert rowHashes == HashesOf(source, indices, rowBytes, hash);
    if hash(sourceAfter) != expectedHash {
      return Err("source logits changed during sampling");
    }
    r := Ok((target, SampleRecord(hash(target), |target|, ENCODING, rowHashes)));
  }

  lemma NoRows(file: bytes, width: nat)
    ensures RowsOf(file, [], width) == []
  {
  }

  /** The freezer: predicts the sample's record without writing it, by feeding a running hash. */
  method SampledMetadata(source: bytes, indices: seq<nat>, vocab: nat, hash: bytes -> string)
    returns (r: Result<SampleRecord, string>)
    ensures r.Ok? <==> AllRead(source, indices, vocab * F32_SIZE)
    ensures r.Ok? ==> r.value == SampleOf(source, indices, vocab, hash).1 && r.value.encoding == "row-major-f32-le"
  {
    hide Row, RowsOf;
    var rowBytes := vocab * F32_SIZE;
    var hashed: bytes, rowHashes := [], [];
    assert indices[..0] == [];
    NoRows(source, rowBytes);
    for n := 0 to |indices|
      invariant hashed == RowsOf(source, indices[..n], rowBytes)
      invariant |rowHashes| == n && forall k :: 0 <= k < n ==> rowHashes[k] == hash(Row(source, indices[k], rowBytes))
      invariant AllRead(source, indices[..n], rowBytes)
    {
      var data := Row(source, indices[n], rowBytes);
      if |data| != rowBytes {
        return Err("sample source row is truncated");
      }
      hashed := hashed + data;
      rowHashes := rowHashes + [hash(data)];
      OneMoreRow(source, indices, n, rowBytes);
    }
    assert indices[..|indices|] == indices;
    assert rowHashes == HashesOf(source, indices, rowBytes, hash);
    RowsFill(source, indices, rowBytes);
    r := Ok(SampleRecord(hash(hashed), |indices| * rowBytes, ENCODING, rowHashes));
  }

  /** The rows of a sample fill it completely, and position `p` of the sample holds row `indices[p]` of the source. */
  lemma {:induction false} RowsFill(file: bytes, indices: seq<nat>, width: nat)
    requires AllRead(file, indices, width)
    ensures |RowsOf(file, indices, width)| == Product(|indices|, width)
    ensures forall p :: 0 <= p < |indices| ==>
              Row(RowsOf(file, indices, width), p, width) == Row(file, indices[p], width)
  {
    hide Row, Product;
    if indices == [] {
      Distribute(width, 0, 0);
    } else {
      var last := |indices| - 1;
      var front := indices[..last];
      RowsFill(file, front, width);
      var head, tail := RowsOf(file, front, width), Row(file, indices[last], width);
      Distribute(width, last, 1);
      RowAfter(head, tail, last, width);
      forall p | 0 <= p < last ensures Row(head + tail, p, width) == Row(file, indices[p], width) {
        assert front[p] == indices[p];
        RowOfPrefix(head, tail, p, last, width);
      }
    }
  }

  lemma RowOfPrefix(head: bytes, tail: bytes, p: nat, n: nat, width: nat)
    requires p < n && |head| == Product(n, width)
    ensures Row(head + tail, p, width) == Row(head, p, width)
  {
    Distribute(width, p + 1, n - p - 1);
    Distribute(width, p, 1);
    assert Product(p, width) + width <= Product(n, width);
    var whole := head + tail;
    if width > 0 {
      assert whole[Product(p, width)..Product(p, width) + width] == head[Product(p, width)..Product(p, width) + width];
    }
  }

  lemma RowAfter(head: bytes, tail: bytes, n: nat, width: nat)
    requires |head| == Product(n, width) && |tail| == width
    ensures Row(head + tail, n, width) == tail
  {
    assert (head + tail)[|head|..] == tail;
  }

  function Max(indices: seq<nat>): (m: nat)
    requires indices != []
    ensures m in indices && forall k :: 0 <= k < |indices| ==> indices[k] <= m
  {
    if |indices| == 1 then indices[0]
    else
      var rest := Max(indices[1..]);
      assert forall k :: 0 < k < |indices| ==> indices[k] == indices[1..][k - 1];
      if indices[0] >= rest then indices[0] else rest
  }

  lemma FileCoversRows(file: bytes, indices: seq<nat>, width: nat)
    requires indices != []
    ensures AllRead(file, indices, width) <==> Product(Max(indices) + 1, width) <= |file|
  {
    hide Row, Product;
    var m := Max(indices);
    RowIsRead(file, m, width);
    if Product(m + 1, width) <= |file| {
      forall k | 0 <= k < |indices| ensures |Row(file, indices[k], width)| == width {
        RowIsRead(file, indices[k], width);
        Distribute(width, indices[k] + 1, m - indices[k]);
      }
    }
    if width == 0 { NoWidth(m + 1); }
  }

  lemma NoWidth(n: nat)
    ensures Product(n, 0) == 0
  {
  }

  /** The record that the Metal writer makes of a file it wrote. */
  function ArtifactRecord(file: bytes, rowHashes: seq<string>, hash: bytes -> string): SampleRecord {
    SampleRecord(hash(file), |file|, ENCODING, rowHashes)
  }

  /** The Metal writer also compares the source with its stage record, before it reads any row. */
  method SampleLogits(source: bytes, sourceAfter: bytes, indices: seq<nat>, vocab: nat, expectedBytes: nat,
                      expectedHash: string, hash: bytes -> string)
    returns (r: Result<(bytes, SampleRecord), string>)
    ensures r.Ok? <==> |source| == expectedBytes && hash(source) == hash(sourceAfter) == expectedHash && indices != []
                       && AllRead(source, indices, vocab * F32_SIZE)
    ensures r.Ok? ==> r.value == SampleOf(source, indices, vocab, hash)
  {
    hide Row, RowsOf;
    var rowBytes := vocab * F32_SIZE;
    if |source| != expectedBytes {
      return Err("logits source size differs from its stage record");
    }
    if hash(source) != expectedHash {
      return Err("logits source hash differs from its stage record");
    }
    if indices == [] {
      return Err("max() of an empty list");
    }
    FileCoversRows(source, indices, rowBytes);
    if |source| < (Max(indices) + 1) * rowBytes {
      return Err("logits source is truncated");
    }
    var target: bytes, hashes := [], [];
    assert indices[..0] == [];
    NoRows(source, rowBytes);
    for n := 0 to |indices|
      invariant target == RowsOf(source, indices[..n], rowBytes)
      invariant |hashes| == n && forall k :: 0 <= k < n ==> hashes[k] == hash(Row(source, indices[k], rowBytes))
    {
      var data := Row(source, indices[n], rowBytes);
      if |data| != rowBytes {
        return Err("logits source row is truncated");
      }
      target := target + data;
      hashes := hashes + [hash(data)];
      OneMoreRow(source, indices, n, rowBytes);
    }
    assert indices[..|indices|] == indices;
    assert hashes == HashesOf(source, indices, rowBytes, hash);
    if hash(sourceAfter) != expectedHash {
      return Err("logits source changed during sampling");
    }
    r := Ok((target, ArtifactRecord(target, hashes, hash)));
  }

  // ---------- The validator ----------

  ghost predicate WritesHashes(hash: bytes -> string) {
    forall data :: Text.IsDigest(hash(data))
  }

  ghost predicate Injective(hash: bytes -> string) {
    forall one, two :: hash(one) == hash(two) ==> one == two
  }

  predicate RowAccepted(file: bytes, row: nat, width: nat, rowHash: string, hash: bytes -> string) {
    Text.IsDigest(rowHash) && hash(Row(file, row, width)) == rowHash
  }

  /** A sample file that matches its record, row by row. */
  predicate SampleAccepted(file: bytes, record: SampleRecord, count: nat, vocab: nat, hash: bytes -> string) {
    var width := vocab * F32_SIZE;
    && Text.IsDigest(record.sha256) && hash(file) == record.sha256
    && |file| == record.size == Product(count, width)
    && |record.rowHashes| == count
    && forall k :: 0 <= k < count ==> RowAccepted(file, k, width, record.rowHashes[k], hash)
  }

  method ValidateSampleFile(file: bytes, record: SampleRecord, count: nat, vocab: nat, hash: bytes -> string)
    returns (r: Result<(), string>)
    ensures r.Ok? <==> SampleAccepted(file, record, count, vocab, hash)
  {
    hide Text.IsDigest;
    if !Text.IsDigest(record.sha256) {
      return Err("not a SHA-256");
    }
    if hash(file) != record.sha256 {
      return Err("SHA-256 differs");
    }
    if |file| != record.size {
      return Err("byte count differs");
    }
    var rowBytes := vocab * F32_SIZE;
    if record.size != count * rowBytes {
      return Err("size differs");
    }
    if |record.rowHashes| != count {
      return Err("row hashes differ");
    }
    var position := 0;
    for n := 0 to count
      invariant position == Product(n, rowBytes)
      invariant forall k :: 0 <= k < n ==> RowAccepted(file, k, rowBytes, record.rowHashes[k], hash)
    {
      if !Text.IsDigest(record.rowHashes[n]) {
        return Err("row hash is not a SHA-256");
      }
      var data := ReadAt(file, position, rowBytes);
      FileHoldsRow(file, n, count, rowBytes);
      Distribute(rowBytes, n, 1);
      position := position + |data|;
      if hash(data) != record.rowHashes[n] {
        return Err("row hash differs");
      }
    }
    r := Ok(());
  }

  lemma FileHoldsRow(file: bytes, n: nat, count: nat, width: nat)
    requires n < count && |file| == Product(count, width)
    ensures |Row(file, n, width)| == width
  {
    hide Product, Row;
    Distribute(width, n + 1, count - n - 1);
    RowIsRead(file, n, width);
  }

  /** The validator accepts whatever the writers write. */
  lemma WrittenIsAccepted(source: bytes, indices: seq<nat>, vocab: nat, hash: bytes -> string)
    requires AllRead(source, indices, vocab * F32_SIZE) && WritesHashes(hash)
    ensures var (file, record) := SampleOf(source, indices, vocab, hash);
            SampleAccepted(file, record, |indices|, vocab, hash)
  {
    hide Row, Product, RowsOf, Text.IsDigest;
    RowsFill(source, indices, vocab * F32_SIZE);
  }

  /** Files made of the same rows are the same. */
  lemma {:induction false} RowsDetermineFile(one: bytes, two: bytes, n: nat, width: nat)
    requires |one| == |two| == Product(n, width)
    requires forall k :: 0 <= k < n ==> Row(one, k, width) == Row(two, k, width)
    ensures one == two
    decreases n
  {
    hide Row, Product;
    if n == 0 {
      Distribute(width, 0, 0);
    } else {
      Distribute(width, n - 1, 1);
      var cut := Product(n - 1, width);
      FileSplits(one, n - 1, width);
      FileSplits(two, n - 1, width);
      forall k | 0 <= k < n - 1 ensures Row(one[..cut], k, width) == Row(two[..cut], k, width) {
        RowOfPrefix(one[..cut], one[cut..], k, n - 1, width);
        RowOfPrefix(two[..cut], two[cut..], k, n - 1, width);
      }
      RowsDetermineFile(one[..cut], two[..cut], n - 1, width);
    }
  }

  lemma FileSplits(file: bytes, n: nat, width: nat)
    requires |file| == Product(n, width) + width
    ensures file == file[..Product(n, width)] + file[Product(n, width)..]
    ensures file[Product(n, width)..] == Row(file, n, width)
  {
  }

  /**
   With a hash that never collides, a sample accepted against the row hashes of a full file is exactly the rows of that
   file: the full file need not be kept.
   */
  lemma AcceptedIsSample(file: bytes, record: SampleRecord, source: bytes, indices: seq<nat>, vocab: nat,
                         hash: bytes -> string)
    requires Injective(hash) && AllRead(source, indices, vocab * F32_SIZE)
    requires SampleAccepted(file, record, |indices|, vocab, hash)
    requires record.rowHashes == HashesOf(source, indices, vocab * F32_SIZE, hash)
    ensures file == RowsOf(source, indices, vocab * F32_SIZE)
  {
    hide Row, Product, RowsOf, Text.IsDigest;
    var width := vocab * F32_SIZE;
    RowsFill(source, indices, width);
    forall k | 0 <= k < |indices| ensures Row(file, k, width) == Row(source, indices[k], width) {
      assert RowAccepted(file, k, width, record.rowHashes[k], hash);
      assert hash(Row(file, k, width)) == hash(Row(source, indices[k], width));
    }
    RowsDetermineFile(file, RowsOf(source, indices, width), |indices|, width);
  }

  // ---------- The sampled tokens ----------

  /** The token at `first`, then the token after each sampled row; an index beyond the stream fails. */
  function TokensFrom(tokens: seq<nat>, first: nat, indices: seq<nat>): Option<seq<nat>> {
    if first < |tokens| && (forall k :: 0 <= k < |indices| ==> indices[k] + 1 < |tokens|) then
      Some([tokens[first]] +
           seq(|indices|, k requires 0 <= k < |indices| && indices[k] + 1 < |tokens| => tokens[indices[k] + 1]))
    else None
  }

  /** The CUDA writer starts from the stream's first token. */
  function CudaTokens(tokens: seq<nat>, indices: seq<nat>): Option<seq<nat>> {
    TokensFrom(tokens, 0, indices)
  }

  /** The Metal writer and the validator start from the token of the first sampled row. */
  function RowTokens(tokens: seq<nat>, indices: seq<nat>): Option<seq<nat>> {
    if indices == [] then None else TokensFrom(tokens, indices[0], indices)
  }

  /** On the lists the tools build, the two agree, and need exactly one token more than there are rows. */
  lemma TokensAgree(tokens: seq<nat>, rows: nat, taskRows: seq<nat>)
    requires rows > 0 && CheckedRows(rows, taskRows).Ok?
    ensures var indices := SampledRows(rows, taskRows);
            && CudaTokens(tokens, indices) == RowTokens(tokens, indices)
            && (RowTokens(tokens, indices).Some? <==> |tokens| > rows)
  {
    hide BaseRows, SampledRows;
    SampledRowsExact(rows, taskRows);
  }

  // ---------- The task's answer ----------

  /** Where each row of a list stands in it. */
  function Positions(indices: seq<nat>): map<nat, nat> {
    if indices == [] then map[]
    else Positions(indices[..|indices| - 1])[indices[|indices| - 1] := |indices| - 1]
  }

  lemma {:induction false} PositionsExact(indices: seq<nat>)
    requires Increasing(indices)
    ensures forall row :: row in Positions(indices) <==> row in indices
    ensures forall row :: row in Positions(indices) ==>
              Positions(indices)[row] < |indices| && indices[Positions(indices)[row]] == row
  {
    if indices != [] {
      var front := indices[..|indices| - 1];
      PositionsExact(front);
      assert indices == front + [indices[|indices| - 1]];
    }
  }

  /** The floats of a row, given how four bytes stand for one. */
  function Unpack(raw: bytes, decode: bytes -> Logit): seq<Logit>
    requires |raw| % F32_SIZE == 0
  {
    seq(|raw| / F32_SIZE, k requires 0 <= k < |raw| / F32_SIZE => decode(raw[F32_SIZE * k..F32_SIZE * k + F32_SIZE]))
  }

  function TaskArgmax(file: bytes, row: nat, vocab: nat, decode: bytes -> Logit): Result<nat, string> {
    var raw := Row(file, row, vocab * F32_SIZE);
    if |raw| != vocab * F32_SIZE then Err("row is truncated") else CanonicalArgmaxOf(Unpack(raw, decode))
  }

  /** The logits of a row are the floats of its words. */
  predicate WordsHold(file: bytes, start: nat, logits: seq<Logit>, decode: bytes -> Logit) {
    && start + |logits| * 4 <= |file|
    && forall k :: 0 <= k < |logits| ==> logits[k] == decode(file[start + 4 * k..start + 4 * k + 4])
  }

  predicate RowHolds(file: bytes, row: nat, logits: seq<Logit>, decode: bytes -> Logit) {
    WordsHold(file, row * (|logits| * 4), logits, decode)
  }

  /**
   The argmax of a whole row is the least maximum of its logits, if there is one and it is finite. A row that the file
   cuts off has none.
   */
  lemma TaskArgmaxMeans(file: bytes, row: nat, logits: seq<Logit>, decode: bytes -> Logit, top: nat)
    ensures RowHolds(file, row, logits, decode) ==>
              (TaskArgmax(file, row, |logits|, decode) == Ok(top) <==>
                 && NaNFree(logits) && top < |logits| && IsLeastMaximum(logits, top) && IsFinite(logits[top]))
    ensures |file| < row * (|logits| * 4) + |logits| * 4 ==> TaskArgmax(file, row, |logits|, decode).Err?
  {
    hide Row, IsLeastMaximum, Product, Below, Unpack, CanonicalArgmaxOf;
    var width := |logits| * 4;
    RowIsStretch(file, row, width);
    RowIsCut(file, row, width);
    if RowHolds(file, row, logits, decode) {
      UnpackIs(file, row * width, logits, decode);
      ArgmaxIs(logits, top);
    }
  }

  lemma RowIsCut(file: bytes, row: nat, width: nat)
    ensures |file| < row * width + width ==> |Row(file, row, width)| != width
  {
    RowIsStretch(file, row, width);
  }

  lemma UnpackIs(file: bytes, start: nat, logits: seq<Logit>, decode: bytes -> Logit)
    requires WordsHold(file, start, logits, decode)
    ensures Unpack(file[start..start + |logits| * 4], decode) == logits
  {
    var raw := file[start..start + |logits| * 4];
    forall k | 0 <= k < |logits| ensures Unpack(raw, decode)[k] == logits[k] {
      SliceOfSlice(file, start, |logits| * 4, 4 * k);
    }
  }

  lemma SliceOfSlice(file: bytes, start: nat, size: nat, at: nat)
    requires start + size <= |file| && at + 4 <= size
    ensures file[start..start + size][at..at + 4] == file[start + at..start + at + 4]
  {
    var one, two := file[start..start + size][at..at + 4], file[start + at..start + at + 4];
    assert |one| == |two| == 4;
    assert forall k :: 0 <= k < 4 ==> one[k] == two[k];
  }

  lemma ArgmaxIs(logits: seq<Logit>, top: nat)
    ensures CanonicalArgmaxOf(logits) == Ok(top) <==>
              NaNFree(logits) && top < |logits| && IsLeastMaximum(logits, top) && IsFinite(logits[top])
  {
    hide IsLeastMaximum, Below;
    if logits != [] && NaNFree(logits) {
      var best := Best(logits, |logits|);
      BestIsLeastMaximum(logits, |logits|);
      assert logits[..|logits|] == logits;
      if top < |logits| && IsLeastMaximum(logits, top) {
        LeastMaximumIsUnique(logits, top, best);
      }
    }
  }

  /** The rows at `places` argmax to the answer, token by token. */
  predicate Answers(file: bytes, taskRows: seq<nat>, places: map<nat, nat>, answer: seq<nat>, vocab: nat,
                    decode: bytes -> Logit)
  {
    |answer| == |taskRows| && forall k :: 0 <= k < |taskRows| ==>
      taskRows[k] in places && TaskArgmax(file, places[taskRows[k]], vocab, decode) == Ok(answer[k])
  }

  /** Every sampled subject must answer. */
  method ValidateTaskLogits(samples: seq<bytes>, indices: seq<nat>, taskRows: seq<nat>, answer: seq<nat>, vocab: nat,
                            decode: bytes -> Logit)
    returns (r: Result<(), string>)
    ensures r.Ok? <==> forall k :: 0 <= k < |samples| ==>
                         Answers(samples[k], taskRows, Positions(indices), answer, vocab, decode)
  {
    hide Answers;
    var positions := Positions(indices);
    for n := 0 to |samples|
      invariant forall k :: 0 <= k < n ==> Answers(samples[k], taskRows, positions, answer, vocab, decode)
    {
      var checked := ValidateSubject(samples[n], positions, taskRows, answer, vocab, decode);
      if checked.Err? {
        return checked;
      }
    }
    r := Ok(());
  }

  method ValidateSubject(sample: bytes, positions: map<nat, nat>, taskRows: seq<nat>, answer: seq<nat>, vocab: nat,
                         decode: bytes -> Logit)
    returns (r: Result<(), string>)
    ensures r.Ok? <==> Answers(sample, taskRows, positions, answer, vocab, decode)
  {
    hide TaskArgmax;
    var observed: seq<nat> := [];
    for n := 0 to |taskRows|
      invariant |observed| == n
      invariant forall k :: 0 <= k < n ==>
        taskRows[k] in positions && TaskArgmax(sample, positions[taskRows[k]], vocab, decode) == Ok(observed[k])
    {
      if taskRows[n] !in positions {
        return Err("row is absent from the sample");
      }
      var top := TaskArgmax(sample, positions[taskRows[n]], vocab, decode);
      if top.Err? {
        return Err(top.error);
      }
      observed := observed + [top.value];
    }
    assert |observed| == |answer| && (forall k :: 0 <= k < |observed| ==> observed[k] == answer[k]) ==>
        observed == answer;
    if observed != answer {
      return Err("answer differs");
    }
    r := Ok(());
  }

  /** Every task row of a full file argmaxes to its token of the answer. */
  predicate FullAnswers(source: bytes, taskRows: seq<nat>, answer: seq<nat>, vocab: nat, decode: bytes -> Logit) {
    |answer| == |taskRows| && forall k :: 0 <= k < |taskRows| ==>
      TaskArgmax(source, taskRows[k], vocab, decode) == Ok(answer[k])
  }

  /**
   The check on the sample decides the question about the full file: it accepts exactly when the argmax of every task
   row of the full file is the answer's token.
   */
  lemma SampleDecidesTask(source: bytes, rows: nat, taskRows: seq<nat>, answer: seq<nat>, vocab: nat,
                          decode: bytes -> Logit)
    requires rows > 0 && CheckedRows(rows, taskRows).Ok?
    requires AllRead(source, SampledRows(rows, taskRows), vocab * F32_SIZE)
    ensures var indices := SampledRows(rows, taskRows);
            Answers(RowsOf(source, indices, vocab * F32_SIZE), taskRows, Positions(indices), answer, vocab, decode)
            <==> FullAnswers(source, taskRows, answer, vocab, decode)
  {
    hide Row, RowsOf, SampledRows, BaseRows, Positions;
    var indices, width := SampledRows(rows, taskRows), vocab * F32_SIZE;
    var sample := RowsOf(source, indices, width);
    SampledRowsExact(rows, taskRows);
    PositionsExact(indices);
    RowsFill(source, indices, width);
    forall k | 0 <= k < |taskRows|
      ensures taskRows[k] in Positions(indices)
      ensures TaskArgmax(sample, Positions(indices)[taskRows[k]], vocab, decode)
           == TaskArgmax(source, taskRows[k], vocab, decode)
    {
      assert taskRows[k] in taskRows;
    }
  }
}
