/**
 The content manifest of a package: the writer prints one row for each staged file, and the verifier reads the rows and
 compares them with the extracted tree. SHA-256 is an arbitrary function to 64 lower-case hexadecimal digits.
 */
module Manifest {
  import opened Bytes
  import opened Wrappers
  import opened Extraction
  import opened Orders
  import PosixPath
  import Text

  const MANIFEST: Path := ["MANIFEST.sha256"]

  type Sha = bytes -> string

  ghost predicate Digests(sha: Sha) {
    forall data :: Text.IsDigest(sha(data))
  }

  // ---------- Lines and fields of text ----------

  /** The characters that end a line for Python's `str.splitlines`. */
  predicate IsBreak(c: char) {
    c in {'\n', '\r', '\U{0B}', '\U{0C}', '\U{1C}', '\U{1D}', '\U{1E}', '\U{85}', '\U{2028}', '\U{2029}'}
  }

  /** The characters that separate fields for Python's `str.split`. */
  predicate IsSpace(c: char) {
    || IsBreak(c)
    || c in {' ', '\t', '\U{1F}', '\U{A0}', '\U{1680}', '\U{202F}', '\U{205F}', '\U{3000}'}
    || '\U{2000}' <= c <= '\U{200A}'
  }

  predicate NoBreak(text: string) {
    forall k :: 0 <= k < |text| ==> !IsBreak(text[k])
  }

  function FindBreak(text: string): (i: nat)
    ensures i <= |text| && NoBreak(text[..i])
    ensures i < |text| ==> IsBreak(text[i])
  {
    if text == [] || IsBreak(text[0]) then 0 else 1 + FindBreak(text[1..])
  }

  /** The lines of a text file; a carriage return before a line feed belongs to the same line end. */
  function Lines(text: string): seq<string>
    decreases |text|
  {
    if text == [] then [] else
    var i := FindBreak(text);
    if i == |text| then [text]
    else
      var end := if text[i] == '\r' && i + 1 < |text| && text[i + 1] == '\n' then i + 2 else i + 1;
      [text[..i]] + Lines(text[end..])
  }

  predicate Suffix(part: string, text: string) {
    |part| <= |text| && part == text[|text| - |part|..]
  }

  function DropSpaces(text: string): (r: string)
    ensures Suffix(r, text)
  {
    if text != [] && IsSpace(text[0]) then DropSpaces(text[1..]) else text
  }

  /** The length of the leading run without white space. */
  function WordLength(text: string): (n: nat)
    ensures n <= |text|
  {
    if text == [] || IsSpace(text[0]) then 0 else 1 + WordLength(text[1..])
  }

  /** `line.split(maxsplit=1)`: no field, one field, or the first field and the rest of the line. */
  function Fields(line: string): seq<string> {
    var start := DropSpaces(line);
    if start == [] then [] else
    var n := WordLength(start);
    var rest := DropSpaces(start[n..]);
    if rest == [] then [start[..n]] else [start[..n], rest]
  }

  /** `text.lstrip(" *")` */
  function StripMarks(text: string): (r: string)
    ensures Suffix(r, text)
  {
    if text != [] && (text[0] == ' ' || text[0] == '*') then StripMarks(text[1..]) else text
  }

  // ---------- Reading ----------

  function ReadRow(line: string): Result<(string, string), string> {
    var fields := Fields(line);
    if |fields| != 2 || |fields[0]| != 64 then Err("archive manifest contains an invalid row") else
    var stripped := StripMarks(fields[1]);
    var relative := if "./" <= stripped then stripped[2..] else stripped;
    if !Safe(relative) then Err("archive contains an unsafe path") else Ok((relative, Text.Lower(fields[0])))
  }

  function ReadRows(lines: seq<string>, entries: map<string, string>): Result<map<string, string>, string>
    decreases |lines|
  {
    if lines == [] then Ok(entries) else
    var (relative, digest) :- ReadRow(lines[0]);
    if relative in entries then Err("archive manifest repeats a file")
    else ReadRows(lines[1..], entries[relative := digest])
  }

  function Entries(text: string): Result<map<string, string>, string> {
    var entries :- ReadRows(Lines(text), map[]);
    if entries == map[] then Err("archive manifest is empty") else Ok(entries)
  }

  method ManifestEntries(text: string) returns (r: Result<map<string, string>, string>)
    ensures r == Entries(text)
  {
    hide ReadRow, Lines;
    var lines := Lines(text);
    var entries: map<string, string> := map[];
    for n := 0 to |lines|
      invariant ReadRows(lines[n..], entries) == ReadRows(lines, map[])
    {
      var row := ReadRow(lines[n]);
      if row.Err? {
        return Err(row.error);
      }
      var (relative, digest) := row.value;
      if relative in entries {
        return Err("archive manifest repeats a file");
      }
      entries := entries[relative := digest];
      assert lines[n..][1..] == lines[n + 1..];
    }
    if entries == map[] {
      return Err("archive manifest is empty");
    }
    r := Ok(entries);
  }

  // ---------- Writing ----------

  predicate Listed(tree: Tree, path: Path) {
    IsFile(tree, path) && path != MANIFEST
  }

  /** A listing of the paths of a tree, in any order. */
  predicate Lists(listing: seq<Path>, tree: Tree) {
    && Distinct(listing)
    && (forall k :: 0 <= k < |listing| ==> listing[k] in tree)
    && (forall path :: path in tree ==> path in listing)
  }

  /** The staged files of a listing, without the manifest itself. */
  function FilesIn(listing: seq<Path>, tree: Tree): (files: seq<Path>)
    ensures forall path :: path in files <==> path in listing && Listed(tree, path)
    ensures forall k :: 0 <= k < |files| ==> Listed(tree, files[k])
  {
    if listing == [] then []
    else
      var last := |listing| - 1;
      FilesIn(listing[..last], tree) + if Listed(tree, listing[last]) then [listing[last]] else []
  }

  function Row(tree: Tree, path: Path, sha: Sha): string
    requires IsFile(tree, path)
  {
    sha(tree[path].data) + "  ./" + PosixPath.Print(path)
  }

  function Rows(files: seq<Path>, tree: Tree, sha: Sha): (rows: seq<string>)
    requires forall k :: 0 <= k < |files| ==> Listed(tree, files[k])
  {
    seq(|files|, k requires 0 <= k < |files| => assert Listed(tree, files[k]); Row(tree, files[k], sha))
  }

  function ManifestText(files: seq<Path>, tree: Tree, sha: Sha): string
    requires forall k :: 0 <= k < |files| ==> Listed(tree, files[k])
  {
    Text.Join(Rows(files, tree, sha), '\n') + "\n"
  }

  method WriteManifest(listing: seq<Path>, tree: Tree, sha: Sha) returns (text: string)
    ensures text == ManifestText(FilesIn(listing, tree), tree, sha)
  {
    var files: seq<Path> := [];
    for n := 0 to |listing|
      invariant files == FilesIn(listing[..n], tree)
    {
      if IsFile(tree, listing[n]) && listing[n] != MANIFEST {
        files := files + [listing[n]];
      }
      assert listing[..n + 1][..n] == listing[..n];
    }
    assert listing[..|listing|] == listing;
    text := Text.Join(Rows(files, tree, sha), '\n') + "\n";
  }

  /** Entries that name exactly the files of a tree, each with its digest. */
  predicate Matches(entries: map<string, string>, tree: Tree, sha: Sha) {
    && (forall path :: path in tree && Listed(tree, path) ==>
          PosixPath.Print(path) in entries && entries[PosixPath.Print(path)] == sha(tree[path].data))
    && (forall name :: name in entries ==>
          exists path :: path in tree && Listed(tree, path) && PosixPath.Print(path) == name)
  }

  /** The names of a tree on disk: nonempty normal parts, none of them a parent reference. */
  predicate Named(tree: Tree) {
    forall path :: path in tree ==> path != [] && PosixPath.Normal(path) && ".." !in path
  }

  // ---------- Reading what was written ----------

  lemma {:induction false} LinesOfJoin(rows: seq<string>)
    requires rows != [] && forall k :: 0 <= k < |rows| ==> NoBreak(rows[k])
    ensures Lines(Text.Join(rows, '\n') + "\n") == rows
  {
    hide Lines, NoBreak, Text.Join;
    var rest := rows[1..];
    Text.JoinCons(rows, '\n');
    assert [rows[0]] + rest == rows;
    if |rows| == 1 {
      assert rows[0] + "\n" == rows[0] + "\n" + "";
      LinesCons(rows[0], "");
      NoLines();
    } else {
      assert forall k :: 0 <= k < |rest| ==> rest[k] == rows[k + 1];
      LinesOfJoin(rest);
      var tail := Text.Join(rest, '\n') + "\n";
      assert Text.Join(rows, '\n') + "\n" == rows[0] + "\n" + tail;
      LinesCons(rows[0], tail);
    }
  }

  lemma NoLines()
    ensures Lines("") == []
  {
  }

  lemma LinesCons(row: string, tail: string)
    requires NoBreak(row)
    ensures Lines(row + "\n" + tail) == [row] + Lines(tail)
  {
    var text := row + "\n" + tail;
    var i := FindBreak(text);
    assert forall k :: 0 <= k < |row| ==> text[k] == row[k];
    assert forall k :: 0 <= k < i ==> text[k] == text[..i][k];
    assert text[|row|] == '\n';
    assert i == |row|;
    assert text[..i] == row && text[i + 1..] == tail;
  }

  lemma {:induction false} LinesHaveNoBreak(text: string)
    ensures forall k :: 0 <= k < |Lines(text)| ==> NoBreak(Lines(text)[k])
    decreases |text|
  {
    if text != [] {
      var i := FindBreak(text);
      if i == |text| {
        assert text[..i] == text;
      } else {
        var end := if text[i] == '\r' && i + 1 < |text| && text[i + 1] == '\n' then i + 2 else i + 1;
        LinesHaveNoBreak(text[end..]);
      }
    }
  }

  lemma {:induction false} WordOfDigest(digest: string, rest: string)
    requires forall k :: 0 <= k < |digest| ==> Text.LowerHex(digest[k])
    requires rest == [] || IsSpace(rest[0])
    ensures WordLength(digest + rest) == |digest|
  {
    if digest == [] {
      assert digest + rest == rest;
    } else {
      assert (digest + rest)[1..] == digest[1..] + rest;
      WordOfDigest(digest[1..], rest);
    }
  }

  lemma FieldsOfRow(digest: string, name: string)
    requires Text.IsDigest(digest)
    ensures Fields(digest + "  ./" + name) == [digest, "./" + name]
  {
    hide WordLength, IsSpace;
    var field, gap := "./" + name, " ./" + name;
    var line, tail := digest + "  ./" + name, "  ./" + name;
    assert IsSpace(' ') && !IsSpace('.') && !IsSpace(digest[0]) by { SpaceFacts(digest[0]); }
    assert line == digest + tail && line[0] == digest[0];
    WordOfDigest(digest, tail);
    assert line[64..] == tail && line[..64] == digest;
    assert tail[1..] == gap && gap[1..] == field;
    assert DropSpaces(gap) == DropSpaces(field);
    assert DropSpaces(tail) == DropSpaces(gap);
  }

  lemma SpaceFacts(c: char)
    ensures IsSpace(' ') && !IsSpace('.')
    ensures Text.LowerHex(c) ==> !IsSpace(c)
  {
  }

  lemma ReadRowOfRow(digest: string, path: Path)
    requires Text.IsDigest(digest) && path != [] && PosixPath.Normal(path) && ".." !in path
    ensures ReadRow(digest + "  ./" + PosixPath.Print(path)) == Ok((PosixPath.Print(path), digest))
  {
    hide Safe, Fields, PosixPath.Print;
    var name := PosixPath.Print(path);
    var field := "./" + name;
    FieldsOfRow(digest, name);
    assert StripMarks(field) == field && field[2..] == name;
    PrintIsSafe(path);
    assert Text.Lower(digest) == digest;
  }

  lemma PrintIsSafe(path: Path)
    requires path != [] && PosixPath.Normal(path) && ".." !in path
    ensures Safe(PosixPath.Print(path))
  {
    PosixPath.PartsPrint(path);
  }

  /** The entry of one file is in the table. */
  predicate HasEntry(entries: map<string, string>, tree: Tree, path: Path, sha: Sha) {
    var name := PosixPath.Print(path);
    IsFile(tree, path) && name in entries && entries[name] == sha(tree[path].data)
  }

  predicate NamesOne(files: seq<Path>, n: nat, name: string)
    requires n <= |files|
  {
    exists k :: 0 <= k < n && PosixPath.Print(files[k]) == name
  }

  /** Reading the rows of distinct files adds one entry for each. */
  lemma {:induction false} ReadRowsOfRows(files: seq<Path>, tree: Tree, sha: Sha, from: nat,
                                          entries: map<string, string>)
    requires Named(tree) && Digests(sha) && from <= |files|
    requires forall k :: 0 <= k < |files| ==> Listed(tree, files[k])
    requires Distinct(files)
    requires forall name :: name in entries <==> NamesOne(files, from, name)
    requires forall k :: 0 <= k < from ==> HasEntry(entries, tree, files[k], sha)
    ensures var r := ReadRows(Rows(files, tree, sha)[from..], entries);
            && r.Ok?
            && (forall name :: name in r.value <==> NamesOne(files, |files|, name))
            && (forall k :: 0 <= k < |files| ==> HasEntry(r.value, tree, files[k], sha))
    decreases |files| - from
  {
    hide ReadRow, PosixPath.Print, Row, Distinct, Named, NamesOne;
    var rows := Rows(files, tree, sha);
    if from < |files| {
      var path := files[from];
      var name := PosixPath.Print(path);
      assert Listed(tree, path);
      var digest := sha(tree[path].data);
      RowReads(tree, path, sha);
      assert rows[from..][0] == rows[from] && rows[from..][1..] == rows[from + 1..];
      NameIsNew(files, tree, from);
      var more := entries[name := digest];
      ReadRowsOfRows(files, tree, sha, from + 1, more);
    }
  }

  /** The next file's name is not among the earlier ones. */
  lemma NameIsNew(files: seq<Path>, tree: Tree, from: nat)
    requires Named(tree) && Distinct(files) && from < |files|
    requires forall k :: 0 <= k < |files| ==> Listed(tree, files[k])
    ensures forall k :: 0 <= k < from ==> PosixPath.Print(files[k]) != PosixPath.Print(files[from])
    ensures !NamesOne(files, from, PosixPath.Print(files[from]))
    ensures forall name ::
              NamesOne(files, from + 1, name) <==> NamesOne(files, from, name) || name == PosixPath.Print(files[from])
  {
    hide PosixPath.Print, Named;
    forall k | 0 <= k < from ensures PosixPath.Print(files[k]) != PosixPath.Print(files[from]) {
      assert Listed(tree, files[k]) && Listed(tree, files[from]);
      FilesPrintApart(tree, files[k], files[from]);
    }
    assert NamesOne(files, from + 1, PosixPath.Print(files[from]));
  }

  lemma RowReads(tree: Tree, path: Path, sha: Sha)
    requires Named(tree) && Digests(sha) && IsFile(tree, path)
    ensures ReadRow(Row(tree, path, sha)) == Ok((PosixPath.Print(path), sha(tree[path].data)))
  {
    ReadRowOfRow(sha(tree[path].data), path);
  }

  lemma FilesPrintApart(tree: Tree, one: Path, two: Path)
    requires Named(tree) && one in tree && two in tree && one != two
    ensures PosixPath.Print(one) != PosixPath.Print(two)
  {
    if PosixPath.Print(one) == PosixPath.Print(two) {
      PosixPath.PrintInjective(one, two);
    }
  }

  lemma {:induction false} FilesAreDistinct(listing: seq<Path>, tree: Tree)
    requires Distinct(listing)
    ensures Distinct(FilesIn(listing, tree))
  {
    if listing != [] {
      var init, last := listing[..|listing| - 1], listing[|listing| - 1];
      assert forall i :: 0 <= i < |init| ==> init[i] == listing[i];
      FilesAreDistinct(init, tree);
      assert forall k :: 0 <= k < |FilesIn(init, tree)| ==> FilesIn(init, tree)[k] in init;
      assert last !in init;
    }
  }

  /** An entry's name comes from its line, so it holds no line break. */
  lemma ReadRowKeepsLine(line: string)
    requires ReadRow(line).Ok? && NoBreak(line)
    ensures NoBreak(ReadRow(line).value.0)
  {
    hide DropSpaces, WordLength, StripMarks, Safe, Text.Lower, NoBreak, Suffix;
    var start := DropSpaces(line);
    SuffixHasNoBreak(start, line);
    var after := start[WordLength(start)..];
    CutIsSuffix(start, WordLength(start));
    SuffixHasNoBreak(after, start);
    SuffixHasNoBreak(DropSpaces(after), after);
    var stripped := StripMarks(DropSpaces(after));
    SuffixHasNoBreak(stripped, DropSpaces(after));
    if |stripped| >= 2 {
      CutIsSuffix(stripped, 2);
      SuffixHasNoBreak(stripped[2..], stripped);
    }
  }

  lemma CutIsSuffix(text: string, n: nat)
    requires n <= |text|
    ensures Suffix(text[n..], text)
  {
  }

  lemma SuffixHasNoBreak(part: string, text: string)
    requires Suffix(part, text) && NoBreak(text)
    ensures NoBreak(part)
  {
    assert forall k :: 0 <= k < |part| ==> part[k] == text[|text| - |part| + k];
  }

  lemma {:induction false} ReadRowsKeepLines(lines: seq<string>, entries: map<string, string>)
    requires forall k :: 0 <= k < |lines| ==> NoBreak(lines[k])
    requires forall name :: name in entries ==> NoBreak(name)
    requires ReadRows(lines, entries).Ok?
    ensures forall name :: name in ReadRows(lines, entries).value ==> NoBreak(name)
    decreases |lines|
  {
    hide ReadRow, NoBreak;
    if lines != [] {
      ReadRowKeepsLine(lines[0]);
      var (relative, digest) := ReadRow(lines[0]).value;
      assert forall k :: 0 <= k < |lines[1..]| ==> lines[1..][k] == lines[k + 1];
      ReadRowsKeepLines(lines[1..], entries[relative := digest]);
    }
  }

  lemma EntriesHaveNoBreak(text: string)
    requires Entries(text).Ok?
    ensures forall name :: name in Entries(text).value ==> NoBreak(name)
  {
    hide ReadRows, Lines, NoBreak;
    LinesHaveNoBreak(text);
    ReadRowsKeepLines(Lines(text), map[]);
  }

  lemma EmptyManifest()
    ensures Entries("\n").Err?
  {
    LinesCons("", "");
    assert "" + "\n" + "" == "\n";
    NoLines();
    assert ReadRow("").Err?;
  }

  /**
   Reading a written manifest gives exactly the staged files with their digests if and only if there is a staged file
   and no file name holds a line break.
   */
  lemma ManifestRoundTrip(listing: seq<Path>, tree: Tree, sha: Sha)
    requires Named(tree) && Digests(sha) && Lists(listing, tree)
    ensures var files := FilesIn(listing, tree);
            var r := Entries(ManifestText(files, tree, sha));
            (r.Ok? && Matches(r.value, tree, sha)) <==>
            (files != [] && forall path :: path in tree && Listed(tree, path) ==> NoBreak(PosixPath.Print(path)))
  {
    hide ReadRows, Lines, NoBreak, PosixPath.Print, Rows, Text.Join, Named;
    var files := FilesIn(listing, tree);
    var text := ManifestText(files, tree, sha);
    var plain := forall path :: path in tree && Listed(tree, path) ==> NoBreak(PosixPath.Print(path));
    if files == [] {
      assert text == "\n" by { EmptyText(tree, sha); }
      EmptyManifest();
    } else if plain {
      PlainRoundTrip(listing, tree, sha);
    } else if Entries(text).Ok? {
      EntriesHaveNoBreak(text);
    }
  }

  lemma EmptyText(tree: Tree, sha: Sha)
    ensures ManifestText([], tree, sha) == "\n"
  {
  }

  lemma RowHasNoBreak(tree: Tree, path: Path, sha: Sha)
    requires Digests(sha) && IsFile(tree, path) && NoBreak(PosixPath.Print(path))
    ensures NoBreak(Row(tree, path, sha))
  {
    var digest, name := sha(tree[path].data), PosixPath.Print(path);
    assert Text.IsDigest(digest);
    var row := Row(tree, path, sha);
    forall k | 0 <= k < |row| ensures !IsBreak(row[k]) {
      if k < 64 {
        assert row[k] == digest[k] && Text.LowerHex(digest[k]);
      } else if k >= 68 {
        assert row[k] == name[k - 68];
      } else {
        assert row[k] == "  ./"[k - 64];
      }
    }
  }

  lemma PlainRoundTrip(listing: seq<Path>, tree: Tree, sha: Sha)
    requires Named(tree) && Digests(sha) && Lists(listing, tree) && FilesIn(listing, tree) != []
    requires forall path :: path in tree && Listed(tree, path) ==> NoBreak(PosixPath.Print(path))
    ensures var r := Entries(ManifestText(FilesIn(listing, tree), tree, sha));
            r.Ok? && Matches(r.value, tree, sha)
  {
    hide ReadRows, Lines, NoBreak, PosixPath.Print, Text.Join, Named, Row;
    var files := FilesIn(listing, tree);
    var rows := Rows(files, tree, sha);
    forall k | 0 <= k < |rows| ensures NoBreak(rows[k]) {
      RowHasNoBreak(tree, files[k], sha);
    }
    LinesOfJoin(rows);
    FilesAreDistinct(listing, tree);
    ReadRowsOfRows(files, tree, sha, 0, map[]);
    assert rows[0..] == rows;
    var entries := ReadRows(rows, map[]).value;
    assert HasEntry(entries, tree, files[0], sha);
    EntriesMatch(files, entries, tree, sha);
  }

  /** One entry for each file, and no other, is a match. */
  lemma EntriesMatch(files: seq<Path>, entries: map<string, string>, tree: Tree, sha: Sha)
    requires forall k :: 0 <= k < |files| ==> files[k] in tree && Listed(tree, files[k])
    requires forall path :: path in tree && Listed(tree, path) ==> path in files
    requires forall k :: 0 <= k < |files| ==> HasEntry(entries, tree, files[k], sha)
    requires forall name :: name in entries ==> NamesOne(files, |files|, name)
    ensures Matches(entries, tree, sha)
  {
    hide PosixPath.Print;
    forall name | name in entries
      ensures exists path :: path in tree && Listed(tree, path) && PosixPath.Print(path) == name
    {
      assert NamesOne(files, |files|, name);
      var k :| 0 <= k < |files| && PosixPath.Print(files[k]) == name;
      assert Listed(tree, files[k]);
    }
    forall path | path in tree && Listed(tree, path)
      ensures PosixPath.Print(path) in entries && entries[PosixPath.Print(path)] == sha(tree[path].data)
    {
      var k :| 0 <= k < |files| && files[k] == path;
      assert HasEntry(entries, tree, files[k], sha);
    }
  }

  // ---------- Rows that other writers print ----------

  /** The ten characters that end a line. */
  lemma BreakCharacters(c: char)
    ensures IsBreak(c) <==> c as int in {0x0A, 0x0B, 0x0C, 0x0D, 0x1C, 0x1D, 0x1E, 0x85, 0x2028, 0x2029}
  {
  }

  /** The twenty-nine characters that separate fields. */
  lemma SpaceCharacters(c: char)
    ensures IsSpace(c) <==>
              || 0x09 <= c as int <= 0x0D || 0x1C <= c as int <= 0x20 || 0x2000 <= c as int <= 0x200A
              || c as int in {0x85, 0xA0, 0x1680, 0x2028, 0x2029, 0x202F, 0x205F, 0x3000}
  {
  }

  predicate NoSpace(text: string) {
    forall k :: 0 <= k < |text| ==> !IsSpace(text[k])
  }

  predicate OnlySpace(text: string) {
    forall k :: 0 <= k < |text| ==> IsSpace(text[k])
  }

  predicate OnlyMarks(text: string) {
    forall k :: 0 <= k < |text| ==> text[k] == ' ' || text[k] == '*'
  }

  lemma {:induction false} WordOf(word: string, rest: string)
    requires NoSpace(word) && (rest == [] || IsSpace(rest[0]))
    ensures WordLength(word + rest) == |word|
  {
    if word == [] {
      assert word + rest == rest;
    } else {
      assert (word + rest)[1..] == word[1..] + rest;
      WordOf(word[1..], rest);
    }
  }

  lemma {:induction false} SpacesDrop(gap: string, field: string)
    requires OnlySpace(gap) && field != [] && !IsSpace(field[0])
    ensures DropSpaces(gap + field) == field
  {
    if gap == [] {
      assert gap + field == field;
    } else {
      assert (gap + field)[1..] == gap[1..] + field;
      SpacesDrop(gap[1..], field);
    }
  }

  lemma FieldsOf(word: string, gap: string, field: string)
    requires word != [] && NoSpace(word) && gap != [] && OnlySpace(gap) && field != [] && !IsSpace(field[0])
    ensures Fields(word + gap + field) == [word, field]
  {
    hide DropSpaces, WordLength, IsSpace;
    var line, tail := word + gap + field, gap + field;
    assert line == word + tail && tail[0] == gap[0];
    assert IsSpace(gap[0]) && !IsSpace(word[0]);
    WordOf(word, tail);
    SpacesDrop("", line);
    assert "" + line == line;
    SpacesDrop(gap, field);
    assert line[..|word|] == word && line[|word|..] == tail;
  }

  lemma {:induction false} MarksStrip(marks: string, field: string)
    requires OnlyMarks(marks) && field != [] && field[0] != ' ' && field[0] != '*'
    ensures StripMarks(marks + field) == field
  {
    if marks == [] {
      assert marks + field == field;
    } else {
      assert (marks + field)[1..] == marks[1..] + field;
      MarksStrip(marks[1..], field);
    }
  }

  /**
   A row is read whatever the letter case of its digest, however wide the gap, and with any marks before the name, such
   as the star that stands for a binary file.
   */
  lemma RowForms(digest: string, gap: string, marks: string, path: Path)
    requires |digest| == 64 && NoSpace(digest)
    requires gap != [] && OnlySpace(gap) && OnlyMarks(marks) && (marks != [] ==> marks[0] == '*')
    requires PosixPath.Relative(path) && ".." !in path
    ensures ReadRow(digest + gap + marks + "./" + PosixPath.Print(path))
         == Ok((PosixPath.Print(path), Text.Lower(digest)))
  {
    hide Fields, Safe, StripMarks, PosixPath.Print, NoSpace, OnlySpace, IsSpace, OnlyMarks;
    var name := PosixPath.Print(path);
    var field := marks + ("./" + name);
    assert digest + gap + marks + "./" + name == digest + gap + field;
    assert !IsSpace(field[0]) by {
      assert !IsSpace('*') && !IsSpace('.') by {
        SpaceCharacters('*');
        SpaceCharacters('.');
      }
    }
    FieldsOf(digest, gap, field);
    MarksStrip(marks, "./" + name);
    assert ("./" + name)[2..] == name;
    PrintIsSafe(path);
  }

  /** A row without a second field, with a digest of another length, or with an unsafe name is rejected. */
  lemma RejectedRows(word: string, gap: string, field: string)
    requires word != [] && NoSpace(word) && OnlySpace(gap)
    ensures ReadRow(word + gap).Err?
    ensures gap != [] && field != [] && !IsSpace(field[0]) && |word| != 64 ==> ReadRow(word + gap + field).Err?
    ensures gap != [] && |word| == 64 ==> ReadRow(word + gap + "../x").Err? && ReadRow(word + gap + "/x").Err?
  {
    hide Fields, NoSpace, OnlySpace, IsSpace, StripMarks, PosixPath.Parts;
    OneField(word, gap);
    SpaceCharacters('.');
    SpaceCharacters('/');
    if gap != [] {
      if field != [] && !IsSpace(field[0]) {
        FieldsOf(word, gap, field);
      }
      FieldsOf(word, gap, "../x");
      FieldsOf(word, gap, "/x");
      MarksStrip("", "../x");
      MarksStrip("", "/x");
      assert "" + "../x" == "../x" && "" + "/x" == "/x";
      ParentIsUnsafe();
    }
  }

  lemma ParentIsUnsafe()
    ensures !Safe("../x") && !Safe("/x")
  {
    Text.SplitCons("..", "x", '/');
    assert "../x" == ".." + "/" + "x";
    PosixPath.KeptMembers(Text.Split("../x", '/'));
  }

  lemma {:induction false} NoField(gap: string)
    requires OnlySpace(gap)
    ensures DropSpaces(gap) == []
  {
    if gap != [] {
      NoField(gap[1..]);
    }
  }

  lemma OneField(word: string, gap: string)
    requires word != [] && NoSpace(word) && OnlySpace(gap)
    ensures |Fields(word + gap)| == 1
  {
    hide DropSpaces, WordLength, IsSpace;
    var line := word + gap;
    WordOf(word, gap);
    SpacesDrop("", line);
    assert "" + line == line && line[|word|..] == gap;
    NoField(gap);
  }
}
