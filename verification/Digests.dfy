/**
 The canonical encodings that the build script hashes: counted lists of length-prefixed fields, the source tree, and the
 scoped environment inputs. SHA-256 is an arbitrary function; only the lemmas that need it assume it injective.
 */
module Digests {
  import opened Bytes
  import opened Orders
  import opened Wrappers
  import Text
  import Utf8

  type Field = (bytes, bytes)

  // ---------- The encoding and its decoder ----------

  function Prefixed(s: bytes): bytes {
    ToLe(|s|, U64_SIZE) + s
  }

  function Body(fields: seq<Field>): bytes {
    if fields == [] then [] else Prefixed(fields[0].0) + (Prefixed(fields[0].1) + Body(fields[1..]))
  }

  /** The count of the fields, then each name and value behind its length. */
  function Encode(fields: seq<Field>): bytes {
    ToLe(|fields|, U64_SIZE) + Body(fields)
  }

  function TakePrefixed(s: bytes): (r: Option<(bytes, bytes)>)
    ensures r.Some? ==> |s| == U64_SIZE + |r.value.0| + |r.value.1|
  {
    if |s| < U64_SIZE then None else
    var end := U64_SIZE + FromLe(s[..U64_SIZE]);
    if end > |s| then None else Some((s[U64_SIZE..end], s[end..]))
  }

  function DecodeBody(s: bytes, count: nat): Option<seq<Field>> {
    if count == 0 then (if s == [] then Some([]) else None) else
    var (name, afterName) :- TakePrefixed(s);
    var (value, rest) :- TakePrefixed(afterName);
    var fields :- DecodeBody(rest, count - 1);
    Some([(name, value)] + fields)
  }

  /** The fields that `s` encodes, or None for every other byte string. */
  function Decode(s: bytes): Option<seq<Field>> {
    if |s| < U64_SIZE then None else DecodeBody(s[U64_SIZE..], FromLe(s[..U64_SIZE]))
  }

  /** Counts and lengths that 64 bits can hold. */
  predicate Sized(fields: seq<Field>) {
    |fields| < U64_LIMIT && forall k :: 0 <= k < |fields| ==> |fields[k].0| < U64_LIMIT && |fields[k].1| < U64_LIMIT
  }

  lemma TakeOfPrefixed(s: bytes, rest: bytes)
    requires |s| < U64_LIMIT
    ensures TakePrefixed(Prefixed(s) + rest) == Some((s, rest))
  {
    hide ToLe, FromLe;
    var whole := Prefixed(s) + rest;
    U64RoundTrip(|s|);
    assert whole[..U64_SIZE] == ToLe(|s|, U64_SIZE);
    assert whole[U64_SIZE..U64_SIZE + |s|] == s && whole[U64_SIZE + |s|..] == rest;
  }

  lemma PrefixedOfTake(whole: bytes)
    requires TakePrefixed(whole).Some?
    ensures var (s, rest) := TakePrefixed(whole).value;
            |s| < U64_LIMIT && whole == Prefixed(s) + rest
  {
    hide ToLe, FromLe;
    var (s, rest) := TakePrefixed(whole).value;
    ToLeFromLe(whole[..U64_SIZE]);
    U64Capacity();
    assert whole == whole[..U64_SIZE] + (s + rest);
  }

  lemma {:induction false} DecodeOfBody(fields: seq<Field>)
    requires Sized(fields)
    ensures DecodeBody(Body(fields), |fields|) == Some(fields)
  {
    hide Prefixed, TakePrefixed;
    if fields != [] {
      var rest := fields[1..];
      assert forall k :: 0 <= k < |rest| ==> rest[k] == fields[k + 1];
      DecodeOfBody(rest);
      TakeOfPrefixed(fields[0].1, Body(rest));
      TakeOfPrefixed(fields[0].0, Prefixed(fields[0].1) + Body(rest));
      assert [(fields[0].0, fields[0].1)] + rest == fields;
    }
  }

  lemma {:induction false} BodyOfDecode(s: bytes, count: nat)
    requires DecodeBody(s, count).Some?
    ensures var fields := DecodeBody(s, count).value;
            && |fields| == count && Body(fields) == s
            && forall k :: 0 <= k < |fields| ==> |fields[k].0| < U64_LIMIT && |fields[k].1| < U64_LIMIT
    decreases count
  {
    hide Prefixed, TakePrefixed;
    if count > 0 {
      var (_, afterName) := TakePrefixed(s).value;
      var (_, rest) := TakePrefixed(afterName).value;
      PrefixedOfTake(s);
      PrefixedOfTake(afterName);
      BodyOfDecode(rest, count - 1);
      var fields := DecodeBody(s, count).value;
      assert fields[1..] == DecodeBody(rest, count - 1).value;
    }
  }

  /** Decoding undoes encoding, on every list of fields whose sizes fit 64 bits. */
  lemma DecodeEncode(fields: seq<Field>)
    requires Sized(fields)
    ensures Decode(Encode(fields)) == Some(fields)
  {
    hide ToLe, FromLe, Body, DecodeBody;
    var whole := Encode(fields);
    U64RoundTrip(|fields|);
    DecodeOfBody(fields);
    assert whole[..U64_SIZE] == ToLe(|fields|, U64_SIZE) && whole[U64_SIZE..] == Body(fields);
  }

  /** Encoding undoes decoding: what decodes is exactly an encoding. */
  lemma EncodeDecode(s: bytes)
    requires Decode(s).Some?
    ensures Sized(Decode(s).value) && Encode(Decode(s).value) == s
  {
    hide ToLe, FromLe, Body, DecodeBody;
    ToLeFromLe(s[..U64_SIZE]);
    U64Capacity();
    BodyOfDecode(s[U64_SIZE..], FromLe(s[..U64_SIZE]));
    assert s == s[..U64_SIZE] + s[U64_SIZE..];
  }

  lemma EncodeInjective(one: seq<Field>, two: seq<Field>)
    requires Sized(one) && Sized(two) && Encode(one) == Encode(two)
    ensures one == two
  {
    DecodeEncode(one);
    DecodeEncode(two);
  }

  // ---------- Hashing it ----------

  type Sha = bytes -> bytes

  class Hasher {
    var absorbed: bytes

    constructor ()
      ensures absorbed == []
    {
      absorbed := [];
    }

    method Update(s: bytes)
      modifies this
      ensures absorbed == old(absorbed) + s
    {
      absorbed := absorbed + s;
    }

    method UpdateLengthPrefixed(s: bytes)
      modifies this
      ensures absorbed == old(absorbed) + Prefixed(s)
    {
      Update(ToLe(|s|, U64_SIZE));
      Update(s);
    }
  }

  /** The hexadecimal digest of a list of fields. */
  method DigestFields(fields: seq<Field>, sha: Sha) returns (digest: string)
    ensures digest == Text.Hex(sha(Encode(fields)))
  {
    hide ToLe, Text.Hex, Prefixed;
    var hasher := new Hasher();
    hasher.Update(ToLe(|fields|, U64_SIZE));
    assert fields[0..] == fields;
    for n := 0 to |fields|
      invariant fresh(hasher)
      invariant hasher.absorbed + Body(fields[n..]) == Encode(fields)
    {
      BodyCons(hasher.absorbed, fields, n);
      hasher.UpdateLengthPrefixed(fields[n].0);
      hasher.UpdateLengthPrefixed(fields[n].1);
    }
    assert hasher.absorbed + Body([]) == hasher.absorbed;
    digest := Text.Hex(sha(hasher.absorbed));
  }

  lemma BodyCons(absorbed: bytes, fields: seq<Field>, n: nat)
    requires n < |fields|
    ensures absorbed + Body(fields[n..]) ==
            absorbed + Prefixed(fields[n].0) + Prefixed(fields[n].1) + Body(fields[n + 1..])
  {
    hide Prefixed;
    assert fields[n..][1..] == fields[n + 1..];
  }

  ghost predicate Injective(sha: Sha) {
    forall one, two :: sha(one) == sha(two) ==> one == two
  }

  /** With an injective hash, equal digests come from equal fields. */
  lemma DigestsTellApart(one: seq<Field>, two: seq<Field>, sha: Sha)
    requires Injective(sha) && Sized(one) && Sized(two)
    ensures Text.Hex(sha(Encode(one))) == Text.Hex(sha(Encode(two))) <==> one == two
  {
    hide Encode, Text.Hex;
    if Text.Hex(sha(Encode(one))) == Text.Hex(sha(Encode(two))) {
      Text.HexInjective(sha(Encode(one)), sha(Encode(two)));
      EncodeInjective(one, two);
    }
  }

  // ---------- Sorting by bytes ----------

  /** Lexicographic order of byte strings. */
  predicate Less(one: bytes, two: bytes) {
    if two == [] then false
    else if one == [] then true
    else one[0] < two[0] || (one[0] == two[0] && Less(one[1..], two[1..]))
  }

  lemma {:induction false} LessIsTotal(one: bytes, two: bytes)
    ensures !Less(one, one)
    ensures Less(one, two) ==> !Less(two, one)
    ensures one != two ==> Less(one, two) || Less(two, one)
  {
    if one != [] {
      LessIsTotal(one[1..], if two == [] then [] else two[1..]);
      if two != [] && one[0] == two[0] && one[1..] == two[1..] {
        assert one == [one[0]] + one[1..] && two == [two[0]] + two[1..];
      }
    }
  }

  lemma {:induction false} LessIsTransitive(one: bytes, two: bytes, three: bytes)
    requires Less(one, two) && Less(two, three)
    ensures Less(one, three)
  {
    if one != [] && one[0] == two[0] == three[0] {
      LessIsTransitive(one[1..], two[1..], three[1..]);
    }
  }

  predicate UpTo(one: bytes, two: bytes) {
    !Less(two, one)
  }

  lemma UpToIsTransitive(one: bytes, two: bytes, three: bytes)
    requires UpTo(one, two) && UpTo(two, three)
    ensures UpTo(one, three)
  {
    hide Less;
    if Less(three, one) {
      LessIsTotal(one, two);
      LessIsTotal(two, three);
      if one != two {
        LessIsTransitive(three, one, two);
      }
    }
  }

  lemma BytesAreOrdered()
    ensures TotalPreorder(UpTo) && Asymmetric(Less)
  {
    hide Less;
    forall one, two ensures (UpTo(one, two) || UpTo(two, one)) && (Less(one, two) ==> !Less(two, one)) {
      LessIsTotal(one, two);
    }
    forall one, two, three | UpTo(one, two) && UpTo(two, three) ensures UpTo(one, three) {
      UpToIsTransitive(one, two, three);
    }
  }

  // ---------- The source tree ----------

  type SourceFile = Field

  predicate PathBefore(one: SourceFile, two: SourceFile) {
    Less(one.0, two.0)
  }

  predicate PathUpTo(one: SourceFile, two: SourceFile) {
    UpTo(one.0, two.0)
  }

  lemma PathsAreOrdered()
    ensures TotalPreorder(PathUpTo) && Asymmetric(PathBefore)
  {
    hide Less;
    forall one: SourceFile, two: SourceFile
      ensures (PathUpTo(one, two) || PathUpTo(two, one)) && (PathBefore(one, two) ==> !PathBefore(two, one))
    {
      LessIsTotal(one.0, two.0);
    }
    forall one: SourceFile, two: SourceFile, three: SourceFile | PathUpTo(one, two) && PathUpTo(two, three)
      ensures PathUpTo(one, three)
    {
      UpToIsTransitive(one.0, two.0, three.0);
    }
  }

  /** The files ordered by path. */
  function SortFiles(files: seq<SourceFile>): seq<SourceFile> {
    SortBy(files, PathUpTo)
  }

  predicate DistinctFiles(files: seq<SourceFile>) {
    Distinct(PathsOf(files))
  }

  lemma SortKeepsFiles(files: seq<SourceFile>)
    ensures multiset(SortFiles(files)) == multiset(files)
    ensures forall x :: x in SortFiles(files) <==> x in files
  {
    SortKeeps(files, PathUpTo);
    assert forall x :: x in SortFiles(files) <==> x in multiset(SortFiles(files));
    assert forall x :: x in files <==> x in multiset(files);
  }

  function SplitNul(s: bytes, piece: bytes): (paths: seq<bytes>)
    decreases |s|
  {
    var done := if piece == [] then [] else [piece];
    if s == [] then done
    else if s[0] == 0 then done + SplitNul(s[1..], [])
    else SplitNul(s[1..], piece + [s[0]])
  }

  /** What `git ls-files -z` prints: each path and a NUL byte. */
  function Listing(paths: seq<bytes>): bytes {
    if paths == [] then [] else paths[0] + [0] + Listing(paths[1..])
  }

  lemma {:induction false} SplitPath(path: bytes, rest: bytes, piece: bytes)
    requires 0 !in path && piece + path != []
    ensures SplitNul(path + [0] + rest, piece) == [piece + path] + SplitNul(rest, [])
    decreases |path|
  {
    var s := path + [0] + rest;
    if path == [] {
      assert s[1..] == rest && piece + path == piece;
    } else {
      assert s[1..] == path[1..] + [0] + rest && path[0] in path;
      SplitPath(path[1..], rest, piece + [path[0]]);
      assert piece + [path[0]] + path[1..] == piece + path;
    }
  }

  /** A printed listing splits into its paths. */
  lemma {:induction false} ListingSplits(paths: seq<bytes>)
    requires forall path :: path in paths ==> path != [] && (0 as byte) !in path
    ensures SplitNul(Listing(paths), []) == paths
  {
    if paths != [] {
      assert paths[0] in paths;
      assert forall path :: path in paths[1..] ==> path in paths;
      SplitPath(paths[0], Listing(paths[1..]), []);
      ListingSplits(paths[1..]);
      assert [] + paths[0] == paths[0] && paths == [paths[0]] + paths[1..];
    }
  }

  /** Reads each listed path; None when one is not UTF-8 or cannot be read. */
  function ReadFiles(paths: seq<bytes>, read: bytes -> Option<bytes>): Option<seq<SourceFile>> {
    if paths == [] then Some([]) else
    var _ :- Utf8.Decode(paths[0]);
    var content :- read(paths[0]);
    var rest :- ReadFiles(paths[1..], read);
    Some([(paths[0], content)] + rest)
  }

  predicate Readable(path: bytes, read: bytes -> Option<bytes>) {
    Utf8.Decode(path).Some? && read(path).Some?
  }

  lemma {:induction false} ReadFilesFiles(paths: seq<bytes>, read: bytes -> Option<bytes>)
    ensures ReadFiles(paths, read).Some? <==> forall k :: 0 <= k < |paths| ==> Readable(paths[k], read)
    ensures ReadFiles(paths, read).Some? ==>
              var files := ReadFiles(paths, read).value;
              && |files| == |paths|
              && forall k :: 0 <= k < |files| ==> files[k] == (paths[k], read(paths[k]).value)
  {
    hide Utf8.Decode;
    if paths != [] {
      assert forall k :: 0 < k < |paths| ==> paths[k] == paths[1..][k - 1];
      ReadFilesFiles(paths[1..], read);
    }
  }

  function PathsOf(files: seq<SourceFile>): (paths: seq<bytes>)
    ensures |paths| == |files| && forall k :: 0 <= k < |files| ==> paths[k] == files[k].0
  {
    if files == [] then [] else [files[0].0] + PathsOf(files[1..])
  }

  /** The files of the listed paths, as read, in the order of their paths. */
  predicate InOrder(files: seq<SourceFile>, paths: seq<bytes>, read: bytes -> Option<bytes>) {
    && SortedBy(files, PathUpTo)
    && multiset(PathsOf(files)) == multiset(paths)
    && forall k :: 0 <= k < |files| ==> read(files[k].0) == Some(files[k].1)
  }

  lemma {:induction false} InsertKeepsPaths(file: SourceFile, sorted: seq<SourceFile>)
    ensures multiset(PathsOf(InsertBy(file, sorted, PathUpTo))) == multiset(PathsOf(sorted)) + multiset{file.0}
  {
    hide Less, UpTo;
    if sorted == [] || PathUpTo(file, sorted[0]) {
      assert PathsOf([file] + sorted) == [file.0] + PathsOf(sorted);
    } else {
      InsertKeepsPaths(file, sorted[1..]);
      assert ([sorted[0]] + InsertBy(file, sorted[1..], PathUpTo))[1..] == InsertBy(file, sorted[1..], PathUpTo);
    }
  }

  lemma {:induction false} SortKeepsPaths(files: seq<SourceFile>)
    ensures multiset(PathsOf(SortFiles(files))) == multiset(PathsOf(files))
  {
    hide PathUpTo, InsertBy;
    if files != [] {
      SortKeepsPaths(files[1..]);
      InsertKeepsPaths(files[0], SortFiles(files[1..]));
      assert multiset([files[0].0] + PathsOf(files[1..])) == multiset{files[0].0} + multiset(PathsOf(files[1..]));
    }
  }

  lemma SortOrders(files: seq<SourceFile>)
    ensures SortedBy(SortFiles(files), PathUpTo)
  {
    hide PathUpTo, SortedBy;
    PathsAreOrdered();
    SortSorts(files, PathUpTo);
  }

  /** Distinct paths are sorted strictly. */
  lemma SortAscends(files: seq<SourceFile>)
    requires DistinctFiles(files)
    ensures SortedBy(SortFiles(files), PathBefore)
  {
    hide Less, SortFiles, PathsOf;
    var sorted := SortFiles(files);
    SortOrders(files);
    SortKeepsPaths(files);
    DistinctCounts(PathsOf(files));
    DistinctCounts(PathsOf(sorted));
    forall i, j | 0 <= i < j < |sorted| ensures PathBefore(sorted[i], sorted[j]) {
      assert PathsOf(sorted)[i] != PathsOf(sorted)[j];
      assert PathUpTo(sorted[i], sorted[j]);
      LessIsTotal(sorted[i].0, sorted[j].0);
    }
  }

  lemma {:induction false} PathsRead(files: seq<SourceFile>, paths: seq<bytes>)
    requires |files| == |paths| && forall k :: 0 <= k < |files| ==> files[k].0 == paths[k]
    ensures PathsOf(files) == paths
  {
    if files != [] {
      PathsRead(files[1..], paths[1..]);
      assert paths == [paths[0]] + paths[1..];
    }
  }

  /** What is read and then sorted holds the listed files in the order of their paths. */
  lemma SortedRead(paths: seq<bytes>, read: bytes -> Option<bytes>)
    requires ReadFiles(paths, read).Some?
    ensures InOrder(SortFiles(ReadFiles(paths, read).value), paths, read)
  {
    hide Less, SortFiles, ReadFiles;
    var files := ReadFiles(paths, read).value;
    ReadFilesFiles(paths, read);
    SortOrders(files);
    SortKeepsPaths(files);
    SortKeepsFiles(files);
    PathsRead(files, paths);
    var sorted := SortFiles(files);
    forall k | 0 <= k < |sorted| ensures read(sorted[k].0) == Some(sorted[k].1) {
      assert sorted[k] in files;
      var j :| 0 <= j < |files| && files[j] == sorted[k];
      assert Readable(paths[j], read);
    }
  }

  /**
   The digest of a NUL-separated listing: there is one exactly when every listed path is UTF-8 and can be read, and it
   hashes the listed files in the order of their paths.
   */
  method SourceTreeHash(listing: bytes, read: bytes -> Option<bytes>, sha: Sha) returns (digest: Option<string>)
    ensures digest.Some? <==> forall path :: path in SplitNul(listing, []) ==> Readable(path, read)
    ensures digest.Some? ==>
              exists files ::
                InOrder(files, SplitNul(listing, []), read) && digest.value == Text.Hex(sha(Encode(files)))
  {
    hide Text.Hex, Encode, ReadFiles, SortFiles, SplitNul, InOrder, Readable;
    var paths := SplitNul(listing, []);
    var files := ReadFiles(paths, read);
    ReadFilesFiles(paths, read);
    assert forall k :: 0 <= k < |paths| ==> paths[k] in paths;
    if files.None? {
      return None;
    }
    SortedRead(paths, read);
    var hex := DigestFields(SortFiles(files.value), sha);
    digest := Some(hex);
  }

  /** The order in which distinct paths are listed changes nothing. */
  lemma ListingOrder(one: seq<bytes>, two: seq<bytes>, read: bytes -> Option<bytes>)
    requires Distinct(one) && Distinct(two)
    requires forall path :: path in one <==> path in two
    ensures ReadFiles(one, read).Some? <==> ReadFiles(two, read).Some?
    ensures ReadFiles(one, read).Some? ==>
              SortFiles(ReadFiles(one, read).value) == SortFiles(ReadFiles(two, read).value)
  {
    hide SortFiles, Readable, ReadFiles;
    ReadFilesFiles(one, read);
    ReadFilesFiles(two, read);
    assert forall k :: 0 <= k < |two| ==> two[k] in one;
    assert forall k :: 0 <= k < |one| ==> one[k] in two;
    if ReadFiles(one, read).Some? {
      var files, files' := ReadFiles(one, read).value, ReadFiles(two, read).value;
      SortKeepsFiles(files);
      SortKeepsFiles(files');
      PathsRead(files, one);
      PathsRead(files', two);
      SortAscends(files);
      SortAscends(files');
      SameReads(one, two, read);
      PathsAreOrdered();
      OneStrictArrangement(SortFiles(files), SortFiles(files'), PathBefore);
    }
  }

  lemma SameReads(one: seq<bytes>, two: seq<bytes>, read: bytes -> Option<bytes>)
    requires forall path :: path in one <==> path in two
    requires ReadFiles(one, read).Some? && ReadFiles(two, read).Some?
    ensures forall file :: file in ReadFiles(one, read).value <==> file in ReadFiles(two, read).value
  {
    hide ReadFiles;
    ReadFilesFiles(one, read);
    ReadFilesFiles(two, read);
    var files, files' := ReadFiles(one, read).value, ReadFiles(two, read).value;
    forall k | 0 <= k < |files| ensures files[k] in files' {
      assert one[k] in two;
      var j :| 0 <= j < |two| && two[j] == one[k];
      assert files'[j] == files[k];
    }
    forall k | 0 <= k < |files'| ensures files'[k] in files {
      assert two[k] in one;
      var j :| 0 <= j < |one| && one[j] == two[k];
      assert files[j] == files'[k];
    }
  }

  /** Two listings give the same hashed bytes exactly when they hold the same files. */
  lemma TreePreimage(one: seq<SourceFile>, two: seq<SourceFile>)
    requires DistinctFiles(one) && DistinctFiles(two) && Sized(SortFiles(one)) && Sized(SortFiles(two))
    ensures Encode(SortFiles(one)) == Encode(SortFiles(two)) <==> forall file :: file in one <==> file in two
  {
    hide Encode, SortFiles, Sized;
    SortKeepsFiles(one);
    SortKeepsFiles(two);
    if forall file :: file in one <==> file in two {
      SortAscends(one);
      SortAscends(two);
      PathsAreOrdered();
      OneStrictArrangement(SortFiles(one), SortFiles(two), PathBefore);
    } else if Encode(SortFiles(one)) == Encode(SortFiles(two)) {
      EncodeInjective(SortFiles(one), SortFiles(two));
    }
  }

  // ---------- Scoped inputs ----------

  type Name = bytes

  function SortNames(names: seq<Name>): seq<Name> {
    SortBy(names, UpTo)
  }

  /** Drops each element that equals its predecessor. */
  function Dedup(names: seq<Name>): seq<Name> {
    if |names| < 2 then names
    else if names[0] == names[1] then Dedup(names[1..])
    else [names[0]] + Dedup(names[1..])
  }

  lemma SortNamesSorts(names: seq<Name>)
    ensures SortedBy(SortNames(names), UpTo)
    ensures forall x :: x in SortNames(names) <==> x in names
  {
    hide Less, UpTo;
    BytesAreOrdered();
    SortSorts(names, UpTo);
    SortKeeps(names, UpTo);
    assert forall x :: x in SortNames(names) <==> x in multiset(SortNames(names));
    assert forall x :: x in names <==> x in multiset(names);
  }

  lemma {:induction false} DedupAscends(names: seq<Name>)
    requires SortedBy(names, UpTo)
    ensures SortedBy(Dedup(names), Less)
    ensures forall x :: x in Dedup(names) <==> x in names
    ensures names != [] ==> Dedup(names) != [] && Dedup(names)[0] == names[0]
  {
    hide Less;
    if |names| >= 2 {
      var rest := Dedup(names[1..]);
      DedupAscends(names[1..]);
      assert names == [names[0]] + names[1..] && names[1] in names[1..];
      if names[0] != names[1] {
        assert UpTo(names[0], names[1]);
        LessIsTotal(names[0], names[1]);
        forall k | 0 <= k < |rest| ensures Less(names[0], rest[k]) {
          if k > 0 {
            assert Less(rest[0], rest[k]);
            LessIsTransitive(names[0], names[1], rest[k]);
          }
        }
      }
    }
  }

  datatype ScopedInputs = ScopedInputs(names: bytes, sha256: string)

  const NONE: bytes := [110, 111, 110, 101]
  const COMMA: byte := 44

  function JoinNames(names: seq<Name>): bytes {
    if names == [] then [] else if |names| == 1 then names[0] else names[0] + [COMMA] + JoinNames(names[1..])
  }

  /** The pieces between commas. */
  function Pieces(s: bytes): (pieces: seq<bytes>)
    ensures pieces != []
  {
    if s == [] then [[]]
    else
      var rest := Pieces(s[1..]);
      if s[0] == 44 then [[]] + rest else [[s[0]] + rest[0]] + rest[1..]
  }

  lemma {:induction false} PiecesOfName(name: Name, rest: bytes)
    requires 44 !in name
    ensures Pieces(name) == [name]
    ensures Pieces(name + [44] + rest) == [name] + Pieces(rest)
  {
    var s := name + [44] + rest;
    if name == [] {
      assert s[1..] == rest;
    } else {
      assert s[1..] == name[1..] + [44] + rest && name[0] in name;
      PiecesOfName(name[1..], rest);
      assert [name[0]] + name[1..] == name;
    }
  }

  /** The reported names are read back by splitting at the commas; an empty scope reports "none". */
  lemma {:induction false} JoinedNamesSplit(names: seq<Name>)
    requires forall name :: name in names ==> (44 as byte) !in name
    ensures names != [] ==> Pieces(JoinNames(names)) == names
    ensures NONE == Utf8.Encode("none")
  {
    assert "none"[1..] == "one" && "one"[1..] == "ne" && "ne"[1..] == "e";
    if names != [] {
      assert names[0] in names;
      assert forall name :: name in names[1..] ==> name in names;
      JoinedNamesSplit(names[1..]);
      PiecesOfName(names[0], JoinNames(names[1..]));
      assert names == [names[0]] + names[1..];
    }
  }

  function Inputs(names: seq<Name>, environment: Name -> bytes): seq<Field> {
    seq(|names|, k requires 0 <= k < |names| => (names[k], environment(names[k])))
  }

  /** What a scope reports about the names it keeps, when it keeps these. */
  predicate Reports(r: ScopedInputs, kept: seq<Name>, environment: Name -> bytes, sha: Sha) {
    && r.names == (if kept == [] then NONE else JoinNames(kept))
    && r.sha256 == Text.Hex(sha(Encode(Inputs(kept, environment))))
  }

  /** An environment scope reports the given names strictly ascending, each once, with the digest of their values. */
  method Scope(names: seq<Name>, environment: Name -> bytes, sha: Sha) returns (r: ScopedInputs)
    ensures exists kept: seq<Name> ::
              && Reports(r, kept, environment, sha)
              && SortedBy(kept, Less) && forall name :: name in kept <==> name in names
  {
    hide Text.Hex, Encode, Less, SortNames, Dedup;
    var kept := Dedup(SortNames(names));
    SortNamesSorts(names);
    DedupAscends(SortNames(names));
    var digest := DigestFields(Inputs(kept, environment), sha);
    r := ScopedInputs(if kept == [] then NONE else JoinNames(kept), digest);
    assert Reports(r, kept, environment, sha);
  }

  /** A scope is decided by the set of its names: order and repetition change nothing, and any other set does. */
  lemma ScopeIsASet(one: seq<Name>, two: seq<Name>, environment: Name -> bytes)
    requires Sized(Inputs(Dedup(SortNames(one)), environment)) && Sized(Inputs(Dedup(SortNames(two)), environment))
    ensures Encode(Inputs(Dedup(SortNames(one)), environment)) == Encode(Inputs(Dedup(SortNames(two)), environment))
            <==> forall name :: name in one <==> name in two
    ensures (forall name :: name in one <==> name in two) ==> Dedup(SortNames(one)) == Dedup(SortNames(two))
  {
    hide Encode, SortNames, Dedup, Sized;
    SortNamesSorts(one);
    SortNamesSorts(two);
    DedupAscends(SortNames(one));
    DedupAscends(SortNames(two));
    var kept, kept' := Dedup(SortNames(one)), Dedup(SortNames(two));
    if forall name :: name in one <==> name in two {
      BytesAreOrdered();
      OneStrictArrangement(kept, kept', Less);
    }
    if Encode(Inputs(kept, environment)) == Encode(Inputs(kept', environment)) {
      EncodeInjective(Inputs(kept, environment), Inputs(kept', environment));
      SameInputs(kept, kept', environment);
    }
  }

  lemma SameInputs(one: seq<Name>, two: seq<Name>, environment: Name -> bytes)
    requires Inputs(one, environment) == Inputs(two, environment)
    ensures one == two
  {
    assert |Inputs(one, environment)| == |one| && |Inputs(two, environment)| == |two|;
    assert forall k :: 0 <= k < |one| ==> one[k] == Inputs(one, environment)[k].0 == Inputs(two, environment)[k].0;
  }
}
