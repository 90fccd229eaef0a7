/**
 From a staged artifact to a verified package: the archive writer lists the artifact's tree, extraction rebuilds it, and
 the verifier compares the rebuilt tree with its manifest.
 */
module Package {
  import opened Wrappers
  import opened Extraction
  import opened Manifest
  import PosixPath
  import Utf8

  // ---------- The archive of a tree ----------

  /** A tree on disk: normal names, and every parent of an entry is a directory of the tree. */
  predicate Staged(tree: Tree) {
    && Named(tree)
    && forall path, n :: path in tree && 0 < n < |path| ==> IsDir(tree, path[..n])
  }

  predicate IsArtifact(name: string) {
    PosixPath.IsPart(name) && name != ".."
  }

  function MemberOf(tree: Tree, artifact: string, path: Path): Member
    requires path in tree
  {
    Member(PosixPath.Print([artifact] + path), match tree[path] case Dir => Directory case File(data) => Regular(data))
  }

  /** One member for each path of the artifact's tree, in the order of the listing, and none for its root. */
  function ArchiveMembers(listing: seq<Path>, tree: Tree, artifact: string): (members: seq<Member>)
    requires forall k :: 0 <= k < |listing| ==> listing[k] in tree
    ensures |members| == |listing|
  {
    seq(|listing|, k requires 0 <= k < |listing| => MemberOf(tree, artifact, listing[k]))
  }

  method WriteArchive(listing: seq<Path>, tree: Tree, artifact: string) returns (members: seq<Member>)
    requires forall k :: 0 <= k < |listing| ==> listing[k] in tree
    ensures members == ArchiveMembers(listing, tree, artifact)
  {
    members := [];
    for n := 0 to |listing|
      invariant |members| == n
      invariant forall k :: 0 <= k < n ==> members[k] == MemberOf(tree, artifact, listing[k])
    {
      var kind := match tree[listing[n]] case Dir => Directory case File(data) => Regular(data);
      members := members + [Member(PosixPath.Print([artifact] + listing[n]), kind)];
    }
  }

  /** The part of a tree below one of its directories. */
  function Below(tree: Tree, root: Path): Tree {
    map path | path in (set p | p in tree && root < p :: p[|root|..]) && root + path in tree :: tree[root + path]
  }

  lemma InBelow(tree: Tree, root: Path, path: Path)
    ensures path in Below(tree, root) <==> path != [] && root + path in tree
    ensures path in Below(tree, root) ==> Below(tree, root)[path] == tree[root + path]
  {
    if path != [] && root + path in tree {
      assert root < root + path && (root + path)[|root|..] == path;
    }
  }

  lemma MemberPlace(tree: Tree, artifact: string, path: Path)
    requires Staged(tree) && IsArtifact(artifact) && path in tree
    ensures var name := MemberOf(tree, artifact, path).name;
            PosixPath.Parts(name) == [artifact] + path && Fits(MemberOf(tree, artifact, path), artifact)
  {
    var whole := [artifact] + path;
    assert PosixPath.Normal(whole) by {
      forall k | 0 <= k < |whole| ensures PosixPath.IsPart(whole[k]) {
        if k > 0 { assert whole[k] == path[k - 1]; }
      }
    }
    PosixPath.PartsPrint(whole);
    assert ".." !in whole;
  }

  lemma PlacesOfArchive(listing: seq<Path>, tree: Tree, artifact: string)
    requires Staged(tree) && IsArtifact(artifact) && Lists(listing, tree)
    ensures var members := ArchiveMembers(listing, tree, artifact);
            && AllFit(members, artifact) && DistinctPaths(Places(members))
            && forall k :: 0 <= k < |listing| ==>
                 Places(members)[k] == Placed([artifact] + listing[k], MemberOf(tree, artifact, listing[k]).kind)
  {
    hide Fits, Staged, PosixPath.Parts, PosixPath.Print;
    var members := ArchiveMembers(listing, tree, artifact);
    forall k | 0 <= k < |listing|
      ensures Fits(members[k], artifact)
      ensures Places(members)[k] == Placed([artifact] + listing[k], MemberOf(tree, artifact, listing[k]).kind)
    {
      MemberPlace(tree, artifact, listing[k]);
    }
    forall i, j | 0 <= i < j < |members| ensures Places(members)[i].path != Places(members)[j].path {
      assert ([artifact] + listing[i])[1..] == listing[i] && ([artifact] + listing[j])[1..] == listing[j];
    }
  }

  lemma ArchiveHasNoConflict(listing: seq<Path>, tree: Tree, artifact: string)
    requires Staged(tree) && IsArtifact(artifact) && Lists(listing, tree)
    ensures !Conflict(Places(ArchiveMembers(listing, tree, artifact)))
  {
    hide Fits, PosixPath.Parts, PosixPath.Print;
    var members := ArchiveMembers(listing, tree, artifact);
    var placed := Places(members);
    PlacesOfArchive(listing, tree, artifact);
    forall i, j | 0 <= i < |placed| && 0 <= j < |placed| && placed[i].path < placed[j].path
      ensures !placed[i].kind.Regular?
    {
      var above, path := listing[i], listing[j];
      assert above == path[..|above|] by {
        assert ([artifact] + above)[1..] == above && ([artifact] + path)[..|above| + 1][1..] == path[..|above|];
      }
      assert 0 < |above| < |path|;
      assert IsDir(tree, path[..|above|]);
    }
  }

  /**
   Extracting the archive of a staged tree gives that tree again below the artifact's directory, in any listing order.
   */
  lemma ArchiveRoundTrip(listing: seq<Path>, tree: Tree, artifact: string)
    requires Staged(tree) && IsArtifact(artifact) && Lists(listing, tree) && listing != []
    ensures Extractable(ArchiveMembers(listing, tree, artifact))
    ensures Below(TreeOf(Places(ArchiveMembers(listing, tree, artifact))), [artifact]) == tree
  {
    hide Fits, Staged, PosixPath.Parts, PosixPath.Print, TreeOf, Below, Conflict;
    var members := ArchiveMembers(listing, tree, artifact);
    var placed := Places(members);
    PlacesOfArchive(listing, tree, artifact);
    ArchiveHasNoConflict(listing, tree, artifact);
    forall k | 0 <= k < |members| ensures |placed[k].path| != 1 {
      assert listing[k] != [] by { StagedIsNamed(tree, listing[k]); }
    }
    var extracted := TreeOf(placed);
    forall path ensures path in Below(extracted, [artifact]) <==> path in tree {
      InBelow(extracted, [artifact], path);
      ExtractedPath(listing, tree, artifact, path);
    }
    forall path | path in tree ensures Below(extracted, [artifact])[path] == tree[path] {
      InBelow(extracted, [artifact], path);
      ExtractedPath(listing, tree, artifact, path);
    }
  }

  lemma StagedIsNamed(tree: Tree, path: Path)
    requires Staged(tree) && path in tree
    ensures path != [] && PosixPath.Normal(path) && ".." !in path
  {
  }

  lemma ExtractedPath(listing: seq<Path>, tree: Tree, artifact: string, path: Path)
    requires Staged(tree) && IsArtifact(artifact) && Lists(listing, tree)
    ensures var extracted := TreeOf(Places(ArchiveMembers(listing, tree, artifact)));
            && (path != [] && [artifact] + path in extracted <==> path in tree)
            && (path in tree ==> extracted[[artifact] + path] == tree[path])
  {
    hide Fits, PosixPath.Parts, PosixPath.Print, NodeAt, AllPaths;
    var placed := Places(ArchiveMembers(listing, tree, artifact));
    var whole := [artifact] + path;
    PlacesOfArchive(listing, tree, artifact);
    AllPathsCover(placed, whole);
    NodeAtMember(placed, whole);
    if path in tree {
      StagedIsNamed(tree, path);
      var k :| 0 <= k < |listing| && listing[k] == path;
      assert placed[k].path == whole;
    }
    if Covers(placed, whole) && path != [] {
      var k :| 0 <= k < |placed| && whole <= placed[k].path;
      BelowArtifact(artifact, path, listing[k]);
      PrefixInTree(tree, path, listing[k]);
    }
    if path in tree && NodeAt(placed, whole).File? {
      var k :| 0 <= k < |placed| && placed[k].path == whole && placed[k].kind.Regular?;
      BelowArtifact(artifact, path, listing[k]);
    }
  }

  lemma BelowArtifact(artifact: string, path: Path, other: Path)
    ensures [artifact] + path <= [artifact] + other ==> path <= other
    ensures [artifact] + path == [artifact] + other ==> path == other
  {
    var whole, longer := [artifact] + path, [artifact] + other;
    assert whole[1..] == path && longer[1..] == other;
    if whole <= longer {
      assert whole[1..] == longer[1..|whole|];
      assert longer[1..|whole|] == other[..|path|];
    }
  }

  lemma PrefixInTree(tree: Tree, path: Path, other: Path)
    requires Staged(tree) && other in tree && path != [] && path <= other
    ensures path in tree
  {
    assert path == other[..|path|];
    assert |path| == |other| ==> path == other;
    assert |path| < |other| ==> IsDir(tree, other[..|path|]);
  }

  // ---------- Verifying an extracted tree ----------

  function FileNames(tree: Tree): set<string> {
    set path | path in tree && Listed(tree, path) :: PosixPath.Print(path)
  }

  /** Reads the manifest of a package and checks every file of its tree against it. */
  method VerifyManifest(tree: Tree, sha: Sha) returns (r: Result<map<string, string>, string>)
    requires Named(tree)
    ensures r.Ok? <==> Verifies(tree, sha)
    ensures r.Ok? ==> r.value == Entries(Utf8.Decode(tree[MANIFEST].data).value).value
  {
    hide Entries, PosixPath.Parts, PosixPath.Print;
    if !IsFile(tree, MANIFEST) {
      return Err("archive is missing MANIFEST.sha256");
    }
    var text := Utf8.Decode(tree[MANIFEST].data);
    if text.None? {
      return Err("archive manifest is not UTF-8");
    }
    var expected := ManifestEntries(text.value);
    if expected.Err? {
      return Err(expected.error);
    }
    var entries := expected.value;
    var actual := FileNames(tree);
    if actual != entries.Keys {
      NamesDiffer(tree, entries, sha);
      return Err("archive files differ from MANIFEST.sha256");
    }
    var open := entries.Keys;
    while open != {}
      invariant open <= entries.Keys
      invariant forall path :: path in tree && Listed(tree, path) && PosixPath.Print(path) !in open ==>
                  entries[PosixPath.Print(path)] == sha(tree[path].data)
      decreases open
    {
      var relative :| relative in open;
      NamesOneFile(tree, relative);
      var path := PosixPath.Parts(relative);
      if sha(tree[path].data) != entries[relative] {
        return Err("archive digest differs");
      }
      open := open - {relative};
    }
    r := Ok(entries);
  }

  /** A package verifies when its manifest reads to exactly its files with their digests. */
  predicate Verifies(tree: Tree, sha: Sha) {
    && IsFile(tree, MANIFEST)
    && Utf8.Decode(tree[MANIFEST].data).Some?
    && Entries(Utf8.Decode(tree[MANIFEST].data).value).Ok?
    && Matches(Entries(Utf8.Decode(tree[MANIFEST].data).value).value, tree, sha)
  }

  lemma NamesDiffer(tree: Tree, entries: map<string, string>, sha: Sha)
    requires FileNames(tree) != entries.Keys
    ensures !Matches(entries, tree, sha)
  {
    if name :| name in entries && name !in FileNames(tree) {
      assert !exists path :: path in tree && Listed(tree, path) && PosixPath.Print(path) == name;
    }
  }

  /** A file's name leads back to the one path that prints it. */
  lemma NamesOneFile(tree: Tree, name: string)
    requires Named(tree) && name in FileNames(tree)
    ensures var path := PosixPath.Parts(name);
            && path in tree && Listed(tree, path) && PosixPath.Print(path) == name
            && forall other :: other in tree && PosixPath.Print(other) == name ==> other == path
  {
    hide PosixPath.Parts, PosixPath.Print;
    forall path | path in tree && PosixPath.Print(path) == name ensures path == PosixPath.Parts(name) {
      PosixPath.PartsPrint(path);
    }
  }

  /**
   Of two packages with the same manifest file, one that verifies and another: the other verifies exactly when it has
   the same file paths with the same digests. So an added, removed or altered file is rejected.
   */
  lemma TamperRejected(tree: Tree, other: Tree, sha: Sha)
    requires Named(tree) && Named(other) && Verifies(tree, sha)
    requires IsFile(other, MANIFEST) && other[MANIFEST] == tree[MANIFEST]
    ensures Verifies(other, sha) <==>
              forall path :: (path in tree && Listed(tree, path) <==> path in other && Listed(other, path))
                && (path in tree && path in other && Listed(tree, path) && Listed(other, path) ==>
                     sha(tree[path].data) == sha(other[path].data))
  {
    hide Entries, PosixPath.Print, Utf8.Decode;
    var entries := Entries(Utf8.Decode(tree[MANIFEST].data).value).value;
    if Matches(entries, other, sha) {
      forall path
        ensures path in tree && Listed(tree, path) ==> path in other && Listed(other, path)
        ensures path in other && Listed(other, path) ==> path in tree && Listed(tree, path)
      {
        if path in tree && Listed(tree, path) {
          SameFile(tree, other, path, entries, sha);
        }
        if path in other && Listed(other, path) {
          SameFile(other, tree, path, entries, sha);
        }
      }
    }
  }

  lemma SameFile(tree: Tree, other: Tree, path: Path, entries: map<string, string>, sha: Sha)
    requires Named(tree) && Named(other) && Matches(entries, tree, sha) && Matches(entries, other, sha)
    requires path in tree && Listed(tree, path)
    ensures path in other && Listed(other, path)
  {
    hide PosixPath.Print;
    var name := PosixPath.Print(path);
    var found :| found in other && Listed(other, found) && PosixPath.Print(found) == name;
    PosixPath.PrintInjective(path, found);
  }

  // ---------- The whole way ----------

  function Manifested(tree: Tree, listing: seq<Path>, sha: Sha): Tree {
    tree[MANIFEST := File(Utf8.Encode(ManifestText(FilesIn(listing, tree), tree, sha)))]
  }

  /**
   What is staged, with its manifest written, archived in any order and extracted again, is always rebuilt. It verifies
   exactly when a file is staged and no file name holds a line break.
   */
  lemma PackageVerifies(tree: Tree, listing: seq<Path>, packed: seq<Path>, artifact: string, sha: Sha)
    requires Staged(tree) && Digests(sha) && Lists(listing, tree) && !IsDir(tree, MANIFEST) && IsArtifact(artifact)
    requires Lists(packed, Manifested(tree, listing, sha))
    ensures var members := ArchiveMembers(packed, Manifested(tree, listing, sha), artifact);
            && Extractable(members)
            && Below(TreeOf(Places(members)), [artifact]) == Manifested(tree, listing, sha)
            && (Verifies(Below(TreeOf(Places(members)), [artifact]), sha) <==>
                 && FilesIn(listing, tree) != []
                 && forall path :: path in tree && Listed(tree, path) ==> NoBreak(PosixPath.Print(path)))
  {
    hide PosixPath.Print, ManifestText, TreeOf, Below, Extractable, Verifies, Utf8.Encode, Listed;
    var whole := Manifested(tree, listing, sha);
    assert MANIFEST in whole && MANIFEST in packed;
    ManifestedIsStaged(tree, listing, sha);
    ArchiveRoundTrip(packed, whole, artifact);
    ManifestedVerifies(tree, listing, sha);
  }

  lemma ManifestedVerifies(tree: Tree, listing: seq<Path>, sha: Sha)
    requires Staged(tree) && Digests(sha) && Lists(listing, tree) && !IsDir(tree, MANIFEST)
    ensures Verifies(Manifested(tree, listing, sha), sha) <==>
              && FilesIn(listing, tree) != []
              && forall path :: path in tree && Listed(tree, path) ==> NoBreak(PosixPath.Print(path))
  {
    hide Entries, PosixPath.Print, Utf8.Decode, Utf8.Encode, ManifestText, Matches, Named, Staged, NoBreak, FilesIn;
    var entries := Entries(ManifestText(FilesIn(listing, tree), tree, sha));
    StagedIsNamedAll(tree);
    ManifestRoundTrip(listing, tree, sha);
    Utf8.DecodeEncode(ManifestText(FilesIn(listing, tree), tree, sha));
    if entries.Ok? {
      SameListing(tree, Manifested(tree, listing, sha), entries.value, sha);
    }
  }

  /** A manifest says nothing of itself. */
  lemma SameListing(tree: Tree, whole: Tree, entries: map<string, string>, sha: Sha)
    requires MANIFEST in whole && whole == tree[MANIFEST := whole[MANIFEST]]
    ensures Matches(entries, whole, sha) <==> Matches(entries, tree, sha)
  {
    hide PosixPath.Print;
    assert forall path :: path in whole && Listed(whole, path) <==> path in tree && Listed(tree, path);
    assert forall path :: path in tree && Listed(tree, path) ==> whole[path] == tree[path];
  }

  lemma StagedIsNamedAll(tree: Tree)
    requires Staged(tree)
    ensures Named(tree)
  {
  }

  lemma ManifestedIsStaged(tree: Tree, listing: seq<Path>, sha: Sha)
    requires Staged(tree) && !IsDir(tree, MANIFEST)
    ensures Staged(Manifested(tree, listing, sha))
  {
    hide ManifestText, Utf8.Encode, FilesIn;
    var whole := Manifested(tree, listing, sha);
    assert PosixPath.IsPart(MANIFEST[0]) && MANIFEST[0] != "..";
    forall path, n | path in whole && 0 < n < |path| ensures IsDir(whole, path[..n]) {
      assert IsDir(tree, path[..n]);
    }
  }
}
