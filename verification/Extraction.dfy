/**
 Extracting a release archive: its member names are normalised, and the members are then written one by one below an
 empty destination. The tree holds files and directories only; the destination itself is not an entry.
 */
module Extraction {
  import opened Bytes
  import opened Wrappers
  import PosixPath
  import Text

  type Path = PosixPath.Path

  datatype Kind = Directory | Regular(data: bytes) | Special

  datatype Member = Member(name: string, kind: Kind)

  /** A member whose name has been normalised. */
  datatype Placed = Placed(path: Path, kind: Kind)

  datatype Node = Dir | File(data: bytes)

  type Tree = map<Path, Node>

  // ---------- Normalising the member list ----------

  predicate Safe(name: string) {
    && !PosixPath.Absolute(name)
    && ".." !in PosixPath.Parts(name)
    && PosixPath.Parts(name) != []
  }

  predicate DistinctPaths(placed: seq<Placed>) {
    forall i, j :: 0 <= i < j < |placed| ==> placed[i].path != placed[j].path
  }

  function Places(members: seq<Member>): seq<Placed> {
    seq(|members|, k requires 0 <= k < |members| => Placed(PosixPath.Parts(members[k].name), members[k].kind))
  }

  predicate Fits(member: Member, top: string) {
    Safe(member.name) && PosixPath.Parts(member.name)[0] == top && !member.kind.Special?
  }

  predicate AllFit(members: seq<Member>, top: string) {
    forall k :: 0 <= k < |members| ==> Fits(members[k], top)
  }

  /** Member lists that pass normalisation: safe names below one top-level name, none repeated, nothing special. */
  ghost predicate Acceptable(members: seq<Member>) {
    && members != []
    && (exists top :: AllFit(members, top))
    && DistinctPaths(Places(members))
  }

  method NormalizedMembers(members: seq<Member>) returns (r: Result<(seq<Placed>, string), string>)
    ensures r.Ok? <==> Acceptable(members)
    ensures r.Ok? ==> r.value.0 == Places(members) && AllFit(members, r.value.1)
  {
    hide PosixPath.Print, PosixPath.Parts, Acceptable;
    var normalized: seq<Placed> := [];
    var names: set<string> := {};
    var topLevel: Option<string> := None;
    for n := 0 to |members|
      invariant normalized == Places(members[..n])
      invariant DistinctPaths(normalized)
      invariant forall s :: s in names <==> exists k :: 0 <= k < n && PosixPath.Print(normalized[k].path) == s
      invariant topLevel.None? <==> n == 0
      invariant topLevel.Some? ==> AllFit(members[..n], topLevel.value)
    {
      var member := members[n];
      if !Safe(member.name) {
        NotAcceptable(members, n, topLevel);
        return Err("archive contains an unsafe path");
      }
      var path := PosixPath.Parts(member.name);
      if topLevel.Some? && path[0] != topLevel.value {
        NotAcceptable(members, n, topLevel);
        return Err("archive must contain one top-level directory");
      }
      topLevel := Some(path[0]);
      var name := PosixPath.Print(path);
      NameIsTaken(members, n);
      if name in names {
        RepeatedMember(members, n);
        return Err("archive repeats a member");
      }
      names := names + {name};
      if member.kind.Special? {
        NotAcceptable(members, n, topLevel);
        return Err("archive contains a non-regular member");
      }
      ghost var before := normalized;
      normalized := normalized + [Placed(path, member.kind)];
      assert normalized == Places(members[..n + 1]);
      assert forall k :: 0 <= k < n ==> normalized[k] == before[k];
      assert normalized[n].path == path;
    }
    assert members[..|members|] == members;
    if topLevel.None? {
      EmptyIsNotAcceptable(members);
      return Err("archive is empty");
    }
    AcceptableFits(members, topLevel.value);
    r := Ok((normalized, topLevel.value));
  }

  lemma EmptyIsNotAcceptable(members: seq<Member>)
    ensures Acceptable(members) ==> members != []
  {
  }

  lemma AcceptableFits(members: seq<Member>, top: string)
    requires members != [] && AllFit(members, top) && DistinctPaths(Places(members))
    ensures Acceptable(members)
  {
  }

  lemma NotAcceptable(members: seq<Member>, n: nat, top: Option<string>)
    requires n < |members|
    requires top.Some? && n > 0 ==> AllFit(members[..n], top.value)
    requires !Safe(members[n].name) || members[n].kind.Special?
             || (n > 0 && top.Some? && PosixPath.Parts(members[n].name)[0] != top.value)
    ensures !Acceptable(members)
  {
    forall other ensures !AllFit(members, other) {
      if n > 0 && top.Some? {
        assert members[..n][0] == members[0] && Fits(members[..n][0], top.value);
      }
      assert AllFit(members, other) ==> Fits(members[n], other) && Fits(members[0], other);
    }
  }

  lemma RepeatedMember(members: seq<Member>, n: nat)
    requires n < |members|
    requires exists k :: 0 <= k < n && PosixPath.Parts(members[k].name) == PosixPath.Parts(members[n].name)
    ensures !Acceptable(members)
  {
    var k :| 0 <= k < n && PosixPath.Parts(members[k].name) == PosixPath.Parts(members[n].name);
    assert Places(members)[k].path == Places(members)[n].path;
  }

  /** A printed name is taken exactly when its path is. */
  lemma NameIsTaken(members: seq<Member>, n: nat)
    requires n < |members|
    requires forall k :: 0 <= k <= n ==> Safe(members[k].name)
    ensures forall k :: 0 <= k < n ==>
              (PosixPath.Print(Places(members[..n])[k].path) == PosixPath.Print(PosixPath.Parts(members[n].name)) <==>
               PosixPath.Parts(members[k].name) == PosixPath.Parts(members[n].name))
  {
    var path := PosixPath.Parts(members[n].name);
    PosixPath.PartsAreNormal(members[n].name);
    forall k | 0 <= k < n && PosixPath.Print(PosixPath.Parts(members[k].name)) == PosixPath.Print(path)
      ensures PosixPath.Parts(members[k].name) == path
    {
      PosixPath.PartsAreNormal(members[k].name);
      PosixPath.PrintInjective(PosixPath.Parts(members[k].name), path);
    }
  }

  predicate RootFits(placed: seq<Placed>, top: string) {
    forall k :: 0 <= k < |placed| && placed[k].path == [top] ==> placed[k].kind.Directory?
  }

  // ---------- Writing one member ----------

  /** The nonempty prefixes of a path, up to a length. */
  function Prefixes(path: Path, n: nat): (s: set<Path>)
    requires n <= |path|
    ensures forall p :: p in s <==> p != [] && |p| <= n && p <= path
  {
    assert forall p: Path :: p <= path ==> p == path[..|p|];
    set k | 1 <= k <= n :: path[..k]
  }

  predicate IsFile(tree: Tree, path: Path) {
    path in tree && tree[path].File?
  }

  predicate IsDir(tree: Tree, path: Path) {
    path in tree && tree[path].Dir?
  }

  function WithDirs(tree: Tree, path: Path, n: nat): Tree
    requires n <= |path|
  {
    tree + map p | p in Prefixes(path, n) :: Dir
  }

  /** No file stands where a directory is needed, and no directory where the file goes. */
  predicate CanPut(tree: Tree, m: Placed) {
    && (forall p :: p in Prefixes(m.path, |m.path|) && p != m.path ==> !IsFile(tree, p))
    && (if m.kind.Directory? then !IsFile(tree, m.path) else !IsDir(tree, m.path))
  }

  function Put(tree: Tree, m: Placed): Tree
    requires m.path != []
  {
    match m.kind
    case Regular(data) => WithDirs(tree, m.path, |m.path| - 1)[m.path := File(data)]
    case _ => WithDirs(tree, m.path, |m.path|)
  }

  class Destination {
    var tree: Tree

    constructor ()
      ensures tree == map[]
    {
      tree := map[];
    }

    /** Creates the directories along a path; fails where a file is in the way. */
    method MakeDirs(path: Path) returns (ok: bool)
      modifies this
      ensures ok <==> forall p :: p in Prefixes(path, |path|) ==> !IsFile(old(tree), p)
      ensures ok ==> tree == WithDirs(old(tree), path, |path|)
    {
      hide WithDirs, IsFile;
      MoreDirs(tree, path, 0);
      for n := 0 to |path|
        invariant forall p :: p in Prefixes(path, n) ==> !IsFile(old(tree), p)
        invariant tree == WithDirs(old(tree), path, n)
      {
        var next := path[..n + 1];
        MoreDirs(old(tree), path, n);
        if IsFile(tree, next) {
          assert next in Prefixes(path, |path|);
          return false;
        }
        tree := tree[next := Dir];
      }
      ok := true;
    }

    method ExtractMember(m: Placed) returns (fault: Option<string>)
      requires m.path != [] && !m.kind.Special?
      modifies this
      ensures fault.None? <==> CanPut(old(tree), m)
      ensures fault.None? ==> tree == Put(old(tree), m)
    {
      hide WithDirs, Prefixes;
      ParentDirs(tree, m.path);
      if m.kind.Directory? {
        if m.path in tree && !tree[m.path].Dir? {
          return Some("archive directory collides with a file");
        }
        var made := MakeDirs(m.path);
        return if made then None else Some("not a directory");
      }
      if m.path in tree && tree[m.path].Dir? {
        return Some("archive file collides with a directory");
      }
      var made := MakeDirs(m.path[..|m.path| - 1]);
      if !made {
        return Some("not a directory");
      }
      tree := tree[m.path := File(m.kind.data)];
      fault := None;
    }
  }

  lemma MorePrefixes(path: Path, n: nat)
    requires n < |path|
    ensures Prefixes(path, n + 1) == Prefixes(path, n) + {path[..n + 1]}
    ensures path[..n + 1] !in Prefixes(path, n)
  {
    hide Prefixes;
    forall p | p in Prefixes(path, n + 1) ensures p in Prefixes(path, n) || p == path[..n + 1] {
      assert p == path[..|p|];
    }
  }

  lemma MoreDirs(tree: Tree, path: Path, n: nat)
    requires n <= |path|
    ensures WithDirs(tree, path, 0) == tree && Prefixes(path, 0) == {}
    ensures n < |path| ==>
              var next := path[..n + 1];
              && Prefixes(path, n + 1) == Prefixes(path, n) + {next}
              && WithDirs(tree, path, n + 1) == WithDirs(tree, path, n)[next := Dir]
              && (IsFile(WithDirs(tree, path, n), next) <==> IsFile(tree, next))
  {
    hide Prefixes, WithDirs, IsFile;
    NoDirs(tree, path);
    if n < |path| {
      MorePrefixes(path, n);
      MoreDir(tree, path, n);
    }
  }

  lemma NoDirs(tree: Tree, path: Path)
    ensures WithDirs(tree, path, 0) == tree && Prefixes(path, 0) == {}
  {
  }

  lemma MoreDir(tree: Tree, path: Path, n: nat)
    requires n < |path|
    ensures var next := path[..n + 1];
            && WithDirs(tree, path, n + 1) == WithDirs(tree, path, n)[next := Dir]
            && (IsFile(WithDirs(tree, path, n), next) <==> IsFile(tree, next))
  {
    hide Prefixes;
    MorePrefixes(path, n);
    var more, next := WithDirs(tree, path, n + 1), path[..n + 1];
    assert more.Keys == WithDirs(tree, path, n)[next := Dir].Keys;
  }

  /** The directories above a path are those of its parent. */
  lemma ParentDirs(tree: Tree, path: Path)
    requires path != []
    ensures var parent := path[..|path| - 1];
            && WithDirs(tree, parent, |parent|) == WithDirs(tree, path, |path| - 1)
            && Prefixes(parent, |parent|) == Prefixes(path, |path| - 1)
            && Prefixes(path, |path|) == Prefixes(path, |path| - 1) + {path}
            && path !in Prefixes(path, |path| - 1)
  {
    MorePrefixes(path, |path| - 1);
    assert path[..|path|] == path;
    assert Prefixes(path[..|path| - 1], |path| - 1) == Prefixes(path, |path| - 1);
  }

  // ---------- The tree of a member list ----------

  /** What stands at a path: the data of the file member there, otherwise a directory. */
  function NodeAt(placed: seq<Placed>, path: Path): Node {
    if placed == [] then Dir else
    var last := placed[|placed| - 1];
    if last.path == path && last.kind.Regular? then File(last.kind.data) else NodeAt(placed[..|placed| - 1], path)
  }

  predicate Covers(placed: seq<Placed>, path: Path) {
    path != [] && exists k :: 0 <= k < |placed| && path <= placed[k].path
  }

  function AllPaths(placed: seq<Placed>): set<Path> {
    set k, n | 0 <= k < |placed| && 1 <= n <= |placed[k].path| :: placed[k].path[..n]
  }

  /** Every member's path and each of its ancestors, with file data at the regular members. */
  function TreeOf(placed: seq<Placed>): Tree {
    map path | path in AllPaths(placed) :: NodeAt(placed, path)
  }

  /** A regular member lies above another member. */
  predicate Conflict(placed: seq<Placed>) {
    exists i, j :: 0 <= i < |placed| && 0 <= j < |placed| && placed[i].kind.Regular? && placed[i].path < placed[j].path
  }

  predicate Sound(placed: seq<Placed>) {
    && DistinctPaths(placed)
    && forall k :: 0 <= k < |placed| ==> placed[k].path != [] && !placed[k].kind.Special?
  }

  lemma AllPathsCover(placed: seq<Placed>, path: Path)
    ensures path in AllPaths(placed) <==> Covers(placed, path)
  {
    if Covers(placed, path) {
      var k :| 0 <= k < |placed| && path <= placed[k].path;
      assert path == placed[k].path[..|path|];
    }
  }

  /** With distinct paths, the node at a path does not depend on the order of the members. */
  lemma {:induction false} NodeAtMember(placed: seq<Placed>, path: Path)
    requires DistinctPaths(placed)
    ensures NodeAt(placed, path).File? <==>
              exists k :: 0 <= k < |placed| && placed[k].path == path && placed[k].kind.Regular?
    ensures forall k :: 0 <= k < |placed| && placed[k].path == path && placed[k].kind.Regular? ==>
              NodeAt(placed, path) == File(placed[k].kind.data)
  {
    if placed != [] {
      var init := placed[..|placed| - 1];
      NodeAtMember(init, path);
      assert forall k :: 0 <= k < |init| ==> init[k] == placed[k];
    }
  }

  lemma NodeAtSnoc(placed: seq<Placed>, m: Placed, path: Path)
    ensures NodeAt(placed + [m], path) ==
            if m.path == path && m.kind.Regular? then File(m.kind.data) else NodeAt(placed, path)
    ensures Covers(placed + [m], path) <==> Covers(placed, path) || (path != [] && path <= m.path)
  {
    var longer := placed + [m];
    assert longer[..|placed|] == placed;
    if Covers(placed, path) {
      var k :| 0 <= k < |placed| && path <= placed[k].path;
      assert longer[k] == placed[k];
    }
    assert longer[|placed|] == m;
  }

  lemma SoundParts(placed: seq<Placed>, m: Placed)
    requires Sound(placed + [m])
    ensures Sound(placed) && m.path != [] && !m.kind.Special?
    ensures forall k :: 0 <= k < |placed| ==> placed[k].path != m.path
  {
    var longer := placed + [m];
    assert forall k :: 0 <= k < |placed| ==> longer[k] == placed[k];
    assert longer[|placed|] == m;
  }

  lemma MakesConflict(placed: seq<Placed>, m: Placed, k: nat)
    requires k < |placed|
    requires (placed[k].kind.Regular? && placed[k].path < m.path) || (m.kind.Regular? && m.path < placed[k].path)
    ensures Conflict(placed + [m])
  {
    var longer := placed + [m];
    assert longer[k] == placed[k] && longer[|placed|] == m;
  }

  /** A file above the member, or anything below a file member, is a conflict. */
  lemma BlockedConflicts(placed: seq<Placed>, m: Placed)
    requires Sound(placed + [m]) && !CanPut(TreeOf(placed), m)
    ensures Conflict(placed + [m])
  {
    hide NodeAt, AllPaths;
    var tree := TreeOf(placed);
    SoundParts(placed, m);
    NodeAtMember(placed, m.path);
    if p :| p in Prefixes(m.path, |m.path|) && p != m.path && IsFile(tree, p) {
      NodeAtMember(placed, p);
      var k :| 0 <= k < |placed| && placed[k].path == p && placed[k].kind.Regular?;
      MakesConflict(placed, m, k);
    } else {
      AllPathsCover(placed, m.path);
      var k :| 0 <= k < |placed| && m.path <= placed[k].path;
      MakesConflict(placed, m, k);
    }
  }

  /** A new conflict involves the new member, and blocks it. */
  lemma ConflictBlocks(placed: seq<Placed>, m: Placed)
    requires Sound(placed + [m]) && !Conflict(placed) && Conflict(placed + [m])
    ensures !CanPut(TreeOf(placed), m)
  {
    hide CanPut, TreeOf;
    var longer := placed + [m];
    SoundParts(placed, m);
    assert forall k :: 0 <= k < |placed| ==> longer[k] == placed[k];
    assert longer[|placed|] == m;
    var i, j :| 0 <= i < |longer| && 0 <= j < |longer| && longer[i].kind.Regular? && longer[i].path < longer[j].path;
    if i < |placed| {
      assert j == |placed|;
      FileAbove(placed, i, m);
    } else {
      assert j < |placed|;
      MemberBelow(placed, j, m);
    }
  }

  lemma FileAbove(placed: seq<Placed>, i: nat, m: Placed)
    requires Sound(placed) && i < |placed| && placed[i].kind.Regular? && placed[i].path < m.path
    ensures !CanPut(TreeOf(placed), m)
  {
    hide NodeAt, AllPaths, Prefixes;
    var p := placed[i].path;
    AllPathsCover(placed, p);
    NodeAtMember(placed, p);
    assert p in Prefixes(m.path, |m.path|) && IsFile(TreeOf(placed), p);
  }

  lemma MemberBelow(placed: seq<Placed>, j: nat, m: Placed)
    requires Sound(placed) && j < |placed| && m.kind.Regular? && m.path != [] && m.path < placed[j].path
    requires forall k :: 0 <= k < |placed| ==> placed[k].path != m.path
    ensures !CanPut(TreeOf(placed), m)
  {
    hide NodeAt, AllPaths, Prefixes;
    AllPathsCover(placed, m.path);
    NodeAtMember(placed, m.path);
    assert IsDir(TreeOf(placed), m.path);
  }

  /** A member can be written over the tree of the earlier ones exactly when it conflicts with none of them. */
  lemma PutConflict(placed: seq<Placed>, m: Placed)
    requires Sound(placed + [m]) && !Conflict(placed)
    ensures CanPut(TreeOf(placed), m) <==> !Conflict(placed + [m])
  {
    hide CanPut, TreeOf, Conflict;
    if Conflict(placed + [m]) {
      ConflictBlocks(placed, m);
    } else if !CanPut(TreeOf(placed), m) {
      BlockedConflicts(placed, m);
    }
  }

  lemma PutTree(placed: seq<Placed>, m: Placed)
    requires m.path != [] && Sound(placed + [m]) && CanPut(TreeOf(placed), m)
    ensures Put(TreeOf(placed), m) == TreeOf(placed + [m])
  {
    hide NodeAt, AllPaths;
    var longer, tree := placed + [m], TreeOf(placed);
    SoundParts(placed, m);
    var put := Put(tree, m);
    forall p ensures p in put <==> p in TreeOf(longer) {
      AllPathsCover(placed, p);
      AllPathsCover(longer, p);
      NodeAtSnoc(placed, m, p);
    }
    forall p | p in put ensures put[p] == NodeAt(longer, p) {
      PutAt(placed, m, p);
    }
  }

  lemma PutAt(placed: seq<Placed>, m: Placed, p: Path)
    requires m.path != [] && !m.kind.Special? && DistinctPaths(placed)
    requires CanPut(TreeOf(placed), m) && p in Put(TreeOf(placed), m)
    ensures Put(TreeOf(placed), m)[p] == NodeAt(placed + [m], p)
  {
    hide NodeAt, AllPaths, Prefixes;
    AllPathsCover(placed, p);
    NodeAtSnoc(placed, m, p);
    NodeAtMember(placed, p);
    if NodeAt(placed, p).File? {
      var k :| 0 <= k < |placed| && placed[k].path == p && placed[k].kind.Regular?;
      assert p <= placed[k].path;
      assert p in TreeOf(placed) && IsFile(TreeOf(placed), p);
      assert !(p in Prefixes(m.path, |m.path|) && p != m.path);
      assert p == m.path ==> m.kind.Regular?;
    }
  }

  // ---------- The whole extraction ----------

  /** What an archive must satisfy to be extracted. */
  ghost predicate Extractable(members: seq<Member>) {
    && Acceptable(members)
    && (forall k :: 0 <= k < |members| && |Places(members)[k].path| == 1 ==> members[k].kind.Directory?)
    && !Conflict(Places(members))
  }

  method Extract(members: seq<Member>) returns (r: Result<(Tree, Path), string>)
    ensures r.Ok? <==> Extractable(members)
    ensures r.Ok? ==> r.value.0 == TreeOf(Places(members))
    ensures r.Ok? ==> |r.value.1| == 1 && IsDir(r.value.0, r.value.1)
                      && forall p :: p in r.value.0 ==> r.value.1 <= p
  {
    hide Fits, Put, CanPut, TreeOf, Conflict;
    var normalized := NormalizedMembers(members);
    if normalized.Err? {
      return Err(normalized.error);
    }
    var (placed, top) := normalized.value;
    PlacedBelow(members, top);
    if exists k :: 0 <= k < |placed| && placed[k].path == [top] && !placed[k].kind.Directory? {
      return Err("archive must contain one top-level directory");
    }
    var destination := new Destination();
    assert placed[..0] == [] && !Conflict(placed[..0]) && TreeOf(placed[..0]) == map[] by {
      NothingPlaced();
    }
    for n := 0 to |placed|
      invariant fresh(destination)
      invariant !Conflict(placed[..n])
      invariant destination.tree == TreeOf(placed[..n])
    {
      assert placed[..n + 1] == placed[..n] + [placed[n]];
      PutConflict(placed[..n], placed[n]);
      var fault := destination.ExtractMember(placed[n]);
      if fault.Some? {
        ConflictStays(placed, n + 1);
        return Err(fault.value);
      }
      PutTree(placed[..n], placed[n]);
    }
    assert placed[..|placed|] == placed;
    var tree := destination.tree;
    OneRoot(placed, top);
    var entries := set p | p in tree && |p| == 1;
    assert forall p :: p in tree && |p| == 1 ==> p == [top];
    assert entries == {[top]};
    if |entries| != 1 || !tree[[top]].Dir? {
      return Err("archive must contain one top-level directory");
    }
    r := Ok((tree, [top]));
  }

  lemma PlacedBelow(members: seq<Member>, top: string)
    requires Acceptable(members) && AllFit(members, top)
    ensures Sound(Places(members))
    ensures forall k :: 0 <= k < |members| ==> [top] <= Places(members)[k].path
    ensures forall k :: 0 <= k < |members| ==> (|Places(members)[k].path| == 1 <==> Places(members)[k].path == [top])
  {
    forall k | 0 <= k < |members| ensures [top] <= Places(members)[k].path && !members[k].kind.Special? {
      assert Fits(members[k], top);
    }
  }

  lemma NothingPlaced()
    ensures !Conflict([]) && TreeOf([]) == map[]
  {
  }

  lemma ConflictStays(placed: seq<Placed>, n: nat)
    requires n <= |placed| && Conflict(placed[..n])
    ensures Conflict(placed)
  {
  }

  /** The tree has one entry at the top, and it is a directory. */
  lemma OneRoot(placed: seq<Placed>, top: string)
    requires Sound(placed) && placed != [] && RootFits(placed, top)
    requires forall k :: 0 <= k < |placed| ==> [top] <= placed[k].path
    ensures IsDir(TreeOf(placed), [top])
    ensures forall p :: p in TreeOf(placed) ==> [top] <= p
  {
    hide NodeAt, AllPaths;
    forall p | p in TreeOf(placed) ensures [top] <= p {
      AllPathsCover(placed, p);
      var k :| 0 <= k < |placed| && p <= placed[k].path;
      assert p[0] == placed[k].path[0];
    }
    assert [top] <= placed[0].path;
    AllPathsCover(placed, [top]);
    NodeAtMember(placed, [top]);
  }

  // ---------- The order of the members does not matter ----------

  lemma {:induction false} TwiceInMultiset<T>(items: seq<T>, i: nat, j: nat)
    requires i < j < |items| && items[i] == items[j]
    ensures multiset(items)[items[i]] >= 2
  {
    assert items == items[..j] + items[j..];
    assert items[..j][i] == items[i] && items[j..][0] == items[j];
  }

  lemma {:induction false} TwoPlaces<T>(items: seq<T>, x: T) returns (i: nat, j: nat)
    requires multiset(items)[x] >= 2
    ensures i < j < |items| && items[i] == x && items[j] == x
  {
    var last := |items| - 1;
    assert items == items[..last] + [items[last]];
    if items[last] == x {
      assert x in multiset(items[..last]);
      j := last;
      i :| 0 <= i < last && items[i] == x;
    } else {
      i, j := TwoPlaces(items[..last], x);
    }
  }

  lemma SameMembers(one: seq<Member>, two: seq<Member>, k: nat) returns (j: nat)
    requires multiset(one) == multiset(two) && k < |one|
    ensures j < |two| && two[j] == one[k]
  {
    assert one[k] in multiset(two);
    j :| 0 <= j < |two| && two[j] == one[k];
  }

  lemma DistinctPermuted(one: seq<Member>, two: seq<Member>)
    requires multiset(one) == multiset(two) && DistinctPaths(Places(one))
    ensures DistinctPaths(Places(two))
  {
    forall i, j | 0 <= i < j < |two| ensures Places(two)[i].path != Places(two)[j].path {
      PermutedApart(one, two, i, j);
    }
  }

  lemma SamePlace(one: seq<Member>, two: seq<Member>, a: nat, i: nat)
    requires a < |one| && i < |two| && one[a] == two[i]
    ensures Places(one)[a] == Places(two)[i]
  {
  }

  lemma ApartPlaces(members: seq<Member>, a: nat, b: nat)
    requires DistinctPaths(Places(members)) && a < |members| && b < |members| && a != b
    ensures Places(members)[a].path != Places(members)[b].path && members[a] != members[b]
  {
    assert a < b || b < a;
  }

  lemma PermutedApart(one: seq<Member>, two: seq<Member>, i: nat, j: nat)
    requires multiset(one) == multiset(two) && DistinctPaths(Places(one)) && i < j < |two|
    ensures Places(two)[i].path != Places(two)[j].path
  {
    hide Places, DistinctPaths;
    if two[i] == two[j] {
      TwiceInMultiset(two, i, j);
      var a, b := TwoPlaces(one, two[i]);
      ApartPlaces(one, a, b);
    } else {
      var a := SameMembers(two, one, i);
      var b := SameMembers(two, one, j);
      SamePlace(one, two, a, i);
      SamePlace(one, two, b, j);
      ApartPlaces(one, a, b);
    }
  }

  lemma ExtractablePermuted(one: seq<Member>, two: seq<Member>)
    requires multiset(one) == multiset(two) && Extractable(one)
    ensures Extractable(two)
  {
    hide Fits;
    var p, q := Places(one), Places(two);
    DistinctPermuted(one, two);
    assert |one| == |multiset(one)| == |multiset(two)| == |two|;
    var top :| AllFit(one, top);
    forall k | 0 <= k < |two|
      ensures Fits(two[k], top) && (|q[k].path| == 1 ==> two[k].kind.Directory?)
    {
      var j := SameMembers(two, one, k);
      assert p[j] == q[k];
    }
    assert AllFit(two, top);
    if Conflict(q) {
      ConflictPermuted(two, one);
    }
  }

  lemma ConflictPermuted(one: seq<Member>, two: seq<Member>)
    requires multiset(one) == multiset(two) && Conflict(Places(one))
    ensures Conflict(Places(two))
  {
    var p, q := Places(one), Places(two);
    var i, j :| 0 <= i < |p| && 0 <= j < |p| && p[i].kind.Regular? && p[i].path < p[j].path;
    var a := SameMembers(one, two, i);
    var b := SameMembers(one, two, j);
    assert q[a] == p[i] && q[b] == p[j];
  }

  lemma FilePermuted(one: seq<Member>, two: seq<Member>, path: Path)
    requires multiset(one) == multiset(two) && DistinctPaths(Places(one)) && DistinctPaths(Places(two))
    requires NodeAt(Places(one), path).File?
    ensures NodeAt(Places(two), path) == NodeAt(Places(one), path)
  {
    hide NodeAt;
    var p, q := Places(one), Places(two);
    NodeAtMember(p, path);
    NodeAtMember(q, path);
    var i :| 0 <= i < |p| && p[i].path == path && p[i].kind.Regular?;
    var j := SameMembers(one, two, i);
    assert q[j] == p[i];
  }

  lemma TreePermuted(one: seq<Member>, two: seq<Member>, path: Path)
    requires multiset(one) == multiset(two) && DistinctPaths(Places(one))
    ensures path in TreeOf(Places(one)) ==>
              path in TreeOf(Places(two)) && TreeOf(Places(one))[path] == TreeOf(Places(two))[path]
  {
    hide NodeAt, AllPaths;
    var p, q := Places(one), Places(two);
    if path in TreeOf(p) {
      DistinctPermuted(one, two);
      AllPathsCover(p, path);
      AllPathsCover(q, path);
      var k :| 0 <= k < |p| && path <= p[k].path;
      var j := SameMembers(one, two, k);
      assert q[j] == p[k];
      if NodeAt(p, path).File? {
        FilePermuted(one, two, path);
      } else if NodeAt(q, path).File? {
        FilePermuted(two, one, path);
      }
    }
  }

  /** Every order of the members extracts to the same tree, or none extracts. */
  lemma OrderIndependence(one: seq<Member>, two: seq<Member>)
    requires multiset(one) == multiset(two)
    ensures Extractable(one) <==> Extractable(two)
    ensures Extractable(one) ==> TreeOf(Places(one)) == TreeOf(Places(two))
  {
    hide Extractable, TreeOf;
    if Extractable(one) {
      ExtractablePermuted(one, two);
      assert DistinctPaths(Places(one)) && DistinctPaths(Places(two)) by {
        ExtractableIsDistinct(one);
        ExtractableIsDistinct(two);
      }
      forall path ensures path in TreeOf(Places(one)) <==> path in TreeOf(Places(two)) {
        TreePermuted(one, two, path);
        TreePermuted(two, one, path);
      }
      forall path | path in TreeOf(Places(one)) ensures TreeOf(Places(one))[path] == TreeOf(Places(two))[path] {
        TreePermuted(one, two, path);
      }
    }
    if Extractable(two) {
      ExtractablePermuted(two, one);
    }
  }

  lemma ExtractableIsDistinct(members: seq<Member>)
    requires Extractable(members)
    ensures DistinctPaths(Places(members))
  {
  }

  // ---------- Nothing leaves the destination ----------

  /** A name is safe when it does not start with a slash, has no piece "..", and has a piece that names something. */
  lemma SafeNames(name: string)
    ensures Safe(name) <==>
              && (name != "" ==> name[0] != '/')
              && ".." !in Text.Split(name, '/')
              && exists piece :: piece in Text.Split(name, '/') && piece != "" && piece != "."
  {
    hide Text.Split;
    var pieces := Text.Split(name, '/');
    PosixPath.KeptMembers(pieces);
    if PosixPath.Parts(name) != [] {
      assert PosixPath.Parts(name)[0] in pieces;
    }
  }

  /** Every entry of an extracted tree is named by parts that stay below the destination, whatever the member names. */
  lemma NothingLeaves(members: seq<Member>, path: Path, k: nat)
    requires Extractable(members) && path in TreeOf(Places(members)) && k < |path|
    ensures path[k] !in {"", ".", ".."} && '/' !in path[k]
  {
    hide PosixPath.Parts, Conflict;
    var placed := Places(members);
    AllPathsCover(placed, path);
    var i :| 0 <= i < |placed| && path <= placed[i].path;
    PosixPath.PartsAreNormal(members[i].name);
    assert Fits(members[i], placed[0].path[0]);
    assert path[k] == placed[i].path[k] && PosixPath.IsPart(placed[i].path[k]);
  }

  /** The names and kinds that extraction demands of every member. */
  lemma ExtractableNames(members: seq<Member>, k: nat)
    requires Extractable(members) && k < |members|
    ensures var pieces := Text.Split(members[k].name, '/');
            && (members[k].name != "" ==> members[k].name[0] != '/') && ".." !in pieces
            && (exists piece :: piece in pieces && piece != "" && piece != ".")
            && !members[k].kind.Special?
  {
    hide PosixPath.Parts, Conflict, Text.Split, DistinctPaths;
    SafeNames(members[k].name);
  }
}
