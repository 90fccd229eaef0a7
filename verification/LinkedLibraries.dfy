/** The Darwin library closure: `otool -L` lists direct references only, so a worklist follows each resolved library. */
module LinkedLibraries {
  import opened Orders
  import opened Reachability
  import PosixPath
  import Text

  datatype File = File(absolute: bool, parts: PosixPath.Path)

  function FileOf(name: string): File {
    File(PosixPath.Absolute(name), PosixPath.Parts(name))
  }

  function Parent(file: File): File {
    if file.parts == [] then file else file.(parts := file.parts[..|file.parts| - 1])
  }

  /** `base / name`: an absolute name replaces the base. */
  function Under(base: File, name: string): File {
    if PosixPath.Absolute(name) then FileOf(name) else base.(parts := base.parts + PosixPath.Parts(name))
  }

  /** What follows the last slash. */
  function LastPiece(reference: string): string {
    var pieces := Text.Split(reference, '/');
    pieces[|pieces| - 1]
  }

  /** The text after the first slash. */
  function AfterSlash(reference: string): string
    requires '/' in reference
  {
    if reference[0] == '/' then reference[1..] else AfterSlash(reference[1..])
  }

  const LOADER_PREFIX := "@loader_path/"
  const RPATH_PREFIX := "@rpath/"
  const SYSTEM_PREFIXES: seq<string> := ["/usr/lib/", "/System/"]

  function ResolveReference(reference: string, owner: File, libraryDir: File): File {
    if LOADER_PREFIX <= reference then
      assert reference[|LOADER_PREFIX| - 1] == '/';
      Under(Parent(owner), AfterSlash(reference))
    else if RPATH_PREFIX <= reference then
      assert reference[|RPATH_PREFIX| - 1] == '/';
      Under(libraryDir, AfterSlash(reference))
    else if PosixPath.Absolute(reference) then FileOf(reference)
    else Under(libraryDir, LastPiece(reference))
  }

  /** The linkage of a platform: the sorted references of each binary, and which files exist. */
  datatype Linkage = Linkage(references: File -> seq<string>, isFile: File -> bool, libraryDir: File)

  predicate IsSystemOnly(reference: string, path: File, linkage: Linkage) {
    (SYSTEM_PREFIXES[0] <= reference || SYSTEM_PREFIXES[1] <= reference) && !linkage.isFile(path)
  }

  predicate Admitted(reference: string, owner: File, linkage: Linkage) {
    var path := ResolveReference(reference, owner, linkage.libraryDir);
    !IsSystemOnly(reference, path, linkage) && path != owner
  }

  /** An owner refers to another file by a reference that is not system-only. */
  predicate Links(owner: File, path: File, linkage: Linkage) {
    var references := linkage.references(owner);
    exists k :: 0 <= k < |references| && Admitted(references[k], owner, linkage)
      && ResolveReference(references[k], owner, linkage.libraryDir) == path
  }

  ghost function Edges(linkage: Linkage): (File, File) -> bool {
    (owner, path) => Links(owner, path, linkage)
  }

  /** The successors of `owner` whose reference has an index below `k` are in `seen`. */
  ghost predicate Followed(owner: File, k: nat, seen: set<File>, linkage: Linkage)
    requires k <= |linkage.references(owner)|
  {
    forall j :: 0 <= j < k && Admitted(linkage.references(owner)[j], owner, linkage) ==>
      ResolveReference(linkage.references(owner)[j], owner, linkage.libraryDir) in seen
  }

  // ---------- The loop, step by step ----------

  /** The state of the worklist loop. */
  datatype Walk = Walk(seen: set<File>, queue: seq<File>, paths: seq<File>)

  function Start(binary: File): Walk {
    Walk({}, [binary], [])
  }

  predicate Skips(walk: Walk, owner: File, reference: string, linkage: Linkage) {
    var path := ResolveReference(reference, owner, linkage.libraryDir);
    path in walk.seen || IsSystemOnly(reference, path, linkage) || path == owner
  }

  function Mark(walk: Walk, path: File): Walk {
    Walk(walk.seen + {path}, walk.queue + [path], walk.paths + [path])
  }

  function Visit(walk: Walk, owner: File, reference: string, linkage: Linkage): Walk {
    if Skips(walk, owner, reference, linkage) then walk
    else Mark(walk, ResolveReference(reference, owner, linkage.libraryDir))
  }

  /** The references of an owner from index `k` on. */
  function Scan(walk: Walk, owner: File, k: nat, linkage: Linkage): Walk
    requires k <= |linkage.references(owner)|
    decreases |linkage.references(owner)| - k
  {
    if k == |linkage.references(owner)| then walk
    else Scan(Visit(walk, owner, linkage.references(owner)[k], linkage), owner, k + 1, linkage)
  }

  /** One round of the loop: the last of the queue is popped and its references are scanned. */
  function Step(walk: Walk, linkage: Linkage): Walk
    requires walk.queue != []
  {
    var last := |walk.queue| - 1;
    Scan(walk.(queue := walk.queue[..last]), walk.queue[last], 0, linkage)
  }

  /** The state after at most `n` rounds. */
  function Run(walk: Walk, n: nat, linkage: Linkage): Walk
    decreases n
  {
    if n == 0 || walk.queue == [] then walk else Run(Step(walk, linkage), n - 1, linkage)
  }

  /** The loop empties its queue. */
  ghost predicate Finishes(binary: File, linkage: Linkage) {
    exists n: nat :: Run(Start(binary), n, linkage).queue == []
  }

  /**
   The paths reachable from the binary by a nonempty chain of links, each once. The loop has to finish, and
   `FinishesExactly` says when it does.
   */
  method DarwinClosure(binary: File, linkage: Linkage) returns (paths: seq<File>)
    requires Finishes(binary, linkage)
    ensures Distinct(paths)
    ensures forall path :: path in paths <==> Reaches(Edges(linkage), binary, path)
    ensures exists n: nat :: Run(Start(binary), n, linkage).queue == [] && Run(Start(binary), n, linkage).paths == paths
  {
    hide Links, Admitted, ResolveReference, IsSystemOnly, Run, Scan;
    ghost var edge := Edges(linkage);
    ghost var rounds: nat :| Run(Start(binary), rounds, linkage).queue == [];
    ghost var left := rounds;
    var seen: set<File>, queue := {}, [binary];
    paths := [];
    while queue != []
      invariant Distinct(paths) && (forall p :: p in paths <==> p in seen)
      invariant Run(Walk(seen, queue, paths), left, linkage) == Run(Start(binary), rounds, linkage)
      invariant forall q :: q in queue ==> q == binary || q in seen
      invariant forall p :: p in seen ==> Reaches(edge, binary, p)
      invariant forall n :: n == binary || n in seen ==>
                  n in queue || Followed(n, |linkage.references(n)|, seen, linkage)
      decreases left
    {
      NextRound(Walk(seen, queue, paths), left, linkage);
      ghost var next := Step(Walk(seen, queue, paths), linkage);
      left := left - 1;
      var owner := queue[|queue| - 1];
      ghost var before := queue;
      queue := queue[..|queue| - 1];
      var references := linkage.references(owner);
      for k := 0 to |references|
        invariant Distinct(paths) && (forall p :: p in paths <==> p in seen)
        invariant Scan(Walk(seen, queue, paths), owner, k, linkage) == next
        invariant forall q :: q in queue ==> q == binary || q in seen
        invariant forall q :: q in before ==> q in queue || q == owner
        invariant forall p :: p in seen ==> Reaches(edge, binary, p)
        invariant Followed(owner, k, seen, linkage)
        invariant forall n :: (n == binary || n in seen) && n != owner ==>
                    n in queue || Followed(n, |linkage.references(n)|, seen, linkage)
      {
        var reference := references[k];
        var path := ResolveReference(reference, owner, linkage.libraryDir);
        NextReference(Walk(seen, queue, paths), owner, k, linkage);
        if path in seen || IsSystemOnly(reference, path, linkage) || path == owner {
          SkippedReference(owner, k, seen, linkage);
          continue;
        }
        LinkOf(owner, k, linkage);
        Follow(edge, binary, owner, path);
        paths := paths + [path];
        seen := seen + {path};
        queue := queue + [path];
      }
      NoReference(Walk(seen, queue, paths), owner, linkage);
    }
    NoRound(Walk(seen, queue, paths), left, linkage);
    forall path | Reaches(edge, binary, path) ensures path in seen {
      forall a, b | (a == binary || a in seen) && edge(a, b) ensures b in seen {
        FollowedAll(a, b, seen, linkage);
      }
      Closed(edge, binary, seen, path);
    }
  }

  lemma NextRound(walk: Walk, left: nat, linkage: Linkage)
    requires walk.queue != [] && Run(walk, left, linkage).queue == []
    ensures left > 0 && Run(walk, left, linkage) == Run(Step(walk, linkage), left - 1, linkage)
  {
    hide Step;
  }

  lemma NoRound(walk: Walk, left: nat, linkage: Linkage)
    requires walk.queue == []
    ensures Run(walk, left, linkage) == walk
  {
  }

  lemma NextReference(walk: Walk, owner: File, k: nat, linkage: Linkage)
    requires k < |linkage.references(owner)|
    ensures Scan(walk, owner, k, linkage)
         == Scan(Visit(walk, owner, linkage.references(owner)[k], linkage), owner, k + 1, linkage)
  {
    hide Visit;
  }

  lemma NoReference(walk: Walk, owner: File, linkage: Linkage)
    ensures Scan(walk, owner, |linkage.references(owner)|, linkage) == walk
  {
  }

  lemma LinkOf(owner: File, k: nat, linkage: Linkage)
    requires k < |linkage.references(owner)|
    ensures var path := ResolveReference(linkage.references(owner)[k], owner, linkage.libraryDir);
            !IsSystemOnly(linkage.references(owner)[k], path, linkage) && path != owner ==>
              Admitted(linkage.references(owner)[k], owner, linkage) && Links(owner, path, linkage)
  {
    hide ResolveReference, IsSystemOnly;
  }

  lemma SkippedReference(owner: File, k: nat, seen: set<File>, linkage: Linkage)
    requires k < |linkage.references(owner)| && Followed(owner, k, seen, linkage)
    requires var path := ResolveReference(linkage.references(owner)[k], owner, linkage.libraryDir);
             path in seen || IsSystemOnly(linkage.references(owner)[k], path, linkage) || path == owner
    ensures Followed(owner, k + 1, seen, linkage)
  {
    hide ResolveReference, IsSystemOnly;
  }

  lemma FollowedAll(owner: File, path: File, seen: set<File>, linkage: Linkage)
    requires Followed(owner, |linkage.references(owner)|, seen, linkage)
    requires Links(owner, path, linkage)
    ensures path in seen
  {
    hide ResolveReference, Admitted;
  }

  // ---------- Where references lead ----------

  /** A path that stands for itself also when its first part could be taken for a prefix. */
  predicate Unprefixed(path: PosixPath.Path) {
    PosixPath.Relative(path) && path[0] != "@loader_path" && path[0] != "@rpath"
  }

  /** What each of the four spellings of a reference names. */
  ghost predicate Names(reference: string, owner: File, libraryDir: File, named: File) {
    || (exists path | PosixPath.Relative(path) ::
          && reference == "@loader_path/" + PosixPath.Print(path)
          && named == File(owner.absolute, Directory(owner.parts) + path))
    || (exists path | PosixPath.Relative(path) ::
          && reference == "@rpath/" + PosixPath.Print(path)
          && named == File(libraryDir.absolute, libraryDir.parts + path))
    || (exists path | PosixPath.Relative(path) :: reference == "/" + PosixPath.Print(path) && named == File(true, path))
    || (exists path | Unprefixed(path) ::
          && reference == PosixPath.Print(path)
          && named == File(libraryDir.absolute, libraryDir.parts + [path[|path| - 1]]))
  }

  function Directory(parts: PosixPath.Path): PosixPath.Path {
    if parts == [] then [] else parts[..|parts| - 1]
  }

  lemma {:induction false} AfterPrefix(prefix: string, rest: string)
    requires '/' !in prefix
    ensures '/' in prefix + "/" + rest && AfterSlash(prefix + "/" + rest) == rest
  {
    var whole := prefix + "/" + rest;
    assert whole[|prefix|] == '/';
    if prefix == "" {
      assert whole[1..] == rest;
    } else {
      assert whole[0] == prefix[0] && prefix[0] in prefix;
      assert whole[1..] == prefix[1..] + "/" + rest;
      AfterPrefix(prefix[1..], rest);
    }
  }

  lemma LoaderLeads(path: PosixPath.Path, owner: File, libraryDir: File)
    requires PosixPath.Relative(path)
    ensures ResolveReference("@loader_path/" + PosixPath.Print(path), owner, libraryDir)
         == File(owner.absolute, Directory(owner.parts) + path)
  {
    hide AfterSlash, PosixPath.Parts, PosixPath.Print;
    var reference := "@loader_path/" + PosixPath.Print(path);
    assert reference == "@loader_path" + "/" + PosixPath.Print(path);
    AfterPrefix("@loader_path", PosixPath.Print(path));
    PosixPath.PartsPrint(path);
  }

  lemma RpathLeads(path: PosixPath.Path, owner: File, libraryDir: File)
    requires PosixPath.Relative(path)
    ensures ResolveReference("@rpath/" + PosixPath.Print(path), owner, libraryDir)
         == File(libraryDir.absolute, libraryDir.parts + path)
  {
    hide AfterSlash, PosixPath.Parts, PosixPath.Print;
    var reference := "@rpath/" + PosixPath.Print(path);
    assert reference == "@rpath" + "/" + PosixPath.Print(path);
    assert reference[1] == 'r' && LOADER_PREFIX[1] == 'l';
    AfterPrefix("@rpath", PosixPath.Print(path));
    PosixPath.PartsPrint(path);
  }

  lemma AbsoluteLeads(path: PosixPath.Path, owner: File, libraryDir: File)
    requires PosixPath.Relative(path)
    ensures ResolveReference("/" + PosixPath.Print(path), owner, libraryDir) == File(true, path)
  {
    hide PosixPath.Print;
    var name := PosixPath.Print(path);
    assert ("/" + name)[0] == '/' && LOADER_PREFIX[0] == '@' && RPATH_PREFIX[0] == '@';
    Text.SplitCons("", name, '/');
    assert "/" + name == "" + "/" + name;
    PosixPath.PartsPrint(path);
  }

  /** The last piece of a printed path is its last part. */
  lemma LastOfPrint(path: PosixPath.Path)
    requires PosixPath.Relative(path)
    ensures LastPiece(PosixPath.Print(path)) == path[|path| - 1]
  {
    assert forall k :: 0 <= k < |path| ==> PosixPath.IsPart(path[k]);
    Text.SplitJoin(path, '/');
  }

  lemma FirstOfPrint(path: PosixPath.Path, prefix: string)
    requires PosixPath.Relative(path) && '/' !in prefix && prefix + "/" <= PosixPath.Print(path)
    ensures path[0] == prefix
  {
    var name := PosixPath.Print(path);
    var rest := name[|prefix| + 1..];
    assert name == prefix + "/" + rest;
    Text.SplitCons(prefix, rest, '/');
    assert forall k :: 0 <= k < |path| ==> PosixPath.IsPart(path[k]);
    Text.SplitJoin(path, '/');
  }

  lemma PlainLeads(path: PosixPath.Path, owner: File, libraryDir: File)
    requires Unprefixed(path)
    ensures ResolveReference(PosixPath.Print(path), owner, libraryDir)
         == File(libraryDir.absolute, libraryDir.parts + [path[|path| - 1]])
  {
    hide PosixPath.Print, PosixPath.Parts, LastPiece;
    var name := PosixPath.Print(path);
    if LOADER_PREFIX <= name {
      assert LOADER_PREFIX == "@loader_path" + "/";
      FirstOfPrint(path, "@loader_path");
    }
    if RPATH_PREFIX <= name {
      assert RPATH_PREFIX == "@rpath" + "/";
      FirstOfPrint(path, "@rpath");
    }
    PosixPath.PartsPrint(path);
    LastOfPrint(path);
    var last := path[|path| - 1];
    PosixPath.PartsPrint([last]);
    OnePart(last);
  }

  lemma OnePart(part: string)
    requires PosixPath.IsPart(part)
    ensures PosixPath.Print([part]) == part
  {
  }

  /** A reference leads where its spelling says. */
  lemma NamesLeads(reference: string, owner: File, libraryDir: File, named: File)
    requires Names(reference, owner, libraryDir, named)
    ensures ResolveReference(reference, owner, libraryDir) == named
  {
    hide ResolveReference, PosixPath.Print;
    if path :| && PosixPath.Relative(path) && reference == "@loader_path/" + PosixPath.Print(path)
               && named == File(owner.absolute, Directory(owner.parts) + path) {
      LoaderLeads(path, owner, libraryDir);
    } else if path :| && PosixPath.Relative(path) && reference == "@rpath/" + PosixPath.Print(path)
                      && named == File(libraryDir.absolute, libraryDir.parts + path) {
      RpathLeads(path, owner, libraryDir);
    } else if path :| && PosixPath.Relative(path) && reference == "/" + PosixPath.Print(path)
                      && named == File(true, path) {
      AbsoluteLeads(path, owner, libraryDir);
    } else {
      var path :| && Unprefixed(path) && reference == PosixPath.Print(path)
                  && named == File(libraryDir.absolute, libraryDir.parts + [path[|path| - 1]]);
      PlainLeads(path, owner, libraryDir);
    }
  }

  // ---------- Which files join the closure ----------

  predicate SystemPath(reference: string) {
    "/usr/lib/" <= reference || "/System/" <= reference
  }

  /** What a visited owner names is in the closure when it is a file, or when the reference is no system path. */
  lemma NamedJoins(binary: File, owner: File, k: nat, named: File, linkage: Linkage)
    requires ReachesOrIs(Edges(linkage), binary, owner) && k < |linkage.references(owner)| && named != owner
    requires Names(linkage.references(owner)[k], owner, linkage.libraryDir, named)
    requires linkage.isFile(named) || !SystemPath(linkage.references(owner)[k])
    ensures Reaches(Edges(linkage), binary, named)
  {
    hide ResolveReference, Names;
    NamesLeads(linkage.references(owner)[k], owner, linkage.libraryDir, named);
    LinkOf(owner, k, linkage);
    Follow(Edges(linkage), binary, owner, named);
  }

  /**
   A member of the closure that is no file has a visited owner with a reference to it that is no system path. So a
   library that only system paths name, and that is no file, is not in the closure.
   */
  lemma MissingSystemLibrary(binary: File, path: File, linkage: Linkage)
    requires !linkage.isFile(path)
    requires forall owner, k ::
               ReachesOrIs(Edges(linkage), binary, owner) && 0 <= k < |linkage.references(owner)|
               && ResolveReference(linkage.references(owner)[k], owner, linkage.libraryDir) == path ==>
                 SystemPath(linkage.references(owner)[k])
    ensures !Reaches(Edges(linkage), binary, path)
  {
    hide ResolveReference;
    if Reaches(Edges(linkage), binary, path) {
      var owner := LastStep(Edges(linkage), binary, path);
    }
  }

  /** A reference to a system library that is no file on disk. */
  ghost predicate SystemOnly(reference: string, linkage: Linkage) {
    && SystemPath(reference)
    && exists path | PosixPath.Relative(path) ::
         reference == "/" + PosixPath.Print(path) && !linkage.isFile(File(true, path))
  }

  /** A binary that refers only to such libraries has an empty closure. */
  lemma OnlySystemLibraries(binary: File, linkage: Linkage)
    requires forall k :: 0 <= k < |linkage.references(binary)| ==> SystemOnly(linkage.references(binary)[k], linkage)
    ensures forall path :: !Reaches(Edges(linkage), binary, path)
  {
    hide ResolveReference, PosixPath.Print;
    forall path ensures !Links(binary, path, linkage) {
      if Links(binary, path, linkage) {
        var k :| 0 <= k < |linkage.references(binary)| && Admitted(linkage.references(binary)[k], binary, linkage);
        var reference := linkage.references(binary)[k];
        var parts :| && PosixPath.Relative(parts) && reference == "/" + PosixPath.Print(parts)
                     && !linkage.isFile(File(true, parts));
        AbsoluteLeads(parts, binary, linkage.libraryDir);
      }
    }
    forall path ensures !Reaches(Edges(linkage), binary, path) {
      if Reaches(Edges(linkage), binary, path) {
        FirstStep(Edges(linkage), binary, path);
      }
    }
  }

  // ---------- When the loop finishes ----------

  /** A set of files that no link leaves, from the binary or from a file of the set. */
  ghost predicate Closes(universe: set<File>, binary: File, linkage: Linkage) {
    forall owner, path :: (owner == binary || owner in universe) && Links(owner, path, linkage) ==> path in universe
  }

  /** Every marked file is still queued, or all its links lead to marked files. */
  ghost predicate Tracked(walk: Walk, binary: File, linkage: Linkage) {
    forall n :: n == binary || n in walk.seen ==>
      n in walk.queue || Followed(n, |linkage.references(n)|, walk.seen, linkage)
  }

  /** The same while the references of an owner are scanned. */
  ghost predicate TrackedBut(walk: Walk, binary: File, owner: File, k: nat, linkage: Linkage)
    requires k <= |linkage.references(owner)|
  {
    && Followed(owner, k, walk.seen, linkage)
    && forall n :: (n == binary || n in walk.seen) && n != owner ==>
         n in walk.queue || Followed(n, |linkage.references(n)|, walk.seen, linkage)
  }

  lemma VisitTracks(walk: Walk, binary: File, owner: File, k: nat, linkage: Linkage)
    requires k < |linkage.references(owner)| && TrackedBut(walk, binary, owner, k, linkage)
    ensures TrackedBut(Visit(walk, owner, linkage.references(owner)[k], linkage), binary, owner, k + 1, linkage)
  {
    hide ResolveReference, IsSystemOnly, Admitted;
    var reference := linkage.references(owner)[k];
    if Skips(walk, owner, reference, linkage) {
      SkippedReference(owner, k, walk.seen, linkage);
    }
  }

  lemma {:induction false} ScanTracks(walk: Walk, binary: File, owner: File, k: nat, linkage: Linkage)
    requires k <= |linkage.references(owner)| && TrackedBut(walk, binary, owner, k, linkage)
    ensures Tracked(Scan(walk, owner, k, linkage), binary, linkage)
    decreases |linkage.references(owner)| - k
  {
    hide Visit, Followed;
    if k < |linkage.references(owner)| {
      VisitTracks(walk, binary, owner, k, linkage);
      ScanTracks(Visit(walk, owner, linkage.references(owner)[k], linkage), binary, owner, k + 1, linkage);
    }
  }

  lemma StepTracks(walk: Walk, binary: File, linkage: Linkage)
    requires walk.queue != [] && Tracked(walk, binary, linkage)
    ensures Tracked(Step(walk, linkage), binary, linkage)
  {
    hide Scan;
    var last := |walk.queue| - 1;
    var owner, popped := walk.queue[last], walk.(queue := walk.queue[..last]);
    assert forall n :: n in walk.queue ==> n in popped.queue || n == owner;
    ScanTracks(popped, binary, owner, 0, linkage);
  }

  lemma {:induction false} RunTracks(walk: Walk, n: nat, binary: File, linkage: Linkage)
    requires Tracked(walk, binary, linkage)
    ensures Tracked(Run(walk, n, linkage), binary, linkage)
    decreases n
  {
    hide Step, Tracked;
    if n > 0 && walk.queue != [] {
      StepTracks(walk, binary, linkage);
      RunTracks(Step(walk, linkage), n - 1, binary, linkage);
    }
  }

  /** Every file of the queue is the binary or lies in the universe, as does every marked file. */
  predicate Inside(walk: Walk, binary: File, universe: set<File>) {
    walk.seen <= universe && forall k :: 0 <= k < |walk.queue| ==> walk.queue[k] == binary || walk.queue[k] in universe
  }

  /** A scan stays in the universe, and marks a file or leaves the queue alone. */
  lemma {:induction false} ScanStays(
    walk: Walk, binary: File, owner: File, k: nat, universe: set<File>, linkage: Linkage)
    requires Closes(universe, binary, linkage) && (owner == binary || owner in universe)
    requires k <= |linkage.references(owner)| && Inside(walk, binary, universe)
    ensures var after := Scan(walk, owner, k, linkage);
            && Inside(after, binary, universe)
            && (after == walk || walk.seen < after.seen)
    decreases |linkage.references(owner)| - k
  {
    hide ResolveReference, IsSystemOnly, Links;
    if k < |linkage.references(owner)| {
      LinkOf(owner, k, linkage);
      ScanStays(Visit(walk, owner, linkage.references(owner)[k], linkage), binary, owner, k + 1, universe, linkage);
    }
  }

  /** In a finite universe, rounds mark a further file or shorten the queue until it is empty. */
  lemma {:induction false} RunEnds(walk: Walk, binary: File, universe: set<File>, linkage: Linkage) returns (n: nat)
    requires Closes(universe, binary, linkage) && Inside(walk, binary, universe)
    ensures Run(walk, n, linkage).queue == []
    decreases universe - walk.seen, |walk.queue|
  {
    hide Closes, Scan;
    if walk.queue == [] {
      n := 0;
    } else {
      var last := |walk.queue| - 1;
      var popped := walk.(queue := walk.queue[..last]);
      ScanStays(popped, binary, walk.queue[last], 0, universe, linkage);
      var next := Step(walk, linkage);
      if next != popped {
        assert universe - next.seen < universe - walk.seen;
      }
      n := RunEnds(next, binary, universe, linkage);
      n := n + 1;
    }
  }

  /** The loop empties its queue exactly when a finite set of files holds everything that links lead to. */
  lemma FinishesExactly(binary: File, linkage: Linkage)
    ensures Finishes(binary, linkage) <==> exists universe :: Closes(universe, binary, linkage)
  {
    hide Closes, Run, Step, Links;
    if Finishes(binary, linkage) {
      var n: nat :| Run(Start(binary), n, linkage).queue == [];
      RunTracks(Start(binary), n, binary, linkage);
      MarkedCloses(Run(Start(binary), n, linkage), binary, linkage);
    }
    if universe :| Closes(universe, binary, linkage) {
      var n := RunEnds(Start(binary), binary, universe, linkage);
    }
  }

  lemma MarkedCloses(walk: Walk, binary: File, linkage: Linkage)
    requires Tracked(walk, binary, linkage) && walk.queue == []
    ensures Closes(walk.seen, binary, linkage)
  {
    hide Links, Followed;
    forall owner, path | (owner == binary || owner in walk.seen) && Links(owner, path, linkage)
      ensures path in walk.seen
    {
      FollowedAll(owner, path, walk.seen, linkage);
    }
  }

  /** The reference resolves to one place, whatever its owner. */
  predicate OwnerFree(reference: string) {
    LOADER_PREFIX <= reference ==>
      assert reference[|LOADER_PREFIX| - 1] == '/';
      PosixPath.Absolute(AfterSlash(reference))
  }

  /** A reference relative to its owner that names a file in the owner's own directory. */
  predicate Sibling(reference: string) {
    LOADER_PREFIX <= reference &&
      assert reference[|LOADER_PREFIX| - 1] == '/';
      !PosixPath.Absolute(AfterSlash(reference)) && |PosixPath.Parts(AfterSlash(reference))| == 1
  }

  lemma FreeOfOwner(reference: string, one: File, two: File, libraryDir: File)
    requires OwnerFree(reference)
    ensures ResolveReference(reference, one, libraryDir) == ResolveReference(reference, two, libraryDir)
  {
  }

  lemma SiblingStays(reference: string, owner: File, libraryDir: File)
    requires Sibling(reference)
    ensures var path := ResolveReference(reference, owner, libraryDir);
            Parent(path) == Parent(owner) && path == Beside(Parent(owner), reference)
  {
  }

  function Beside(directory: File, reference: string): File
    requires Sibling(reference)
  {
    assert reference[|LOADER_PREFIX| - 1] == '/';
    Under(directory, AfterSlash(reference))
  }

  lemma BesideIn(directory: File, reference: string)
    requires Sibling(reference)
    ensures Parent(Beside(directory, reference)) == directory
  {
  }

  /**
   With finitely many reference texts, none of which leads from its owner's directory into another by a relative name,
   the files that can be reached are finitely many, and the loop finishes.
   */
  lemma UniverseExists(binary: File, texts: set<string>, linkage: Linkage) returns (universe: set<File>)
    requires forall text :: text in texts ==> OwnerFree(text) || Sibling(text)
    requires forall owner, k :: 0 <= k < |linkage.references(owner)| ==> linkage.references(owner)[k] in texts
    ensures Closes(universe, binary, linkage) && Finishes(binary, linkage)
  {
    hide OwnerFree, Sibling, ResolveReference, Beside, Parent, IsSystemOnly;
    var fixed := set text | text in texts && OwnerFree(text) :: ResolveReference(text, binary, linkage.libraryDir);
    var directories := {Parent(binary)} + set file | file in fixed :: Parent(file);
    var siblings := set d, text | d in directories && text in texts && Sibling(text) :: Beside(d, text);
    universe := fixed + siblings;
    forall owner, path | (owner == binary || owner in universe) && Links(owner, path, linkage)
      ensures path in universe
    {
      var k :| 0 <= k < |linkage.references(owner)|
               && ResolveReference(linkage.references(owner)[k], owner, linkage.libraryDir) == path;
      var text := linkage.references(owner)[k];
      if OwnerFree(text) {
        FreeOfOwner(text, owner, binary, linkage.libraryDir);
      } else {
        SiblingStays(text, owner, linkage.libraryDir);
        if owner in siblings {
          var d, other :| d in directories && other in texts && Sibling(other) && owner == Beside(d, other);
          BesideIn(d, other);
        }
        assert Parent(owner) in directories;
      }
    }
    FinishesExactly(binary, linkage);
  }

  const CLIMB := "../l/A.dylib"
  const CLIMBING := LOADER_PREFIX + CLIMB

  /** Every library refers to one reached by going up a directory and down again. */
  function Diverging(libraryDir: File): Linkage {
    Linkage((_: File) => [CLIMBING], (_: File) => true, libraryDir)
  }

  lemma ClimbParts()
    ensures !PosixPath.Absolute(CLIMB) && |PosixPath.Parts(CLIMB)| == 3
  {
    hide PosixPath.Parts;
    var path := ["..", "l", "A.dylib"];
    PosixPath.PartsPrint(path);
    assert PosixPath.Print(path) == CLIMB;
  }

  lemma AfterLoader(rest: string)
    ensures LOADER_PREFIX <= LOADER_PREFIX + rest && '/' in LOADER_PREFIX + rest
    ensures AfterSlash(LOADER_PREFIX + rest) == rest
  {
    hide AfterSlash;
    AfterPrefix("@loader_path", rest);
    assert LOADER_PREFIX == "@loader_path" + "/";
    assert LOADER_PREFIX[|LOADER_PREFIX| - 1] == '/';
  }

  /** Each link of the diverging linkage leads to a longer path. */
  lemma LinksClimb(owner: File, libraryDir: File)
    ensures var path := ResolveReference(CLIMBING, owner, libraryDir);
            |path.parts| > |owner.parts| && Links(owner, path, Diverging(libraryDir))
  {
    hide AfterSlash, PosixPath.Parts;
    ClimbParts();
    AfterLoader(CLIMB);
    var linkage := Diverging(libraryDir);
    assert linkage.references(owner)[0] == CLIMBING;
    assert Admitted(CLIMBING, owner, linkage);
  }

  lemma {:induction false} Climb(universe: set<File>, binary: File, libraryDir: File, n: nat) returns (file: File)
    requires Closes(universe, binary, Diverging(libraryDir))
    ensures file == binary || file in universe
    ensures |file.parts| >= n
  {
    hide Links, ResolveReference;
    file := binary;
    if n > 0 {
      var owner := Climb(universe, binary, libraryDir, n - 1);
      LinksClimb(owner, libraryDir);
      file := ResolveReference(CLIMBING, owner, libraryDir);
    }
  }

  lemma {:induction false} Longest(files: set<File>) returns (n: nat)
    ensures forall file :: file in files ==> |file.parts| < n
  {
    n := 0;
    if files != {} {
      var file :| file in files;
      n := Longest(files - {file});
      n := n + |file.parts| + 1;
    }
  }

  /** From any binary, no finite set holds what the diverging linkage leads to. */
  lemma NoUniverse(universe: set<File>, binary: File, libraryDir: File)
    ensures !Closes(universe, binary, Diverging(libraryDir))
  {
    hide Closes;
    var n := Longest(universe + {binary});
    if Closes(universe, binary, Diverging(libraryDir)) {
      var file := Climb(universe, binary, libraryDir, n);
    }
  }

  /** From any binary, the loop never empties its queue on the diverging linkage. */
  lemma NeverFinishes(binary: File, libraryDir: File, n: nat)
    ensures Run(Start(binary), n, Diverging(libraryDir)).queue != []
  {
    hide Closes, Run, Start, Diverging;
    var linkage := Diverging(libraryDir);
    forall universe ensures !Closes(universe, binary, linkage) {
      NoUniverse(universe, binary, libraryDir);
    }
    FinishesExactly(binary, linkage);
    assert !Finishes(binary, linkage);
  }
}
