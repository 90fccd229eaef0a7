/**
 The two worklists that decide which declared evidence files are referenced. The quality check marks a body when it pops
 it and fails on one that it cannot read; the study check marks a file when it pushes it and passes over the unreadable.
 */
module EvidenceReferences {
  import opened Wrappers
  import opened Reachability
  import PosixPath
  import Text

  type Path = PosixPath.Path

  predicate IsJson(path: Path) {
    Text.EndsWith(PosixPath.Print(path), ".json")
  }

  // ---------- Quality artifacts ----------

  /**
   A quality record's declared files and roots, and what each body holds: its path texts, None when it is unreadable,
   and its shader names.
   */
  datatype Artifacts = Artifacts(
    files: set<Path>, roots: seq<Path>, paths: Path -> Option<seq<string>>, shaders: Path -> seq<string>)
  {
    function values(body: Path): Option<seq<string>> {
      if paths(body).None? then None else Some(paths(body).value + shaders(body))
    }
  }

  predicate Unsafe(value: string) {
    PosixPath.Absolute(value) || ".." in PosixPath.Parts(value)
  }

  function Bases(relative: Path, value: string, roots: seq<Path>): seq<Path> {
    var parent := if relative == [] then [] else relative[..|relative| - 1];
    [parent] + if |PosixPath.Parts(value)| == 1 then roots else []
  }

  function Candidates(relative: Path, value: string, roots: seq<Path>): seq<Path> {
    if Unsafe(value) then [] else
    var bases := Bases(relative, value, roots);
    seq(|bases|, k requires 0 <= k < |bases| => bases[k] + PosixPath.Parts(value))
  }

  /** What a path text names: the path below the body's directory, and a lone name also below each root. */
  lemma CandidatesMean(relative: Path, path: Path, roots: seq<Path>, file: Path)
    requires PosixPath.Relative(path) && ".." !in path
    ensures file in Candidates(relative, PosixPath.Print(path), roots) <==>
              || file == (if relative == [] then [] else relative[..|relative| - 1]) + path
              || (|path| == 1 && exists root :: root in roots && file == root + path)
  {
    hide PosixPath.Parts, PosixPath.Print;
    PosixPath.PartsPrint(path);
    var value := PosixPath.Print(path);
    var bases, candidates := Bases(relative, value, roots), Candidates(relative, value, roots);
    assert bases[0] == if relative == [] then [] else relative[..|relative| - 1];
    assert candidates[0] == bases[0] + path;
    if |path| == 1 {
      forall root | root in roots ensures root + path in candidates {
        var k :| 0 <= k < |roots| && roots[k] == root;
        assert candidates[k + 1] == root + path;
      }
    }
    if file in candidates {
      var k :| 0 <= k < |candidates| && candidates[k] == file;
      assert k > 0 ==> bases[k] == roots[k - 1];
    }
  }

  /** A text that starts with a slash or goes up a directory names nothing. */
  lemma UnsafeNamesNothing(relative: Path, value: string, roots: seq<Path>)
    requires (value != "" && value[0] == '/') || ".." in Text.Split(value, '/')
    ensures Candidates(relative, value, roots) == []
  {
    PosixPath.KeptMembers(Text.Split(value, '/'));
  }

  /** A body is one whose printed name ends in ".json". */
  lemma JsonNames(path: Path)
    ensures IsJson(path) <==> exists stem :: PosixPath.Print(path) == stem + ".json"
  {
    EndsWithJson(PosixPath.Print(path));
  }

  lemma EndsWithJson(name: string)
    ensures Text.EndsWith(name, ".json") <==> exists stem :: name == stem + ".json"
  {
    if Text.EndsWith(name, ".json") {
      assert name == name[..|name| - 5] + ".json";
    }
    if stem :| name == stem + ".json" {
      assert name[|stem|..] == ".json";
    }
  }

  /** A body names a declared file. */
  predicate Names(a: Artifacts, relative: Path, file: Path) {
    && file in a.files && a.values(relative).Some?
    && exists k :: 0 <= k < |a.values(relative).value|
         && file in Candidates(relative, a.values(relative).value[k], a.roots)
  }

  ghost function BodyEdges(a: Artifacts): (Path, Path) -> bool {
    (relative, file) => Names(a, relative, file) && IsJson(file)
  }

  /** Adds the files that one readable body names to the references, and queues the JSON files among them. */
  method ScanBody(a: Artifacts, relative: Path, references: set<Path>, pending: seq<Path>)
    returns (references': set<Path>, pending': seq<Path>)
    requires a.values(relative).Some?
    ensures forall f :: f in references' <==> f in references || Names(a, relative, f)
    ensures forall f :: f in pending' <==> f in pending || (Names(a, relative, f) && IsJson(f))
  {
    hide Candidates, IsJson;
    var values := a.values(relative).value;
    references', pending' := references, pending;
    for k := 0 to |values|
      invariant forall f :: f in references' <==> f in references || NamedBy(a, relative, k, f)
      invariant forall f :: f in pending' <==> f in pending || (NamedBy(a, relative, k, f) && IsJson(f))
    {
      var candidates := Candidates(relative, values[k], a.roots);
      for c := 0 to |candidates|
        invariant forall f :: f in references' <==>
                    f in references || NamedBy(a, relative, k, f) || (f in a.files && f in candidates[..c])
        invariant forall f :: f in pending' <==>
                    f in pending
                    || ((NamedBy(a, relative, k, f) || (f in a.files && f in candidates[..c])) && IsJson(f))
      {
        var candidate := candidates[c];
        assert candidates[..c + 1] == candidates[..c] + [candidate];
        if candidate !in a.files {
          continue;
        }
        references' := references' + {candidate};
        if IsJson(candidate) {
          pending' := pending' + [candidate];
        }
      }
      assert candidates[..|candidates|] == candidates;
    }
  }

  /** One of the first `k` texts of a body names a declared file. */
  predicate NamedBy(a: Artifacts, relative: Path, k: nat, file: Path)
    requires a.values(relative).Some? && k <= |a.values(relative).value|
  {
    file in a.files && exists j :: 0 <= j < k && file in Candidates(relative, a.values(relative).value[j], a.roots)
  }

  /** A body that has been read: what it names is referenced, and the JSON files among it are read or queued. */
  ghost predicate Handled(a: Artifacts, body: Path, references: set<Path>, visited: set<Path>, pending: seq<Path>) {
    && a.values(body).Some?
    && forall f :: Names(a, body, f) ==> f in references && (IsJson(f) ==> f in visited || f in pending)
  }

  /**
   The declared files that some reachable body names. The search fails exactly when a reachable body is unreadable, the
   comparison itself included.
   */
  method RecordArtifactReferences(a: Artifacts, comparison: Path) returns (r: Option<set<Path>>)
    ensures r.Some? <==> forall body :: ReachesOrIs(BodyEdges(a), comparison, body) ==> a.values(body).Some?
    ensures r.Some? ==> forall file :: file in r.value <==>
              exists body :: ReachesOrIs(BodyEdges(a), comparison, body) && Names(a, body, file)
  {
    hide Names, IsJson;
    ghost var edge := BodyEdges(a);
    ghost var universe := a.files + {comparison};
    var references: set<Path>, visited: set<Path>, pending := {}, {}, [comparison];
    while pending != []
      invariant comparison in visited || comparison in pending
      invariant visited <= universe && forall q :: q in pending ==> q in universe
      invariant forall q :: q in pending || q in visited ==> ReachesOrIs(edge, comparison, q)
      invariant forall f :: f in references ==> exists body :: body in visited && Names(a, body, f)
      invariant forall body :: body in visited ==> Handled(a, body, references, visited, pending)
      decreases universe - visited, |pending|
    {
      var relative := pending[|pending| - 1];
      ghost var before := pending;
      pending := pending[..|pending| - 1];
      assert before == pending + [relative];
      if relative in visited {
        continue;
      }
      visited := visited + {relative};
      if a.values(relative).None? {
        return None;
      }
      forall f | Names(a, relative, f) && IsJson(f) ensures ReachesOrIs(edge, comparison, f) {
        Follow(edge, comparison, relative, f);
      }
      NamedIsDeclared(a, relative);
      references, pending := ScanBody(a, relative, references, pending);
    }
    forall body | ReachesOrIs(edge, comparison, body) ensures body in visited {
      if body != comparison {
        Closed(edge, comparison, visited, body);
      }
    }
    r := Some(references);
  }

  lemma NamedIsDeclared(a: Artifacts, relative: Path)
    ensures forall f :: Names(a, relative, f) ==> f in a.files
  {
  }

  /**
   A record that is not comparison evidence passes. A readable comparison is accepted when it holds no path at all, or
   when every reachable body is readable and every declared file is named by one.
   */
  method CheckQualityReferences(a: Artifacts, comparison: Path, validator: Option<string>, mode: Option<string>)
    returns (accepted: bool)
    ensures accepted <==>
              validator != Some("quality-stage-v1") || mode != Some("comparison") ||
              (&& a.paths(comparison).Some?
               && (a.paths(comparison).value == [] ||
                  ((forall body :: ReachesOrIs(BodyEdges(a), comparison, body) ==> a.values(body).Some?)
                   && forall file :: file in a.files ==>
                        exists body :: ReachesOrIs(BodyEdges(a), comparison, body) && Names(a, body, file))))
  {
    hide Names;
    if validator != Some("quality-stage-v1") || mode != Some("comparison") {
      return true;
    }
    if a.paths(comparison).None? {
      return false;
    }
    if a.paths(comparison).value == [] {
      return true;
    }
    var references := RecordArtifactReferences(a, comparison);
    accepted := references.Some? && a.files <= references.value;
  }

  // ---------- Study files ----------

  /** A branching record's study files, and the path texts of each JSON body; None is an unreadable body. */
  datatype Study = Study(files: set<string>, values: string -> Option<seq<string>>)

  /** The texts that a file contributes: a JSON body's paths, and nothing from any other file or an unreadable body. */
  function Found(s: Study, relative: string): seq<string> {
    if Text.EndsWith(relative, ".json") && s.values(relative).Some? then s.values(relative).value else []
  }

  /** Only a readable file whose name ends in ".json" contributes its texts. */
  lemma FoundTexts(s: Study, stem: string, relative: string)
    ensures s.values(stem + ".json").Some? ==> Found(s, stem + ".json") == s.values(stem + ".json").value
    ensures s.values(relative).None? || (forall other :: relative != other + ".json") ==> Found(s, relative) == []
  {
    EndsWithJson(stem + ".json");
    EndsWithJson(relative);
  }

  ghost function StudyEdges(s: Study): (string, string) -> bool {
    (relative, file) => file in s.files && file in Found(s, relative)
  }

  /** The study files reachable from the record through readable JSON bodies. */
  method StudyReferences(s: Study, record: string) returns (seen: set<string>)
    ensures forall file :: file in seen <==> Reaches(StudyEdges(s), record, file)
  {
    hide Found;
    ghost var edge := StudyEdges(s);
    var pending := [record];
    seen := {};
    while pending != []
      invariant seen <= s.files
      invariant forall q :: q in pending ==> q == record || q in seen
      invariant forall f :: f in seen ==> Reaches(edge, record, f)
      invariant forall n, f :: (n == record || n in seen) && edge(n, f) ==> n in pending || f in seen
      decreases s.files - seen, |pending|
    {
      var relative := pending[|pending| - 1];
      ghost var before, marked := pending, seen;
      pending := pending[..|pending| - 1];
      var body := Found(s, relative);
      for k := 0 to |body|
        invariant marked <= seen <= s.files
        invariant seen == marked ==> pending == before[..|before| - 1]
        invariant forall q :: q in pending ==> q == record || q in seen
        invariant forall q :: q in before ==> q in pending || q == relative
        invariant forall f :: f in seen ==> Reaches(edge, record, f)
        invariant forall j :: 0 <= j < k && body[j] in s.files ==> body[j] in seen
        invariant forall n, f :: (n == record || n in seen) && n != relative && edge(n, f) ==> n in pending || f in seen
      {
        var value := body[k];
        if value in s.files && value !in seen {
          Follow(edge, record, relative, value);
          seen := seen + {value};
          pending := pending + [value];
        }
      }
    }
    forall file | Reaches(edge, record, file) ensures file in seen {
      Closed(edge, record, seen, file);
    }
  }

  /** A branching record is accepted when its study files are distinct dependencies, each reachable from the record. */
  method BranchingClosure(files: seq<string>, dependencies: set<string>, record: string,
                          values: string -> Option<seq<string>>)
    returns (accepted: bool)
    ensures var study := Study((set f | f in files), values);
            accepted <==>
              && |study.files| == |files| && study.files <= dependencies
              && forall file :: file in files ==> Reaches(StudyEdges(study), record, file)
  {
    var study := Study((set f | f in files), values);
    if |study.files| != |files| || !(study.files <= dependencies) {
      return false;
    }
    var references := StudyReferences(study, record);
    accepted := study.files <= references;
    assert forall file :: file in study.files <==> file in files;
  }
}
