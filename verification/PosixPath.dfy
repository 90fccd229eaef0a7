/** Pure POSIX paths: how a name splits into parts, and how parts print as a name. */
module PosixPath {
  import Text

  type Path = seq<string>

  predicate IsPart(part: string) {
    part != "" && part != "." && '/' !in part
  }

  function Kept(pieces: seq<string>): (parts: Path)
    ensures |parts| <= |pieces|
    ensures forall k :: 0 <= k < |parts| ==> parts[k] in pieces && parts[k] != "" && parts[k] != "."
  {
    if pieces == [] then []
    else if pieces[0] == "" || pieces[0] == "." then Kept(pieces[1..])
    else [pieces[0]] + Kept(pieces[1..])
  }

  /** The parts of a name: the pieces between slashes, without empty pieces and single dots. */
  function Parts(name: string): Path {
    Kept(Text.Split(name, '/'))
  }

  predicate Absolute(name: string) {
    name != "" && name[0] == '/'
  }

  function Print(path: Path): string {
    Text.Join(path, '/')
  }

  /** The last part of a name, or nothing. */
  function BaseName(name: string): string {
    var parts := Parts(name);
    if parts == [] then "" else parts[|parts| - 1]
  }

  predicate Normal(path: Path) {
    forall k :: 0 <= k < |path| ==> IsPart(path[k])
  }

  /** A nonempty relative path that a name spells out: no empty parts, no single dots. */
  predicate Relative(path: Path) {
    path != [] && Normal(path)
  }

  /** What is kept of the pieces: all but empty pieces and single dots. */
  lemma {:induction false} KeptMembers(pieces: seq<string>)
    ensures forall p :: p in Kept(pieces) <==> p in pieces && p != "" && p != "."
  {
    if pieces != [] {
      KeptMembers(pieces[1..]);
      assert pieces == [pieces[0]] + pieces[1..];
    }
  }

  lemma PartsAreNormal(name: string)
    ensures Normal(Parts(name))
  {
    Text.SplitHasNoSeparator(name, '/');
  }

  lemma {:induction false} KeptAll(parts: Path)
    requires Normal(parts)
    ensures Kept(parts) == parts
  {
    if parts != [] {
      assert IsPart(parts[0]);
      assert Normal(parts[1..]) by {
        forall k | 0 <= k < |parts[1..]| ensures IsPart(parts[1..][k]) { assert parts[1..][k] == parts[k + 1]; }
      }
      KeptAll(parts[1..]);
    }
  }

  /** A printed path reads back as itself, and is relative. */
  lemma PartsPrint(path: Path)
    requires path != [] && Normal(path)
    ensures Parts(Print(path)) == path
    ensures Print(path) != "" && !Absolute(Print(path))
  {
    assert forall k :: 0 <= k < |path| ==> IsPart(path[k]) && '/' !in path[k];
    Text.SplitJoin(path, '/');
    KeptAll(path);
    assert IsPart(path[0]);
    assert Print(path)[0] == path[0][0] && path[0][0] in path[0];
  }

  lemma PrintInjective(one: Path, two: Path)
    requires one != [] && two != [] && Normal(one) && Normal(two)
    requires Print(one) == Print(two)
    ensures one == two
  {
    PartsPrint(one);
    PartsPrint(two);
  }

  lemma BaseNameOfBaseName(name: string)
    ensures BaseName(BaseName(name)) == BaseName(name)
  {
    var base := BaseName(name);
    PartsAreNormal(name);
    if base != "" {
      var path := Parts(name);
      assert IsPart(path[|path| - 1]);
      PartsPrint([base]);
    }
  }
}
