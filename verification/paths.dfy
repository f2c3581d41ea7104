/** POSIX paths as `pathlib` sees them: whether the path is absolute, and its components.
    `pathlib` parses a string by splitting it at '/' and dropping empty and "." components,
    and `p / s` appends the components of `s` unless `s` is itself absolute. */
module Paths {
  import opened Strings

  datatype Path = Path(absolute: bool, parts: seq<string>)

  /** A name that can stand as one component of a parsed path. */
  predicate IsComponent(s: string)
  {
    s != "" && s != "." && '/' !in s
  }

  /** Every component of `p` is a proper component, as after parsing. */
  predicate WellFormed(p: Path)
  {
    forall k :: 0 <= k < |p.parts| ==> IsComponent(p.parts[k])
  }

  /** The pieces of a '/'-split string that `pathlib` keeps: all but "" and ".". */
  function Components(pieces: seq<string>): (r: seq<string>)
    ensures |r| <= |pieces|
    ensures forall k :: 0 <= k < |r| ==> r[k] in pieces && r[k] != "" && r[k] != "."
  {
    if pieces == [] then []
    else (if pieces[0] == "" || pieces[0] == "." then [] else [pieces[0]]) + Components(pieces[1..])
  }

  /** Pieces that are all proper components are all kept. */
  lemma {:induction false} ComponentsKeepsComponents(pieces: seq<string>)
    requires forall k :: 0 <= k < |pieces| ==> IsComponent(pieces[k])
    ensures Components(pieces) == pieces
  {
    if pieces != [] {
      ComponentsKeepsComponents(pieces[1..]);
      assert [pieces[0]] + pieces[1..] == pieces;
    }
  }

  /** `Path(s)`. */
  function Parse(s: string): (p: Path)
    ensures WellFormed(p)
    ensures p.absolute <==> |s| > 0 && s[0] == '/'
  {
    Path(|s| > 0 && s[0] == '/', Components(Split(s, '/')))
  }

  /** The path one level below `p`, named `name`, as `iterdir` builds its entries. */
  function Child(p: Path, name: string): Path
  {
    Path(p.absolute, p.parts + [name])
  }

  /** `p / s`. */
  function Join(p: Path, s: string): (r: Path)
    ensures WellFormed(p) ==> WellFormed(r)
    ensures (|s| > 0 && s[0] == '/') ==> r == Parse(s)
  {
    var q := Parse(s);
    if q.absolute then q else Path(p.absolute, p.parts + q.parts)
  }

  /** A single proper component parses to a one-component relative path. */
  lemma ParseComponent(s: string)
    requires IsComponent(s)
    ensures Parse(s) == Path(false, [s])
  {
    SplitWithoutSeparator(s, '/');
  }

  /** Joining a single proper component goes one level down. */
  lemma JoinComponent(p: Path, s: string)
    requires IsComponent(s)
    ensures Join(p, s) == Child(p, s)
  {
    ParseComponent(s);
  }

  /** `p / name` for a literal single-component name, such as `Path.home() / "Downloads"`. */
  method JoinName(p: Path, name: string) returns (r: Path)
    requires IsComponent(name)
    ensures r == Child(p, name)
  {
    JoinComponent(p, name);
    r := Join(p, name);
  }

  /** `str(p)`. */
  function Str(p: Path): (s: string)
    ensures p.absolute ==> |s| > 0 && s[0] == '/'
    ensures WellFormed(p) && !p.absolute ==> |s| > 0 && s[0] != '/'
  {
    if p.absolute then "/" + JoinWith(p.parts, '/')
    else if p.parts == [] then "."
    else if p.parts[0] == "" then JoinWith(p.parts, '/')
    else JoinWithStartsWithFirst(p.parts, '/'); JoinWith(p.parts, '/')
  }

  /** The first character of a join is the first character of its first piece. */
  lemma JoinWithStartsWithFirst(pieces: seq<string>, sep: char)
    requires |pieces| >= 1 && pieces[0] != ""
    ensures JoinWith(pieces, sep) != "" && JoinWith(pieces, sep)[0] == pieces[0][0]
  {
  }

  /** Parsing the string form of a well-formed path gives back the path. */
  lemma ParseStr(p: Path)
    requires WellFormed(p)
    ensures Parse(Str(p)) == p
  {
    var s := Str(p);
    if p.parts != [] {
      SplitJoin(p.parts, '/');
      ComponentsKeepsComponents(p.parts);
    }
    if p.absolute {
      var j := JoinWith(p.parts, '/');
      assert s == "/" + j && s[1..] == j;
      assert Split(s, '/') == [""] + Split(j, '/');
      assert Components(Split(s, '/')) == Components(Split(j, '/'));
      if p.parts == [] {
        assert Split(j, '/') == [""];
      }
    } else if p.parts == [] {
      SplitWithoutSeparator(".", '/');
    } else {
      JoinWithStartsWithFirst(p.parts, '/');
    }
  }

  /** The last component (`p.name`), "" for a path without components. */
  function Name(p: Path): string
  {
    if p.parts == [] then "" else p.parts[|p.parts| - 1]
  }

  /** `p.parent`: the path without its last component. */
  function Parent(p: Path): Path
  {
    if p.parts == [] then p else Path(p.absolute, p.parts[..|p.parts| - 1])
  }

  /** A child is named by its name and sits directly below its parent. */
  lemma ChildNameParent(p: Path, name: string)
    ensures Name(Child(p, name)) == name
    ensures Parent(Child(p, name)) == p
  {
    assert Child(p, name).parts[..|p.parts|] == p.parts;
  }

  /** Two children coincide only for the same parent and the same name. */
  lemma ChildInjective(p: Path, a: string, q: Path, b: string)
    ensures Child(p, a) == Child(q, b) <==> p == q && a == b
  {
    ChildNameParent(p, a);
    ChildNameParent(q, b);
  }
}
