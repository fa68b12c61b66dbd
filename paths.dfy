/** Filesystem paths as `pathlib.Path` uses them: a sequence of components under the
    root. `p / name` appends one component; `parent`, `name` and `suffix` read them back. */
module Paths {
  import Text

  datatype Path = Path(parts: seq<string>)

  const Root: Path := Path([])

  /** `p / name`, with `name` a single component. */
  function Join(p: Path, name: string): (r: Path)
    ensures Parent(r) == p && Name(r) == name
  {
    Path(p.parts + [name])
  }

  /** The components pathlib makes of a string: its '/'-separated pieces, without the
      empty ones and ".". */
  function Components(s: string): seq<string> {
    Named(Text.Split(s, '/'))
  }

  /** The pieces other than "" and ".", in order. */
  function Named(pieces: seq<string>): (r: seq<string>)
    ensures forall c :: c in r <==> c in pieces && c != "" && c != "."
  {
    if pieces == [] then []
    else (if pieces[0] == "" || pieces[0] == "." then [] else [pieces[0]]) + Named(pieces[1..])
  }

  /** `p / s` for a string `s`: its components are appended, and an absolute `s` starts
      again from the root. */
  function JoinText(p: Path, s: string): (r: Path)
    ensures |s| > 0 && s[0] == '/' ==> r.parts == Components(s)
    ensures !(|s| > 0 && s[0] == '/') ==> |p.parts| <= |r.parts| && r.parts[..|p.parts|] == p.parts
  {
    if |s| > 0 && s[0] == '/' then Path(Components(s)) else Path(p.parts + Components(s))
  }

  /** A plain file name is a single component: `p / name` is `Join(p, name)`. */
  lemma JoinTextName(p: Path, name: string)
    ensures name != "" && name != "." && '/' !in name ==> JoinText(p, name) == Join(p, name)
  {
    if name != "" && name != "." && '/' !in name {
      Text.SplitNoSep(name, '/', "");
      assert name + "" == name;
      assert Text.Split(name, '/') == [name];
      assert Named([name]) == [name] + Named([]);
    }
  }

  /** `p.parent`; the root is its own parent. */
  function Parent(p: Path): Path {
    if p.parts == [] then p else Path(p.parts[..|p.parts| - 1])
  }

  /** `p.name`: the last component, `""` for the root. */
  function Name(p: Path): string {
    if p.parts == [] then "" else p.parts[|p.parts| - 1]
  }

  /** Index of the last occurrence of `c` in `s`, or -1 (`str.rfind`). */
  function LastIndexOf(s: string, c: char): (i: int)
    ensures -1 <= i < |s|
    ensures i >= 0 ==> s[i] == c
    ensures forall j :: i < j < |s| ==> s[j] != c
  {
    if s == [] then -1
    else if s[|s| - 1] == c then |s| - 1
    else LastIndexOf(s[..|s| - 1], c)
  }

  /** `PurePath.suffix`: from the last dot of the name to its end, provided the dot is
      neither the first nor the last character of the name; `""` otherwise. */
  function Suffix(p: Path): (r: string)
    ensures r != "" ==> r[0] == '.' && 2 <= |r| < |Name(p)| + 1
    ensures r != "" ==> Name(p)[|Name(p)| - |r|..] == r
    ensures r != "" ==> forall j :: 1 <= j < |r| ==> r[j] != '.'
  {
    var n := Name(p);
    var i := LastIndexOf(n, '.');
    if 0 < i < |n| - 1 then n[i..] else ""
  }

  /** `str(p)` for an absolute path. */
  function ToString(p: Path): string {
    if p.parts == [] then "/" else Slashed(p.parts)
  }

  function Slashed(parts: seq<string>): string {
    if parts == [] then "" else Slashed(parts[..|parts| - 1]) + "/" + parts[|parts| - 1]
  }

  /** `q` lies under `p`, at `depth` components below it. */
  predicate Below(p: Path, q: Path, depth: nat) {
    |q.parts| == |p.parts| + depth && q.parts[..|p.parts|] == p.parts
  }
}
