/** Node's `path.parse` and two-argument `path.join` on POSIX relative
    paths, as the index scripts use them to turn a page file into a name or
    an href. */
module Paths {
  import opened Wrappers

  /** The index of the last `c` in `s`, if any. */
  function LastIndexOf(s: string, c: char): (r: Option<nat>)
    ensures r.Some? ==> r.value < |s| && s[r.value] == c && c !in s[r.value + 1..]
    ensures r.None? ==> c !in s
    decreases |s|
  {
    if |s| == 0 then None
    else if s[|s| - 1] == c then Some(|s| - 1)
    else
      var r := LastIndexOf(s[..|s| - 1], c);
      assert s == s[..|s| - 1] + [s[|s| - 1]];
      r
  }

  /** `s` cut at its last `c`: what comes before it and what follows it;
      without a `c`, everything follows. */
  function CutLast(s: string, c: char): (r: (string, string))
    ensures c !in r.1
    ensures s == r.0 + [c] + r.1 || (r.0 == "" && r.1 == s)
    ensures c in s ==> s == r.0 + [c] + r.1
  {
    match LastIndexOf(s, c)
    case None => ("", s)
    case Some(i) =>
      assert s == s[..i] + [c] + s[i + 1..];
      (s[..i], s[i + 1..])
  }

  /** `path.parse(p)` for a relative path: `dir` is what comes before the
      last separator, `base` what follows it, and `base` splits into `name`
      and `ext` at its last dot, unless that dot starts the base name or the
      base name is `..`. */
  datatype Parsed = Parsed(dir: string, name: string, ext: string)

  /** A base name split into its name and its extension. */
  function SplitExt(base: string): (r: (string, string))
    ensures base == r.0 + r.1
    ensures r.1 == "" || (r.1[0] == '.' && '.' !in r.1[1..])
    ensures r.1 != "" ==> r.0 != ""
    ensures r.1 == "" ==> base == ".." || forall i :: 1 <= i < |base| ==> base[i] != '.'
    ensures base == ".." ==> r.1 == ""
  {
    var cut := CutLast(base, '.');
    if '.' in base && cut.0 != "" && base != ".." then
      var dotExt := "." + cut.1;
      assert dotExt[1..] == cut.1;
      (cut.0, dotExt)
    else
      assert '.' in base && base != ".." ==> base == "." + cut.1;
      (base, "")
  }

  /** The separator does not occur in the parts of a string without it. */
  lemma PartsFree(s: string, a: string, b: string, c: char)
    requires s == a + b && c !in s
    ensures c !in a && c !in b
  {
  }

  /** The part of `p` after its last separator. */
  function Base(p: string): string {
    CutLast(p, '/').1
  }

  /** The base name splits at its last dot into `name` and `ext`, unless
      that dot starts the base name, the base name is `..`, or there is no
      dot, when `ext` is empty. */
  function Parse(p: string): (r: Parsed)
    ensures '/' !in r.name && '/' !in r.ext
    ensures p == r.dir + "/" + r.name + r.ext || (r.dir == "" && p == r.name + r.ext)
    ensures r.name + r.ext == Base(p)
    ensures r.ext == "" || (r.ext[0] == '.' && '.' !in r.ext[1..])
    ensures r.ext != "" ==> r.name != ""
    ensures r.ext == "" ==> Base(p) == ".." || forall i :: 1 <= i < |Base(p)| ==> Base(p)[i] != '.'
    ensures Base(p) == ".." ==> r.ext == ""
  {
    var cut := CutLast(p, '/');
    var parts := SplitExt(cut.1);
    PartsFree(cut.1, parts.0, parts.1, '/');
    Rejoin(p, cut.0, cut.1, parts.0, parts.1);
    Parsed(cut.0, parts.0, parts.1)
  }

  /** Cutting at the separator and then at the dot loses nothing. */
  lemma Rejoin(p: string, dir: string, base: string, name: string, ext: string)
    requires base == name + ext
    requires p == dir + ['/'] + base || (dir == "" && base == p)
    ensures p == dir + "/" + name + ext || (dir == "" && p == name + ext)
  {
    if p == dir + ['/'] + base {
      assert ['/'] == "/";
      assert dir + "/" + (name + ext) == dir + "/" + name + ext;
    }
  }

  /** `path.join(dir, name)` for a relative `dir` and a name without
      separators. It does not normalise: it agrees with `path.join` only
      when `dir` is already a normalised relative path (no empty, `.` or
      `..` segment other than a leading run of `..`), as `path.relative`
      returns. */
  function Join(dir: string, name: string): string {
    if dir == "" then name else dir + "/" + name
  }
}
