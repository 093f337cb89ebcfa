/** File-system paths with the part of `pathlib` the program uses: `name`, `suffix`, `with_suffix`. */
module Paths {
  import opened Wrappers
  import opened Text

  /** A path as its parent directory components and its final component `name`. */
  datatype Path = Path(dir: seq<string>, name: string)

  /** Index of the last `.` in `s`, if any (`str.rfind('.')`). */
  function LastDot(s: string): (r: Option<nat>)
    ensures r.Some? ==> r.value < |s| && s[r.value] == '.' && '.' !in s[r.value + 1..]
    ensures r.None? ==> '.' !in s
  {
    if |s| == 0 then None
    else if s[|s| - 1] == '.' then Some(|s| - 1)
    else
      var r := LastDot(s[..|s| - 1]);
      assert r.Some? ==> s[r.value + 1..] == s[..|s| - 1][r.value + 1..] + [s[|s| - 1]];
      assert r.None? ==> s == s[..|s| - 1] + [s[|s| - 1]];
      r
  }

  /** `PurePath.suffix`: from the last dot, unless that dot opens or ends the name. */
  function Suffix(name: string): (r: string)
    ensures r == [] || (r[0] == '.' && |r| >= 2 && '.' !in r[1..] && EndsWith(name, r) && |r| < |name|)
  {
    match LastDot(name)
    case Some(i) => if 0 < i < |name| - 1 then name[i..] else ""
    case None => ""
  }

  /**
   * `PurePath.with_suffix(suffix)` for a valid suffix: the old suffix is
   * replaced, or the new one appended. `None` is the `ValueError` raised for
   * a path with an empty name.
   */
  function WithSuffix(p: Path, suffix: string): (r: Option<Path>)
    ensures r.Some? <==> p.name != ""
    ensures r.Some? ==> r.value.dir == p.dir && EndsWith(r.value.name, suffix)
  {
    if p.name == "" then None
    else
      var oldSuffix := Suffix(p.name);
      var stem := p.name[..|p.name| - |oldSuffix|];
      Some(Path(p.dir, stem + suffix))
  }

  lemma WithSuffixName(p: Path, suffix: string)
    requires p.name != ""
    ensures WithSuffix(p, suffix) == Some(Path(p.dir, p.name[..|p.name| - |Suffix(p.name)|] + suffix))
  {
  }

  /** The last dot of a name that ends in `.w`, where `w` has no dot, is the one before `w`. */
  lemma LastDotOfEnding(s: string, w: string)
    requires EndsWith(s, "." + w) && '.' !in w
    ensures LastDot(s) == Some(|s| - |w| - 1)
    decreases |w|
  {
    if |w| == 0 {
      assert s[|s| - 1] == '.';
    } else {
      assert s[|s| - 1] == w[|w| - 1];
      LastDotOfEnding(s[..|s| - 1], w[..|w| - 1]);
    }
  }

  /** `PurePath.stem`: the name without its suffix. */
  function Stem(name: string): (r: string)
    ensures r + Suffix(name) == name
  {
    name[..|name| - |Suffix(name)|]
  }

  /** A name `PurePath.with_name` accepts on POSIX: not empty, not `.`, and without a separator. */
  predicate ValidName(name: string)
  {
    name != "" && name != "." && '/' !in name
  }

  /**
   * `PurePath.with_stem(stem)`, that is `with_name(stem + suffix)`: the new
   * stem before the old suffix. `None` is the `ValueError` raised for a path
   * with an empty name, or for a new name `with_name` refuses.
   */
  function WithStem(p: Path, stem: string): (r: Option<Path>)
    ensures r.Some? <==> p.name != "" && ValidName(stem + Suffix(p.name))
    ensures r.Some? ==> r.value.dir == p.dir && '/' !in r.value.name && StartsWith(r.value.name, stem)
  {
    var name := stem + Suffix(p.name);
    if p.name == "" || !ValidName(name) then None else Some(Path(p.dir, name))
  }

  /** A stem holding a separator is refused whatever the path. */
  lemma SeparatorInStemRefused(p: Path, stem: string)
    requires '/' in stem
    ensures WithStem(p, stem).None?
  {
    var i :| 0 <= i < |stem| && stem[i] == '/';
    assert (stem + Suffix(p.name))[i] == '/';
  }

  /** The suffix of `stem + ".w"` is `".w"` when the stem is not empty and `w` is a non-empty word without a dot. */
  lemma SuffixOfDotted(stem: string, w: string)
    requires stem != "" && w != "" && '.' !in w
    ensures Suffix(stem + "." + w) == "." + w
  {
    var s := stem + "." + w;
    assert s[|s| - |"." + w|..] == "." + w;
    LastDotOfEnding(s, w);
  }

  /** A non-empty stem followed by a dotted extension splits back into the two. */
  lemma SplitsAtExtension(stem: string, ext: string)
    requires stem != "" && |ext| >= 2 && ext[0] == '.' && '.' !in ext[1..]
    ensures Suffix(stem + ext) == ext && Stem(stem + ext) == stem
  {
    var s := stem + ext;
    assert "." + ext[1..] == ext;
    assert s[|s| - |ext|..] == ext;
    LastDotOfEnding(s, ext[1..]);
    assert s[|stem|..] == ext;
    assert s[..|stem|] == stem;
  }

  /** `with_suffix("." + w)` gives a path whose suffix is `"." + w`. */
  lemma WithDottedSuffix(p: Path, w: string)
    requires p.name != "" && w != "" && '.' !in w
    ensures Suffix(WithSuffix(p, "." + w).value.name) == "." + w
  {
    var stem := Stem(p.name);
    assert |Suffix(p.name)| < |p.name|;
    WithSuffixName(p, "." + w);
    var name := stem + ("." + w);
    assert name[|stem|..] == "." + w;
    LastDotOfEnding(name, w);
  }
}
