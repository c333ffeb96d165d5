/**
 * The two functions of Node's POSIX `path` module the services use to take
 * file names apart: `path.basename(p)` and `path.extname(p)`.
 */
module Paths {
  import opened Strings

  /** `p` without its trailing '/' characters. */
  function StripTrailingSlashes(p: string): (r: string)
    ensures |r| <= |p| && r == p[..|r|]
    ensures r == [] || r[|r| - 1] != '/'
    ensures forall i :: |r| <= i < |p| ==> p[i] == '/'
  {
    if p != [] && p[|p| - 1] == '/' then StripTrailingSlashes(p[..|p| - 1]) else p
  }

  /** `path.basename(p)`: the last non-empty segment, trailing slashes ignored. */
  function BaseName(p: string): (r: string)
    ensures '/' !in r
  {
    AfterLast(StripTrailingSlashes(p), '/')
  }

  /**
   * `path.extname(p)`: from the last '.' of the base name to its end; empty
   * when the base name has no '.', when its only '.' is its first character
   * (".bashrc"), or when it is "..".
   */
  function ExtName(p: string): (r: string)
    ensures r == [] || (r[0] == '.' && '.' !in r[1..] && '/' !in r)
    ensures var b := BaseName(p);
      r == [] <==> (forall i :: 0 < i < |b| ==> b[i] != '.') || b == ".."
    ensures r != [] ==> IsSuffix(r, BaseName(p))
  {
    ExtensionOfBase(BaseName(p))
  }

  /** `s` ends with `suffix`. */
  predicate IsSuffix(suffix: string, s: string) {
    |suffix| <= |s| && s[|s| - |suffix|..] == suffix
  }

  /** The extension part of a base name. */
  function ExtensionOfBase(base: string): (r: string)
    requires '/' !in base
    ensures r == [] || (r[0] == '.' && '.' !in r[1..] && '/' !in r)
    ensures r == [] <==> (forall i :: 0 < i < |base| ==> base[i] != '.') || base == ".."
    ensures r != [] ==> IsSuffix(r, base)
  {
    var dot := LastIndexOf(base, '.');
    if dot <= 0 || base == ".." then "" else base[dot..]
  }

  lemma {:induction false} StripTrailingSlashesToLower(p: string)
    ensures StripTrailingSlashes(ToLower(p)) == ToLower(StripTrailingSlashes(p))
  {
    if p != [] && p[|p| - 1] == '/' {
      ToLowerSlice(p, 0, |p| - 1);
      StripTrailingSlashesToLower(p[..|p| - 1]);
    }
  }

  lemma BaseNameToLower(p: string)
    ensures BaseName(ToLower(p)) == ToLower(BaseName(p))
  {
    StripTrailingSlashesToLower(p);
    AfterLastToLower(StripTrailingSlashes(p), '/');
  }

  /** The extension of a lower-cased path is the lower-cased extension, so a
      test on `ExtName(p).toLowerCase()` ignores the case of `p`. */
  lemma ExtNameToLower(p: string)
    ensures ExtName(ToLower(p)) == ToLower(ExtName(p))
  {
    BaseNameToLower(p);
    ExtensionOfBaseToLower(BaseName(p));
  }

  lemma ExtensionOfBaseToLower(base: string)
    requires '/' !in base
    ensures '/' !in ToLower(base)
    ensures ExtensionOfBase(ToLower(base)) == ToLower(ExtensionOfBase(base))
  {
    var dot := LastIndexOf(base, '.');
    LastIndexOfToLower(base, '.');
    DotDotToLower(base);
    if dot > 0 && base != ".." {
      ToLowerSuffix(base, dot);
    }
  }

  lemma DotDotToLower(s: string)
    ensures ToLower(s) == ".." <==> s == ".."
  {
    if ToLower(s) == ".." {
      assert LowerChar(s[0]) == '.' && LowerChar(s[1]) == '.';
    }
  }

  /** A proper directory entry is its own base name. */
  lemma BaseNameOfPlain(name: string)
    requires name != [] && '/' !in name
    ensures BaseName(name) == name
  {
    assert StripTrailingSlashes(name) == name;
  }

  /** The base name of "dir/name" is "name" whenever "name" is a proper
      directory entry (non-empty and free of '/'), whatever "dir" is. */
  lemma {:induction false} BaseNameOfJoin(dir: string, name: string)
    requires name != [] && '/' !in name
    ensures BaseName(dir + "/" + name) == name
  {
    var p := dir + "/" + name;
    assert p[|p| - 1] == name[|name| - 1];
    assert StripTrailingSlashes(p) == p;
    assert p[|dir|] == '/';
    var k := LastIndexOf(p, '/');
    assert forall j :: |dir| < j < |p| ==> p[j] == name[j - |dir| - 1];
    assert k == |dir|;
    assert p[k + 1..] == name;
  }
}
