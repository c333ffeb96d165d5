/**
 * The string helpers the services rely on: `toLowerCase`, `toUpperCase`,
 * `lastIndexOf` and `endsWith`, on the ASCII letters (file extensions and
 * format keys are ASCII).
 */
module Strings {

  function LowerChar(c: char): char {
    if 'A' <= c <= 'Z' then (c as int + 32) as char else c
  }

  function UpperChar(c: char): char {
    if 'a' <= c <= 'z' then (c as int - 32) as char else c
  }

  /** `s.toLowerCase()`: every character mapped, the length kept. */
  function ToLower(s: string): (r: string)
    ensures |r| == |s|
    ensures forall i :: 0 <= i < |s| ==> r[i] == LowerChar(s[i])
  {
    seq(|s|, i requires 0 <= i < |s| => LowerChar(s[i]))
  }

  /** `s.toUpperCase()`. */
  function ToUpper(s: string): (r: string)
    ensures |r| == |s|
    ensures forall i :: 0 <= i < |s| ==> r[i] == UpperChar(s[i])
  {
    seq(|s|, i requires 0 <= i < |s| => UpperChar(s[i]))
  }

  /** Lower-casing twice is lower-casing once: it is what makes a lookup on
      `ToLower(x)` insensitive to the case of `x`. */
  lemma ToLowerIdempotent(s: string)
    ensures ToLower(ToLower(s)) == ToLower(s)
  {
    var once := ToLower(s);
    assert forall i :: 0 <= i < |s| ==> LowerChar(once[i]) == once[i];
  }

  /** `s.lastIndexOf(c)`: the position of the last `c`, or -1 when there is none. */
  function LastIndexOf(s: string, c: char): (r: int)
    ensures -1 <= r < |s|
    ensures r >= 0 ==> s[r] == c && forall j :: r < j < |s| ==> s[j] != c
    ensures r == -1 ==> forall j :: 0 <= j < |s| ==> s[j] != c
  {
    if s == [] then -1
    else if s[|s| - 1] == c then |s| - 1
    else LastIndexOf(s[..|s| - 1], c)
  }

  /** The text after the last `c` of `s`, all of `s` when it has no `c`:
      `s.split(c).pop()`. */
  function AfterLast(s: string, c: char): (r: string)
    ensures c !in r
    ensures |r| <= |s| && r == s[|s| - |r|..]
    ensures c !in s ==> r == s
    ensures c in s ==> s[|s| - |r| - 1] == c
  {
    s[LastIndexOf(s, c) + 1..]
  }

  /** Lower-casing commutes with taking a slice. */
  lemma ToLowerSlice(s: string, i: int, j: int)
    requires 0 <= i <= j <= |s|
    ensures ToLower(s)[i..j] == ToLower(s[i..j])
  {
    var whole, part := ToLower(s)[i..j], ToLower(s[i..j]);
    assert |whole| == |part|;
    assert forall k :: 0 <= k < |part| ==> whole[k] == LowerChar(s[i + k]) == part[k];
  }

  /** Lower-casing moves no separator: the last '.' or '/' stays where it was. */
  lemma LastIndexOfToLower(s: string, c: char)
    requires !('A' <= c <= 'Z') && !('a' <= c <= 'z')
    ensures LastIndexOf(ToLower(s), c) == LastIndexOf(s, c)
  {
    var lower := ToLower(s);
    assert forall j :: 0 <= j < |s| ==> (lower[j] == c <==> s[j] == c);
  }

  lemma ToLowerSuffix(s: string, i: int)
    requires 0 <= i <= |s|
    ensures ToLower(s)[i..] == ToLower(s[i..])
  {
    ToLowerSlice(s, i, |s|);
    assert s[i..|s|] == s[i..];
  }

  lemma AfterLastToLower(s: string, c: char)
    requires !('A' <= c <= 'Z') && !('a' <= c <= 'z')
    ensures AfterLast(ToLower(s), c) == ToLower(AfterLast(s, c))
  {
    var k := LastIndexOf(s, c);
    LastIndexOfToLower(s, c);
    assert AfterLast(ToLower(s), c) == ToLower(s)[k + 1..];
    assert AfterLast(s, c) == s[k + 1..];
    ToLowerSuffix(s, k + 1);
  }

  /** Lower-casing works character by character, so it distributes over concatenation. */
  lemma ToLowerAppend(a: string, b: string)
    ensures ToLower(a + b) == ToLower(a) + ToLower(b)
  {
    var lower, parts := ToLower(a + b), ToLower(a) + ToLower(b);
    assert |lower| == |parts|;
    assert forall i :: 0 <= i < |a| ==> lower[i] == LowerChar(a[i]) == parts[i];
    assert forall i :: |a| <= i < |lower| ==> lower[i] == LowerChar(b[i - |a|]) == parts[i];
  }

  /** In "dir" + c + "name" with no c in "name", the last c is the joining one. */
  lemma {:induction false} LastIndexOfJoin(dir: string, c: char, name: string)
    requires c !in name
    ensures LastIndexOf(dir + [c] + name, c) == |dir|
  {
    var s := dir + [c] + name;
    if name == [] {
      assert s[|s| - 1] == c;
    } else {
      var init := name[..|name| - 1];
      LastIndexOfJoin(dir, c, init);
      assert s[..|s| - 1] == dir + [c] + init;
      assert s[|s| - 1] == name[|name| - 1];
    }
  }

  /** What follows the joining c of "dir" + c + "name" is "name". */
  lemma AfterLastJoin(dir: string, c: char, name: string)
    requires c !in name
    ensures (dir + [c] + name)[..|dir| + 1] == dir + [c]
    ensures AfterLast(dir + [c] + name, c) == name
  {
    LastIndexOfJoin(dir, c, name);
    assert (dir + [c] + name)[|dir| + 1..] == name;
  }

  /** `s.endsWith(suffix)`. */
  predicate EndsWith(s: string, suffix: string) {
    |suffix| <= |s| && s[|s| - |suffix|..] == suffix
  }
}
