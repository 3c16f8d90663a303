/** File names as the sorter sees them: the suffix and stem of a name as
    CPython's pathlib defines them, ASCII lower-casing, and the marker that
    the collision resolvers append to a name that is already taken. */
module Paths {

  /** The collision marker. */
  const Copy: string := "_(copy)"

  function LowerChar(c: char): char {
    if 'A' <= c <= 'Z' then (c as int - 'A' as int + 'a' as int) as char else c
  }

  /** `str.lower`, restricted to ASCII letters. */
  function Lower(s: string): string {
    seq(|s|, i requires 0 <= i < |s| => LowerChar(s[i]))
  }

  /** `str.rfind('.')`: the index of the last dot, or -1 when there is none. */
  function LastDot(s: string): (i: int)
    ensures -1 <= i < |s|
    ensures 0 <= i ==> s[i] == '.'
    ensures forall j :: i < j < |s| ==> s[j] != '.'
  {
    if s == [] then -1
    else if s[|s| - 1] == '.' then |s| - 1
    else LastDot(s[..|s| - 1])
  }

  /** `PurePath.suffix`: from the last dot on, provided that dot is neither
      the first nor the last character; otherwise empty. */
  function Suffix(name: string): string {
    var i := LastDot(name);
    if 0 < i < |name| - 1 then name[i..] else ""
  }

  /** `PurePath.stem`: the name without its suffix. */
  function Stem(name: string): string {
    var i := LastDot(name);
    if 0 < i < |name| - 1 then name[..i] else name
  }

  /** A non-empty suffix: a dot followed by at least one character, none of
      them a dot. */
  predicate IsExtension(ext: string) {
    |ext| >= 2 && ext[0] == '.' && forall j :: 1 <= j < |ext| ==> ext[j] != '.'
  }

  /** What `suffix.lower()` can be: empty, or an extension. */
  predicate IsSuffixForm(ext: string) {
    ext == "" || IsExtension(ext)
  }

  /** The number of dots in a name. */
  function Dots(s: string): nat {
    multiset(s)['.']
  }

  /** `base` followed by `k` copies of the marker. */
  function Copies(base: string, k: nat): (r: string)
    ensures |r| == |base| + k * |Copy|
    ensures r[..|base|] == base
  {
    if k == 0 then base else Copies(base, k - 1) + Copy
  }

  /** Stem and suffix split a name, and the suffix has the shape of an
      extension whenever it is not empty. */
  lemma StemAndSuffix(name: string)
    ensures Stem(name) + Suffix(name) == name
    ensures IsSuffixForm(Suffix(name))
    ensures Suffix(name) != "" ==> Dots(Stem(name)) < Dots(name)
  {
    var i := LastDot(name);
    if 0 < i < |name| - 1 {
      assert name == name[..i] + name[i..];
      assert name[i..] == [name[i]] + name[i + 1..];
      assert multiset(name) == multiset(name[..i]) + multiset([name[i]]) + multiset(name[i + 1..]);
    }
  }

  /** Appending an extension to a non-empty base makes that extension the
      suffix and the base the stem. */
  lemma SplitAtExtension(base: string, ext: string)
    requires |base| > 0 && IsExtension(ext)
    ensures LastDot(base + ext) == |base|
    ensures Stem(base + ext) == base
    ensures Suffix(base + ext) == ext
  {
    var s := base + ext;
    assert s[|base|] == '.';
  }

  /** Lower-casing neither adds nor removes dots, so it commutes with taking
      the suffix and the stem. */
  lemma LowerCommutes(s: string)
    ensures LastDot(Lower(s)) == LastDot(s)
    ensures Suffix(Lower(s)) == Lower(Suffix(s))
    ensures Stem(Lower(s)) == Lower(Stem(s))
  {
    var i := LastDot(s);
    forall j | i < j < |s|
      ensures Lower(s)[j] != '.'
    {
      assert Lower(s)[j] == LowerChar(s[j]);
    }
    LastDotUnique(Lower(s), i);
    if 0 < i < |s| - 1 {
      assert Lower(s)[i..] == Lower(s[i..]);
      assert Lower(s)[..i] == Lower(s[..i]);
    }
  }

  /** The last dot is the only dot with no dot after it. */
  lemma LastDotUnique(s: string, k: int)
    requires k == -1 || (0 <= k < |s| && s[k] == '.')
    requires forall j :: k < j < |s| ==> s[j] != '.'
    ensures LastDot(s) == k
  {
  }

  /** Lower-casing keeps the shape of an extension. */
  lemma LowerKeepsForm(ext: string)
    requires IsSuffixForm(ext)
    ensures IsSuffixForm(Lower(ext))
    ensures Lower(ext) == "" <==> ext == ""
  {
    if ext != "" {
      assert Lower(ext)[0] == LowerChar(ext[0]);
      forall j | 1 <= j < |ext|
        ensures Lower(ext)[j] != '.'
      {
        assert Lower(ext)[j] == LowerChar(ext[j]);
      }
    }
  }

  /** The marker holds no dot. */
  lemma CopyHasNoDot()
    ensures Dots(Copy) == 0
  {
    assert Copy == ['_', '(', 'c', 'o', 'p', 'y', ')'];
  }
}
