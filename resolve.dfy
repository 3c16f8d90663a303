/** The two collision resolvers. Each takes the names already present in the
    destination folder and a candidate name, and retries with the marker
    appended until the candidate is free. */
module Resolve {
  import opened Paths

  /** The names of `dest` at least `n` characters long. Every retry lengthens
      the candidate, so this set shrinks while the candidate is taken. */
  function LongNames(dest: set<string>, n: nat): set<string> {
    set s | s in dest && |s| >= n
  }

  lemma LongNamesShrink(dest: set<string>, cand: string, n: nat)
    requires cand in dest && |cand| < n
    ensures |LongNames(dest, n)| < |LongNames(dest, |cand|)|
  {
    var small, big := LongNames(dest, n), LongNames(dest, |cand|);
    assert small <= big - {cand};
    SubsetSize(small, big - {cand});
  }

  lemma {:induction false} SubsetSize(a: set<string>, b: set<string>)
    requires a <= b
    ensures |a| <= |b|
    decreases |a|
  {
    if a != {} {
      var x :| x in a;
      SubsetSize(a - {x}, b - {x});
    }
  }

  /** The fewest copies of the marker, `k` or more, that make
      `base + markers + tail` a name absent from `dest`: every smaller count
      from `k` on gives a name that is taken. */
  function FreeIndex(dest: set<string>, base: string, tail: string, k: nat): (r: nat)
    ensures k <= r
    ensures Copies(base, r) + tail !in dest
    ensures forall j :: k <= j < r ==> Copies(base, j) + tail in dest
    decreases |LongNames(dest, |Copies(base, k) + tail|)|
  {
    if Copies(base, k) + tail !in dest then k
    else
      LongNamesShrink(dest, Copies(base, k) + tail, |Copies(base, k + 1) + tail|);
      FreeIndex(dest, base, tail, k + 1)
  }

  /** The answer of `file_name_existing_without_extension`: the name followed
      by the fewest markers that make it free. */
  function PlainTarget(dest: set<string>, name: string): string {
    Copies(name, FreeIndex(dest, name, "", 0))
  }

  /** A measure for the loop of `file_name_existing_with_extension`. With an
      extension, one retry puts the extension at the end of the candidate
      and every later retry lengthens it; with no extension, a retry either
      drops the candidate's own suffix (one dot fewer) or lengthens it. */
  function Rank(cand: string, ext: string): nat {
    if ext == "" then Dots(cand)
    else if |cand| > |ext| && cand[|cand| - |ext|..] == ext then 0
    else 1
  }

  lemma RetryMakesProgress(dest: set<string>, cand: string, ext: string)
    requires IsSuffixForm(ext) && cand in dest
    ensures var next := Stem(cand) + Copy + ext;
      Rank(next, ext) < Rank(cand, ext)
      || (Rank(next, ext) == Rank(cand, ext) && |LongNames(dest, |next|)| < |LongNames(dest, |cand|)|)
  {
    var next := Stem(cand) + Copy + ext;
    StemAndSuffix(cand);
    if ext == "" {
      CopyHasNoDot();
      assert multiset(next) == multiset(Stem(cand)) + multiset(Copy);
      if Suffix(cand) == "" {
        LongNamesShrink(dest, cand, |next|);
      }
    } else {
      assert next[|next| - |ext|..] == ext;
      if |cand| > |ext| && cand[|cand| - |ext|..] == ext {
        var base := cand[..|cand| - |ext|];
        assert cand == base + ext;
        SplitAtExtension(base, ext);
        LongNamesShrink(dest, cand, |next|);
      }
    }
  }

  /** The loop of `file_name_existing_with_extension`, as recursion: while
      the candidate is taken, replace it by its stem, the marker and the
      extension. */
  function RetryWithExtension(dest: set<string>, cand: string, ext: string): (r: string)
    requires IsSuffixForm(ext)
    ensures r !in dest
    ensures cand !in dest ==> r == cand
    decreases Rank(cand, ext), |LongNames(dest, |cand|)|
  {
    if cand !in dest then cand
    else
      RetryMakesProgress(dest, cand, ext);
      RetryWithExtension(dest, Stem(cand) + Copy + ext, ext)
  }

  /** Once the candidate is a non-empty base and some markers followed by
      the extension, the loop only adds markers: it stops at the fewest
      markers, from `k` on, that make the name free. */
  lemma {:induction false} RetryAddsMarkers(dest: set<string>, base: string, ext: string, k: nat)
    requires IsExtension(ext) && |Copies(base, k)| > 0
    ensures RetryWithExtension(dest, Copies(base, k) + ext, ext)
         == Copies(base, FreeIndex(dest, base, ext, k)) + ext
    decreases |LongNames(dest, |Copies(base, k) + ext|)|
  {
    var cand := Copies(base, k) + ext;
    if cand in dest {
      SplitAtExtension(Copies(base, k), ext);
      assert Stem(cand) + Copy + ext == Copies(base, k + 1) + ext;
      LongNamesShrink(dest, cand, |Copies(base, k + 1) + ext|);
      RetryAddsMarkers(dest, base, ext, k + 1);
    }
  }

  /** `file_name_existing_with_extension` with a real extension: the name
      itself when it is free, and otherwise the name's stem, the fewest
      markers k >= 1 that make it free, and the extension passed in. */
  lemma RetryWithExtensionSpec(dest: set<string>, name: string, ext: string)
    requires IsExtension(ext)
    ensures name !in dest ==> RetryWithExtension(dest, name, ext) == name
    ensures name in dest ==>
      RetryWithExtension(dest, name, ext) == Copies(Stem(name), FreeIndex(dest, Stem(name), ext, 1)) + ext
  {
    if name in dest {
      assert Copies(Stem(name), 1) == Stem(name) + Copy;
      RetryAddsMarkers(dest, Stem(name), ext, 1);
    }
  }

  /** `file_name_existing_without_extension` (smart_file_sorter.py, lines 127-131). */
  method ResolveWithoutExtension(dest: set<string>, name: string) returns (r: string)
    ensures r !in dest
    ensures r == PlainTarget(dest, name)
  {
    r := name;
    ghost var k: nat := 0;
    while r in dest
      invariant r == Copies(name, k)
      invariant FreeIndex(dest, name, "", k) == FreeIndex(dest, name, "", 0)
      decreases |LongNames(dest, |r|)|
    {
      assert Copies(name, k) + "" == r;
      LongNamesShrink(dest, r, |r + Copy|);
      r := r + Copy;
      k := k + 1;
    }
    assert Copies(name, k) + "" == r;
  }

  /** `file_name_existing_with_extension` (smart_file_sorter.py, lines 148-153). */
  method ResolveWithExtension(dest: set<string>, name: string, ext: string) returns (r: string)
    requires IsSuffixForm(ext)
    ensures r !in dest
    ensures r == RetryWithExtension(dest, name, ext)
  {
    r := name;
    while r in dest
      invariant IsSuffixForm(ext)
      invariant RetryWithExtension(dest, r, ext) == RetryWithExtension(dest, name, ext)
      decreases Rank(r, ext), |LongNames(dest, |r|)|
    {
      RetryMakesProgress(dest, r, ext);
      var stem := Stem(r);
      r := stem + Copy + ext;
    }
  }

  /** With `new file.txt` and its first two copies taken, the next name
      is the third copy. */
  lemma NewFileChainExample()
    ensures RetryWithExtension({"new file.txt", "new file_(copy).txt", "new file_(copy)_(copy).txt"},
                               "new file.txt", ".txt")
         == "new file_(copy)_(copy)_(copy).txt"
  {
    var dest := {"new file.txt", "new file_(copy).txt", "new file_(copy)_(copy).txt"};
    NewFileNames();
    SplitAtExtension("new file", ".txt");
    RetryWithExtensionSpec(dest, "new file.txt", ".txt");
    assert FreeIndex(dest, "new file", ".txt", 3) == 3;
    assert FreeIndex(dest, "new file", ".txt", 2) == 3;
    assert FreeIndex(dest, "new file", ".txt", 1) == 3;
  }

  lemma NewFileNames()
    ensures "new file" + ".txt" == "new file.txt"
    ensures Copies("new file", 1) + ".txt" == "new file_(copy).txt"
    ensures Copies("new file", 2) + ".txt" == "new file_(copy)_(copy).txt"
    ensures Copies("new file", 3) + ".txt" == "new file_(copy)_(copy)_(copy).txt"
  {
    assert Copies("new file", 1) == "new file" + Copy;
    assert Copies("new file", 2) == "new file_(copy)" + Copy;
    assert Copies("new file", 3) == "new file_(copy)_(copy)" + Copy;
  }

  /** With "a.txt" and "a_(copy).txt" taken, "a.txt" becomes
      "a_(copy)_(copy).txt". */
  lemma CopyChainExample()
    ensures RetryWithExtension({"a.txt", "a_(copy).txt"}, "a.txt", ".txt") == "a_(copy)_(copy).txt"
  {
    var dest := {"a.txt", "a_(copy).txt"};
    SplitAtExtension("a", ".txt");
    assert "a" + ".txt" == "a.txt";
    RetryWithExtensionSpec(dest, "a.txt", ".txt");
    assert Copies("a", 1) + ".txt" == "a_(copy).txt";
    assert Copies("a", 2) == "a_(copy)" + "_(copy)";
    assert "a_(copy)" + "_(copy)" + ".txt" == "a_(copy)_(copy).txt";
    assert Copies("a", 2) + ".txt" == "a_(copy)_(copy).txt";
    assert FreeIndex(dest, "a", ".txt", 1) == 2;
  }

  /** A directory "Photos" already inside the destination makes a second
      "Photos" arrive as "Photos_(copy)". */
  lemma PlainChainExample()
    ensures PlainTarget({"Photos"}, "Photos") == "Photos_(copy)"
  {
    assert Copies("Photos", 1) == "Photos_(copy)";
    assert Copies("Photos", 0) + "" == "Photos";
    assert Copies("Photos", 1) + "" == "Photos_(copy)";
    assert FreeIndex({"Photos"}, "Photos", "", 0) == 1;
  }

  /** With no extension the two resolvers can disagree: the loop of
      `file_name_existing_with_extension` recomputes the stem, and the marker
      appended to "a.b." turns its last dot into the start of a suffix. */
  lemma EmptyExtensionExample()
    ensures RetryWithExtension({"a.b.", "a.b._(copy)"}, "a.b.", "") == "a.b_(copy)"
    ensures PlainTarget({"a.b.", "a.b._(copy)"}, "a.b.") == "a.b._(copy)_(copy)"
  {
    var dest := {"a.b.", "a.b._(copy)"};
    LastDotUnique("a.b.", 3);
    assert Stem("a.b.") + Copy + "" == "a.b._(copy)";
    LastDotUnique("a.b._(copy)", 3);
    assert Stem("a.b._(copy)") == "a.b";
    assert "a.b" + Copy + "" == "a.b_(copy)";
    assert RetryWithExtension(dest, "a.b._(copy)", "") == "a.b_(copy)";
    assert Copies("a.b.", 1) + "" == "a.b._(copy)";
    assert Copies("a.b.", 2) == "a.b._(copy)" + "_(copy)";
    assert Copies("a.b.", 2) + "" == "a.b._(copy)_(copy)";
    assert Copies("a.b.", 0) + "" == "a.b.";
    assert FreeIndex(dest, "a.b.", "", 0) == 2;
  }
}
