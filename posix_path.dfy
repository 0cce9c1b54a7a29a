/**
 * The pieces of Python's `str` and `os.path` (POSIX flavour) that the
 * orchestrator uses to derive file names, paths and download URLs.
 *
 * The functions carry no quantified postconditions of their own; what they
 * mean is stated by the `...Spec` lemmas, which callers invoke where needed.
 */
module PosixPath {

  const SEP: char := '/'
  const EXTSEP: char := '.'

  /** `s.rfind(c)`: the index of the last occurrence of `c` in `s`, or -1. */
  function RFind(s: string, c: char): (r: int)
    ensures -1 <= r < |s|
  {
    if |s| == 0 then -1
    else if s[|s| - 1] == c then |s| - 1
    else RFind(s[..|s| - 1], c)
  }

  /** `rfind` finds an occurrence, and there is none after it. */
  lemma {:induction false} RFindSpec(s: string, c: char)
    ensures RFind(s, c) >= 0 ==> s[RFind(s, c)] == c
    ensures forall k :: RFind(s, c) < k < |s| ==> s[k] != c
  {
    if |s| > 0 && s[|s| - 1] != c {
      RFindSpec(s[..|s| - 1], c);
    }
  }

  /** The last occurrence of `c` is the one with no `c` after it. */
  lemma RFindIs(s: string, c: char, i: int)
    requires -1 <= i < |s| && (i >= 0 ==> s[i] == c)
    requires forall k :: i < k < |s| ==> s[k] != c
    ensures RFind(s, c) == i
  {
    RFindSpec(s, c);
  }

  /** `os.path.basename(p)`: everything after the last separator. */
  function Basename(p: string): string {
    p[RFind(p, SEP) + 1..]
  }

  /** The basename is the longest suffix of the path without a separator. */
  lemma BasenameSpec(p: string)
    ensures var r := Basename(p);
      && |r| <= |p| && r == p[|p| - |r|..]
      && SEP !in r
      && (|r| < |p| ==> p[|p| - |r| - 1] == SEP)
  {
    RFindSpec(p, SEP);
  }

  predicate IsAbsolute(p: string) {
    |p| > 0 && p[0] == SEP
  }

  /**
   * `os.path.join(a, b)` for two components: an absolute `b` replaces `a`;
   * otherwise a separator is inserted unless `a` is empty or already ends in one.
   */
  function Join(a: string, b: string): string {
    if IsAbsolute(b) then b
    else if a == [] || a[|a| - 1] == SEP then a + b
    else a + [SEP] + b
  }

  /**
   * `os.path.splitext(p)`: `(root, ext)` where `ext` runs from the last dot of
   * the last path component, unless that component has only dots before it.
   */
  function SplitExt(p: string): (string, string) {
    var sep := RFind(p, SEP);
    var dot := RFind(p, EXTSEP);
    if dot > sep && exists k :: sep < k < dot && p[k] != EXTSEP then
      (p[..dot], p[dot..])
    else
      (p, [])
  }

  /**
   * The split loses nothing; a non-empty extension is a dot followed by
   * neither dot nor separator, with something other than a dot before it in
   * the last component; an empty one means every dot of the last component
   * has only dots before it.
   */
  lemma SplitExtSpec(p: string)
    ensures var r := SplitExt(p);
      && r.0 + r.1 == p
      && (r.1 != [] ==> r.1[0] == EXTSEP && SEP !in r.1 && EXTSEP !in r.1[1..])
      && (r.1 != [] ==> exists k :: RFind(p, SEP) < k < |r.0| && p[k] != EXTSEP)
      && (r.1 == [] ==> forall m, k :: RFind(p, SEP) < m < k < |p| && p[k] == EXTSEP ==> p[m] == EXTSEP)
  {
    RFindSpec(p, SEP);
    RFindSpec(p, EXTSEP);
    var dot := RFind(p, EXTSEP);
    if dot >= 0 {
      assert p[dot..][1..] == p[dot + 1..];
    }
  }

  /** `os.path.splitext(p)[0]`. */
  function Stem(p: string): string {
    SplitExt(p).0
  }

  /**
   * A file name `base.ext` loses exactly its extension, provided `base` is not
   * made of dots alone (so `.clip.mov` keeps `.clip`).
   */
  lemma StemDropsExtension(base: string, ext: string)
    requires exists k :: 0 <= k < |base| && base[k] != EXTSEP
    requires SEP !in base
    requires SEP !in ext && EXTSEP !in ext
    ensures SplitExt(base + [EXTSEP] + ext) == (base, [EXTSEP] + ext)
  {
    var p := base + [EXTSEP] + ext;
    assert forall k :: |base| < k < |p| ==> p[k] == ext[k - |base| - 1];
    RFindIs(p, EXTSEP, |base|);
    assert forall k :: 0 <= k < |p| ==> p[k] != SEP by {
      forall k | 0 <= k < |p| ensures p[k] != SEP {
        if k < |base| { assert p[k] == base[k]; }
      }
    }
    RFindIs(p, SEP, -1);
    var j :| 0 <= j < |base| && base[j] != EXTSEP;
    assert p[j] == base[j];
    assert p[..|base|] == base;
    assert p[|base|..] == [EXTSEP] + ext;
  }

  /** A name without a dot has no extension. */
  lemma NoDotNoExtension(p: string)
    requires EXTSEP !in p
    ensures SplitExt(p) == (p, [])
  {
    RFindSpec(p, EXTSEP);
  }

  /** A relative file name joined onto any directory is that path's basename. */
  lemma BasenameOfJoin(dir: string, name: string)
    requires name != [] && SEP !in name
    ensures Basename(Join(dir, name)) == name
  {
    var p := Join(dir, name);
    assert !IsAbsolute(name);
    var head := if dir == [] || dir[|dir| - 1] == SEP then dir else dir + [SEP];
    assert p == head + name;
    assert forall k :: |head| <= k < |p| ==> p[k] == name[k - |head|];
    if head != [] {
      assert p[|head| - 1] == SEP;
      RFindIs(p, SEP, |head| - 1);
    } else {
      RFindIs(p, SEP, -1);
    }
    assert p[|head|..] == name;
  }
}
