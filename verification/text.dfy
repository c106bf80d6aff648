/**
 * The C string routines the shell leans on, as functions on character
 * sequences: `strtok` with a one-character delimiter set (Fields), the
 * leading/trailing space trimming loops of `main` (Trim), `strstr` for the
 * two-character operators "&&" and "||" (FindPair), and `strchr`
 * (membership `c in s`).
 */
module Text {

  /** The longest prefix of `s` that does not contain `d`. */
  function Prefix(s: string, d: char): (w: string)
    ensures |w| <= |s| && w == s[..|w|]
    ensures d !in w
    ensures |w| < |s| ==> s[|w|] == d
  {
    if s == [] || s[0] == d then [] else [s[0]] + Prefix(s[1..], d)
  }

  /**
   * The tokens `strtok(s, d)` returns one after another: the maximal
   * non-empty runs of characters other than `d`, in order.
   */
  function Fields(s: string, d: char): (fs: seq<string>)
    ensures forall i :: 0 <= i < |fs| ==> fs[i] != [] && d !in fs[i]
    decreases |s|
  {
    if s == [] then []
    else if s[0] == d then Fields(s[1..], d)
    else
      var w := Prefix(s, d);
      [w] + Fields(s[|w|..], d)
  }

  /** `fs` written out with one `d` between neighbours. */
  function JoinWith<T>(fs: seq<seq<T>>, d: T): seq<T>
  {
    if fs == [] then []
    else if |fs| == 1 then fs[0]
    else fs[0] + [d] + JoinWith(fs[1..], d)
  }

  /** Fields that `strtok` gives back unchanged: non-empty and free of the delimiter. */
  ghost predicate Splittable(fs: seq<string>, d: char)
  {
    forall i :: 0 <= i < |fs| ==> fs[i] != [] && d !in fs[i]
  }

  lemma PrefixWhole(s: string, d: char)
    requires d !in s
    ensures Prefix(s, d) == s
  {
  }

  lemma {:induction false} PrefixStops(a: string, d: char, b: string)
    requires d !in a
    ensures Prefix(a + [d] + b, d) == a
  {
    if a != [] {
      assert (a + [d] + b)[1..] == a[1..] + [d] + b;
      PrefixStops(a[1..], d, b);
    }
  }

  /** A field followed by the delimiter is split off whole. */
  lemma {:induction false} FieldsCons(w: string, d: char, rest: string)
    requires w != [] && d !in w
    ensures Fields(w + [d] + rest, d) == [w] + Fields(rest, d)
  {
    var s := w + [d] + rest;
    PrefixStops(w, d, rest);
    assert s[0] == w[0];
    assert s[|w|..] == [d] + rest;
    assert ([d] + rest)[1..] == rest;
  }

  /** Splitting a line that was written by joining fields gives the fields back. */
  lemma {:induction false} FieldsJoin(fs: seq<string>, d: char)
    requires Splittable(fs, d)
    ensures Fields(JoinWith(fs, d), d) == fs
  {
    if fs == [] {
    } else if |fs| == 1 {
      PrefixWhole(fs[0], d);
      assert fs[0][|fs[0]|..] == [];
    } else {
      FieldsCons(fs[0], d, JoinWith(fs[1..], d));
      FieldsJoin(fs[1..], d);
      assert [fs[0]] + fs[1..] == fs;
    }
  }

  /** `s` without its leading spaces (the `while (*p == ' ') p++` loops). */
  function SkipSpaces(s: string): (r: string)
    ensures |r| <= |s|
    ensures r == [] || r[0] != ' '
  {
    if s != [] && s[0] == ' ' then SkipSpaces(s[1..]) else s
  }

  /** Skipping spaces leaves a suffix of the text. */
  lemma {:induction false} SkipSpacesSuffix(s: string)
    ensures SkipSpaces(s) == s[|s| - |SkipSpaces(s)|..]
  {
    if s != [] && s[0] == ' ' {
      SkipSpacesSuffix(s[1..]);
    }
  }

  /** `s` without its trailing spaces (the `*end-- = '\0'` loops). */
  function DropTrailingSpaces(s: string): (r: string)
    ensures |r| <= |s| && r == s[..|r|]
    ensures r == [] || r[|r| - 1] != ' '
  {
    if s != [] && s[|s| - 1] == ' ' then DropTrailingSpaces(s[..|s| - 1]) else s
  }

  /**
   * The trimming `main` applies to `~`, `+` and `;` segments: leading spaces
   * skipped, then trailing spaces overwritten. The trailing loop stops at the
   * first character, which after the leading loop is never a space.
   */
  function Trim(s: string): (r: string)
    ensures r == [] || (r[0] != ' ' && r[|r| - 1] != ' ')
  {
    if s != [] && s[0] == ' ' then Trim(s[1..]) else DropTrailingSpaces(s)
  }

  /** Trim is SkipSpaces followed by DropTrailingSpaces. */
  lemma {:induction false} TrimBothEnds(s: string)
    ensures Trim(s) == DropTrailingSpaces(SkipSpaces(s))
  {
    if s != [] && s[0] == ' ' {
      TrimBothEnds(s[1..]);
    }
  }

  /** Trimming only removes characters. */
  lemma {:induction false} TrimWithin(s: string)
    ensures forall c :: c in Trim(s) ==> c in s
  {
    if s != [] && s[0] == ' ' {
      TrimWithin(s[1..]);
      assert forall c :: c in s[1..] ==> c in s;
    } else {
      var r := DropTrailingSpaces(s);
      assert forall c :: c in r ==> c in s[..|r|];
    }
  }

  /**
   * The two trimming loops as `main` runs them on a token: advance past the
   * leading spaces, then overwrite trailing spaces while the end is past the
   * first character.
   */
  method TrimSpaces(s: string) returns (t: string)
    ensures t == Trim(s)
  {
    var lo := 0;
    while lo < |s| && s[lo] == ' '
      invariant 0 <= lo <= |s|
      invariant forall i :: 0 <= i < lo ==> s[i] == ' '
    {
      lo := lo + 1;
    }
    var hi := |s|;
    while hi > lo + 1 && s[hi - 1] == ' '
      invariant lo <= hi <= |s|
      invariant lo < |s| ==> lo < hi
      invariant forall i :: hi <= i < |s| ==> s[i] == ' '
    {
      hi := hi - 1;
    }
    TrimBetween(s, lo, hi);
    t := s[lo..hi];
  }

  /** Spaces before `lo` and from `hi` on, with no space just inside either bound, are what Trim removes. */
  lemma TrimBetween(s: string, lo: nat, hi: nat)
    requires lo <= hi <= |s|
    requires forall i :: 0 <= i < lo ==> s[i] == ' '
    requires forall i :: hi <= i < |s| ==> s[i] == ' '
    requires lo == |s| || s[lo] != ' '
    requires hi == lo || s[hi - 1] != ' '
    ensures Trim(s) == s[lo..hi]
  {
    TrimBothEnds(s);
    SkipSpacesAt(s, lo);
    DropTrailingSpacesFrom(s, lo, hi);
  }

  lemma DropTrailingSpacesFrom(s: string, lo: nat, hi: nat)
    requires lo <= hi <= |s|
    requires forall i :: hi <= i < |s| ==> s[i] == ' '
    requires hi == lo || s[hi - 1] != ' '
    ensures DropTrailingSpaces(s[lo..]) == s[lo..hi]
  {
    var u := s[lo..];
    assert forall i :: hi - lo <= i < |u| ==> u[i] == ' ';
    DropTrailingSpacesAt(u, hi - lo);
    assert u[..hi - lo] == s[lo..hi];
  }

  /** Skipping the leading spaces of `s` stops at the first other character. */
  lemma {:induction false} SkipSpacesAt(s: string, n: nat)
    requires n <= |s| && (n == |s| || s[n] != ' ')
    requires forall i :: 0 <= i < n ==> s[i] == ' '
    ensures SkipSpaces(s) == s[n..]
  {
    if n > 0 {
      SkipSpacesAt(s[1..], n - 1);
      assert s[1..][n - 1..] == s[n..];
    }
  }

  /** Dropping the trailing spaces of `u` stops after the last other character. */
  lemma {:induction false} DropTrailingSpacesAt(u: string, n: nat)
    requires n <= |u| && (n == 0 || u[n - 1] != ' ')
    requires forall i :: n <= i < |u| ==> u[i] == ' '
    ensures DropTrailingSpaces(u) == u[..n]
  {
    if n < |u| {
      DropTrailingSpacesAt(u[..|u| - 1], n);
      assert u[..|u| - 1][..n] == u[..n];
    } else {
      assert u[..n] == u;
    }
  }

  /** `s` holds `[c, c]` at index `j`. */
  predicate PairAt(s: string, c: char, j: nat)
  {
    j + 1 < |s| && s[j] == c && s[j + 1] == c
  }

  /** True when `s` holds the two-character string `[c, c]` somewhere. */
  predicate HasPair(s: string, c: char)
  {
    exists j: nat :: j < |s| && PairAt(s, c, j)
  }

  /**
   * `strstr(s, "cc")`: the index where the first occurrence of `[c, c]`
   * starts, or `|s|` (NULL) when there is none.
   */
  function FindPair(s: string, c: char): (r: nat)
    ensures r <= |s|
    ensures r < |s| ==> PairAt(s, c, r)
    ensures forall j: nat :: j < r ==> !PairAt(s, c, j)
  {
    if |s| < 2 then |s|
    else if s[0] == c && s[1] == c then 0
    else
      var r := 1 + FindPair(s[1..], c);
      assert forall j: nat :: 1 <= j ==> PairAt(s, c, j) == PairAt(s[1..], c, j - 1);
      r
  }

  /** `strstr` finds an occurrence exactly when there is one. */
  lemma FindPairFinds(s: string, c: char)
    ensures FindPair(s, c) < |s| <==> HasPair(s, c)
  {
    var r := FindPair(s, c);
    if HasPair(s, c) {
      var j: nat :| PairAt(s, c, j);
      assert r <= j;
    }
  }
}
