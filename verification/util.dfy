/** Small shared vocabulary: optional values and occurrence counting. */
module Util {

  /** A value that may be absent, standing for a C pointer that may be NULL. */
  datatype Option<T> = None | Some(value: T)

  /** A byte as `fgetc` and `fread` deliver it. */
  type Byte = b: int | 0 <= b < 256

  /** The first `n` elements of `s`, or all of them when there are fewer. */
  function Take<T>(s: seq<T>, n: nat): (r: seq<T>)
    ensures |r| == if |s| <= n then |s| else n
    ensures r == s[..|r|]
  {
    if |s| <= n then s else s[..n]
  }

  /** Taking from a non-empty sequence keeps its head. */
  lemma TakeCons<T>(s: seq<T>, n: nat)
    requires s != [] && n > 0
    ensures Take(s, n) == [s[0]] + Take(s[1..], n - 1)
  {
  }

  /** A head followed by what is taken from the tail is what is taken from the whole. */
  lemma ConsTake<T>(r: seq<T>, s: seq<T>, n: nat, tail: seq<T>, m: nat, rest: seq<T>)
    requires s != [] && tail == s[1..] && m + 1 == n && rest == Take(tail, m) && r == [s[0]] + rest
    ensures r == Take(s, n)
  {
    TakeCons(s, n);
  }

  /** Moving `x` from the front of the rest to the end of the part done. */
  lemma Shift<T>(before: seq<T>, x: T, rest: seq<T>, whole: seq<T>, now: seq<T>)
    requires before + ([x] + rest) == whole && now == before + [x]
    ensures now + rest == whole
  {
    assert before + ([x] + rest) == (before + [x]) + rest;
  }

  /** Number of occurrences of `x` in `s`. */
  function Count<T(==)>(s: seq<T>, x: T): (n: nat)
    ensures n <= |s|
    ensures n == 0 <==> x !in s
  {
    if s == [] then 0
    else Count(s[..|s| - 1], x) + (if s[|s| - 1] == x then 1 else 0)
  }

  lemma CountAppend<T>(s: seq<T>, t: seq<T>, x: T)
    ensures Count(s + t, x) == Count(s, x) + Count(t, x)
    decreases |t|
  {
    if t == [] {
      assert s + t == s;
    } else {
      assert (s + t)[..|s + t| - 1] == s + t[..|t| - 1];
      CountAppend(s, t[..|t| - 1], x);
    }
  }

  /** The indices lo, lo + 1, ..., hi - 1 in increasing order. */
  function Range(lo: nat, hi: nat): (r: seq<nat>)
    ensures |r| == if lo <= hi then hi - lo else 0
    ensures forall k :: 0 <= k < |r| ==> r[k] == lo + k
    decreases hi - lo
  {
    if lo >= hi then [] else [lo] + Range(lo + 1, hi)
  }

  /** The indices hi - 1, hi - 2, ..., 0 in decreasing order. */
  function Countdown(hi: nat): (r: seq<nat>)
    ensures |r| == hi
    ensures forall k :: 0 <= k < |r| ==> r[k] == hi - 1 - k
  {
    if hi == 0 then [] else [hi - 1] + Countdown(hi - 1)
  }

  /** Each index below `hi` occurs exactly once in `Range(0, hi)`. */
  lemma {:induction false} RangeOnce(lo: nat, hi: nat, i: nat)
    ensures Count(Range(lo, hi), i) == if lo <= i < hi then 1 else 0
    decreases hi - lo
  {
    if lo < hi {
      var next: nat := lo + 1;
      var head: seq<nat> := [lo];
      RangeOnce(next, hi, i);
      assert Range(lo, hi) == head + Range(next, hi);
      CountAppend(head, Range(next, hi), i);
      assert Count(head, i) == if lo == i then 1 else 0 by {
        assert head[..0] == [];
      }
    }
  }

  /** Each index below `hi` occurs exactly once in `Countdown(hi)`. */
  lemma {:induction false} CountdownOnce(hi: nat, i: nat)
    ensures Count(Countdown(hi), i) == if i < hi then 1 else 0
  {
    if hi > 0 {
      var top: nat := hi - 1;
      var head: seq<nat> := [top];
      CountdownOnce(top, i);
      assert Countdown(hi) == head + Countdown(top);
      CountAppend(head, Countdown(top), i);
      assert Count(head, i) == if top == i then 1 else 0 by {
        assert head[..0] == [];
      }
    }
  }

  /** Writes `x` into slot `n` of `a`: the filled prefix grows by `x`. */
  method Put<T>(a: array<T>, n: nat, x: T)
    requires n < a.Length
    modifies a
    ensures a[..n + 1] == old(a[..n]) + [x]
  {
    a[n] := x;
    assert a[..n + 1] == a[..n] + [x];
  }
}
