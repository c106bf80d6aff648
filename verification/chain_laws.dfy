/**
 * What the `&&`/`||` scan of `main` (VortexShell.c:180-201) guarantees:
 * no command it cuts out still holds an operator, and a line written as
 * commands joined by operators is cut back into those commands and
 * operators. Also the operator-array overrun of the source.
 */
module ChainLaws {
  import opened Util
  import opened Text
  import opened Split
  import opened Chain

  /** A segment free of both operators. */
  predicate Clean(seg: string)
  {
    !HasPair(seg, '&') && !HasPair(seg, '|')
  }

  /** No segment handed to `parse_command` contains "&&" or "||". */
  lemma {:induction false} CondSplitClean(s: string, room: nat)
    ensures forall i :: 0 <= i < |CondSplit(s, room).0| ==> Clean(CondSplit(s, room).0[i])
    decreases room
  {
    if room > 0 {
      var k: nat := room - 1;
      var a := FindPair(s, '&');
      var o := FindPair(s, '|');
      var segs := CondSplit(s, room).0;
      if a < |s| && (o == |s| || a < o) {
        var next := SkipSpaces(s[a + 2..]);
        CondSplitAt(s, room, a, And, next, k);
        CondSplitClean(next, k);
        NoPairBefore(s, a, '&', '|', o);
        ConsClean(s[..a], CondSplit(next, k).0, segs);
      } else if o < |s| {
        var next := SkipSpaces(s[o + 2..]);
        CondSplitAt(s, room, o, Or, next, k);
        CondSplitClean(next, k);
        NoPairBefore(s, o, '|', '&', a);
        ConsClean(s[..o], CondSplit(next, k).0, segs);
      } else {
        FindPairFinds(s, '&');
        FindPairFinds(s, '|');
        CondSplitLast(s, room);
        ConsClean(s, [], segs);
      }
    }
  }

  lemma ConsClean(seg: string, rest: seq<string>, segs: seq<string>)
    requires segs == [seg] + rest && Clean(seg)
    requires forall i :: 0 <= i < |rest| ==> Clean(rest[i])
    ensures forall i :: 0 <= i < |segs| ==> Clean(segs[i])
  {
    forall i | 0 <= i < |segs| ensures Clean(segs[i]) {
      if i > 0 {
        assert segs[i] == rest[i - 1];
      }
    }
  }

  /** Cutting before the first occurrence of both pairs leaves neither pair in the segment. */
  lemma NoPairBefore(s: string, p: nat, c: char, e: char, q: nat)
    requires p <= |s| && p <= q
    requires forall j: nat :: j < p ==> !PairAt(s, c, j)
    requires forall j: nat :: j < q ==> !PairAt(s, e, j)
    ensures !HasPair(s[..p], c) && !HasPair(s[..p], e)
  {
    forall j: nat | j < p ensures !PairAt(s[..p], c, j) && !PairAt(s[..p], e, j) {
      assert !PairAt(s, c, j) && !PairAt(s, e, j);
      if j + 1 < p {
        assert s[..p][j] == s[j] && s[..p][j + 1] == s[j + 1];
      }
    }
  }

  /** A segment that the operator scan returns unchanged. */
  predicate SegmentOk(seg: string)
  {
    '&' !in seg && '|' !in seg && (seg == [] || seg[0] != ' ')
  }

  function OpChar(op: Op): char
  {
    if op == And then '&' else '|'
  }

  /** Segments written out with each operator between neighbours. */
  function JoinOps(segs: seq<string>, ops: seq<Op>): (s: string)
    requires |segs| == |ops| + 1
    decreases |ops|
  {
    if ops == [] then segs[0]
    else segs[0] + [OpChar(ops[0]), OpChar(ops[0])] + JoinOps(segs[1..], ops[1..])
  }

  /** Segments that are all returned unchanged by the scan. */
  predicate AllSegmentsOk(segs: seq<string>)
  {
    forall i :: 0 <= i < |segs| ==> SegmentOk(segs[i])
  }

  /**
   * A line written as commands joined by "&&" and "||" splits back into
   * those commands and operators, as many as the room allows.
   */
  lemma {:induction false} CondJoin(segs: seq<string>, ops: seq<Op>, room: nat)
    requires |segs| == |ops| + 1 && AllSegmentsOk(segs)
    ensures CondSplit(JoinOps(segs, ops), room) == (Take(segs, room), Take(ops, room))
  {
    CondJoinFrom(JoinOps(segs, ops), segs, ops, room);
  }

  lemma {:induction false} CondJoinFrom(s: string, segs: seq<string>, ops: seq<Op>, room: nat)
    requires |segs| == |ops| + 1 && AllSegmentsOk(segs) && s == JoinOps(segs, ops)
    ensures CondSplit(s, room).0 == Take(segs, room)
    ensures CondSplit(s, room).1 == Take(ops, room)
    decreases room
  {
    if room == 0 {
    } else if ops == [] {
      assert s == segs[0] && SegmentOk(segs[0]);
      assert segs == [segs[0]];
      NoPairIn(s, '&');
      NoPairIn(s, '|');
      CondSplitLast(s, room);
    } else {
      var k: nat := room - 1;
      var segs', ops' := segs[1..], ops[1..];
      var rest := JoinOps(segs', ops');
      CondJoinStep(s, segs, ops, room, k, rest);
      AllSegmentsOkTail(segs);
      CondJoinFrom(rest, segs', ops', k);
      ConsTake(CondSplit(s, room).0, segs, room, segs', k, CondSplit(rest, k).0);
      ConsTake(CondSplit(s, room).1, ops, room, ops', k, CondSplit(rest, k).1);
    }
  }

  /** One operator of a joined line: the first segment and operator come off, the rest is scanned on. */
  lemma CondJoinStep(s: string, segs: seq<string>, ops: seq<Op>, room: nat, k: nat, rest: string)
    requires |segs| == |ops| + 1 && ops != [] && room == k + 1 && AllSegmentsOk(segs)
    requires s == JoinOps(segs, ops) && rest == JoinOps(segs[1..], ops[1..])
    ensures CondSplit(s, room).0 == [segs[0]] + CondSplit(rest, k).0
    ensures CondSplit(s, room).1 == [ops[0]] + CondSplit(rest, k).1
  {
    var p := |segs[0]|;
    JoinOpsCut(segs, ops);
    assert s[..p] == segs[0];
    CondSplitAt(s, room, p, ops[0], rest, k);
  }

  lemma AllSegmentsOkTail(segs: seq<string>)
    requires segs != [] && AllSegmentsOk(segs)
    ensures AllSegmentsOk(segs[1..])
  {
    forall i | 0 <= i < |segs[1..]| ensures SegmentOk(segs[1..][i]) {
      assert segs[1..][i] == segs[i + 1];
    }
  }

  /** In a joined line the first operator is found right after the first segment. */
  lemma JoinOpsCut(segs: seq<string>, ops: seq<Op>)
    requires |segs| == |ops| + 1 && ops != [] && AllSegmentsOk(segs)
    ensures var s, p := JoinOps(segs, ops), |segs[0]|;
      && p + 2 <= |s| && s[..p] == segs[0]
      && (ops[0] == And ==> (p == FindPair(s, '&') && p < |s| && (FindPair(s, '|') == |s| || p < FindPair(s, '|'))))
      && (ops[0] == Or ==> (p == FindPair(s, '|') && p < |s| && !(FindPair(s, '&') < |s| && FindPair(s, '&') < p)))
      && SkipSpaces(s[p + 2..]) == JoinOps(segs[1..], ops[1..])
  {
    var s := JoinOps(segs, ops);
    var c := OpChar(ops[0]);
    var e := if ops[0] == And then '|' else '&';
    var p := |segs[0]|;
    var tail := JoinOps(segs[1..], ops[1..]);
    assert s == segs[0] + [c, c] + tail;
    assert SegmentOk(segs[0]) && SegmentOk(segs[1]);
    assert s[p] == c && s[p + 1] == c;
    assert forall j :: 0 <= j < p ==> s[j] == segs[0][j];
    FindPairAt(s, c, p);
    FindPairPast(s, e, p + 1);
    assert s[..p] == segs[0];
    assert s[p + 2..] == tail;
    JoinOpsStart(segs[1..], ops[1..]);
    NoSkip(tail);
  }

  /** A string without `c` holds no `[c, c]`. */
  lemma NoPairIn(s: string, c: char)
    requires c !in s
    ensures FindPair(s, c) == |s|
  {
  }

  /** The first `[c, c]` is at `p` when `c` does not occur before `p`. */
  lemma FindPairAt(s: string, c: char, p: nat)
    requires p + 1 < |s| && s[p] == c && s[p + 1] == c
    requires forall j :: 0 <= j < p ==> s[j] != c
    ensures FindPair(s, c) == p
  {
    assert PairAt(s, c, p);
  }

  /** No `[e, e]` starts at or before `p` when `e` does not occur up to `p`. */
  lemma FindPairPast(s: string, e: char, p: nat)
    requires p < |s|
    requires forall j :: 0 <= j <= p ==> s[j] != e
    ensures FindPair(s, e) > p
  {
  }

  /** A joined line whose first segment is fine does not start with a space. */
  lemma JoinOpsStart(segs: seq<string>, ops: seq<Op>)
    requires |segs| == |ops| + 1 && SegmentOk(segs[0])
    ensures JoinOps(segs, ops) == [] || JoinOps(segs, ops)[0] != ' '
  {
    if ops != [] && segs[0] == [] {
      assert JoinOps(segs, ops)[0] == OpChar(ops[0]);
    } else if ops != [] {
      assert JoinOps(segs, ops)[0] == segs[0][0];
    }
  }

  lemma NoSkip(s: string)
    requires s == [] || s[0] != ' '
    ensures SkipSpaces(s) == s
  {
  }

  /**
   * As written, the loop at lines 180-201 records one operator for each of
   * up to six commands, but `operators` has MAX_PIPES (five) slots: a line
   * of seven commands makes line 186 or 193 write `operators[5]`.
   */
  lemma ConditionalOperatorOverrun(segs: seq<string>, ops: seq<Op>)
    requires |segs| == 7 && |ops| == 6 && AllSegmentsOk(segs)
    ensures |Conditional(JoinOps(segs, ops)).1| == MAX_SEGMENTS > SOURCE_OPERATOR_SLOTS
  {
    CondJoin(segs, ops, MAX_SEGMENTS);
  }
}
