/**
 * How `main` cuts a line holding "&&" or "||" into commands and operators
 * (VortexShell.c:170-201): `strstr` finds the earlier of the two operators,
 * the text before it is a command, and the scan goes on after the operator
 * with leading spaces skipped, for at most MAX_PIPES + 1 commands.
 */
module Chain {
  import opened Util
  import opened Text
  import opened Split

  /** Slots of `char operators[MAX_PIPES]` in the source. */
  const SOURCE_OPERATOR_SLOTS: nat := MAX_PIPES

  /** An operator recorded at lines 186 and 193: '&' for "&&", '|' for "||". */
  datatype Op = And | Or

  /**
   * The scan of lines 180-201 from the text `s` with `room` commands still
   * to fill: the segments handed to `parse_command` and the operators
   * recorded. The earlier of "&&" and "||" ends the segment; the text after
   * the operator has its leading spaces skipped. Without an operator the
   * rest is the last segment.
   */
  function CondSplit(s: string, room: nat): (r: (seq<string>, seq<Op>))
    ensures |r.0| <= room && (room > 0 ==> |r.0| >= 1)
    ensures |r.1| + 1 == |r.0| || |r.1| == |r.0| == room
    decreases room
  {
    if room == 0 then ([], [])
    else
      var a := FindPair(s, '&');
      var o := FindPair(s, '|');
      if a < |s| && (o == |s| || a < o) then
        var rest := CondSplit(SkipSpaces(s[a + 2..]), room - 1);
        ([s[..a]] + rest.0, [And] + rest.1)
      else if o < |s| then
        var rest := CondSplit(SkipSpaces(s[o + 2..]), room - 1);
        ([s[..o]] + rest.0, [Or] + rest.1)
      else
        ([s], [])
  }

  /** The segments and operators of a conditional line. */
  function Conditional(line: string): (r: (seq<string>, seq<Op>))
    ensures 1 <= |r.0| <= MAX_SEGMENTS
    ensures |r.1| + 1 == |r.0| || |r.1| == |r.0| == MAX_SEGMENTS
  {
    CondSplit(line, MAX_SEGMENTS)
  }

  /**
   * One pass of the loop at lines 181-200 on the text `token`, with `room`
   * commands still to fill and `k` = room - 1 left after this one: the
   * segment cut off, the operator that ended it (none for the last segment)
   * and the text after the operator with its leading spaces skipped.
   */
  method NextSegment(token: string, room: nat, k: nat) returns (seg: string, op: Option<Op>, rest: string)
    requires room == k + 1
    ensures op.None? ==> CondSplit(token, room) == ([seg], [])
    ensures op.Some? ==>
      (CondSplit(token, room) ==
       ([seg] + CondSplit(rest, k).0, [op.value] + CondSplit(rest, k).1))
  {
    var andPos := FindPair(token, '&');
    var orPos := FindPair(token, '|');
    if andPos < |token| && (orPos == |token| || andPos < orPos) {
      rest := SkipSpaces(token[andPos + 2..]);
      CondSplitAt(token, room, andPos, And, rest, k);
      seg, op := token[..andPos], Some(And);
    } else if orPos < |token| {
      rest := SkipSpaces(token[orPos + 2..]);
      CondSplitAt(token, room, orPos, Or, rest, k);
      seg, op := token[..orPos], Some(Or);
    } else {
      CondSplitLast(token, room);
      seg, op, rest := token, None, token;
    }
  }

  /**
   * Lines 175-201, with the operator array given MAX_SEGMENTS slots: the
   * source's `char operators[MAX_PIPES]` is one short (see ConditionalOperatorOverrun).
   */
  method SplitConditional(line: string) returns (segments: array<string>, count: nat, operators: array<Op>, opCount: nat)
    ensures fresh(segments) && fresh(operators)
    ensures segments.Length == MAX_SEGMENTS && operators.Length == MAX_SEGMENTS
    ensures count <= segments.Length && opCount <= operators.Length
    ensures (segments[..count], operators[..opCount]) == Conditional(line)
  {
    segments := new string[MAX_SEGMENTS](_ => "");
    operators := new Op[MAX_SEGMENTS](_ => And);
    count, opCount := 0, 0;
    var token := line;
    var room: nat := MAX_SEGMENTS;
    ghost var whole := Conditional(line);
    while count <= MAX_PIPES
      invariant count <= MAX_SEGMENTS && opCount == count && room + count == MAX_SEGMENTS
      invariant segments[..count] + CondSplit(token, room).0 == whole.0
      invariant operators[..count] + CondSplit(token, room).1 == whole.1
    {
      ghost var segsBefore := segments[..count];
      ghost var opsBefore := operators[..opCount];
      var k: nat := room - 1;
      var seg, op, rest := NextSegment(token, room, k);
      Record(segments, count, seg, operators, opCount, op);
      Shift(segsBefore, seg, if op.Some? then CondSplit(rest, k).0 else [], whole.0, segments[..count + 1]);
      if op.None? {
        assert operators[..opCount] == opsBefore + [];
        count := count + 1;
        break;
      }
      Shift(opsBefore, op.value, CondSplit(rest, k).1, whole.1, operators[..opCount + 1]);
      count, opCount, room := count + 1, opCount + 1, k;
      token := rest;
    }
    assert segments[..count] + [] == segments[..count];
    assert operators[..opCount] + [] == operators[..opCount];
  }

  /** The writes of one pass: the segment at `count`, the operator (if any) at `opCount`. */
  method Record(segments: array<string>, count: nat, seg: string, operators: array<Op>, opCount: nat, op: Option<Op>)
    requires count < segments.Length && opCount < operators.Length
    modifies segments, operators
    ensures segments[..count + 1] == old(segments[..count]) + [seg]
    ensures op.Some? ==> operators[..opCount + 1] == old(operators[..opCount]) + [op.value]
    ensures op.None? ==> operators[..opCount] == old(operators[..opCount])
  {
    Put(segments, count, seg);
    if op.Some? {
      Put(operators, opCount, op.value);
    }
  }

  /** One pass of the scan that finds operator `op` at `pos`; the scan goes on at `rest` with `k` commands left. */
  lemma CondSplitAt(s: string, room: nat, pos: nat, op: Op, rest: string, k: nat)
    requires room == k + 1
    requires op == And ==>
      (pos == FindPair(s, '&') && pos < |s| && (FindPair(s, '|') == |s| || pos < FindPair(s, '|')))
    requires op == Or ==>
      (pos == FindPair(s, '|') && pos < |s| && !(FindPair(s, '&') < |s| && FindPair(s, '&') < pos))
    requires pos + 2 <= |s| ==> rest == SkipSpaces(s[pos + 2..])
    ensures pos + 2 <= |s|
    ensures CondSplit(s, room) == ([s[..pos]] + CondSplit(rest, k).0, [op] + CondSplit(rest, k).1)
  {
  }

  /** The pass of the scan that finds no operator. */
  lemma CondSplitLast(s: string, room: nat)
    requires room > 0 && FindPair(s, '&') == |s| && FindPair(s, '|') == |s|
    ensures CondSplit(s, room) == ([s], [])
  {
  }
}
