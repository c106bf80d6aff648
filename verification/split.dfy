/**
 * How `main` cuts an input line into the pieces each mode works on
 * (VortexShell.c:75-205): `|` and `=` segments, `+` file names, the two `~`
 * file names, the `#` file name, `;` commands and the `&&`/`||` chain.
 *
 * `strtok` is modelled by `Text.Fields`, the trimming loops by
 * `Text.TrimSpaces`, and `strstr` by `Text.FindPair`. Each splitting loop is
 * a method that fills fixed-size arrays as the source does and is proved
 * equal to a function of the line; the lemmas relate those functions to
 * lines written from known pieces.
 */
module Split {
  import opened Util
  import opened Text

  /** `MAX_PIPES`. */
  const MAX_PIPES: nat := 5
  /** `MAX_SEQUENTIAL`. */
  const MAX_SEQUENTIAL: nat := 4
  /** Slots of the `commands_str`, `files` and `commands` arrays: MAX_PIPES + 1. */
  const MAX_SEGMENTS: nat := MAX_PIPES + 1

  // ---------------------------------------------------------------------
  // `|` and `=`: lines 79-84 and 93-98
  // ---------------------------------------------------------------------

  /** The pieces the `|` and `=` loops keep: the first MAX_SEGMENTS fields. */
  function Segments(line: string, sep: char): (segs: seq<string>)
    ensures |segs| <= MAX_SEGMENTS
    ensures forall i :: 0 <= i < |segs| ==> segs[i] != [] && sep !in segs[i]
  {
    Take(Fields(line, sep), MAX_SEGMENTS)
  }

  /** The loop of lines 80-84 (and 94-98): store tokens while the counter is at most MAX_PIPES. */
  method SplitSegments(line: string, sep: char) returns (slots: array<string>, count: nat)
    ensures fresh(slots) && slots.Length == MAX_SEGMENTS
    ensures count <= slots.Length && slots[..count] == Segments(line, sep)
  {
    slots := new string[MAX_SEGMENTS](_ => "");
    count := 0;
    var toks := Fields(line, sep);
    while count < |toks| && count <= MAX_PIPES
      invariant count <= |toks| && count <= MAX_SEGMENTS
      invariant slots[..count] == toks[..count]
    {
      slots[count] := toks[count];
      count := count + 1;
    }
  }

  /** A line written as segments joined by the separator splits back into (at most six of) them. */
  lemma SegmentsJoin(segs: seq<string>, sep: char)
    requires Splittable(segs, sep)
    ensures Segments(JoinWith(segs, sep), sep) == Take(segs, MAX_SEGMENTS)
  {
    FieldsJoin(segs, sep);
  }

  // ---------------------------------------------------------------------
  // `+`: lines 135-144
  // ---------------------------------------------------------------------

  /** Every token trimmed. */
  function TrimAll(toks: seq<string>): (r: seq<string>)
    ensures |r| == |toks|
  {
    if toks == [] then [] else [Trim(toks[0])] + TrimAll(toks[1..])
  }

  lemma {:induction false} TrimAllAt(toks: seq<string>, i: nat)
    requires i < |toks|
    ensures TrimAll(toks)[i] == Trim(toks[i])
  {
    if i > 0 {
      TrimAllAt(toks[1..], i - 1);
    }
  }

  /** The file names of a `+` line: the first MAX_SEGMENTS fields, trimmed; empty names are kept. */
  function FileNames(line: string): (names: seq<string>)
    ensures |names| <= MAX_SEGMENTS && |names| <= |Fields(line, '+')|
  {
    Take(TrimAll(Fields(line, '+')), MAX_SEGMENTS)
  }

  /** The loop of lines 137-144. */
  method SplitFiles(line: string) returns (files: array<string>, count: nat)
    ensures fresh(files) && files.Length == MAX_SEGMENTS
    ensures count <= files.Length && files[..count] == FileNames(line)
  {
    files := new string[MAX_SEGMENTS](_ => "");
    count := 0;
    var toks := Fields(line, '+');
    while count < |toks| && count <= MAX_PIPES
      invariant count <= |toks| && count <= MAX_SEGMENTS
      invariant files[..count] == TrimAll(toks)[..count]
    {
      var name := TrimSpaces(toks[count]);
      TrimAllAt(toks, count);
      files[count] := name;
      count := count + 1;
    }
  }

  /** A `+` line written from raw pieces gives back the first six pieces, trimmed. */
  lemma FileNamesJoin(raw: seq<string>)
    requires Splittable(raw, '+')
    ensures FileNames(JoinWith(raw, '+')) == Take(TrimAll(raw), MAX_SEGMENTS)
  {
    FieldsJoin(raw, '+');
  }

  // ---------------------------------------------------------------------
  // `~`: lines 107-125
  // ---------------------------------------------------------------------

  /**
   * The two file names of a `~` line, trimmed, or None when `strtok` finds
   * fewer than two fields (the error message of line 124). Fields after the
   * second are ignored.
   */
  function CrossAppendFiles(line: string): (r: Option<(string, string)>)
    ensures r.Some? ==> '~' !in r.value.0 && '~' !in r.value.1
  {
    var fs := Fields(line, '~');
    if |fs| >= 2 then
      TrimWithin(fs[0]);
      TrimWithin(fs[1]);
      Some((Trim(fs[0]), Trim(fs[1])))
    else None
  }

  /** `a ~ b` names both files, trimmed. */
  lemma CrossAppendJoin(a: string, b: string)
    requires a != [] && b != [] && '~' !in a && '~' !in b
    ensures CrossAppendFiles(a + ['~'] + b) == Some((Trim(a), Trim(b)))
  {
    assert a + ['~'] + b == JoinWith([a, b], '~');
    FieldsJoin([a, b], '~');
  }

  /** A `~` with a file name on one side only is the error case. */
  lemma CrossAppendMissing(a: string)
    requires '~' !in a
    ensures CrossAppendFiles(a + ['~']) == None
    ensures CrossAppendFiles(['~'] + a) == None
  {
    if a == [] {
      assert a + ['~'] == JoinWith([[]], '~') + ['~'];
    }
    FieldsTrailing(a, '~');
    assert (['~'] + a)[1..] == a;
    FieldsAtMostOne(a, '~');
  }

  lemma FieldsAtMostOne(a: string, d: char)
    requires d !in a
    ensures |Fields(a, d)| <= 1
  {
    if a != [] {
      PrefixWhole(a, d);
      assert a[|a|..] == [];
    }
  }

  lemma FieldsTrailing(a: string, d: char)
    requires d !in a
    ensures |Fields(a + [d], d)| <= 1
  {
    assert Fields([d], d) == [] by {
      assert [d][1..] == [];
    }
    if a == [] {
      assert a + [d] == [d];
    } else {
      var s := a + [d];
      assert s == a + [d] + [];
      PrefixStops(a, d, []);
      assert s[0] == a[0];
      assert s[|a|..] == [d];
    }
  }

  // ---------------------------------------------------------------------
  // `#`: lines 128-131
  // ---------------------------------------------------------------------

  /** The file name of a `#` line: what follows the `#`, leading spaces skipped. */
  function WordCountFile(line: string): (name: string)
    requires line != [] && line[0] == '#'
    ensures name == [] || name[0] != ' '
    ensures |name| < |line| && name == line[|line| - |name|..]
  {
    SkipSpacesSuffix(line[1..]);
    SkipSpaces(line[1..])
  }

  /** `#`, any number of spaces, then a name: the name is what is counted. */
  lemma WordCountFileOf(pad: nat, name: string)
    requires name == [] || name[0] != ' '
    ensures WordCountFile(['#'] + seq(pad, _ => ' ') + name) == name
  {
    var line := ['#'] + seq(pad, _ => ' ') + name;
    assert line[1..] == seq(pad, _ => ' ') + name;
    SkipSpacesAt(line[1..], pad);
    assert line[1..][pad..] == name;
  }

  // ---------------------------------------------------------------------
  // `;`: lines 154-164
  // ---------------------------------------------------------------------

  /**
   * The loop of lines 156-164 from token list `toks` with `room` slots left:
   * each token is trimmed; empty results are skipped, the others stored
   * until the slots run out.
   */
  function Kept(toks: seq<string>, room: nat): (r: seq<string>)
    ensures |r| <= room
    ensures forall i :: 0 <= i < |r| ==> r[i] != [] && r[i][0] != ' ' && r[i][|r[i]| - 1] != ' '
  {
    if toks == [] || room == 0 then []
    else
      var t := Trim(toks[0]);
      if t == [] then Kept(toks[1..], room) else [t] + Kept(toks[1..], room - 1)
  }

  /** The non-empty strings of `s`, in order. */
  function NonEmpty(s: seq<string>): (r: seq<string>)
    ensures |r| <= |s|
    ensures forall i :: 0 <= i < |r| ==> r[i] != []
  {
    if s == [] then []
    else if s[0] == [] then NonEmpty(s[1..])
    else [s[0]] + NonEmpty(s[1..])
  }

  /** Kept is "trim everything, drop the empty ones, keep the first `room`". */
  lemma {:induction false} KeptIsFilter(toks: seq<string>, room: nat)
    ensures Kept(toks, room) == Take(NonEmpty(TrimAll(toks)), room)
  {
    if toks != [] && room > 0 {
      KeptIsFilter(toks[1..], if Trim(toks[0]) == [] then room else room - 1);
      assert TrimAll(toks)[1..] == TrimAll(toks[1..]);
      assert TrimAll(toks)[0] == Trim(toks[0]);
    }
  }

  /** The commands of a `;` line. */
  function SequentialSegments(line: string): (segs: seq<string>)
    ensures |segs| <= MAX_SEQUENTIAL
    ensures forall i :: 0 <= i < |segs| ==> segs[i] != []
  {
    Kept(Fields(line, ';'), MAX_SEQUENTIAL)
  }

  /** The loop of lines 154-164. */
  method SplitSequential(line: string) returns (slots: array<string>, count: nat)
    ensures fresh(slots) && slots.Length == MAX_SEQUENTIAL
    ensures count <= slots.Length && slots[..count] == SequentialSegments(line)
  {
    slots := new string[MAX_SEQUENTIAL](_ => "");
    count := 0;
    var toks := Fields(line, ';');
    var k := 0;
    ghost var room: nat, todo := MAX_SEQUENTIAL, toks;
    while k < |toks| && count < MAX_SEQUENTIAL
      invariant 0 <= k <= |toks| && count <= MAX_SEQUENTIAL
      invariant room == MAX_SEQUENTIAL - count && todo == toks[k..]
      invariant slots[..count] + Kept(todo, room) == Kept(toks, MAX_SEQUENTIAL)
    {
      var t := TrimSpaces(toks[k]);
      ghost var later := toks[k + 1..];
      KeptStep(toks, k, room, later);
      if |t| > 0 {
        ghost var before := slots[..count];
        Put(slots, count, t);
        Shift(before, t, Kept(later, room - 1), Kept(toks, MAX_SEQUENTIAL), slots[..count + 1]);
        count, room := count + 1, room - 1;
      }
      k, todo := k + 1, later;
    }
    assert slots[..count] + [] == slots[..count];
  }

  /** One token of the `;` loop: a blank token is skipped, any other is kept trimmed. */
  lemma KeptStep(toks: seq<string>, k: nat, room: nat, later: seq<string>)
    requires k < |toks| && room > 0 && later == toks[k + 1..]
    ensures Trim(toks[k]) == [] ==> Kept(toks[k..], room) == Kept(later, room)
    ensures Trim(toks[k]) != [] ==> Kept(toks[k..], room) == [Trim(toks[k])] + Kept(later, room - 1)
  {
    assert toks[k..][0] == toks[k];
    assert toks[k..][1..] == later;
  }

  /** A `;` line written from raw pieces keeps the first four pieces that are not blank, trimmed. */
  lemma SequentialJoin(raw: seq<string>)
    requires Splittable(raw, ';')
    ensures SequentialSegments(JoinWith(raw, ';')) == Take(NonEmpty(TrimAll(raw)), MAX_SEQUENTIAL)
  {
    FieldsJoin(raw, ';');
    KeptIsFilter(raw, MAX_SEQUENTIAL);
  }
}
