/**
 * `execute_sequential_commands` (VortexShell.c:312-341): each ';'-segment is
 * copied into a MAX_CMD_LEN buffer, cut at spaces into at most MAX_ARGS
 * tokens and, when there are 1 to 5 of them, run as a command whose
 * arguments are those tokens. Unlike `parse_command`, this tokenizer knows
 * nothing of `<`, `>` or `>>`: they stay ordinary arguments and no
 * redirection is set up.
 *
 * Running the command (`execute_single_command`) is not modelled; the
 * outcome of a segment is the record handed to it.
 */
module Sequential {
  import opened Util
  import opened Text
  import opened Command

  /** `MAX_CMD_LEN`: the copy keeps at most MAX_CMD_LEN - 1 characters. */
  const MAX_CMD_LEN: nat := 256

  /** What happens to one segment. */
  datatype Outcome =
    | Nothing                // no token: nothing is done
    | Rejected(name: string) // too many tokens: an error naming the first, and the record freed
    | Ran(d: Descriptor)     // the record passed to `execute_single_command`

  /** Lines 315-325: the tokens `strtok` yields from the copy, at most MAX_ARGS. */
  function SegmentTokens(seg: string): (toks: seq<string>)
    ensures |toks| <= MAX_ARGS
    ensures forall i :: 0 <= i < |toks| ==> toks[i] != [] && ' ' !in toks[i]
  {
    Take(Fields(Take(seg, MAX_CMD_LEN - 1), ' '), MAX_ARGS)
  }

  /** Lines 328-340: what becomes of a segment; a command that runs never has a redirection. */
  function RunSegment(seg: string): (o: Outcome)
    ensures o.Ran? ==> 1 <= |o.d.args| <= MAX_ACCEPTED && o.d.inputFile.None? && o.d.outputFile.None?
    ensures o.Rejected? ==> o.name != [] && ' ' !in o.name
  {
    var toks := SegmentTokens(seg);
    if toks == [] then Nothing
    else if |toks| > MAX_ACCEPTED then Rejected(toks[0])
    else Ran(Descriptor(toks, None, None, false))
  }

  /** The `strtok` loop of lines 321-325. */
  method Tokenize(copy: string) returns (args: seq<string>)
    ensures args == Take(Fields(copy, ' '), MAX_ARGS)
  {
    var fields := Fields(copy, ' ');
    args := [];
    var k := 0;
    while k < |fields| && |args| < MAX_ARGS
      invariant k <= |fields| && k <= MAX_ARGS && args == fields[..k]
    {
      args := args + [fields[k]];
      k := k + 1;
    }
  }

  /** One iteration of the loop of lines 313-341, on a fresh zeroed record. */
  method RunSegmentIn(seg: string) returns (o: Outcome)
    ensures o == RunSegment(seg)
  {
    var copy := Take(seg, MAX_CMD_LEN - 1);
    var args := Tokenize(copy);
    if |args| == 0 {
      return Nothing;
    }
    var cmd := Fill(args);
    if cmd.argc < 1 || cmd.argc > MAX_ACCEPTED {
      o := Rejected(cmd.args[0].value);
      cmd.Free();
    } else {
      o := Ran(cmd.View());
    }
  }

  /** Lines 329-333: a zeroed record given a copy of each token and a NULL after the last. */
  method Fill(args: seq<string>) returns (cmd: Command)
    requires 1 <= |args| <= MAX_ARGS
    ensures fresh(cmd) && fresh(cmd.args) && cmd.Valid()
    ensures cmd.View() == Descriptor(args, None, None, false) && cmd.argc == |args|
    ensures cmd.args[0] == Some(args[0]) && cmd.args[cmd.argc] == None
  {
    cmd := new Command();
    var j := 0;
    while j < |args|
      invariant j <= |args| && cmd.Valid() && fresh(cmd.args)
      invariant cmd.View() == Descriptor(args[..j], None, None, false)
    {
      cmd.AddWord(args[j]);
      j := j + 1;
    }
    assert args[..j] == args;
    cmd.Terminate();
    assert cmd.View().args[0] == args[0];
  }

  /** The whole loop: every segment in order. */
  method ExecuteSequential(segs: seq<string>) returns (outcomes: seq<Outcome>)
    ensures |outcomes| == |segs|
    ensures forall i :: 0 <= i < |segs| ==> outcomes[i] == RunSegment(segs[i])
  {
    outcomes := [];
    var i := 0;
    while i < |segs|
      invariant i <= |segs| && |outcomes| == i
      invariant forall k :: 0 <= k < i ==> outcomes[k] == RunSegment(segs[k])
    {
      var o := RunSegmentIn(segs[i]);
      outcomes := outcomes + [o];
      i := i + 1;
    }
  }

  /**
   * A segment of 1 to 5 space-separated words is run with exactly those
   * words as its arguments, whatever they are, and with no redirection.
   */
  lemma RunsWords(words: seq<string>)
    requires Splittable(words, ' ') && 1 <= |words| <= MAX_ACCEPTED
    requires |JoinWith(words, ' ')| < MAX_CMD_LEN
    ensures RunSegment(JoinWith(words, ' ')) == Ran(Descriptor(words, None, None, false))
  {
    FieldsJoin(words, ' ');
  }

  /** Six or more words are refused, naming the first. */
  lemma RejectsMany(words: seq<string>)
    requires Splittable(words, ' ') && |words| > MAX_ACCEPTED
    requires |JoinWith(words, ' ')| < MAX_CMD_LEN
    ensures RunSegment(JoinWith(words, ' ')) == Rejected(words[0])
  {
    FieldsJoin(words, ' ');
  }

  /**
   * As written, six or more tokens fill all MAX_ARGS slots, so line 333
   * writes the NULL terminator at index MAX_ARGS, one past the source's
   * `char *args[MAX_ARGS]`; the record modelled here has the extra slot.
   */
  lemma SequentialTerminatorOverrun(words: seq<string>)
    requires Splittable(words, ' ') && |words| >= MAX_ARGS
    requires |JoinWith(words, ' ')| < MAX_CMD_LEN
    ensures |SegmentTokens(JoinWith(words, ' '))| == SOURCE_ARG_SLOTS
  {
    FieldsJoin(words, ' ');
  }

  /** A segment of spaces only does nothing. */
  lemma BlankDoesNothing(seg: string)
    requires forall i :: 0 <= i < |seg| ==> seg[i] == ' '
    ensures RunSegment(seg) == Nothing
  {
    BlankFields(Take(seg, MAX_CMD_LEN - 1));
  }

  lemma {:induction false} BlankFields(s: string)
    requires forall i :: 0 <= i < |s| ==> s[i] == ' '
    ensures Fields(s, ' ') == []
  {
    if s != [] {
      BlankFields(s[1..]);
    }
  }

  /**
   * `cat < f` run in a ';' line passes "<" and the file name to `cat` as
   * arguments, where `parse_command` makes the file the input.
   */
  lemma RedirectionIgnored(f: string)
    requires f != [] && ' ' !in f && |f| < 10
    ensures RunSegment("cat < " + f) == Ran(Descriptor(["cat", "<", f], None, None, false))
    ensures Parsed("cat < " + f) == Descriptor(["cat"], Some(f), None, false)
  {
    var words := ["cat", "<", f];
    CatLine(f, words);
    RunsWords(words);
    ParsedCat(f, words);
  }

  lemma CatLine(f: string, words: seq<string>)
    requires words == ["cat", "<", f]
    ensures JoinWith(words, ' ') == "cat < " + f
  {
    assert JoinWith(words[2..], ' ') == f;
  }

  lemma ParsedCat(f: string, words: seq<string>)
    requires f != [] && ' ' !in f && words == ["cat", "<", f]
    requires JoinWith(words, ' ') == "cat < " + f
    ensures Parsed("cat < " + f) == Descriptor(["cat"], Some(f), None, false)
  {
    var items := [Word("cat"), From(f)];
    CatItems(f, items);
    assert Line(items) == JoinWith(words, ' ');
    ParseLine(items);
  }

  /** The items of `cat < f`, read one at a time. */
  lemma CatItems(f: string, items: seq<Item>)
    requires items == [Word("cat"), From(f)]
    ensures Tokens(items) == ["cat", "<", f]
    ensures Intended(items) == Descriptor(["cat"], Some(f), None, false)
  {
    var last := items[1..];
    FromItem(f, last);
    assert Tokens(items) == ["cat"] + Tokens(last);
    assert Words(items) == ["cat"] + Words(last);
    assert LastFrom(items) == Some(f);
    assert LastTo(items) == None;
  }

  lemma FromItem(f: string, last: seq<Item>)
    requires last == [From(f)]
    ensures Tokens(last) == ["<", f] && Words(last) == []
    ensures LastFrom(last) == Some(f) && LastTo(last) == None
  {
    assert last[1..] == [];
  }
}
