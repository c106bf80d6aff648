/**
 * The command descriptor and its tokenizer: `parse_command` and
 * `free_command` (VortexShell.c:220-272).
 *
 * A line segment is split into space-separated tokens. `<` takes the next
 * token as the input file, `>` and `>>` take it as the output file in
 * overwrite or append mode, and every other token is a word of the argument
 * vector. At most MAX_ARGS words are collected; a descriptor whose word count
 * is not between 1 and 5 is rejected by freeing its words and setting
 * `argc` to 0.
 *
 * The record is a class whose fields the operations update in place; its
 * abstract value is a `Descriptor`, and `Parsed` is the descriptor
 * `parse_command` leaves behind for a given input.
 */
module Command {
  import opened Util
  import opened Text

  /** `MAX_ARGS`: the word loop stops once this many words are collected. */
  const MAX_ARGS: nat := 6
  /** The largest word count (program name included) a descriptor may keep. */
  const MAX_ACCEPTED: nat := 5
  /** Slots of `char *args[MAX_ARGS]` in the source's record. */
  const SOURCE_ARG_SLOTS: nat := MAX_ARGS

  /** The abstract value of a command record. */
  datatype Descriptor = Descriptor(
    args: seq<string>,
    inputFile: Option<string>,
    outputFile: Option<string>,
    append: bool)

  /** The record as `parse_command` resets it before reading any token. */
  const Blank := Descriptor([], None, None, false)

  predicate IsRedirect(t: string)
  {
    t == "<" || t == ">" || t == ">>"
  }

  /** The token after a redirection operator, or NULL when the line ends. */
  function Target(toks: seq<string>): Option<string>
  {
    if |toks| > 1 then Some(toks[1]) else None
  }

  /** What is left after an operator and its target have been consumed. */
  function AfterTarget(toks: seq<string>): seq<string>
  {
    if |toks| > 1 then toks[2..] else []
  }

  /**
   * One pass of the loop body at lines 232-251: the record after the first
   * token (and, for an operator, its target) is consumed, and the tokens left.
   */
  function Step(toks: seq<string>, d: Descriptor): (r: (Descriptor, seq<string>))
    requires toks != []
    ensures |r.1| < |toks|
    ensures r.0.args == d.args || (r.0.args == d.args + [toks[0]] && !IsRedirect(toks[0]))
  {
    if toks[0] == "<" then
      (d.(inputFile := Target(toks)), AfterTarget(toks))
    else if toks[0] == ">" then
      (d.(outputFile := Target(toks), append := false), AfterTarget(toks))
    else if toks[0] == ">>" then
      (d.(outputFile := Target(toks), append := true), AfterTarget(toks))
    else
      (d.(args := d.args + [toks[0]]), toks[1..])
  }

  /**
   * The token loop of lines 230-252, from record `d` over tokens `toks`.
   * Only words land in `args`; collection stops after MAX_ARGS words.
   */
  function Scan(toks: seq<string>, d: Descriptor): (r: Descriptor)
    requires |d.args| <= MAX_ARGS
    ensures |d.args| <= |r.args| <= MAX_ARGS
    ensures r.args[..|d.args|] == d.args
    ensures forall i :: |d.args| <= i < |r.args| ==> !IsRedirect(r.args[i])
    decreases |toks|
  {
    if toks == [] || |d.args| >= MAX_ARGS then d
    else
      var next := Step(toks, d);
      Scan(next.1, next.0)
  }

  /**
   * The descriptor `parse_command(input, cmd)` leaves in `cmd`: the scanned
   * record, with its words dropped when their count is outside 1..5. The
   * redirection fields of a rejected record keep what the scan put there.
   */
  function Parsed(input: string): (d: Descriptor)
    ensures d.args == [] || 1 <= |d.args| <= MAX_ACCEPTED
    ensures forall i :: 0 <= i < |d.args| ==> !IsRedirect(d.args[i])
  {
    var s := Scan(Fields(input, ' '), Blank);
    if 1 <= |s.args| <= MAX_ACCEPTED then s else s.(args := [])
  }

  /** The strings held by a run of non-NULL slots. */
  function Values(xs: seq<Option<string>>): (vs: seq<string>)
    requires forall i :: 0 <= i < |xs| ==> xs[i].Some?
    ensures |vs| == |xs|
    ensures forall i :: 0 <= i < |xs| ==> vs[i] == xs[i].value
  {
    if xs == [] then [] else Values(xs[..|xs| - 1]) + [xs[|xs| - 1].value]
  }

  /**
   * The `Command` record. `args` has MAX_ARGS + 1 slots so that the NULL
   * terminator after MAX_ARGS words fits; the source declares MAX_ARGS slots
   * (see TerminatorOverrun).
   */
  class Command {
    var args: array<Option<string>>
    var argc: nat
    var inputFile: Option<string>
    var outputFile: Option<string>
    var appendOutput: bool

    ghost predicate Valid()
      reads this, args
    {
      args.Length == MAX_ARGS + 1 && argc <= MAX_ARGS &&
      forall i :: 0 <= i < argc ==> args[i].Some?
    }

    /** The descriptor the record currently holds. */
    function View(): Descriptor
      reads this, args
      requires Valid()
    {
      Descriptor(Values(args[..argc]), inputFile, outputFile, appendOutput)
    }

    /** `Command cmd = {0}`: every slot NULL, no words, no redirection. */
    constructor ()
      ensures Valid() && fresh(args) && View() == Blank
      ensures forall i :: 0 <= i < args.Length ==> args[i] == None
    {
      args := new Option<string>[MAX_ARGS + 1](_ => None);
      argc := 0;
      inputFile, outputFile, appendOutput := None, None, false;
    }

    /**
     * `free_command`: every word slot below `argc` becomes NULL and `argc`
     * becomes 0. The redirection fields are left as they are.
     */
    method Free()
      requires Valid()
      modifies this, args
      ensures Valid() && args == old(args) && argc == 0
      ensures forall i :: 0 <= i < old(argc) ==> args[i] == None
      ensures forall i :: old(argc) <= i < args.Length ==> args[i] == old(args[i])
      ensures inputFile == old(inputFile) && outputFile == old(outputFile)
      ensures appendOutput == old(appendOutput)
    {
      var i := 0;
      while i < argc
        invariant 0 <= i <= argc <= MAX_ARGS && args.Length == MAX_ARGS + 1
        invariant args == old(args) && argc == old(argc)
        invariant inputFile == old(inputFile) && outputFile == old(outputFile)
        invariant appendOutput == old(appendOutput)
        invariant forall j :: 0 <= j < i ==> args[j] == None
        invariant forall j :: i <= j < args.Length ==> args[j] == old(args[j])
      {
        if args[i].Some? {
          args[i] := None;
        }
        i := i + 1;
      }
      argc := 0;
    }

    /** Lines 249-250: the word goes into the next free slot. */
    method AddWord(t: string)
      requires Valid() && argc < MAX_ARGS
      modifies this, args
      ensures Valid() && args == old(args)
      ensures View() == old(View()).(args := old(View()).args + [t])
    {
      args[argc] := Some(t);
      argc := argc + 1;
      assert args[..argc] == old(args[..argc]) + [Some(t)];
    }

    /** Line 253: the slot after the last word becomes NULL. */
    method Terminate()
      requires Valid()
      modifies args
      ensures Valid() && View() == old(View()) && args[argc] == None
    {
      args[argc] := None;
      assert args[..argc] == old(args[..argc]);
    }

    /**
     * One pass of the token loop (lines 232-251) at position `k` of `toks`:
     * the record and the position move on exactly as `Step` says.
     */
    method ReadToken(toks: seq<string>, k: nat) returns (k': nat)
      requires Valid() && k < |toks| && argc < MAX_ARGS
      modifies this, args
      ensures Valid() && args == old(args)
      ensures k < k' <= |toks|
      ensures (View(), toks[k'..]) == Step(toks[k..], old(View()))
    {
      ghost var rest := toks[k..];
      ghost var before := View();
      ghost var next := Step(rest, before);
      var t := toks[k];
      if t == "<" {
        inputFile := if k + 1 < |toks| then Some(toks[k + 1]) else None;
        k' := if k + 1 < |toks| then k + 2 else |toks|;
        assert next == (before.(inputFile := Target(rest)), AfterTarget(rest));
        assert View() == next.0 && toks[k'..] == next.1;
      } else if t == ">" {
        outputFile := if k + 1 < |toks| then Some(toks[k + 1]) else None;
        appendOutput := false;
        k' := if k + 1 < |toks| then k + 2 else |toks|;
        assert next == (before.(outputFile := Target(rest), append := false), AfterTarget(rest));
        assert View() == next.0 && toks[k'..] == next.1;
      } else if t == ">>" {
        outputFile := if k + 1 < |toks| then Some(toks[k + 1]) else None;
        appendOutput := true;
        k' := if k + 1 < |toks| then k + 2 else |toks|;
        assert next == (before.(outputFile := Target(rest), append := true), AfterTarget(rest));
        assert View() == next.0 && toks[k'..] == next.1;
      } else {
        AddWord(t);
        k' := k + 1;
        assert next == (before.(args := before.args + [t]), rest[1..]);
        assert View() == next.0 && toks[k'..] == next.1;
      }
    }

    /**
     * `parse_command(input, this)`: afterwards the record holds `Parsed(input)`
     * and the slot after the last word is NULL, as `execvp` needs.
     */
    method Parse(input: string)
      requires Valid()
      modifies this, args
      ensures Valid() && args == old(args)
      ensures View() == Parsed(input)
      ensures args[argc] == None
    {
      argc, inputFile, outputFile, appendOutput := 0, None, None, false;
      var toks := Fields(input, ' ');
      var k := 0;
      assert View() == Blank;
      while k < |toks| && argc < MAX_ARGS
        invariant 0 <= k <= |toks|
        invariant Valid() && args == old(args)
        invariant Scan(toks[k..], View()) == Scan(toks, Blank)
        decreases |toks| - k
      {
        k := ReadToken(toks, k);
      }
      Terminate();
      if argc < 1 || argc > MAX_ACCEPTED {
        Free();
      }
    }
  }

  /** One element of a command segment: a word, `< path`, or `> path` / `>> path`. */
  datatype Item = Word(text: string) | From(path: string) | To(path: string, append: bool)

  function ItemTokens(it: Item): seq<string>
  {
    match it
    case Word(w) => [w]
    case From(p) => ["<", p]
    case To(p, a) => [if a then ">>" else ">", p]
  }

  /** The tokens a segment made of `items` consists of. */
  function Tokens(items: seq<Item>): seq<string>
  {
    if items == [] then [] else ItemTokens(items[0]) + Tokens(items[1..])
  }

  /** The segment written out with single spaces. */
  function Line(items: seq<Item>): string
  {
    JoinWith(Tokens(items), ' ')
  }

  /** The words of `items`, in order. */
  function Words(items: seq<Item>): seq<string>
  {
    if items == [] then []
    else (if items[0].Word? then [items[0].text] else []) + Words(items[1..])
  }

  /** The path of the last `<` item, if any. */
  function LastFrom(items: seq<Item>): Option<string>
  {
    if items == [] then None
    else
      var later := LastFrom(items[1..]);
      if later.Some? then later
      else if items[0].From? then Some(items[0].path)
      else None
  }

  /** The path and mode of the last `>` or `>>` item, if any. */
  function LastTo(items: seq<Item>): Option<(string, bool)>
  {
    if items == [] then None
    else
      var later := LastTo(items[1..]);
      if later.Some? then later
      else if items[0].To? then Some((items[0].path, items[0].append))
      else None
  }

  /** Record `d` with the words of `items` added and their last redirections applied. */
  function Overlay(d: Descriptor, items: seq<Item>): Descriptor
  {
    var from := LastFrom(items);
    var to := LastTo(items);
    Descriptor(
      d.args + Words(items),
      if from.Some? then from else d.inputFile,
      if to.Some? then Some(to.value.0) else d.outputFile,
      if to.Some? then to.value.1 else d.append)
  }

  /**
   * What a segment is meant to describe: its words as the argument vector,
   * the last `<` target as input file, the last `>`/`>>` target and its mode
   * as output file.
   */
  function Intended(items: seq<Item>): Descriptor
  {
    Overlay(Blank, items)
  }

  /** An item whose tokens survive splitting on spaces and are read back as the same item. */
  ghost predicate ItemOk(it: Item)
  {
    match it
    case Word(w) => w != [] && ' ' !in w && !IsRedirect(w)
    case From(p) => p != [] && ' ' !in p
    case To(p, _) => p != [] && ' ' !in p
  }

  ghost predicate WellFormed(items: seq<Item>)
  {
    forall i :: 0 <= i < |items| ==> ItemOk(items[i])
  }

  lemma {:induction false} TokensSplittable(items: seq<Item>)
    requires WellFormed(items)
    ensures Splittable(Tokens(items), ' ')
  {
    if items != [] {
      WellFormedTail(items);
      TokensSplittable(items[1..]);
      var head := ItemTokens(items[0]);
      var tail := Tokens(items[1..]);
      assert ItemOk(items[0]);
      forall i | 0 <= i < |head + tail|
        ensures (head + tail)[i] != [] && ' ' !in (head + tail)[i]
      {
        if i >= |head| {
          assert (head + tail)[i] == tail[i - |head|];
        }
      }
    }
  }

  lemma {:induction false} WellFormedTail(items: seq<Item>)
    requires WellFormed(items) && items != []
    ensures WellFormed(items[1..])
  {
    forall i | 0 <= i < |items[1..]| ensures ItemOk(items[1..][i]) {
      assert items[1..][i] == items[i + 1];
    }
  }

  /** The record after one item has been read. */
  function Advance(d: Descriptor, it: Item): Descriptor
  {
    match it
    case Word(w) => d.(args := d.args + [w])
    case From(p) => d.(inputFile := Some(p))
    case To(p, a) => d.(outputFile := Some(p), append := a)
  }

  /** One loop pass consumes exactly the tokens of one item. */
  lemma {:induction false} StepItem(it: Item, rest: seq<string>, d: Descriptor)
    requires ItemOk(it)
    ensures Step(ItemTokens(it) + rest, d) == (Advance(d, it), rest)
  {
    var toks := ItemTokens(it) + rest;
    match it
    case Word(w) => {
      assert toks[0] == w && toks[1..] == rest;
    }
    case From(p) => {
      assert toks[0] == "<" && toks[1] == p && toks[2..] == rest;
    }
    case To(p, a) => {
      assert toks[0] == (if a then ">>" else ">") && toks[1] == p && toks[2..] == rest;
    }
  }

  lemma {:induction false} AdvanceWords(items: seq<Item>, d: Descriptor)
    requires items != []
    ensures Advance(d, items[0]).args + Words(items[1..]) == d.args + Words(items)
  {
    var rest := Words(items[1..]);
    assert Words(items) == (if items[0].Word? then [items[0].text] else []) + rest;
    if items[0].Word? {
      assert Advance(d, items[0]).args == d.args + [items[0].text];
      assert d.args + [items[0].text] + rest == d.args + ([items[0].text] + rest);
    } else {
      assert Advance(d, items[0]).args == d.args;
      assert [] + rest == rest;
    }
  }

  /** Reading the first item and then overlaying the rest is overlaying them all. */
  lemma {:induction false} AdvanceOverlay(items: seq<Item>, d: Descriptor)
    requires items != []
    ensures Overlay(Advance(d, items[0]), items[1..]) == Overlay(d, items)
  {
    AdvanceWords(items, d);
  }

  /** The token loop reads a segment made of items one item at a time. */
  lemma {:induction false} ScanHead(items: seq<Item>, d: Descriptor)
    requires WellFormed(items) && items != [] && |d.args| < MAX_ARGS
    ensures Scan(Tokens(items), d) == Scan(Tokens(items[1..]), Advance(d, items[0]))
    ensures Advance(d, items[0]).args + Words(items[1..]) == d.args + Words(items)
    ensures WellFormed(items[1..])
  {
    WellFormedTail(items);
    StepItem(items[0], Tokens(items[1..]), d);
    AdvanceWords(items, d);
  }

  /** The words the token loop collects are the first MAX_ARGS words of the items. */
  lemma {:induction false} ScanWords(items: seq<Item>, d: Descriptor)
    requires WellFormed(items) && |d.args| <= MAX_ARGS
    ensures Scan(Tokens(items), d).args == Take(d.args + Words(items), MAX_ARGS)
  {
    if items == [] {
      assert d.args + Words(items) == d.args;
    } else if |d.args| >= MAX_ARGS {
      assert (d.args + Words(items))[..MAX_ARGS] == d.args;
    } else {
      ScanHead(items, d);
      ScanWords(items[1..], Advance(d, items[0]));
    }
  }

  /**
   * While fewer than six words are seen the loop never stops early, so every
   * redirection is applied and the last one of each kind wins.
   */
  lemma {:induction false} ScanItems(items: seq<Item>, d: Descriptor)
    requires WellFormed(items)
    requires |d.args| + |Words(items)| <= MAX_ACCEPTED
    ensures Scan(Tokens(items), d) == Overlay(d, items)
  {
    if items == [] {
      assert d.args + Words(items) == d.args;
    } else {
      ScanHead(items, d);
      ScanItems(items[1..], Advance(d, items[0]));
      AdvanceOverlay(items, d);
    }
  }

  /**
   * `parse_command` on a segment written from items: with 1..5 words it
   * yields exactly the intended descriptor (words in order, last `<` target,
   * last `>`/`>>` target and mode); otherwise it keeps no words.
   */
  lemma {:induction false} ParseLine(items: seq<Item>)
    requires WellFormed(items)
    ensures 1 <= |Words(items)| <= MAX_ACCEPTED ==> Parsed(Line(items)) == Intended(items)
    ensures !(1 <= |Words(items)| <= MAX_ACCEPTED) ==> Parsed(Line(items)).args == []
  {
    TokensSplittable(items);
    FieldsJoin(Tokens(items), ' ');
    ScanWords(items, Blank);
    assert Blank.args + Words(items) == Words(items);
    if 1 <= |Words(items)| <= MAX_ACCEPTED {
      ScanItems(items, Blank);
    }
  }

  /** The index the NULL terminator is written to at line 253. */
  function TerminatorSlot(input: string): (k: nat)
    ensures k <= MAX_ARGS
  {
    |Scan(Fields(input, ' '), Blank).args|
  }

  /**
   * With six or more plain words the loop stops at `argc == MAX_ARGS`, so
   * line 253 writes one slot past the source's `char *args[MAX_ARGS]`.
   */
  lemma {:induction false} TerminatorOverrun(words: seq<string>)
    requires |words| >= MAX_ARGS
    requires forall i :: 0 <= i < |words| ==> words[i] != [] && ' ' !in words[i] && !IsRedirect(words[i])
    ensures TerminatorSlot(JoinWith(words, ' ')) == SOURCE_ARG_SLOTS
  {
    var items := seq(|words|, i requires 0 <= i < |words| => Word(words[i]));
    WordItems(words, items);
    assert WellFormed(items);
    TokensSplittable(items);
    FieldsJoin(Tokens(items), ' ');
    ScanWords(items, Blank);
    assert Blank.args + Words(items) == words;
  }

  lemma {:induction false} WordItems(words: seq<string>, items: seq<Item>)
    requires |items| == |words|
    requires forall i :: 0 <= i < |words| ==> items[i] == Word(words[i])
    ensures Tokens(items) == words && Words(items) == words
  {
    if words != [] {
      WordItems(words[1..], items[1..]);
      assert [words[0]] + words[1..] == words;
    }
  }
}
