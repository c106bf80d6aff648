/**
 * One pass of `main`'s read loop (VortexShell.c:66-213) after the line has
 * been read and its newline stripped: the line is classified by the first
 * operator test that succeeds, cut by that mode's splitter, and turned into
 * the work handed to the mode's handler.
 *
 * The handlers themselves are modelled elsewhere (Pipes, ShortCircuit,
 * Sequential, WordCount, Files, KillAll); here the result of a line is the
 * `Action` naming the handler and its arguments.
 */
module Dispatch {
  import opened Util
  import opened Text
  import opened Command
  import opened Split
  import opened Chain
  import opened Sequential

  /** The branches of `main`, in the order they are tried. */
  datatype Mode = Quit | KillShells | Pipe | ReversePipe | CrossAppend | CountFile | Concat | Sequence | AndOr | Single

  /** Lines 66-212: the first test that holds picks the mode. */
  function Classify(line: string): (m: Mode)
    ensures m == Quit <==> line == "killterm"
    ensures m == Single ==> '|' !in line && '=' !in line && '~' !in line && '+' !in line && ';' !in line
    ensures m == Single ==> (line == [] || line[0] != '#') && FindPair(line, '&') == |line|
  {
    if line == "killterm" then Quit
    else if line == "killallterms" then KillShells
    else if '|' in line && FindPair(line, '|') == |line| then Pipe
    else if '=' in line then ReversePipe
    else if '~' in line then CrossAppend
    else if line != [] && line[0] == '#' then CountFile
    else if '+' in line then Concat
    else if ';' in line then Sequence
    else if FindPair(line, '&') < |line| || FindPair(line, '|') < |line| then AndOr
    else Single
  }

  /** The modes in the order `main` tries them. */
  const Priority: seq<Mode> := [Quit, KillShells, Pipe, ReversePipe, CrossAppend, CountFile, Concat, Sequence, AndOr, Single]

  /** Where a mode stands in `Priority`. */
  function Rank(m: Mode): (k: nat)
    ensures k < |Priority| && Priority[k] == m
  {
    match m
    case Quit => 0
    case KillShells => 1
    case Pipe => 2
    case ReversePipe => 3
    case CrossAppend => 4
    case CountFile => 5
    case Concat => 6
    case Sequence => 7
    case AndOr => 8
    case Single => 9
  }

  /** The condition of each branch on its own, with "&&" and "||" as "occurs somewhere". */
  predicate Fires(m: Mode, line: string)
  {
    match m
    case Quit => line == "killterm"
    case KillShells => line == "killallterms"
    case Pipe => '|' in line && !HasPair(line, '|')
    case ReversePipe => '=' in line
    case CrossAppend => '~' in line
    case CountFile => line != [] && line[0] == '#'
    case Concat => '+' in line
    case Sequence => ';' in line
    case AndOr => HasPair(line, '&') || HasPair(line, '|')
    case Single => true
  }

  /**
   * First match wins: the mode chosen fires and none before it does, and it
   * is the only mode with that property.
   */
  lemma ClassifyFirstMatch(line: string)
    ensures Fires(Classify(line), line)
    ensures forall j :: 0 <= j < Rank(Classify(line)) ==> !Fires(Priority[j], line)
    ensures forall m :: Fires(m, line) && (forall j :: 0 <= j < Rank(m) ==> !Fires(Priority[j], line)) ==> m == Classify(line)
  {
    FindPairFinds(line, '|');
    FindPairFinds(line, '&');
    var c := Classify(line);
    forall m | Fires(m, line) && (forall j :: 0 <= j < Rank(m) ==> !Fires(Priority[j], line))
      ensures m == c
    {
      if Rank(c) < Rank(m) {
        assert !Fires(Priority[Rank(c)], line);
      }
    }
  }

  /** A single '|' beside "&&" makes a pipeline: "a && b | c" pipes "a && b" into "c". */
  lemma PipeBeforeAndOr(line: string)
    requires '|' in line && !HasPair(line, '|')
    requires line != "killterm" && line != "killallterms"
    ensures Classify(line) == Pipe
  {
    FindPairFinds(line, '|');
  }

  /** With ';' present and no earlier operator, "&&" and "||" are not chains but text of the ';' commands. */
  lemma SequenceBeforeAndOr(line: string)
    requires ';' in line && '|' !in line && '=' !in line && '~' !in line && '+' !in line
    requires line[0] != '#'
    ensures Classify(line) == Sequence
  {
  }

  /** What a line sets in motion. */
  datatype Action =
    | ExitShell                                   // `exit(0)`
    | KillAllThenExit                             // `kill_all_shells(self_name)`, then `exit(0)`
    | RunPipes(cmds: seq<Descriptor>, reverse: bool)
    | AppendEach(file1: string, file2: string)    // `handle_file_append`
    | NeedTwoFiles                                // the error of line 124
    | CountIn(file: string)                       // `count_words`
    | ConcatFiles(files: seq<string>)             // `concatenate_files`
    | RunSequence(outcomes: seq<Sequential.Outcome>)
    | RunChain(cmds: seq<Descriptor>, ops: seq<Op>) // `execute_conditional`
    | RunSingle(cmd: Descriptor)                  // `execute_single_command`
    | Idle                                        // nothing to run

  /** `parse_command` applied to each segment. */
  function ParsedAll(segs: seq<string>): (ds: seq<Descriptor>)
    ensures |ds| == |segs|
  {
    seq(|segs|, i requires 0 <= i < |segs| => Parsed(segs[i]))
  }

  /** The work a line hands to its mode's handler. */
  function Plan(line: string): Action
  {
    match Classify(line)
    case Quit => ExitShell
    case KillShells => KillAllThenExit
    case Pipe => RunPipes(ParsedAll(Segments(line, '|')), false)
    case ReversePipe => RunPipes(ParsedAll(Segments(line, '=')), true)
    case CrossAppend =>
      var files := CrossAppendFiles(line);
      if files.Some? then AppendEach(files.value.0, files.value.1) else NeedTwoFiles
    case CountFile => CountIn(WordCountFile(line))
    case Concat => ConcatFiles(FileNames(line))
    case Sequence =>
      var segs := SequentialSegments(line);
      if segs == [] then Idle else RunSequence(seq(|segs|, i requires 0 <= i < |segs| => RunSegment(segs[i])))
    case AndOr => RunChain(ParsedAll(Conditional(line).0), Conditional(line).1)
    case Single => if Parsed(line).args != [] then RunSingle(Parsed(line)) else Idle
  }

  /**
   * The work handed on stays within the fixed arrays of `main`: at most six
   * piped commands or files, one to six chained commands with an operator
   * between each pair, one to four ';' commands, and a single command only
   * when it has 1 to 5 words.
   */
  lemma PlanBounds(line: string)
    ensures Plan(line).RunPipes? ==> |Plan(line).cmds| <= MAX_SEGMENTS
    ensures Plan(line).ConcatFiles? ==> |Plan(line).files| <= MAX_SEGMENTS
    ensures Plan(line).RunSequence? ==> 1 <= |Plan(line).outcomes| <= MAX_SEQUENTIAL
    ensures Plan(line).RunChain? ==> 1 <= |Plan(line).cmds| <= MAX_SEGMENTS
    ensures Plan(line).RunChain? ==> |Plan(line).ops| + 1 == |Plan(line).cmds| || |Plan(line).ops| == |Plan(line).cmds|
    ensures Plan(line).RunSingle? ==> 1 <= |Plan(line).cmd.args| <= MAX_ACCEPTED
  {
  }

  /** Lines 86-88 and 100-102: each segment parsed into its own record. */
  method ParseEach(segs: seq<string>) returns (ds: seq<Descriptor>)
    ensures ds == ParsedAll(segs)
  {
    ds := [];
    var i := 0;
    while i < |segs|
      invariant i <= |segs| && |ds| == i
      invariant forall k :: 0 <= k < i ==> ds[k] == Parsed(segs[k])
    {
      var cmd := new Command();
      cmd.Parse(segs[i]);
      ds := ds + [cmd.View()];
      i := i + 1;
    }
  }

  /** One line through `main`: the splitting loops run and the records are parsed as the chosen branch does. */
  method HandleLine(line: string) returns (a: Action)
    ensures a == Plan(line)
  {
    var mode := Classify(line);
    if mode == Quit {
      a := ExitShell;
    } else if mode == KillShells {
      a := KillAllThenExit;
    } else if mode == Pipe || mode == ReversePipe {
      var sep := if mode == Pipe then '|' else '=';
      var slots, count := SplitSegments(line, sep);
      var cmds := ParseEach(slots[..count]);
      a := RunPipes(cmds, mode == ReversePipe);
    } else if mode == CrossAppend {
      var files := CrossAppendFiles(line);
      a := if files.Some? then AppendEach(files.value.0, files.value.1) else NeedTwoFiles;
    } else if mode == CountFile {
      a := CountIn(WordCountFile(line));
    } else if mode == Concat {
      var files, count := SplitFiles(line);
      a := ConcatFiles(files[..count]);
    } else if mode == Sequence {
      var slots, count := SplitSequential(line);
      if count > 0 {
        var outcomes := ExecuteSequential(slots[..count]);
        a := RunSequence(outcomes);
      } else {
        a := Idle;
      }
    } else if mode == AndOr {
      var segments, count, operators, opCount := SplitConditional(line);
      var cmds := ParseEach(segments[..count]);
      a := RunChain(cmds, operators[..opCount]);
    } else {
      var cmd := new Command();
      cmd.Parse(line);
      a := if cmd.argc > 0 then RunSingle(cmd.View()) else Idle;
    }
  }
}
