/**
 * `execute_conditional` (VortexShell.c:572-595): the `&&`/`||` chain is run
 * left to right; command `i` runs when it is the first, when it follows
 * "&&" and the last status is 0, or when it follows "||" and the last status
 * is not 0. A command that runs sets the last status to its exit code (1 when
 * it did not exit normally); a skipped command leaves it alone. Every
 * command is freed, run or not.
 *
 * What a child exits with is not computed here: `exits[i]` is how command `i`
 * ends if it is started, so the run/skip decisions are a function of the
 * operators and these outcomes.
 */
module ShortCircuit {
  import opened Util
  import opened Chain

  /** How `waitpid` reports a child: a normal exit with its code, or anything else. */
  datatype Exit = Exited(code: nat) | Abnormal

  /**
   * Line 589: `WIFEXITED(status) ? WEXITSTATUS(status) : 1`. Only a normal
   * exit with code 0 counts as success for the tests of line 577-578; a
   * child that did not exit normally counts as a failure.
   */
  function StatusOf(e: Exit): (v: nat)
    ensures v == 0 <==> e == Exited(0)
  {
    if e.Exited? then e.code else 1
  }

  /** Lines 576-578: whether command `i` is started when the last status is `last`. */
  predicate ShouldRun(i: nat, ops: seq<Op>, last: nat)
    requires i == 0 || i - 1 < |ops|
  {
    i == 0 || (ops[i - 1] == And && last == 0) || (ops[i - 1] == Or && last != 0)
  }

  /** The operators and outcomes cover the first `k` commands. */
  predicate Covers(k: nat, ops: seq<Op>, exits: seq<Exit>)
  {
    k <= |exits| && k <= |ops| + 1
  }

  /** `last_status` once commands 0 .. k-1 have been considered. */
  function LastAfter(k: nat, ops: seq<Op>, exits: seq<Exit>): (last: nat)
    requires Covers(k, ops, exits)
    ensures last == 0 || exists j :: 0 <= j < k && last == StatusOf(exits[j])
  {
    if k == 0 then 0
    else
      var before := LastAfter(k - 1, ops, exits);
      if ShouldRun(k - 1, ops, before) then StatusOf(exits[k - 1]) else before
  }

  /** Whether command `k` is started. */
  predicate Runs(k: nat, ops: seq<Op>, exits: seq<Exit>)
    requires Covers(k + 1, ops, exits)
  {
    ShouldRun(k, ops, LastAfter(k, ops, exits))
  }

  /** The indices of the commands among 0 .. k-1 that are started, in order. */
  function Started(k: nat, ops: seq<Op>, exits: seq<Exit>): (r: seq<nat>)
    requires Covers(k, ops, exits)
    ensures |r| <= k
  {
    if k == 0 then []
    else Started(k - 1, ops, exits) + (if Runs(k - 1, ops, exits) then [k - 1] else [])
  }

  /** The started commands are, in increasing order, exactly those whose run condition holds. */
  lemma {:induction false} StartedExactly(k: nat, ops: seq<Op>, exits: seq<Exit>)
    requires Covers(k, ops, exits)
    ensures forall i :: 0 <= i < |Started(k, ops, exits)| ==> Started(k, ops, exits)[i] < k
    ensures forall i: nat :: i < k ==> (i in Started(k, ops, exits) <==> Runs(i, ops, exits))
    ensures forall a, b :: 0 <= a < b < |Started(k, ops, exits)| ==> Started(k, ops, exits)[a] < Started(k, ops, exits)[b]
  {
    if k > 0 {
      var p: nat := k - 1;
      StartedExactly(p, ops, exits);
      var before := Started(p, ops, exits);
      assert Started(k, ops, exits) == before + (if Runs(p, ops, exits) then [p] else []);
    }
  }

  /**
   * The loop of lines 573-594 over `n` commands: the commands started, in
   * order, the final `last_status`, and the commands freed.
   */
  method ExecuteConditional(n: nat, ops: seq<Op>, exits: seq<Exit>) returns (ran: seq<nat>, lastStatus: nat, freed: seq<nat>)
    requires Covers(n, ops, exits)
    ensures ran == Started(n, ops, exits)
    ensures lastStatus == LastAfter(n, ops, exits)
    ensures freed == Range(0, n)
  {
    ran, lastStatus, freed := [], 0, [];
    var i := 0;
    while i < n
      invariant i <= n
      invariant ran == Started(i, ops, exits) && lastStatus == LastAfter(i, ops, exits)
      invariant |freed| == i && forall k :: 0 <= k < i ==> freed[k] == k
    {
      Consider(i, ops, exits);
      if i == 0 || (ops[i - 1] == And && lastStatus == 0) || (ops[i - 1] == Or && lastStatus != 0) {
        ran := ran + [i];
        lastStatus := StatusOf(exits[i]);
      }
      freed := freed + [i];
      i := i + 1;
    }
  }

  /** Considering command `i` appends it to the started ones and takes its status exactly when it runs. */
  lemma Consider(i: nat, ops: seq<Op>, exits: seq<Exit>)
    requires Covers(i + 1, ops, exits)
    ensures Runs(i, ops, exits) ==>
      Started(i + 1, ops, exits) == Started(i, ops, exits) + [i] && LastAfter(i + 1, ops, exits) == StatusOf(exits[i])
    ensures !Runs(i, ops, exits) ==>
      Started(i + 1, ops, exits) == Started(i, ops, exits) && LastAfter(i + 1, ops, exits) == LastAfter(i, ops, exits)
  {
  }

  /** The first command of a non-empty chain is always started. */
  lemma {:induction false} FirstStarts(n: nat, ops: seq<Op>, exits: seq<Exit>)
    requires Covers(n, ops, exits) && n > 0
    ensures Started(n, ops, exits) != [] && Started(n, ops, exits)[0] == 0
  {
    var p: nat := n - 1;
    if p == 0 {
      assert Runs(0, ops, exits);
      assert Started(n, ops, exits) == Started(p, ops, exits) + [0];
    } else {
      FirstStarts(p, ops, exits);
      var before := Started(p, ops, exits);
      assert Started(n, ops, exits) == before + (if Runs(p, ops, exits) then [p] else []);
    }
  }

  /**
   * A chain of "&&" only: the status stays 0 exactly while every command so
   * far succeeded, so command `k` is started exactly when all before it
   * succeeded.
   */
  lemma {:induction false} AndChain(k: nat, ops: seq<Op>, exits: seq<Exit>)
    requires Covers(k, ops, exits)
    requires forall j :: 0 <= j < |ops| ==> ops[j] == And
    ensures LastAfter(k, ops, exits) == 0 <==> forall j :: 0 <= j < k ==> StatusOf(exits[j]) == 0
  {
    if k > 0 {
      AndChain(k - 1, ops, exits);
      if LastAfter(k - 1, ops, exits) != 0 {
        assert k - 1 > 0;
      }
    }
  }

  lemma AndChainRuns(k: nat, ops: seq<Op>, exits: seq<Exit>)
    requires Covers(k + 1, ops, exits)
    requires forall j :: 0 <= j < |ops| ==> ops[j] == And
    ensures Runs(k, ops, exits) <==> forall j :: 0 <= j < k ==> StatusOf(exits[j]) == 0
  {
    AndChain(k, ops, exits);
  }

  /**
   * A chain of "||" only: the status stays non-zero exactly while every
   * command so far failed, so command `k` is started exactly when all before
   * it failed.
   */
  lemma {:induction false} OrChain(k: nat, ops: seq<Op>, exits: seq<Exit>)
    requires Covers(k, ops, exits)
    requires forall j :: 0 <= j < |ops| ==> ops[j] == Or
    ensures LastAfter(k, ops, exits) != 0 <==> k > 0 && forall j :: 0 <= j < k ==> StatusOf(exits[j]) != 0
  {
    if k > 0 {
      OrChain(k - 1, ops, exits);
    }
  }

  lemma OrChainRuns(k: nat, ops: seq<Op>, exits: seq<Exit>)
    requires Covers(k + 1, ops, exits)
    requires forall j :: 0 <= j < |ops| ==> ops[j] == Or
    ensures Runs(k, ops, exits) <==> forall j :: 0 <= j < k ==> StatusOf(exits[j]) != 0
  {
    OrChain(k, ops, exits);
  }

  /**
   * `false && echo A || echo B`: the first command fails, so the second is
   * skipped, the status stays non-zero and the third is started.
   */
  lemma FailedAndThenOr(exits: seq<Exit>)
    requires |exits| == 3 && StatusOf(exits[0]) != 0
    ensures Started(3, [And, Or], exits) == [0, 2]
    ensures LastAfter(3, [And, Or], exits) == StatusOf(exits[2])
  {
    var ops := [And, Or];
    Consider(0, ops, exits);
    Consider(1, ops, exits);
    Consider(2, ops, exits);
  }

  /** A skipped command leaves the status as it was. */
  lemma SkipKeepsStatus(k: nat, ops: seq<Op>, exits: seq<Exit>)
    requires Covers(k + 1, ops, exits) && !Runs(k, ops, exits)
    ensures LastAfter(k + 1, ops, exits) == LastAfter(k, ops, exits)
    ensures k !in Started(k + 1, ops, exits)
  {
    StartedExactly(k + 1, ops, exits);
  }
}
