/**
 * The wiring of `handle_pipes` (VortexShell.c:346-391) and
 * `handle_reverse_pipes` (VortexShell.c:394-439) for `n` commands joined by
 * `n - 1` pipes.
 *
 * Each process is described by the steps it takes on the pipes, in order:
 * the shell forks, closes, waits and frees; a child calls `dup2` and
 * `close` before `execvp`. Which endpoints a process still holds after a
 * run of steps is `Held`: a fork hands the child the endpoints the shell
 * holds, and each `close` removes one. `fork`, `execvp` and `waitpid` are
 * not executed. Whether each `pipe()` call succeeds is the parameter
 * `made`: calls 0 .. made-1 succeed and call `made` fails.
 */
module Pipes {
  import opened Util

  /** The two ends of pipe `pipe`: `pipes[pipe][0]` and `pipes[pipe][1]`. */
  datatype End = ReadEnd(pipe: nat) | WriteEnd(pipe: nat)

  /** Where a child's standard input and output come from after its `dup2` calls. */
  datatype Wiring = Wiring(stdin: Option<End>, stdout: Option<End>)

  /** One step a process takes on the pipeline. */
  datatype Act =
    | Fork(i: nat)    // the shell forks the child for command `i`
    | DupIn(e: End)   // `dup2(e, STDIN_FILENO)`
    | DupOut(e: End)  // `dup2(e, STDOUT_FILENO)`
    | Close(e: End)   // `close(e)`
    | Wait(i: nat)    // `waitpid(pids[i], NULL, 0)`
    | Free(i: nat)    // `free_command(&commands[i])`

  /** A child: its command index and the steps it takes on the pipes before `execvp`. */
  datatype Child = Child(index: nat, steps: seq<Act>)

  /**
   * What a pipeline leaves behind: the pipes made, the children in the order
   * they were forked, and the shell's own steps in the order it takes them.
   */
  datatype Outcome = Outcome(pipes: nat, children: seq<Child>, parent: seq<Act>)

  /** `num_commands - 1` pipes, none for an empty pipeline. */
  function PipeCount(n: nat): nat
  {
    if n == 0 then 0 else n - 1
  }

  /** Both ends of pipes 0 .. k-1. */
  function Ends(k: nat): (s: set<End>)
    ensures forall e :: e in s <==> e.pipe < k
  {
    if k == 0 then {} else Ends(k - 1) + {ReadEnd(k - 1), WriteEnd(k - 1)}
  }

  /**
   * A process holding the endpoints `s` takes the steps `t`: None if a
   * `dup2` names an endpoint it no longer holds, otherwise the endpoints it
   * still holds afterwards.
   */
  function Replay(s: set<End>, t: seq<Act>): (r: Option<set<End>>)
    ensures r.Some? ==> r.value <= s
    decreases |t|
  {
    if t == [] then Some(s)
    else if (t[0].DupIn? || t[0].DupOut?) && t[0].e !in s then None
    else Replay(if t[0].Close? then s - {t[0].e} else s, t[1..])
  }

  /** Taking the steps `t` from `s` uses only endpoints still held and leaves exactly `r`. */
  predicate Leaves(s: set<End>, t: seq<Act>, r: set<End>)
  {
    Replay(s, t).Some? && Replay(s, t).value == r
  }

  /** Lines 362-369: child `i` reads pipe i-1 unless first and writes pipe i unless last. */
  function Forward(i: nat, n: nat): Wiring
  {
    Wiring(if i > 0 then Some(ReadEnd(i - 1)) else None,
           if i + 1 < n then Some(WriteEnd(i)) else None)
  }

  /** Lines 410-417: child `i` reads pipe i unless last and writes pipe i-1 unless first. */
  function Reverse(i: nat, n: nat): Wiring
  {
    Wiring(if i + 1 < n then Some(ReadEnd(i)) else None,
           if i > 0 then Some(WriteEnd(i - 1)) else None)
  }

  function Wire(i: nat, n: nat, reverse: bool): Wiring
  {
    if reverse then Reverse(i, n) else Forward(i, n)
  }

  /** The other end of the same pipe. */
  function Partner(e: End): End
  {
    if e.ReadEnd? then WriteEnd(e.pipe) else ReadEnd(e.pipe)
  }

  /** Both ends of pipes 0 .. k-1 closed, read end first, in pipe order. */
  function Closes(k: nat): (t: seq<Act>)
    ensures |t| == 2 * k
    ensures forall a :: a in t ==> a.Close? && a.e.pipe < k
  {
    if k == 0 then [] else Closes(k - 1) + [Close(ReadEnd(k - 1)), Close(WriteEnd(k - 1))]
  }

  /** The `dup2` and `close` that redirect one stream to `e`. */
  function Redirect(e: Option<End>, toStdout: bool): (t: seq<Act>)
  {
    if e.None? then [] else [if toStdout then DupOut(e.value) else DupIn(e.value), Close(Partner(e.value))]
  }

  /**
   * The steps of child `i` before `execvp`: the `dup2` for standard input,
   * then for standard output, each closing the unused end of its pipe, then
   * both ends of every pipe closed.
   */
  function ChildSteps(i: nat, n: nat, reverse: bool): seq<Act>
  {
    var w := Wire(i, n, reverse);
    Redirect(w.stdin, false) + Redirect(w.stdout, true) + Closes(PipeCount(n))
  }

  /** The order of the fork loop: 0 up to n-1 (line 359), or n-1 down to 0 (line 407). */
  function SpawnOrder(n: nat, reverse: bool): (order: seq<nat>)
    ensures |order| == n
    ensures forall k :: 0 <= k < n ==> order[k] == if reverse then n - 1 - k else k
  {
    if reverse then Countdown(n) else Range(0, n)
  }

  /** The children forked in `order`. */
  function Spawned(order: seq<nat>, n: nat, reverse: bool): (cs: seq<Child>)
    ensures |cs| == |order|
  {
    seq(|order|, k requires 0 <= k < |order| => Child(order[k], ChildSteps(order[k], n, reverse)))
  }

  /** The shell's forks, in `order`. */
  function Forks(order: seq<nat>): (t: seq<Act>)
    ensures |t| == |order|
    ensures forall k :: 0 <= k < |t| ==> t[k] == Fork(order[k])
    ensures forall a :: a in t ==> a.Fork?
  {
    seq(|order|, k requires 0 <= k < |order| => Fork(order[k]))
  }

  /** Lines 387-390 and 435-438: each child waited for and then its command freed, in index order. */
  function Reaps(n: nat): (t: seq<Act>)
    ensures forall a :: a in t ==> (a.Wait? || a.Free?) && a.i < n
  {
    if n == 0 then [] else Reaps(n - 1) + [Wait(n - 1), Free(n - 1)]
  }

  /**
   * The outcome of a pipeline of `n` commands when `made` pipes can be
   * created. If a pipe cannot be made, the shell closes the ones made and
   * does nothing else. Otherwise it forks every command in the mode's
   * order, then closes both ends of every pipe, then waits for and frees
   * each command in index order.
   */
  function Plan(n: nat, made: nat, reverse: bool): (o: Outcome)
    ensures o.pipes <= PipeCount(n) && (o.pipes < PipeCount(n) <==> made < PipeCount(n))
    ensures |o.children| == if made < PipeCount(n) then 0 else n
  {
    if made < PipeCount(n) then Outcome(made, [], Closes(made))
    else
      var order := SpawnOrder(n, reverse);
      Outcome(PipeCount(n), Spawned(order, n, reverse), Forks(order) + Closes(PipeCount(n)) + Reaps(n))
  }

  // ---------------------------------------------------------------------
  // The loops
  // ---------------------------------------------------------------------

  /**
   * Lines 351-356 (and 399-404) as written: pipes are made one by one; at the
   * first failure the function returns with the pipes made so far still open.
   */
  method CreatePipesAsWritten(count: nat, made: nat) returns (open: set<End>, ok: bool)
    ensures ok <==> made >= count
    ensures ok ==> open == Ends(count)
    ensures !ok ==> open == Ends(made)
  {
    open := {};
    var i := 0;
    while i < count
      invariant i <= count && i <= made
      invariant open == Ends(i)
    {
      if i == made {
        return open, false;
      }
      open := open + {ReadEnd(i), WriteEnd(i)};
      i := i + 1;
    }
    ok := true;
  }

  /**
   * The outcome of the handlers as written: the same as `Plan` when every
   * pipe is made; otherwise the shell takes no step at all.
   */
  function PlanAsWritten(n: nat, made: nat, reverse: bool): (o: Outcome)
    ensures made >= PipeCount(n) ==> o == Plan(n, made, reverse)
    ensures made < PipeCount(n) ==> o.pipes == made && o.children == [] && o.parent == []
  {
    if made < PipeCount(n) then Outcome(made, [], []) else Plan(n, made, reverse)
  }

  /**
   * A pipe failure after at least one pipe was made: as written, the shell
   * ends still holding every endpoint it made, both ends of pipe 0 among
   * them, where the corrected `Plan` ends holding none.
   */
  lemma CreationFailureLeaks(n: nat, made: nat, reverse: bool)
    requires 0 < made < PipeCount(n)
    ensures Leaves(Ends(made), PlanAsWritten(n, made, reverse).parent, Ends(made))
    ensures !Leaves(Ends(made), PlanAsWritten(n, made, reverse).parent, {})
    ensures ReadEnd(0) in Ends(made) && WriteEnd(0) in Ends(made)
    ensures Leaves(Ends(made), Plan(n, made, reverse).parent, {})
  {
    assert ReadEnd(0) in Ends(made);
    ReplayCloses(Ends(made), made);
    assert Ends(made) - Ends(made) == {};
  }

  /** Pipe creation that closes the pipes already made before giving up. */
  method CreatePipes(count: nat, made: nat) returns (open: set<End>, ok: bool, closed: seq<Act>)
    ensures ok <==> made >= count
    ensures ok ==> open == Ends(count) && closed == []
    ensures !ok ==> open == Ends(made) && closed == Closes(made)
    ensures !ok ==> Leaves(open, closed, {})
  {
    open, ok := CreatePipesAsWritten(count, made);
    closed := [];
    if !ok {
      closed := CloseAll(made);
      ReplayCloses(open, made);
    }
  }

  /** Lines 371-374, 382-385, 419-422 and 430-433: both ends of every pipe are closed. */
  method CloseAll(count: nat) returns (closed: seq<Act>)
    ensures closed == Closes(count)
  {
    closed := [];
    var j := 0;
    while j < count
      invariant j <= count && closed == Closes(j)
    {
      closed := closed + [Close(ReadEnd(j)), Close(WriteEnd(j))];
      j := j + 1;
    }
  }

  /**
   * Lines 361-374: the steps child `i` of a forward pipeline takes before
   * `execvp`. Each `dup2` duplicates an endpoint the child still holds, and
   * the child holds no endpoint when it calls `execvp`.
   */
  method ForwardChild(i: nat, n: nat) returns (c: Child)
    requires i < n
    ensures c == Child(i, ChildSteps(i, n, false))
    ensures Leaves(Ends(PipeCount(n)), c.steps, {})
  {
    var toStdin: seq<Act> := [];
    if i > 0 {
      toStdin := [DupIn(ReadEnd(i - 1)), Close(WriteEnd(i - 1))];
    }
    var toStdout: seq<Act> := [];
    if i < n - 1 {
      toStdout := [DupOut(WriteEnd(i)), Close(ReadEnd(i))];
    }
    var closed := CloseAll(PipeCount(n));
    assert toStdin == Redirect(Forward(i, n).stdin, false);
    assert toStdout == Redirect(Forward(i, n).stdout, true);
    c := Child(i, toStdin + toStdout + closed);
    ChildReleases(n, i, false);
  }

  /**
   * Lines 409-422: the steps child `i` of a reverse pipeline takes before
   * `execvp`, with the same guarantees as in a forward one.
   */
  method ReverseChild(i: nat, n: nat) returns (c: Child)
    requires i < n
    ensures c == Child(i, ChildSteps(i, n, true))
    ensures Leaves(Ends(PipeCount(n)), c.steps, {})
  {
    var toStdin: seq<Act> := [];
    if i < n - 1 {
      toStdin := [DupIn(ReadEnd(i)), Close(WriteEnd(i))];
    }
    var toStdout: seq<Act> := [];
    if i > 0 {
      toStdout := [DupOut(WriteEnd(i - 1)), Close(ReadEnd(i - 1))];
    }
    var closed := CloseAll(PipeCount(n));
    assert toStdin == Redirect(Reverse(i, n).stdin, false);
    assert toStdout == Redirect(Reverse(i, n).stdout, true);
    c := Child(i, toStdin + toStdout + closed);
    ChildReleases(n, i, true);
  }

  /** Lines 387-390 (and 435-438): each child is waited for and its command freed, in index order. */
  method WaitAll(n: nat) returns (reaped: seq<Act>)
    ensures reaped == Reaps(n)
  {
    reaped := [];
    var i := 0;
    while i < n
      invariant i <= n && reaped == Reaps(i)
    {
      reaped := reaped + [Wait(i), Free(i)];
      i := i + 1;
    }
  }

  /** `handle_pipes`, with the pipes made so far closed when one cannot be made (see CreatePipesAsWritten). */
  method HandlePipes(n: nat, made: nat) returns (o: Outcome)
    ensures o == Plan(n, made, false)
  {
    var created, ok, released := CreatePipes(PipeCount(n), made);
    if !ok {
      return Outcome(made, [], released);
    }
    o := RunForward(n);
  }

  /** Lines 359-390, once every pipe exists: fork each command in index order, close every pipe, wait for and free each command. */
  method RunForward(n: nat) returns (o: Outcome)
    ensures o == Plan(n, PipeCount(n), false)
  {
    var children: seq<Child> := [];
    var forks: seq<Act> := [];
    var i := 0;
    while i < n
      invariant i <= n && |children| == i && |forks| == i
      invariant forall k :: 0 <= k < i ==> children[k] == Child(k, ChildSteps(k, n, false)) && forks[k] == Fork(k)
    {
      var c := ForwardChild(i, n);
      children, forks := children + [c], forks + [Fork(i)];
      i := i + 1;
    }
    var closed := CloseAll(PipeCount(n));
    var reaped := WaitAll(n);
    o := Outcome(PipeCount(n), children, forks + closed + reaped);
    assert children == Spawned(SpawnOrder(n, false), n, false);
    assert forks == Forks(SpawnOrder(n, false));
  }

  /** `handle_reverse_pipes`, with the same release on a failed `pipe()`. */
  method HandleReversePipes(n: nat, made: nat) returns (o: Outcome)
    ensures o == Plan(n, made, true)
  {
    var created, ok, released := CreatePipes(PipeCount(n), made);
    if !ok {
      return Outcome(made, [], released);
    }
    o := RunReverse(n);
  }

  /** Lines 407-438, once every pipe exists: fork each command from the last down to the first, close every pipe, wait for and free each command. */
  method RunReverse(n: nat) returns (o: Outcome)
    ensures o == Plan(n, PipeCount(n), true)
  {
    var children: seq<Child> := [];
    var forks: seq<Act> := [];
    var i: nat := n;
    while i > 0
      invariant i <= n && |children| == n - i && |forks| == n - i
      invariant forall k: nat :: i <= k < n ==> children[n - 1 - k] == Child(k, ChildSteps(k, n, true)) && forks[n - 1 - k] == Fork(k)
    {
      var c := ReverseChild(i - 1, n);
      children, forks := children + [c], forks + [Fork(i - 1)];
      i := i - 1;
    }
    var closed := CloseAll(PipeCount(n));
    var reaped := WaitAll(n);
    o := Outcome(PipeCount(n), children, forks + closed + reaped);
    ReverseOrder(n, children, forks);
  }

  /**
   * `handle_pipes` (reverse = false) and `handle_reverse_pipes` (reverse =
   * true) as written: a failed `pipe()` returns at once, with the pipes
   * made so far still open and no step taken on them.
   */
  method HandlePipesAsWritten(n: nat, made: nat, reverse: bool) returns (o: Outcome)
    ensures o == PlanAsWritten(n, made, reverse)
  {
    var created, ok := CreatePipesAsWritten(PipeCount(n), made);
    if !ok {
      return Outcome(made, [], []);
    }
    if reverse {
      o := RunReverse(n);
    } else {
      o := RunForward(n);
    }
  }

  /** Children and forks recorded from index n-1 down to 0 are those of the reverse spawn order. */
  lemma ReverseOrder(n: nat, children: seq<Child>, forks: seq<Act>)
    requires |children| == n && |forks| == n
    requires forall k: nat :: k < n ==> children[n - 1 - k] == Child(k, ChildSteps(k, n, true)) && forks[n - 1 - k] == Fork(k)
    ensures children == Spawned(SpawnOrder(n, true), n, true) && forks == Forks(SpawnOrder(n, true))
  {
    var order := SpawnOrder(n, true);
    var spawned := Spawned(order, n, true);
    forall j | 0 <= j < n
      ensures children[j] == spawned[j] && forks[j] == Fork(order[j])
    {
      var k: nat := n - 1 - j;
      assert order[j] == k;
      assert children[n - 1 - k] == Child(k, ChildSteps(k, n, true));
    }
  }

  // ---------------------------------------------------------------------
  // Replaying steps
  // ---------------------------------------------------------------------

  lemma {:induction false} ReplayAppend(s: set<End>, a: seq<Act>, b: seq<Act>)
    ensures Replay(s, a + b) == if Replay(s, a).None? then None else Replay(Replay(s, a).value, b)
    decreases |a|
  {
    if a == [] {
      assert a + b == b;
    } else {
      assert (a + b)[1..] == a[1..] + b;
      if !((a[0].DupIn? || a[0].DupOut?) && a[0].e !in s) {
        ReplayAppend(if a[0].Close? then s - {a[0].e} else s, a[1..], b);
      }
    }
  }

  /** Forks, waits and frees neither use nor release an endpoint. */
  lemma {:induction false} ReplayQuiet(s: set<End>, t: seq<Act>)
    requires forall a :: a in t ==> a.Fork? || a.Wait? || a.Free?
    ensures Leaves(s, t, s)
    decreases |t|
  {
    if t != [] {
      assert t[0] in t;
      assert forall a :: a in t[1..] ==> a in t;
      ReplayQuiet(s, t[1..]);
    }
  }

  /** Closing both ends of pipes 0 .. k-1 releases exactly those endpoints. */
  lemma {:induction false} ReplayCloses(s: set<End>, k: nat)
    ensures Leaves(s, Closes(k), s - Ends(k))
  {
    if k > 0 {
      var p: nat := k - 1;
      ReplayCloses(s, p);
      ReplayAppend(s, Closes(p), [Close(ReadEnd(p)), Close(WriteEnd(p))]);
      ReplayTwo(s - Ends(p), Close(ReadEnd(p)), Close(WriteEnd(p)));
    }
  }

  /** Two steps, neither of them a `dup2` of an endpoint not held. */
  lemma ReplayTwo(s: set<End>, x: Act, y: Act)
    requires (x.DupIn? || x.DupOut?) ==> x.e in s
    requires (y.DupIn? || y.DupOut?) ==> y.e in s - (if x.Close? then {x.e} else {})
    ensures Leaves(s, [x, y], s - (if x.Close? then {x.e} else {}) - (if y.Close? then {y.e} else {}))
  {
    var s1 := if x.Close? then s - {x.e} else s;
    var s2 := if y.Close? then s1 - {y.e} else s1;
    assert [x, y][1..] == [y];
    assert [y][1..] == [];
    assert Replay(s1, [y]) == Replay(s2, []);
    assert Replay(s, [x, y]) == Replay(s1, [y]);
  }

  /** Child `i` calls `dup2` exactly as its wiring says. */
  lemma ChildDups(n: nat, i: nat, reverse: bool)
    requires i < n
    ensures forall e :: DupIn(e) in ChildSteps(i, n, reverse) <==> Wire(i, n, reverse).stdin == Some(e)
    ensures forall e :: DupOut(e) in ChildSteps(i, n, reverse) <==> Wire(i, n, reverse).stdout == Some(e)
  {
    var w := Wire(i, n, reverse);
    var a, b, c := Redirect(w.stdin, false), Redirect(w.stdout, true), Closes(PipeCount(n));
    assert ChildSteps(i, n, reverse) == a + b + c;
  }

  /** Each `dup2` of child `i` names an endpoint it still holds, and it holds no endpoint at `execvp`. */
  lemma ChildReleases(n: nat, i: nat, reverse: bool)
    requires i < n
    ensures Leaves(Ends(PipeCount(n)), ChildSteps(i, n, reverse), {})
  {
    var w := Wire(i, n, reverse);
    var k := PipeCount(n);
    var a, b, c := Redirect(w.stdin, false), Redirect(w.stdout, true), Closes(k);
    assert ChildSteps(i, n, reverse) == a + b + c;
    WiringInRange(n, reverse, i);
    var s1 := if w.stdin.Some? then Ends(k) - {Partner(w.stdin.value)} else Ends(k);
    if w.stdin.Some? {
      ReplayTwo(Ends(k), a[0], a[1]);
      assert a == [a[0], a[1]];
    }
    assert Leaves(Ends(k), a, s1);
    var s2 := if w.stdout.Some? then s1 - {Partner(w.stdout.value)} else s1;
    if w.stdout.Some? {
      ReplayTwo(s1, b[0], b[1]);
      assert b == [b[0], b[1]];
    }
    assert Leaves(s1, b, s2);
    ReplayAppend(Ends(k), a, b);
    ReplayAppend(Ends(k), a + b, c);
    ReplayCloses(s2, k);
  }

  // ---------------------------------------------------------------------
  // What the plans guarantee
  // ---------------------------------------------------------------------

  /** A child reads pipe `p`. */
  predicate Reads(w: Wiring, p: nat)
  {
    w.stdin == Some(ReadEnd(p))
  }

  /** A child writes pipe `p`. */
  predicate Writes(w: Wiring, p: nat)
  {
    w.stdout == Some(WriteEnd(p))
  }

  /**
   * Each pipe has exactly one reader and one writer: in a forward pipeline
   * pipe p is written by child p and read by child p+1, in a reverse one it
   * is written by child p+1 and read by child p.
   */
  lemma OneReaderOneWriter(n: nat, reverse: bool, p: nat)
    requires p < PipeCount(n)
    ensures forall i :: 0 <= i < n ==> (Reads(Wire(i, n, reverse), p) <==> i == if reverse then p else p + 1)
    ensures forall i :: 0 <= i < n ==> (Writes(Wire(i, n, reverse), p) <==> i == if reverse then p + 1 else p)
  {
  }

  /** No child uses an endpoint of a pipe that does not exist. */
  lemma WiringInRange(n: nat, reverse: bool, i: nat)
    requires i < n
    ensures Wire(i, n, reverse).stdin.Some? ==> Wire(i, n, reverse).stdin.value.ReadEnd? && Wire(i, n, reverse).stdin.value.pipe < PipeCount(n)
    ensures Wire(i, n, reverse).stdout.Some? ==> Wire(i, n, reverse).stdout.value.WriteEnd? && Wire(i, n, reverse).stdout.value.pipe < PipeCount(n)
  {
  }

  /** The pipe `p` of one mode stands where pipe n-2-p stands in the other. */
  function Mirror(e: End, n: nat): End
    requires e.pipe + 2 <= n
  {
    if e.ReadEnd? then ReadEnd(n - 2 - e.pipe) else WriteEnd(n - 2 - e.pipe)
  }

  /** Child `i` of a reverse pipeline is wired as child n-1-i of a forward one, with the pipes numbered from the other end. */
  lemma ReverseMirrorsForward(n: nat, i: nat)
    requires i < n
    ensures var f, r := Forward(n - 1 - i, n), Reverse(i, n);
      && (r.stdin.Some? <==> f.stdin.Some?) && (r.stdout.Some? <==> f.stdout.Some?)
      && (f.stdin.Some? ==> f.stdin.value.pipe + 2 <= n && r.stdin == Some(Mirror(f.stdin.value, n)))
      && (f.stdout.Some? ==> f.stdout.value.pipe + 2 <= n && r.stdout == Some(Mirror(f.stdout.value, n)))
  {
  }

  /** Child `a` sends its output to child `b` through some pipe. */
  predicate Feeds(n: nat, reverse: bool, a: nat, b: nat)
  {
    exists p: nat :: p < PipeCount(n) && Writes(Wire(a, n, reverse), p) && Reads(Wire(b, n, reverse), p)
  }

  /** Data flows from each command to the next one forward, and to the previous one in reverse. */
  lemma Flow(n: nat, a: nat, b: nat)
    requires a < n && b < n
    ensures Feeds(n, false, a, b) <==> b == a + 1
    ensures Feeds(n, true, a, b) <==> a == b + 1
  {
    if b == a + 1 {
      assert Writes(Wire(a, n, false), a) && Reads(Wire(b, n, false), a);
    }
    if a == b + 1 {
      assert Writes(Wire(a, n, true), b) && Reads(Wire(b, n, true), b);
    }
  }

  /**
   * The shell ends up holding no pipe endpoint, and it holds none whenever
   * it waits for a child, so no child can block on a write end the shell
   * keeps open. A pipeline whose pipes cannot all be made forks, waits for
   * and frees nothing: the shell only closes.
   */
  lemma PlanClosesAll(n: nat, made: nat, reverse: bool)
    ensures Leaves(Ends(Plan(n, made, reverse).pipes), Plan(n, made, reverse).parent, {})
    ensures forall j :: 0 <= j < |Plan(n, made, reverse).parent| && Plan(n, made, reverse).parent[j].Wait? ==>
      Leaves(Ends(Plan(n, made, reverse).pipes), Plan(n, made, reverse).parent[..j], {})
    ensures made < PipeCount(n) ==> Plan(n, made, reverse).children == []
    ensures made < PipeCount(n) ==> forall a :: a in Plan(n, made, reverse).parent ==> a.Close?
  {
    var o := Plan(n, made, reverse);
    if made < PipeCount(n) {
      ReplayCloses(Ends(made), made);
      forall j | 0 <= j < |o.parent|
        ensures o.parent[j].Close?
      {
        assert o.parent[j] in o.parent;
      }
    } else {
      var k := PipeCount(n);
      var f, c, r := Forks(SpawnOrder(n, reverse)), Closes(k), Reaps(n);
      assert o.parent == (f + c) + r;
      ParentReleases(Ends(k), k, f, c, r);
    }
  }

  /** Forks, then every close, then waits and frees: no endpoint is held from the first wait on. */
  lemma ParentReleases(s: set<End>, k: nat, f: seq<Act>, c: seq<Act>, r: seq<Act>)
    requires s == Ends(k) && c == Closes(k)
    requires forall a :: a in f ==> a.Fork?
    requires forall a :: a in r ==> a.Wait? || a.Free?
    ensures Leaves(s, (f + c) + r, {})
    ensures forall j :: 0 <= j < |(f + c) + r| && ((f + c) + r)[j].Wait? ==> Leaves(s, ((f + c) + r)[..j], {})
  {
    var t := (f + c) + r;
    ReplayQuiet(s, f);
    ReplayCloses(s, k);
    ReplayAppend(s, f, c);
    assert Leaves(s, f + c, {});
    ReplayQuiet({}, r);
    ReplayAppend(s, f + c, r);
    NoWaitBefore(f, c, r);
    forall j | 0 <= j < |t| && t[j].Wait?
      ensures Leaves(s, t[..j], {})
    {
      var r' := r[..j - |f + c|];
      assert t[..j] == (f + c) + r';
      assert forall a :: a in r' ==> a in r;
      ReplayQuiet({}, r');
      ReplayAppend(s, f + c, r');
    }
  }

  lemma NoWaitBefore(f: seq<Act>, c: seq<Act>, r: seq<Act>)
    requires forall a :: a in f ==> a.Fork?
    requires forall a :: a in c ==> a.Close?
    ensures forall j :: 0 <= j < |f + c| ==> !((f + c) + r)[j].Wait?
  {
    forall j | 0 <= j < |f + c|
      ensures !((f + c) + r)[j].Wait?
    {
      if j < |f| {
        assert ((f + c) + r)[j] == f[j];
        assert f[j] in f;
      } else {
        assert ((f + c) + r)[j] == c[j - |f|];
        assert c[j - |f|] in c;
      }
    }
  }

  /** Every child is one of the commands, redirects as wired, and calls `execvp` holding no pipe endpoint. */
  lemma PlanChildrenClose(n: nat, made: nat, reverse: bool)
    ensures forall c :: c in Plan(n, made, reverse).children ==>
      && c.index < n
      && Leaves(Ends(Plan(n, made, reverse).pipes), c.steps, {})
      && (forall e :: DupIn(e) in c.steps <==> Wire(c.index, n, reverse).stdin == Some(e))
      && (forall e :: DupOut(e) in c.steps <==> Wire(c.index, n, reverse).stdout == Some(e))
  {
    var o := Plan(n, made, reverse);
    forall c | c in o.children
      ensures c.index < n && Leaves(Ends(o.pipes), c.steps, {})
      ensures forall e :: DupIn(e) in c.steps <==> Wire(c.index, n, reverse).stdin == Some(e)
      ensures forall e :: DupOut(e) in c.steps <==> Wire(c.index, n, reverse).stdout == Some(e)
    {
      ChildDups(n, c.index, reverse);
      ChildReleases(n, c.index, reverse);
    }
  }

  /** A pipeline whose pipes were all made forks, waits for and frees each command exactly once. */
  lemma PlanOnce(n: nat, made: nat, reverse: bool, i: nat)
    requires made >= PipeCount(n)
    ensures Count(Plan(n, made, reverse).parent, Fork(i)) == if i < n then 1 else 0
    ensures Count(Plan(n, made, reverse).parent, Wait(i)) == if i < n then 1 else 0
    ensures Count(Plan(n, made, reverse).parent, Free(i)) == if i < n then 1 else 0
  {
    var order := SpawnOrder(n, reverse);
    PlanParent(n, made, reverse, order);
    RangeOnce(0, n, i);
    CountdownOnce(n, i);
    TraceOnce(order, Closes(PipeCount(n)), n, i);
  }

  /** Forks in `order`, closes, then the waits and frees of n commands: each index as often as `order` holds it. */
  lemma TraceOnce(order: seq<nat>, c: seq<Act>, n: nat, i: nat)
    requires forall a :: a in c ==> a.Close?
    requires Count(order, i) == if i < n then 1 else 0
    ensures Count(Forks(order) + c + Reaps(n), Fork(i)) == if i < n then 1 else 0
    ensures Count(Forks(order) + c + Reaps(n), Wait(i)) == if i < n then 1 else 0
    ensures Count(Forks(order) + c + Reaps(n), Free(i)) == if i < n then 1 else 0
  {
    var f, r := Forks(order), Reaps(n);
    ForksCount(order, i);
    ReapsOnce(n, i);
    CountParts(f, c, r, Fork(i));
    CountParts(f, c, r, Wait(i));
    CountParts(f, c, r, Free(i));
  }

  lemma PlanParent(n: nat, made: nat, reverse: bool, order: seq<nat>)
    requires made >= PipeCount(n) && order == SpawnOrder(n, reverse)
    ensures Plan(n, made, reverse).parent == Forks(order) + Closes(PipeCount(n)) + Reaps(n)
  {
  }

  lemma CountParts(f: seq<Act>, c: seq<Act>, r: seq<Act>, x: Act)
    ensures Count(f + c + r, x) == Count(f, x) + Count(c, x) + Count(r, x)
  {
    CountAppend(f + c, r, x);
    CountAppend(f, c, x);
  }

  lemma {:induction false} ForksCount(order: seq<nat>, i: nat)
    ensures Count(Forks(order), Fork(i)) == Count(order, i)
    decreases |order|
  {
    if order != [] {
      var init := order[..|order| - 1];
      ForksCount(init, i);
      assert Forks(order)[..|order| - 1] == Forks(init);
    }
  }

  lemma {:induction false} ReapsOnce(n: nat, i: nat)
    ensures Count(Reaps(n), Wait(i)) == if i < n then 1 else 0
    ensures Count(Reaps(n), Free(i)) == if i < n then 1 else 0
  {
    if n > 0 {
      var p: nat := n - 1;
      ReapsOnce(p, i);
      var last := [Wait(p), Free(p)];
      CountAppend(Reaps(p), last, Wait(i));
      CountAppend(Reaps(p), last, Free(i));
      assert last[..1] == [Wait(p)] && [Wait(p)][..0] == [];
    }
  }
}
