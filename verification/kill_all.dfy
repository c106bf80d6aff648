/**
 * `killallterms`: `get_process_name` (VortexShell.c:598-612) and
 * `kill_all_shells` (VortexShell.c:615-653).
 *
 * The process listing that `ps` prints is the parameter `listing`: None when
 * `popen` fails, otherwise one entry per line, None for a line that `sscanf`
 * cannot read as a pid and a name. The signals sent are returned as the
 * sequence of pids signalled, in order; the contents of `/proc/self/cmdline`
 * are a parameter as well.
 */
module KillAll {
  import opened Util
  import opened Text

  /** A line of the listing that `sscanf` read: a pid and a command name. */
  datatype Entry = Entry(pid: int, name: string)

  /** `MAX_LINE`: the size of the name buffer `get_process_name` fills. */
  const MAX_LINE: nat := 256
  /** The name used when `/proc/self/cmdline` cannot be opened (line 610). */
  const FALLBACK_NAME: string := "w25shell"

  /** Line 636: the entry names this shell. */
  predicate Matches(line: Option<Entry>, self: string)
  {
    line.Some? && line.value.name == self
  }

  /** Lines 636-639: the pids of the other matching entries, in listing order. */
  function Others(lines: seq<Option<Entry>>, self: string, me: int): (r: seq<int>)
    ensures |r| <= |lines|
    ensures me !in r
  {
    if lines == [] then []
    else
      var last := lines[|lines| - 1];
      Others(lines[..|lines| - 1], self, me)
        + (if Matches(last, self) && last.value.pid != me then [last.value.pid] else [])
  }

  /** Lines 640-641: some entry is this very process. */
  predicate SelfListed(lines: seq<Option<Entry>>, self: string, me: int)
  {
    exists i :: 0 <= i < |lines| && Matches(lines[i], self) && lines[i].value.pid == me
  }

  /** Everything `kill_all_shells` signals: the others in order, then itself if it was listed. */
  function Signals(listing: Option<seq<Option<Entry>>>, self: string, me: int): (r: seq<int>)
    ensures me in r <==> listing.Some? && SelfListed(listing.value, self, me)
  {
    if listing.None? then []
    else Others(listing.value, self, me) + (if SelfListed(listing.value, self, me) then [me] else [])
  }

  /** The loop of lines 630-645 and the deferred self-kill of lines 650-653. */
  method KillAllShells(listing: Option<seq<Option<Entry>>>, self: string, me: int) returns (signalled: seq<int>)
    ensures signalled == Signals(listing, self, me)
  {
    if listing.None? {
      return [];
    }
    var lines := listing.value;
    signalled := [];
    var selfKilled := false;
    var i := 0;
    while i < |lines|
      invariant i <= |lines|
      invariant signalled == Others(lines[..i], self, me)
      invariant selfKilled <==> SelfListed(lines[..i], self, me)
    {
      var line := lines[i];
      ListStep(lines, i, self, me);
      if line.Some? && line.value.name == self {
        if line.value.pid != me {
          signalled := signalled + [line.value.pid];
        } else {
          selfKilled := true;
        }
      }
      i := i + 1;
    }
    assert lines[..i] == lines;
    if selfKilled {
      signalled := signalled + [me];
    }
  }

  /** One more line of the listing read. */
  lemma ListStep(lines: seq<Option<Entry>>, i: nat, self: string, me: int)
    requires i < |lines|
    ensures Others(lines[..i + 1], self, me) == Others(lines[..i], self, me)
      + (if Matches(lines[i], self) && lines[i].value.pid != me then [lines[i].value.pid] else [])
    ensures SelfListed(lines[..i + 1], self, me) <==>
      SelfListed(lines[..i], self, me) || (Matches(lines[i], self) && lines[i].value.pid == me)
  {
    var now := lines[..i + 1];
    assert now[..i] == lines[..i];
    assert now[i] == lines[i];
    if SelfListed(now, self, me) {
      var j :| 0 <= j < |now| && Matches(now[j], self) && now[j].value.pid == me;
      if j < i {
        assert lines[..i][j] == now[j];
      }
    }
    if SelfListed(lines[..i], self, me) {
      var j :| 0 <= j < i && Matches(lines[..i][j], self) && lines[..i][j].value.pid == me;
      assert now[j] == lines[..i][j];
    }
  }

  /** Every other matching entry is signalled, and nothing else except this process. */
  lemma {:induction false} OthersExactly(lines: seq<Option<Entry>>, self: string, me: int, p: int)
    requires p != me
    ensures p in Others(lines, self, me) <==>
      exists i :: 0 <= i < |lines| && Matches(lines[i], self) && lines[i].value.pid == p
  {
    if lines != [] {
      var n := |lines| - 1;
      var init, last := lines[..n], lines[n];
      OthersExactly(init, self, me, p);
      assert Others(lines, self, me) == Others(init, self, me)
        + (if Matches(last, self) && last.value.pid != me then [last.value.pid] else []);
      forall i | 0 <= i < n
        ensures init[i] == lines[i]
      {
      }
    }
  }

  /**
   * This shell is signalled at most once, only when it was listed, and
   * always last; nothing is signalled when the listing cannot be read.
   */
  lemma SelfLast(listing: Option<seq<Option<Entry>>>, self: string, me: int)
    ensures listing.None? ==> Signals(listing, self, me) == []
    ensures Count(Signals(listing, self, me), me) == if listing.Some? && SelfListed(listing.value, self, me) then 1 else 0
    ensures me in Signals(listing, self, me) ==> Signals(listing, self, me)[|Signals(listing, self, me)| - 1] == me
  {
    if listing.Some? {
      var others := Others(listing.value, self, me);
      var tail: seq<int> := if SelfListed(listing.value, self, me) then [me] else [];
      CountAppend(others, tail, me);
      assert Count(tail, me) == if tail == [] then 0 else 1 by {
        if tail != [] {
          assert tail[..0] == [];
        }
      }
    }
  }

  /** `strrchr(name, '/')` then `strcpy(name, basename + 1)`: the part after the last '/'. */
  function BaseName(path: string): (r: string)
    ensures '/' !in r
    ensures |r| <= |path| && r == path[|path| - |r|..]
    ensures |r| < |path| ==> path[|path| - |r| - 1] == '/'
  {
    if path == [] || path[|path| - 1] == '/' then []
    else
      var init := BaseName(path[..|path| - 1]);
      assert path[..|path| - 1][|path| - 1 - |init|..] + [path[|path| - 1]] == path[|path| - 1 - |init|..];
      init + [path[|path| - 1]]
  }

  /** A name after a directory prefix and a '/' is what remains. */
  lemma {:induction false} BaseNameOf(dir: string, name: string)
    requires '/' !in name
    ensures BaseName(dir + ['/'] + name) == name
    decreases |name|
  {
    var path := dir + ['/'] + name;
    if name == [] {
      assert path[|path| - 1] == '/';
    } else {
      var init := name[..|name| - 1];
      assert path[..|path| - 1] == dir + ['/'] + init;
      BaseNameOf(dir, init);
      assert init + [name[|name| - 1]] == name;
    }
  }

  /** Taking the base name twice changes nothing. */
  lemma BaseNameIdempotent(path: string)
    ensures BaseName(BaseName(path)) == BaseName(path)
  {
    BaseNameWithout(BaseName(path));
  }

  /** A path without '/' is its own base name. */
  lemma {:induction false} BaseNameWithout(path: string)
    requires '/' !in path
    ensures BaseName(path) == path
  {
    if path != [] {
      var init := path[..|path| - 1];
      BaseNameWithout(init);
      assert init + [path[|path| - 1]] == path;
    }
  }

  /**
   * The name `get_process_name` leaves in `self_name`: the fallback when the
   * command line cannot be read, otherwise the base name of the first
   * argument among the first MAX_LINE - 1 bytes read.
   */
  function ProcessName(cmdline: Option<string>): (name: string)
    ensures '/' !in name
    ensures cmdline.None? ==> name == FALLBACK_NAME
  {
    if cmdline.None? then FALLBACK_NAME
    else BaseName(Prefix(Take(cmdline.value, MAX_LINE - 1), '\0'))
  }

  /** A shell started as `dir/name` with arguments finds its own name. */
  lemma ProcessNameOf(dir: string, name: string, rest: string)
    requires '/' !in name && '\0' !in dir && '\0' !in name
    requires |dir| + 1 + |name| < MAX_LINE - 1
    ensures ProcessName(Some(dir + ['/'] + name + ['\0'] + rest)) == name
  {
    var arg := dir + ['/'] + name;
    var text := arg + ['\0'] + rest;
    var read := Take(text, MAX_LINE - 1);
    assert read == arg + ['\0'] + read[|arg| + 1..];
    PrefixStops(arg, '\0', read[|arg| + 1..]);
    BaseNameOf(dir, name);
  }
}
