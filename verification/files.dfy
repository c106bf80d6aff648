/**
 * The file operations behind `~` and `+`: `handle_file_append`
 * (VortexShell.c:442-513) and `concatenate_files` (VortexShell.c:541-569),
 * on a disk modelled as a map from file names to contents.
 *
 * Opening with "a+" creates a missing file empty and fails for the empty
 * name; opening with "r" fails exactly when the file is missing or the name
 * is empty. Allocation
 * failures, short reads and writes and other open failures are not
 * modelled.
 */
module Files {
  import opened Util

  /** What a name holds: its contents, or nothing when it does not exist. */
  function Contents(fs: map<string, seq<Byte>>, name: string): seq<Byte>
  {
    if name in fs then fs[name] else []
  }

  /** The disk after `fopen(name, "a+")`: the file exists. */
  function Opened(fs: map<string, seq<Byte>>, name: string): map<string, seq<Byte>>
  {
    fs[name := Contents(fs, name)]
  }

  /** The disk after appending `data` to `name`. */
  function Appended(fs: map<string, seq<Byte>>, name: string, data: seq<Byte>): map<string, seq<Byte>>
  {
    fs[name := Contents(fs, name) + data]
  }

  /** The disk after an `fopen(name, "a+")` that may fail: the empty name names no file. */
  function TryOpened(fs: map<string, seq<Byte>>, name: string): map<string, seq<Byte>>
  {
    if name == [] then fs else Opened(fs, name)
  }

  /**
   * The disk after `handle_file_append(f1, f2)`: both files are opened
   * (and so exist), then what `f2` held is appended to `f1`, then what `f1`
   * held is appended to `f2`, both as read before either append.
   */
  function CrossAppended(fs: map<string, seq<Byte>>, f1: string, f2: string): (r: map<string, seq<Byte>>)
    ensures r.Keys == fs.Keys + {f1, f2}
    ensures forall n :: n in fs && n != f1 && n != f2 ==> r[n] == fs[n]
  {
    var c1, c2 := Contents(fs, f1), Contents(fs, f2);
    Appended(Appended(Opened(Opened(fs, f1), f2), f1, c2), f2, c1)
  }

  /** Whether `fopen(name, "r")` succeeds: the file exists, and the empty name never names one. */
  predicate Readable(fs: map<string, seq<Byte>>, name: string)
  {
    name != [] && name in fs
  }

  /** What `concatenate_files` writes to standard output: the files that can be opened, in order. */
  function Concatenation(fs: map<string, seq<Byte>>, names: seq<string>): seq<Byte>
  {
    if names == [] then []
    else
      var last := names[|names| - 1];
      Concatenation(fs, names[..|names| - 1]) + (if Readable(fs, last) then fs[last] else [])
  }

  /** The names `concatenate_files` reports it cannot open, in order. */
  function Missing(fs: map<string, seq<Byte>>, names: seq<string>): (r: seq<string>)
    ensures forall n :: n in r ==> n in names && !Readable(fs, n)
  {
    if names == [] then []
    else
      var last := names[|names| - 1];
      Missing(fs, names[..|names| - 1]) + (if Readable(fs, last) then [] else [last])
  }

  /** The files of the machine the shell runs on. */
  class Disk {
    var files: map<string, seq<Byte>>

    constructor (init: map<string, seq<Byte>>)
      ensures files == init
    {
      files := init;
    }

    /** `fopen(name, "a+")` and reading it all: the empty name cannot be opened; a missing file is created empty. */
    method OpenAndRead(name: string) returns (ok: bool, content: seq<Byte>)
      modifies this
      ensures ok <==> name != []
      ensures ok ==> content == Contents(old(files), name)
      ensures files == TryOpened(old(files), name)
    {
      if name == [] {
        return false, [];
      }
      if name !in files {
        files := files[name := []];
      }
      ok, content := true, files[name];
    }

    /** `fopen(name, "a")` and `fwrite(data)`: the data goes at the end of the file. */
    method Append(name: string, data: seq<Byte>)
      modifies this
      ensures files == Appended(old(files), name, data)
    {
      files := files[name := Contents(files, name) + data];
    }

    /**
     * Lines 443-512: both files are opened before either is checked, so when
     * one name cannot be opened the other may have been created; otherwise
     * both are read, then each is appended to the other.
     */
    method HandleFileAppend(f1: string, f2: string) returns (ok: bool)
      modifies this
      ensures ok <==> f1 != [] && f2 != []
      ensures ok ==> files == CrossAppended(old(files), f1, f2)
      ensures !ok ==> files == TryOpened(TryOpened(old(files), f1), f2)
    {
      var ok1, buf1 := OpenAndRead(f1);
      var ok2, buf2 := OpenAndRead(f2);
      if !ok1 || !ok2 {
        return false;
      }
      Append(f1, buf2);
      Append(f2, buf1);
      ok := true;
    }

    /** The loop of lines 542-567: each file that opens is copied to the output; the others are reported. */
    method ConcatenateFiles(names: seq<string>) returns (out: seq<Byte>, missing: seq<string>)
      ensures out == Concatenation(files, names)
      ensures missing == Missing(files, names)
    {
      out, missing := [], [];
      var i := 0;
      while i < |names|
        invariant i <= |names|
        invariant out == Concatenation(files, names[..i])
        invariant missing == Missing(files, names[..i])
      {
        assert names[..i + 1][..i] == names[..i];
        if !Readable(files, names[i]) {
          missing := missing + [names[i]];
        } else {
          out := out + files[names[i]];
        }
        i := i + 1;
      }
      assert names[..i] == names;
    }
  }

  /**
   * Two different files end up each followed by the other's old contents;
   * both exist afterwards and every other file is untouched.
   */
  lemma CrossAppendDistinct(fs: map<string, seq<Byte>>, f1: string, f2: string)
    requires f1 != f2
    ensures var r, c1, c2 := CrossAppended(fs, f1, f2), Contents(fs, f1), Contents(fs, f2);
      && r.Keys == fs.Keys + {f1, f2}
      && r[f1] == c1 + c2 && r[f2] == c2 + c1
      && forall n :: n in fs && n != f1 && n != f2 ==> r[n] == fs[n]
  {
  }

  /** Naming the same file twice leaves it three times over. */
  lemma CrossAppendSame(fs: map<string, seq<Byte>>, f: string)
    ensures CrossAppended(fs, f, f)[f] == Contents(fs, f) + Contents(fs, f) + Contents(fs, f)
  {
  }

  /** Concatenating a list of names is concatenating its parts. */
  lemma {:induction false} ConcatenationAppend(fs: map<string, seq<Byte>>, a: seq<string>, b: seq<string>)
    ensures Concatenation(fs, a + b) == Concatenation(fs, a) + Concatenation(fs, b)
    decreases |b|
  {
    if b == [] {
      assert a + b == a;
    } else {
      var b' := b[..|b| - 1];
      assert (a + b)[..|a + b| - 1] == a + b';
      ConcatenationAppend(fs, a, b');
    }
  }

  /** A name that cannot be opened adds nothing to the output and is reported. */
  lemma {:induction false} MissingSkipped(fs: map<string, seq<Byte>>, a: seq<string>, m: string, b: seq<string>)
    requires !Readable(fs, m)
    ensures Concatenation(fs, a + [m] + b) == Concatenation(fs, a + b)
    ensures m in Missing(fs, a + [m] + b)
  {
    ConcatenationAppend(fs, a + [m], b);
    ConcatenationAppend(fs, a, b);
    assert (a + [m])[..|a|] == a;
    MissingGrows(fs, a + [m], b);
  }

  /** An empty name (`a + + b`) is reported and adds nothing, whatever the disk holds. */
  lemma EmptyNameSkipped(fs: map<string, seq<Byte>>, a: seq<string>, b: seq<string>)
    ensures Concatenation(fs, a + [[]] + b) == Concatenation(fs, a + b)
    ensures [] in Missing(fs, a + [[]] + b)
  {
    MissingSkipped(fs, a, [], b);
  }

  /** Reading more names never forgets a missing one. */
  lemma {:induction false} MissingGrows(fs: map<string, seq<Byte>>, a: seq<string>, b: seq<string>)
    requires a != [] && !Readable(fs, a[|a| - 1])
    ensures a[|a| - 1] in Missing(fs, a + b)
    decreases |b|
  {
    if b == [] {
      assert a + b == a;
    } else {
      var b' := b[..|b| - 1];
      assert (a + b)[..|a + b| - 1] == a + b';
      MissingGrows(fs, a, b');
    }
  }
}
