/**
 * `count_words` (VortexShell.c:515-538): the file is read one character at
 * a time and a flag remembers whether the last character was inside a word;
 * a word is counted when a character other than space, newline or tab
 * follows a separator or starts the file.
 *
 * The file's contents are the parameter `file`, a sequence of bytes; opening
 * the file and printing the count are not modelled.
 */
module WordCount {
  import opened Util
  import opened Text

  /** `EOF` as `fgetc` returns it. */
  const EOF: int := -1

  /** Line 527: space, newline or tab. */
  predicate Separator(c: int)
  {
    c == ' ' as int || c == '\n' as int || c == '\t' as int
  }

  /** Position `i` of `s` starts a word: not a separator, and first or after a separator. */
  predicate StartsWord(s: seq<Byte>, i: nat)
    requires i < |s|
  {
    !Separator(s[i]) && (i == 0 || Separator(s[i - 1]))
  }

  /** The number of maximal runs of non-separator bytes in `s`. */
  function Words(s: seq<Byte>): (n: nat)
    ensures n <= |s|
  {
    if s == [] then 0
    else Words(s[..|s| - 1]) + (if StartsWord(s, |s| - 1) then 1 else 0)
  }

  /** Words are counted by their first byte, so a separator between two texts adds up their counts. */
  lemma {:induction false} WordsSplit(a: seq<Byte>, sep: Byte, b: seq<Byte>)
    requires Separator(sep)
    ensures Words(a + [sep] + b) == Words(a) + Words(b)
    decreases |b|
  {
    var s := a + [sep] + b;
    if b == [] {
      assert s[..|s| - 1] == a;
    } else {
      var b' := b[..|b| - 1];
      WordsSplit(a, sep, b');
      assert s[..|s| - 1] == a + [sep] + b';
      assert b[..|b| - 1] == b';
      if |b| == 1 {
        assert s[|s| - 2] == sep;
      } else {
        assert s[|s| - 2] == b[|b| - 2];
      }
    }
  }

  /** A non-empty run without separators is one word. */
  lemma {:induction false} OneWord(w: seq<Byte>)
    requires w != [] && forall i :: 0 <= i < |w| ==> !Separator(w[i])
    ensures Words(w) == 1
  {
    if |w| > 1 {
      var w' := w[..|w| - 1];
      OneWord(w');
      assert !StartsWord(w, |w| - 1);
    } else {
      assert w[..0] == [];
    }
  }

  /** Words written one space apart count as themselves. */
  lemma {:induction false} WordsOfJoin(ws: seq<seq<Byte>>)
    requires forall k :: 0 <= k < |ws| ==> ws[k] != [] && forall i :: 0 <= i < |ws[k]| ==> !Separator(ws[k][i])
    ensures Words(JoinWith(ws, ' ' as int as Byte)) == |ws|
  {
    if |ws| == 1 {
      OneWord(ws[0]);
    } else if |ws| > 1 {
      var tail := ws[1..];
      WordsOfJoin(tail);
      OneWord(ws[0]);
      WordsSplit(ws[0], ' ' as int, JoinWith(tail, ' ' as int as Byte));
    }
  }

  /** The loop of lines 526-534 over the whole file: `in_word` and `words` as the source keeps them. */
  method CountWords(file: seq<Byte>) returns (words: nat)
    ensures words == Words(file)
  {
    words := 0;
    var inWord := false;
    var i := 0;
    while i < |file|
      invariant i <= |file|
      invariant words == Words(file[..i])
      invariant inWord <==> i > 0 && !Separator(file[i - 1])
    {
      var c := file[i];
      assert file[..i + 1][..i] == file[..i];
      if Separator(c) {
        inWord := false;
      } else if !inWord {
        words := words + 1;
        inWord := true;
      }
      i := i + 1;
    }
    assert file[..i] == file;
  }

  /** Line 523 stores `fgetc`'s result in a `char`: on a signed-char platform byte b reads as b - 256 from 0x80 on. */
  function AsSignedChar(b: Byte): (c: int)
    ensures -128 <= c < 128
    ensures c == EOF <==> b == 0xFF
  {
    if b < 128 then b else b - 256
  }

  /** The bytes before the first 0xFF (all of them when there is none). */
  function BeforeFF(s: seq<Byte>): (r: seq<Byte>)
    ensures |r| <= |s| && r == s[..|r|]
    ensures 0xFF !in r
    ensures |r| < |s| ==> s[|r|] == 0xFF
  {
    if s == [] || s[0] == 0xFF then [] else [s[0]] + BeforeFF(s[1..])
  }

  /**
   * The loop as written: `(c = fgetc(f)) != EOF` with `char c` also stops at
   * a 0xFF byte, which reads as -1.
   */
  method CountWordsAsWritten(file: seq<Byte>) returns (words: nat)
    ensures words == Words(BeforeFF(file))
  {
    words := 0;
    var inWord := false;
    var i := 0;
    while i < |file| && AsSignedChar(file[i]) != EOF
      invariant i <= |file| && 0xFF !in file[..i]
      invariant words == Words(file[..i])
      invariant inWord <==> i > 0 && !Separator(file[i - 1])
    {
      var c := AsSignedChar(file[i]);
      assert file[..i + 1][..i] == file[..i];
      if Separator(c) {
        inWord := false;
      } else if !inWord {
        words := words + 1;
        inWord := true;
      }
      i := i + 1;
    }
    BeforeFFAt(file, i);
  }

  /** The first 0xFF (or the end) at `i` means the bytes before it are `file[..i]`. */
  lemma {:induction false} BeforeFFAt(file: seq<Byte>, i: nat)
    requires i <= |file| && 0xFF !in file[..i] && (i == |file| || file[i] == 0xFF)
    ensures BeforeFF(file) == file[..i]
  {
    if i > 0 {
      assert file[1..][..i - 1] == file[..i][1..];
      BeforeFFAt(file[1..], i - 1);
      assert file[..i] == [file[0]] + file[1..][..i - 1];
    }
  }

  /** "a", 0xFF, " b": two words, of which the loop as written counts one. */
  lemma StopsAtFF()
    ensures Words(BeforeFF(['a' as int, 0xFF, ' ' as int, 'b' as int])) == 1
    ensures Words(['a' as int, 0xFF, ' ' as int, 'b' as int]) == 2
  {
    var s: seq<Byte> := ['a' as int, 0xFF, ' ' as int, 'b' as int];
    var a: seq<Byte> := ['a' as int];
    assert BeforeFF(s[1..]) == [];
    assert BeforeFF(s) == a;
    var s2, s3 := s[..2], s[..3];
    assert a[..0] == [] && Words(a) == 1;
    assert s2[..1] == a && !StartsWord(s2, 1) && Words(s2) == 1;
    assert s3[..2] == s2 && !StartsWord(s3, 2) && Words(s3) == 1;
    assert s[..3] == s3 && StartsWord(s, 3);
  }
}
