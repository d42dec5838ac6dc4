/**
  The counting engine of `wc`: one left-to-right pass over the bytes of a
  source, producing the (lines, words, bytes) triple.

  The specification side defines each count independently of the scan:
  lines are the line-feed bytes, words are the maximal runs of
  non-whitespace bytes (`Tokens`), bytes is the length.
 */
module ByteCounter {

  /** A raw byte, as its unsigned value. */
  type Byte = b: int | 0 <= b < 256

  const LF: Byte := 0x0A

  /** The value Java sees when a `byte` is widened to `int` (two's complement). */
  function Signed(b: Byte): (v: int)
    ensures -128 <= v < 128
    ensures v % 256 == b
  {
    if b < 128 then b else b - 256
  }

  /**
    `Character.isWhitespace(int)` restricted to the code points a signed byte
    can take: horizontal tab through carriage return, the four information
    separators 0x1C-0x1F and space. Negative values are not code points and
    are never whitespace.
   */
  predicate IsWhitespaceCodePoint(cp: int)
    requires -128 <= cp < 128
  {
    (0x09 <= cp <= 0x0D) || (0x1C <= cp <= 0x1F) || cp == 0x20
  }

  /**
    The whitespace test applied to each byte of the input. Bytes 0x80-0xFF
    widen to negative ints, so they always belong to words; on unsigned byte
    values the whitespace set is the one written out below.
   */
  function IsSpace(b: Byte): (space: bool)
    ensures b >= 0x80 ==> !space
    ensures space <==> b in {0x09, 0x0A, 0x0B, 0x0C, 0x0D, 0x1C, 0x1D, 0x1E, 0x1F, 0x20}
  {
    IsWhitespaceCodePoint(Signed(b))
  }

  // ---------------------------------------------------------------------
  // Lines

  /** Number of line-feed bytes in `s`. */
  function Newlines(s: seq<Byte>): nat
  {
    if s == [] then 0
    else Newlines(s[..|s| - 1]) + (if s[|s| - 1] == LF then 1 else 0)
  }

  /** The line count is the multiplicity of LF in the byte multiset. */
  lemma {:induction false} NewlinesIsMultiplicity(s: seq<Byte>)
    ensures Newlines(s) == multiset(s)[LF]
  {
    if s != [] {
      var p := s[..|s| - 1];
      assert s == p + [s[|s| - 1]];
      NewlinesIsMultiplicity(p);
    }
  }

  /** Line counts of two adjacent pieces add up. */
  lemma {:induction false} NewlinesAppend(a: seq<Byte>, b: seq<Byte>)
    ensures Newlines(a + b) == Newlines(a) + Newlines(b)
  {
    if b != [] {
      var b' := b[..|b| - 1];
      assert (a + b)[..|a + b| - 1] == a + b';
      NewlinesAppend(a, b');
    } else {
      assert a + b == a;
    }
  }

  // ---------------------------------------------------------------------
  // Words

  /** Length of the run of non-whitespace bytes that `s` starts with. */
  function RunLength(s: seq<Byte>): (n: nat)
    ensures n <= |s|
    ensures forall i :: 0 <= i < n ==> !IsSpace(s[i])
    ensures n < |s| ==> IsSpace(s[n])
  {
    if s == [] || IsSpace(s[0]) then 0 else 1 + RunLength(s[1..])
  }

  /**
    The words of `s`: its maximal runs of non-whitespace bytes, in order.
    Leading, trailing and repeated whitespace produce no empty words.
   */
  function Tokens(s: seq<Byte>): seq<seq<Byte>>
    decreases |s|
  {
    if s == [] then []
    else if IsSpace(s[0]) then Tokens(s[1..])
    else
      var n := RunLength(s);
      [s[..n]] + Tokens(s[n..])
  }

  /** The number of words. */
  function Words(s: seq<Byte>): nat
  {
    |Tokens(s)|
  }

  /** Every word is non-empty and contains no whitespace byte. */
  lemma {:induction false} TokensAreWords(s: seq<Byte>)
    ensures forall k :: 0 <= k < |Tokens(s)| ==> Tokens(s)[k] != []
    ensures forall k, j :: 0 <= k < |Tokens(s)| && 0 <= j < |Tokens(s)[k]| ==> !IsSpace(Tokens(s)[k][j])
  {
    if s == [] {
    } else if IsSpace(s[0]) {
      TokensAreWords(s[1..]);
    } else {
      TokensAreWords(s[RunLength(s)..]);
    }
  }

  /** The non-whitespace bytes of `s`, in order. */
  function WordBytes(s: seq<Byte>): seq<Byte>
  {
    if s == [] then [] else (if IsSpace(s[0]) then [] else [s[0]]) + WordBytes(s[1..])
  }

  function Flatten(ts: seq<seq<Byte>>): seq<Byte>
  {
    if ts == [] then [] else ts[0] + Flatten(ts[1..])
  }

  /**
    Nothing is lost or invented: the words, put back together, are exactly the
    non-whitespace bytes of the input in their order.
   */
  lemma {:induction false} TokensCoverWordBytes(s: seq<Byte>)
    ensures Flatten(Tokens(s)) == WordBytes(s)
    decreases |s|
  {
    if s == [] {
    } else if IsSpace(s[0]) {
      TokensCoverWordBytes(s[1..]);
    } else {
      var n := RunLength(s);
      var rest := Tokens(s[n..]);
      TokensCoverWordBytes(s[n..]);
      assert ([s[..n]] + rest)[0] == s[..n] && ([s[..n]] + rest)[1..] == rest;
      WordBytesOfRun(s, n);
    }
  }

  lemma {:induction false} WordBytesOfRun(s: seq<Byte>, n: nat)
    requires n <= |s| && forall i :: 0 <= i < n ==> !IsSpace(s[i])
    ensures WordBytes(s) == s[..n] + WordBytes(s[n..])
  {
    if n > 0 {
      WordBytesOfRun(s[1..], n - 1);
      assert s[1..][..n - 1] == s[1..n] && s[1..][n - 1..] == s[n..];
      assert s[..n] == [s[0]] + s[1..n];
    }
  }

  /** Input made only of whitespace has no words. */
  lemma {:induction false} AllSpaceHasNoWords(s: seq<Byte>)
    requires forall i :: 0 <= i < |s| ==> IsSpace(s[i])
    ensures Words(s) == 0
  {
    if s != [] {
      AllSpaceHasNoWords(s[1..]);
    }
  }

  lemma RunLengthAppend(s: seq<Byte>, t: seq<Byte>)
    ensures RunLength(s) < |s| ==> RunLength(s + t) == RunLength(s)
    ensures RunLength(s) == |s| ==> RunLength(s + t) == |s| + RunLength(t)
    decreases |s|
  {
    if s != [] && !IsSpace(s[0]) {
      assert (s + t)[1..] == s[1..] + t;
      RunLengthAppend(s[1..], t);
    } else if s == [] {
      assert s + t == t;
    }
  }

  /**
    Appending one byte to a prefix: the word count grows by one exactly when
    the byte is a word byte that starts a new run, i.e. the prefix is empty or
    ends in whitespace. This is the step of the single left-to-right scan.
   */
  lemma {:induction false} WordsSnoc(p: seq<Byte>, b: Byte)
    ensures Words(p + [b]) == Words(p) + (if !IsSpace(b) && (p == [] || IsSpace(p[|p| - 1])) then 1 else 0)
    decreases |p|
  {
    var s := p + [b];
    if p == [] {
      WordsOfOne(b);
    } else if IsSpace(p[0]) {
      assert s[1..] == p[1..] + [b];
      WordsSnoc(p[1..], b);
    } else if RunLength(p) == |p| {
      WordsSnocAfterRun(p, b);
    } else {
      var n := RunLength(p);
      RunLengthAppend(p, [b]);
      assert s[n..] == p[n..] + [b];
      assert s[..n] == p[..n];
      WordsSnoc(p[n..], b);
    }
  }

  lemma WordsOfOne(b: Byte)
    ensures Words([b]) == if IsSpace(b) then 0 else 1
  {
    var s := [b];
    assert s[0] == b && s[1..] == [];
    if IsSpace(b) {
      assert Tokens(s) == Tokens(s[1..]);
    } else {
      assert RunLength(s) == 1 + RunLength(s[1..]);
      assert Tokens(s) == [s[..1]] + Tokens(s[1..]);
    }
  }

  /** A prefix made of a single run is one word. */
  lemma WordsOfRun(p: seq<Byte>)
    requires p != [] && RunLength(p) == |p|
    ensures Words(p) == 1
  {
    assert !IsSpace(p[0]);
    assert p[|p|..] == [];
    assert Tokens(p) == [p[..|p|]] + Tokens(p[|p|..]);
  }

  /** One byte after a prefix made of a single run: it extends the run or ends it. */
  lemma WordsSnocAfterRun(p: seq<Byte>, b: Byte)
    requires p != [] && RunLength(p) == |p|
    ensures Words(p + [b]) == 1 && Words(p) == 1
  {
    WordsOfRun(p);
    var s := p + [b];
    var n := |p|;
    RunLengthAppend(p, [b]);
    assert s[0] == p[0];
    if IsSpace(b) {
      assert RunLength(s) == n;
      assert s[n..] == [b];
      WordsOfOne(b);
      assert Tokens(s) == [s[..n]] + Tokens(s[n..]);
    } else {
      assert RunLength([b]) == 1 by { WordsOfOne(b); assert [b][1..] == []; }
      assert RunLength(s) == |s|;
      WordsOfRun(s);
    }
  }

  /**
    Word counts of two adjacent pieces add up, minus one when a word straddles
    the boundary (the first piece ends and the second starts with a word byte).
   */
  lemma {:induction false} WordsAppend(a: seq<Byte>, b: seq<Byte>)
    ensures Words(a + b) == Words(a) + Words(b)
      - (if a != [] && b != [] && !IsSpace(a[|a| - 1]) && !IsSpace(b[0]) then 1 else 0)
    decreases |b|
  {
    if b == [] {
      assert a + b == a;
    } else {
      var b' := b[..|b| - 1];
      var x := b[|b| - 1];
      assert b == b' + [x];
      assert a + b == (a + b') + [x];
      WordsAppend(a, b');
      WordsSnoc(a + b', x);
      WordsSnoc(b', x);
      if b' != [] {
        assert (a + b')[|a + b'| - 1] == b'[|b'| - 1];
        assert b[0] == b'[0];
      } else {
        assert a + b' == a;
      }
    }
  }

  /**
    Collapsing two consecutive whitespace bytes into one never changes the
    word count.
   */
  lemma CollapseWhitespace(a: seq<Byte>, x: Byte, y: Byte, c: seq<Byte>)
    requires IsSpace(x) && IsSpace(y)
    ensures Words(a + [x, y] + c) == Words(a + [x] + c)
  {
    WordsAppend(a + [x, y], c);
    WordsAppend(a + [x], c);
    WordsSnoc(a, x);
    WordsSnoc(a + [x], y);
    assert a + [x, y] == (a + [x]) + [y];
  }

  // ---------------------------------------------------------------------
  // The triple

  /** The counts of one source. */
  datatype CountResult = CountResult(lines: nat, words: nat, bytes: nat)

  const Zero := CountResult(0, 0, 0)

  /** What the scan must compute for a byte sequence. */
  function Count(s: seq<Byte>): CountResult
  {
    CountResult(Newlines(s), Words(s), |s|)
  }

  /** Field-wise sum, the operation the total line accumulates with. */
  function Add(x: CountResult, y: CountResult): (r: CountResult)
    ensures r.lines == x.lines + y.lines && r.words == x.words + y.words && r.bytes == x.bytes + y.bytes
  {
    CountResult(x.lines + y.lines, x.words + y.words, x.bytes + y.bytes)
  }

  /**
    The single pass: `bytes` is the length, `lines` counts LF, and `words`
    counts a word when the whitespace after it is reached, or at end of input
    for a word still open.
   */
  method CountContent(fileInBytes: seq<Byte>) returns (r: CountResult)
    ensures r == Count(fileInBytes)
  {
    var lines: nat := 0;
    var words: nat := 0;
    var bytes: nat := |fileInBytes|;
    var isWord := false;
    for i := 0 to |fileInBytes|
      invariant lines == Newlines(fileInBytes[..i])
      invariant isWord <==> i > 0 && !IsSpace(fileInBytes[i - 1])
      invariant words + (if isWord then 1 else 0) == Words(fileInBytes[..i])
    {
      var b := fileInBytes[i];
      assert fileInBytes[..i + 1] == fileInBytes[..i] + [b];
      assert fileInBytes[..i + 1][..i] == fileInBytes[..i];
      WordsSnoc(fileInBytes[..i], b);
      if b == LF {
        lines := lines + 1;
      }
      if IsSpace(b) {
        if isWord {
          words := words + 1;
          isWord := false;
        }
      } else {
        isWord := true;
      }
    }
    if isWord {
      words := words + 1;
    }
    assert fileInBytes[..|fileInBytes|] == fileInBytes;
    r := CountResult(lines, words, bytes);
  }

  /** Counting is compositional: the scan can resume across a split point. */
  lemma CountAppend(a: seq<Byte>, b: seq<Byte>)
    ensures Count(a + b).lines == Count(a).lines + Count(b).lines
    ensures Count(a + b).bytes == Count(a).bytes + Count(b).bytes
    ensures Count(a + b).words == Count(a).words + Count(b).words
      - (if a != [] && b != [] && !IsSpace(a[|a| - 1]) && !IsSpace(b[0]) then 1 else 0)
  {
    NewlinesAppend(a, b);
    WordsAppend(a, b);
  }

  /** Empty input counts as (0, 0, 0). */
  lemma EmptyCount()
    ensures Count([]) == Zero
  {
  }

  /**
    A final LF adds exactly one line and no word: an unterminated last line
    is not counted, an unterminated last word is.
   */
  lemma TrailingNewline(s: seq<Byte>)
    ensures Count(s + [LF]).lines == Count(s).lines + 1
    ensures Count(s + [LF]).words == Count(s).words
    ensures Count(s + [LF]).bytes == Count(s).bytes + 1
  {
    WordsSnoc(s, LF);
    assert (s + [LF])[..|s + [LF]| - 1] == s;
  }

  // ---------------------------------------------------------------------
  // Concrete inputs

  /** The bytes of an ASCII string. */
  function Ascii(s: string): (r: seq<Byte>)
    requires forall i :: 0 <= i < |s| ==> s[i] as int < 128
    ensures |r| == |s| && forall i :: 0 <= i < |s| ==> r[i] == s[i] as int
  {
    seq(|s|, i requires 0 <= i < |s| => s[i] as int)
  }

  /** "Line 1\nLine 2\nLine 3\n" counts as 3 lines, 6 words, 21 bytes. */
  lemma ThreeLines()
    ensures Count(Ascii("Line 1\nLine 2\nLine 3\n")) == CountResult(3, 6, 21)
  {
    var s1, s2, s3 := "Line 1\n", "Line 2\n", "Line 3\n";
    assert "Line 1\nLine 2\nLine 3\n" == s1 + s2 + s3;
    AsciiAppend(s1 + s2, s3);
    AsciiAppend(s1, s2);
    AsciiNumberedLine(s1, '1');
    AsciiNumberedLine(s2, '2');
    AsciiNumberedLine(s3, '3');
    ThreeNumberedLines(0x31, 0x32, 0x33);
  }

  /** Any three lines "Line d\n" count as 3 lines, 6 words, 21 bytes. */
  lemma ThreeNumberedLines(d1: Byte, d2: Byte, d3: Byte)
    requires 0x30 <= d1 <= 0x39 && 0x30 <= d2 <= 0x39 && 0x30 <= d3 <= 0x39
    ensures Count(NumberedLine(d1) + NumberedLine(d2) + NumberedLine(d3)) == CountResult(3, 6, 21)
  {
    var one, two, three := NumberedLine(d1), NumberedLine(d2), NumberedLine(d3);
    NumberedLineCount(d1);
    NumberedLineCount(d2);
    NumberedLineCount(d3);
    CountAppend(one, two);
    CountAppend(one + two, three);
  }

  lemma AsciiAppend(s: string, t: string)
    requires forall i :: 0 <= i < |s| ==> s[i] as int < 128
    requires forall i :: 0 <= i < |t| ==> t[i] as int < 128
    ensures forall i :: 0 <= i < |s + t| ==> (s + t)[i] as int < 128
    ensures Ascii(s + t) == Ascii(s) + Ascii(t)
  {
  }

  lemma AsciiNumberedLine(s: string, c: char)
    requires '0' <= c <= '9' && s == "Line " + [c] + "\n"
    ensures forall i :: 0 <= i < |s| ==> s[i] as int < 128
    ensures Ascii(s) == NumberedLine(c as int)
  {
  }

  /** The bytes of "Line d\n" for a digit byte d. */
  function NumberedLine(digit: Byte): seq<Byte>
  {
    [0x4C, 0x69, 0x6E, 0x65, 0x20, digit, LF]
  }

  /** "Line d\n" is one line of two words in seven bytes. */
  lemma NumberedLineCount(digit: Byte)
    requires 0x30 <= digit <= 0x39
    ensures Count(NumberedLine(digit)) == CountResult(1, 2, 7)
  {
    var w1: seq<Byte> := [0x4C, 0x69, 0x6E, 0x65];
    var w2: seq<Byte> := [digit];
    var sp: Byte := 0x20;
    assert NumberedLine(digit) == (w1 + [sp] + w2) + [LF];
    WordRun(w1);
    WordRun(w2);
    WordsSnoc(w1, sp);
    WordsAppend(w1 + [sp], w2);
    TrailingNewline(w1 + [sp] + w2);
    NewlinesAppend(w1 + [sp], w2);
    NewlinesAppend(w1, [sp]);
  }

  /** "Hello\nWorld\n" counts as 2 lines, 2 words, 12 bytes. */
  lemma TwoLines()
    ensures Count(Ascii("Hello\nWorld\n")) == CountResult(2, 2, 12)
  {
    var hello := Ascii("Hello");
    var world := Ascii("World");
    assert Ascii("Hello\nWorld\n") == (hello + [LF]) + (world + [LF]);
    WordRun(hello);
    WordRun(world);
    TrailingNewline(hello);
    TrailingNewline(world);
    CountAppend(hello + [LF], world + [LF]);
  }

  /** A non-empty run with no whitespace is one word and no line (LF is whitespace). */
  lemma {:induction false} WordRun(w: seq<Byte>)
    requires w != []
    requires forall i :: 0 <= i < |w| ==> !IsSpace(w[i])
    ensures Count(w) == CountResult(0, 1, |w|)
  {
    if |w| == 1 {
      assert w == [] + [w[0]];
      assert w[..0] == [];
      assert Newlines(w) == 0;
      WordsSnoc([], w[0]);
      assert Words([]) == 0;
      assert Words(w) == 1;
    } else {
      var p := w[..|w| - 1];
      assert w == p + [w[|w| - 1]];
      WordRun(p);
      WordsSnoc(p, w[|w| - 1]);
    }
  }
}
