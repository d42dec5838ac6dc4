/**
  The flag selection of `wc` and the rendering of one output line: the
  selected counts, each right-justified in a column of width 8 (`%8d`), then
  a space and the filename when there is one.
 */
module Report {
  import opened ByteCounter

  /** The four options `-l`, `-w`, `-c` and `-m`. */
  datatype Flags = Flags(countLines: bool, countWords: bool, countBytes: bool, localeBytes: bool)

  predicate NoneSet(f: Flags) {
    !f.countLines && !f.countWords && !f.countBytes && !f.localeBytes
  }

  /** With no option given every count is shown; otherwise the options stand. */
  function Defaulted(f: Flags): (g: Flags)
    ensures NoneSet(f) ==> g == Flags(true, true, true, true)
    ensures !NoneSet(f) ==> g == f
    ensures !NoneSet(g)
  {
    if NoneSet(f) then Flags(true, true, true, true) else f
  }

  /** Defaulting twice is defaulting once. */
  lemma DefaultedIdempotent(f: Flags)
    ensures Defaulted(Defaulted(f)) == Defaulted(f)
  {
  }

  // ---------------------------------------------------------------------
  // Decimal rendering

  const ColumnWidth: nat := 8

  function Digit(d: nat): (c: char)
    requires d < 10
    ensures '0' <= c <= '9'
  {
    "0123456789"[d]
  }

  predicate IsDigit(c: char) {
    '0' <= c <= '9'
  }

  function DigitValue(c: char): (d: nat)
    requires IsDigit(c)
    ensures d < 10
  {
    c as int - '0' as int
  }

  /** The decimal digits of `n`, most significant first, without leading zeros. */
  function Decimal(n: nat): (s: string)
    ensures |s| >= 1
    ensures forall i :: 0 <= i < |s| ==> IsDigit(s[i])
    ensures s[0] == '0' ==> n == 0
  {
    if n < 10 then [Digit(n)] else Decimal(n / 10) + [Digit(n % 10)]
  }

  /** Reads a run of decimal digits back as a number. */
  function ParseDecimal(s: string): nat
    requires forall i :: 0 <= i < |s| ==> IsDigit(s[i])
  {
    if s == [] then 0
    else 10 * ParseDecimal(s[..|s| - 1]) + DigitValue(s[|s| - 1])
  }

  /** Rendering then reading gives the number back. */
  lemma {:induction false} DecimalRoundTrip(n: nat)
    ensures ParseDecimal(Decimal(n)) == n
  {
    if n >= 10 {
      DecimalRoundTrip(n / 10);
      var s := Decimal(n);
      assert s[..|s| - 1] == Decimal(n / 10);
    }
  }

  /** Numbers below 10^8 need at most eight digits, so they fit their column. */
  lemma {:induction false} DecimalFits(n: nat, width: nat, bound: nat)
    requires width >= 1 && bound == Pow10(width) && n < bound
    ensures |Decimal(n)| <= width
  {
    if n >= 10 {
      DecimalFits(n / 10, width - 1, Pow10(width - 1));
    }
  }

  function Pow10(k: nat): (p: nat)
    ensures p >= 1
  {
    if k == 0 then 1 else 10 * Pow10(k - 1)
  }

  function Spaces(k: nat): (s: string)
    ensures |s| == k && forall i :: 0 <= i < k ==> s[i] == ' '
  {
    if k == 0 then "" else Spaces(k - 1) + " "
  }

  /** `%8d`: the decimal digits left-padded with spaces to width 8, never cut. */
  function Column(n: nat): string
  {
    var d := Decimal(n);
    if |d| < ColumnWidth then Spaces(ColumnWidth - |d|) + d else d
  }

  /** Reading a column: drop the padding spaces, parse the digits. */
  function ParseColumn(s: string): nat
  {
    if s != [] && s[0] == ' ' then ParseColumn(s[1..])
    else if forall i :: 0 <= i < |s| ==> IsDigit(s[i]) then ParseDecimal(s)
    else 0
  }

  /**
    A column is at least eight characters wide, ends with the full decimal
    rendering (no truncation), is padded with spaces only, and reads back
    as the number it renders.
   */
  lemma ColumnShape(n: nat)
    ensures |Column(n)| == if |Decimal(n)| < ColumnWidth then ColumnWidth else |Decimal(n)|
    ensures |Column(n)| >= ColumnWidth
    ensures Column(n)[|Column(n)| - |Decimal(n)|..] == Decimal(n)
    ensures forall i :: 0 <= i < |Column(n)| - |Decimal(n)| ==> Column(n)[i] == ' '
    ensures forall i :: 0 <= i < |Column(n)| ==> Column(n)[i] == ' ' || IsDigit(Column(n)[i])
    ensures ParseColumn(Column(n)) == n
  {
    var d := Decimal(n);
    var k: nat := if |d| < ColumnWidth then ColumnWidth - |d| else 0;
    assert Column(n) == Spaces(k) + d;
    DecimalRoundTrip(n);
    PaddedDigits(k, d);
  }

  /** Digits after `k` spaces: the layout of a column, and what it reads back as. */
  lemma PaddedDigits(k: nat, d: string)
    requires d != [] && forall i :: 0 <= i < |d| ==> IsDigit(d[i])
    ensures var c := Spaces(k) + d;
      && |c| == k + |d|
      && c[k..] == d
      && (forall i :: 0 <= i < k ==> c[i] == ' ')
      && (forall i :: 0 <= i < |c| ==> c[i] == ' ' || IsDigit(c[i]))
      && ParseColumn(c) == ParseDecimal(d)
  {
    var c := Spaces(k) + d;
    SkipPadding(k, d);
    forall i | 0 <= i < |c| ensures c[i] == ' ' || IsDigit(c[i]) {
      if i >= k {
        assert c[i] == d[i - k];
      }
    }
  }

  lemma {:induction false} SkipPadding(k: nat, d: string)
    requires d != [] && forall i :: 0 <= i < |d| ==> IsDigit(d[i])
    ensures ParseColumn(Spaces(k) + d) == ParseDecimal(d)
  {
    var s := Spaces(k) + d;
    if k > 0 {
      assert s[0] == ' ';
      assert s[1..] == Spaces(k - 1) + d by { SpacesCons(k); }
      assert ParseColumn(s) == ParseColumn(s[1..]);
      SkipPadding(k - 1, d);
    } else {
      assert s == d;
      assert ParseColumn(s) == ParseDecimal(d) by {
        assert !(s != [] && s[0] == ' ');
      }
    }
  }

  lemma {:induction false} SpacesCons(k: nat)
    requires k > 0
    ensures Spaces(k) == " " + Spaces(k - 1)
  {
  }

  // ---------------------------------------------------------------------
  // One output line

  /** The counts that the flags select, in the fixed order lines, words, bytes. */
  function Selected(f: Flags, r: CountResult): (vs: seq<nat>)
    ensures |vs| == (if f.countLines then 1 else 0) + (if f.countWords then 1 else 0)
                    + (if f.countBytes || f.localeBytes then 1 else 0)
    ensures f.countLines ==> vs[0] == r.lines
    ensures f.countWords ==> vs[if f.countLines then 1 else 0] == r.words
    ensures f.countBytes || f.localeBytes ==> vs[|vs| - 1] == r.bytes
  {
    (if f.countLines then [r.lines] else [])
    + (if f.countWords then [r.words] else [])
    + (if f.countBytes || f.localeBytes then [r.bytes] else [])
  }

  function Concat(parts: seq<string>): string
  {
    if parts == [] then "" else Concat(parts[..|parts| - 1]) + parts[|parts| - 1]
  }

  /** The columns of the given counts, side by side. */
  function Columns(vs: seq<nat>): string
  {
    Concat(seq(|vs|, i requires 0 <= i < |vs| => Column(vs[i])))
  }

  /** `printCounts`: the selected columns, then " " and the filename if it is non-empty. */
  function FormatCounts(f: Flags, r: CountResult, filename: string): string
  {
    Columns(Selected(f, r)) + (if filename == "" then "" else " " + filename)
  }

  /**
    Any rendered line, whatever the size of the counts: at least eight
    characters per selected count, then exactly " " + filename when the name
    is non-empty, and nothing after the columns when it is empty.
   */
  lemma LineShape(f: Flags, r: CountResult, filename: string)
    ensures var line := FormatCounts(f, r, filename);
      && |line| >= 8 * |Selected(f, r)| + (if filename == "" then 0 else 1 + |filename|)
      && (filename != "" ==> line[|line| - |filename| - 1..] == " " + filename)
      && (filename == "" ==> line == Columns(Selected(f, r)))
  {
    var cols := Columns(Selected(f, r));
    ColumnsWidth(Selected(f, r));
    if filename != "" {
      assert (cols + (" " + filename))[|cols|..] == " " + filename;
    }
  }

  /** Columns side by side are at least eight characters per count. */
  lemma ColumnsWidth(vs: seq<nat>)
    ensures |Columns(vs)| >= 8 * |vs|
  {
    var parts := seq(|vs|, i requires 0 <= i < |vs| => Column(vs[i]));
    forall i | 0 <= i < |parts| ensures |parts[i]| >= 8 {
      ColumnShape(vs[i]);
    }
    ConcatWidth(parts);
  }

  lemma {:induction false} ConcatWidth(parts: seq<string>)
    requires forall i :: 0 <= i < |parts| ==> |parts[i]| >= 8
    ensures |Concat(parts)| >= 8 * |parts|
  {
    if parts != [] {
      ConcatWidth(parts[..|parts| - 1]);
    }
  }

  predicate FitsColumns(vs: seq<nat>) {
    forall k :: 0 <= k < |vs| ==> vs[k] < Pow10(ColumnWidth)
  }

  lemma ColumnFits(n: nat)
    requires n < Pow10(ColumnWidth)
    ensures |Column(n)| == 8
  {
    DecimalFits(n, ColumnWidth, Pow10(ColumnWidth));
  }

  /** Pieces of width 8 put side by side: the k-th occupies characters 8k to 8k+8. */
  lemma {:induction false} ConcatLayout(parts: seq<string>, k: nat)
    requires forall i :: 0 <= i < |parts| ==> |parts[i]| == 8
    requires k < |parts|
    ensures |Concat(parts)| == 8 * |parts|
    ensures Concat(parts)[8 * k..8 * k + 8] == parts[k]
  {
    var last := |parts| - 1;
    var init := parts[..last];
    var front, back := Concat(init), parts[last];
    assert Concat(parts) == front + back;
    ConcatLength(parts);
    ConcatLength(init);
    if k < last {
      ConcatLayout(init, k);
      SliceOfLeft(front, back, 8 * k, 8 * k + 8);
    } else {
      SliceOfRight(front, back);
    }
  }

  lemma {:induction false} ConcatLength(parts: seq<string>)
    requires forall i :: 0 <= i < |parts| ==> |parts[i]| == 8
    ensures |Concat(parts)| == 8 * |parts|
  {
    if parts != [] {
      ConcatLength(parts[..|parts| - 1]);
    }
  }

  /** When every value fits, the k-th column occupies characters 8k to 8k+8. */
  lemma ColumnsLayout(vs: seq<nat>, k: nat)
    requires FitsColumns(vs)
    requires k < |vs|
    ensures |Columns(vs)| == 8 * |vs|
    ensures Columns(vs)[8 * k..8 * k + 8] == Column(vs[k])
  {
    var parts := seq(|vs|, i requires 0 <= i < |vs| => Column(vs[i]));
    forall i | 0 <= i < |parts| ensures |parts[i]| == 8 {
      ColumnFits(vs[i]);
    }
    ConcatLayout(parts, k);
  }

  lemma SliceOfRight(a: string, b: string)
    ensures (a + b)[|a|..|a| + |b|] == b
  {
  }

  lemma SliceOfLeft(a: string, b: string, i: nat, j: nat)
    requires i <= j <= |a|
    ensures (a + b)[i..j] == a[i..j]
  {
  }

  /**
    Reading a rendered line back: with every count below 10^8 the line has
    exactly one 8-wide column per selected count, each parsing back to that
    count in order, followed by " " + filename exactly when the filename is non-empty.
   */
  lemma ReadBack(f: Flags, r: CountResult, filename: string, k: nat)
    requires FitsColumns(Selected(f, r))
    requires k < |Selected(f, r)|
    ensures var line := FormatCounts(f, r, filename);
      var w := 8 * |Selected(f, r)|;
      && |line| == w + (if filename == "" then 0 else 1 + |filename|)
      && ParseColumn(line[8 * k..8 * k + 8]) == Selected(f, r)[k]
      && line[w..] == (if filename == "" then "" else " " + filename)
  {
    var vs := Selected(f, r);
    var cols := Columns(vs);
    var tail := if filename == "" then "" else " " + filename;
    assert FormatCounts(f, r, filename) == cols + tail;
    assert |cols| == 8 * |vs| && cols[8 * k..8 * k + 8] == Column(vs[k]) by { ColumnsLayout(vs, k); }
    SliceOfLeft(cols, tail, 8 * k, 8 * k + 8);
    assert ParseColumn(Column(vs[k])) == vs[k] by { ColumnShape(vs[k]); }
    assert (cols + tail)[|cols|..] == tail;
  }

  /** After defaulting at least one count is printed; with no option all three are. */
  lemma DefaultedPrintsSomething(f: Flags, r: CountResult)
    ensures |Selected(Defaulted(f), r)| >= 1
    ensures NoneSet(f) ==> Selected(Defaulted(f), r) == [r.lines, r.words, r.bytes]
  {
  }

  /** `-c` and `-m` together still print the byte count once. */
  lemma BytesPrintedOnce(r: CountResult)
    ensures Selected(Flags(false, false, true, true), r) == [r.bytes]
    ensures Selected(Flags(false, false, true, false), r) == Selected(Flags(false, false, false, true), r)
  {
  }
}
