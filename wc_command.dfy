/**
  The `wc` command: option defaulting, the single standard-input source, and
  the per-file report with its running total.

  Reading is outside the model. A run receives, for each named file, what
  reading it produced (`ReadOutcome`), and for standard input its bytes;
  printing becomes the returned sequences of output and error lines.
 */
module Wc {
  import opened Wrappers
  import opened ByteCounter
  import opened Report

  /** What reading one named file produced: its bytes, or the failure's message. */
  datatype ReadOutcome = Contents(bytes: seq<Byte>) | ReadFailure(message: string)

  /** The error line for a file that could not be read. */
  function ErrorLine(name: string, message: string): (line: string)
    ensures |line| == 6 + |name| + |message|
    ensures line[..4] == "wc: " && line[4..4 + |name|] == name
    ensures line[4 + |name|..] == ": " + message
  {
    "wc: " + name + ": " + message
  }

  /** One output line for each file that was read, in the order named. */
  function FileLines(f: Flags, names: seq<string>, outcomes: seq<ReadOutcome>): seq<string>
    requires |names| == |outcomes|
  {
    if outcomes == [] then []
    else
      var i := |outcomes| - 1;
      FileLines(f, names[..i], outcomes[..i])
      + (match outcomes[i]
         case Contents(b) => [FormatCounts(f, Count(b), names[i])]
         case ReadFailure(_) => [])
  }

  /** One error line for each file that could not be read, in the order named. */
  function ErrorLines(names: seq<string>, outcomes: seq<ReadOutcome>): seq<string>
    requires |names| == |outcomes|
  {
    if outcomes == [] then []
    else
      var i := |outcomes| - 1;
      ErrorLines(names[..i], outcomes[..i])
      + (match outcomes[i]
         case Contents(_) => []
         case ReadFailure(m) => [ErrorLine(names[i], m)])
  }

  /** The field-wise sum of the counts of the files that were read. */
  function SuccessTotal(outcomes: seq<ReadOutcome>): CountResult
  {
    if outcomes == [] then Zero
    else
      var i := |outcomes| - 1;
      match outcomes[i]
      case Contents(b) => Add(SuccessTotal(outcomes[..i]), Count(b))
      case ReadFailure(_) => SuccessTotal(outcomes[..i])
  }

  /** Standard output of a run over named files: the file lines, then a total line when more than one file was named. */
  function FilesReport(f: Flags, names: seq<string>, outcomes: seq<ReadOutcome>): seq<string>
    requires |names| == |outcomes|
  {
    FileLines(f, names, outcomes) + (if |names| > 1 then [FormatCounts(f, SuccessTotal(outcomes), "total")] else [])
  }

  /** The command object; picocli fills the option fields and the file list. */
  class WcCommand {
    var countLines: bool
    var countWords: bool
    var countBytes: bool
    var localeBytes: bool
    var files: seq<string>

    constructor (options: Flags, files: seq<string>)
      ensures Options() == options && this.files == files
    {
      countLines := options.countLines;
      countWords := options.countWords;
      countBytes := options.countBytes;
      localeBytes := options.localeBytes;
      this.files := files;
    }

    function Options(): Flags
      reads this
    {
      Flags(countLines, countWords, countBytes, localeBytes)
    }

    /**
      Runs the command: defaults the options in place, then counts standard
      input when no file is named and the named files otherwise. Always exits 0.
     */
    method Call(stdin: seq<Byte>, outcomes: seq<ReadOutcome>) returns (exitCode: int, out: seq<string>, err: seq<string>)
      requires |outcomes| == |files|
      modifies this
      ensures files == old(files)
      ensures Options() == Defaulted(old(Options()))
      ensures exitCode == 0
      ensures files == [] ==> out == [FormatCounts(Options(), Count(stdin), "")] && err == []
      ensures files != [] ==> out == FilesReport(Options(), files, outcomes) && err == ErrorLines(files, outcomes)
    {
      if !countLines && !countWords && !countBytes && !localeBytes {
        countLines, countWords, countBytes, localeBytes := true, true, true, true;
      }
      if files == [] {
        var _, o := ProcessStdin(stdin);
        out, err := o, [];
      } else {
        var _, o, e := ProcessFiles(outcomes);
        out, err := o, e;
      }
      exitCode := 0;
    }

    /** Counts the whole of standard input and prints it without a name. */
    method ProcessStdin(stdin: seq<Byte>) returns (result: CountResult, out: seq<string>)
      ensures result == Count(stdin)
      ensures out == [FormatCounts(Options(), result, "")]
    {
      result := CountContent(stdin);
      out := [FormatCounts(Options(), result, "")];
    }

    /**
      Counts each named file independently; a failed read is reported on the
      error lines and skipped. The total is printed, and returned, exactly
      when more than one file was named, however many of them were read.
     */
    method ProcessFiles(outcomes: seq<ReadOutcome>) returns (totalResult: Option<CountResult>, out: seq<string>, err: seq<string>)
      requires |outcomes| == |files|
      ensures out == FilesReport(Options(), files, outcomes)
      ensures err == ErrorLines(files, outcomes)
      ensures totalResult == if |files| > 1 then Some(SuccessTotal(outcomes)) else None
    {
      var totalLines: nat, totalWords: nat, totalBytes: nat := 0, 0, 0;
      out, err := [], [];
      for i := 0 to |files|
        invariant CountResult(totalLines, totalWords, totalBytes) == SuccessTotal(outcomes[..i])
        invariant out == FileLines(Options(), files[..i], outcomes[..i])
        invariant err == ErrorLines(files[..i], outcomes[..i])
      {
        assert files[..i + 1][..i] == files[..i] && outcomes[..i + 1][..i] == outcomes[..i];
        match outcomes[i]
        case Contents(bytes) =>
          var result := CountContent(bytes);
          out := out + [FormatCounts(Options(), result, files[i])];
          totalLines := totalLines + result.lines;
          totalWords := totalWords + result.words;
          totalBytes := totalBytes + result.bytes;
        case ReadFailure(message) =>
          err := err + [ErrorLine(files[i], message)];
      }
      assert files[..|files|] == files && outcomes[..|outcomes|] == outcomes;
      totalResult := None;
      if |files| > 1 {
        totalResult := Some(CountResult(totalLines, totalWords, totalBytes));
        out := out + [FormatCounts(Options(), totalResult.value, "total")];
      }
    }
  }

  // ---------------------------------------------------------------------
  // Properties of the report

  /** Reports over two runs of named files, one after the other, concatenate. */
  lemma ReportAppend(f: Flags, n1: seq<string>, r1: seq<ReadOutcome>, n2: seq<string>, r2: seq<ReadOutcome>)
    requires |n1| == |r1| && |n2| == |r2|
    ensures FileLines(f, n1 + n2, r1 + r2) == FileLines(f, n1, r1) + FileLines(f, n2, r2)
    ensures ErrorLines(n1 + n2, r1 + r2) == ErrorLines(n1, r1) + ErrorLines(n2, r2)
    ensures SuccessTotal(r1 + r2) == Add(SuccessTotal(r1), SuccessTotal(r2))
  {
    FileLinesAppend(f, n1, r1, n2, r2);
    ErrorLinesAppend(n1, r1, n2, r2);
    SuccessTotalAppend(r1, r2);
  }

  lemma {:induction false} FileLinesAppend(f: Flags, n1: seq<string>, r1: seq<ReadOutcome>, n2: seq<string>, r2: seq<ReadOutcome>)
    requires |n1| == |r1| && |n2| == |r2|
    ensures FileLines(f, n1 + n2, r1 + r2) == FileLines(f, n1, r1) + FileLines(f, n2, r2)
    decreases |r2|
  {
    if r2 == [] {
      assert n1 + n2 == n1 && r1 + r2 == r1;
    } else {
      var i := |r2| - 1;
      var j := |r1 + r2| - 1;
      assert (n1 + n2)[..j] == n1 + n2[..i];
      assert (r1 + r2)[..j] == r1 + r2[..i];
      assert (n1 + n2)[j] == n2[i] && (r1 + r2)[j] == r2[i];
      FileLinesAppend(f, n1, r1, n2[..i], r2[..i]);
    }
  }

  lemma {:induction false} ErrorLinesAppend(n1: seq<string>, r1: seq<ReadOutcome>, n2: seq<string>, r2: seq<ReadOutcome>)
    requires |n1| == |r1| && |n2| == |r2|
    ensures ErrorLines(n1 + n2, r1 + r2) == ErrorLines(n1, r1) + ErrorLines(n2, r2)
    decreases |r2|
  {
    if r2 == [] {
      assert n1 + n2 == n1 && r1 + r2 == r1;
    } else {
      var i := |r2| - 1;
      var j := |r1 + r2| - 1;
      assert (n1 + n2)[..j] == n1 + n2[..i];
      assert (r1 + r2)[..j] == r1 + r2[..i];
      assert (n1 + n2)[j] == n2[i] && (r1 + r2)[j] == r2[i];
      ErrorLinesAppend(n1, r1, n2[..i], r2[..i]);
    }
  }

  lemma {:induction false} SuccessTotalAppend(r1: seq<ReadOutcome>, r2: seq<ReadOutcome>)
    ensures SuccessTotal(r1 + r2) == Add(SuccessTotal(r1), SuccessTotal(r2))
    decreases |r2|
  {
    if r2 == [] {
      assert r1 + r2 == r1;
    } else {
      var i := |r2| - 1;
      var r := r1 + r2;
      assert r[..|r| - 1] == r1 + r2[..i];
      assert r[|r| - 1] == r2[i];
      SuccessTotalAppend(r1, r2[..i]);
      match r2[i]
      case Contents(b) =>
        var c := Count(b);
        assert SuccessTotal(r) == Add(SuccessTotal(r1 + r2[..i]), c);
        assert SuccessTotal(r2) == Add(SuccessTotal(r2[..i]), c);
      case ReadFailure(_) =>
    }
  }

  /**
    A file that fails to read adds no output line and nothing to the total;
    it adds exactly its error line, in its place among the errors.
   */
  lemma FailureContributesNothing(f: Flags, names: seq<string>, outcomes: seq<ReadOutcome>, k: nat, name: string, message: string)
    requires |names| == |outcomes| && k <= |outcomes|
    ensures var names' := names[..k] + [name] + names[k..];
      var outcomes' := outcomes[..k] + [ReadFailure(message)] + outcomes[k..];
      && FileLines(f, names', outcomes') == FileLines(f, names, outcomes)
      && SuccessTotal(outcomes') == SuccessTotal(outcomes)
      && ErrorLines(names', outcomes') == ErrorLines(names[..k], outcomes[..k]) + [ErrorLine(name, message)] + ErrorLines(names[k..], outcomes[k..])
  {
    var n1, r1 := names[..k], outcomes[..k];
    var n2, r2 := names[k..], outcomes[k..];
    var one, fail := [name], [ReadFailure(message)];
    var names', outcomes' := n1 + one + n2, r1 + fail + r2;
    assert names == n1 + n2 && outcomes == r1 + r2;
    assert FileLines(f, one, fail) == [] && ErrorLines(one, fail) == [ErrorLine(name, message)] by {
      assert one[..0] == [] && fail[..0] == [];
    }
    assert SuccessTotal(fail) == Zero by { assert fail[..0] == []; }
    assert FileLines(f, n1 + one, r1 + fail) == FileLines(f, n1, r1) by {
      FileLinesAppend(f, n1, r1, one, fail);
    }
    assert FileLines(f, names', outcomes') == FileLines(f, names, outcomes) by {
      FileLinesAppend(f, n1 + one, r1 + fail, n2, r2);
      FileLinesAppend(f, n1, r1, n2, r2);
    }
    assert SuccessTotal(outcomes') == SuccessTotal(outcomes) by {
      SuccessTotalAppend(r1, fail);
      SuccessTotalAppend(r1 + fail, r2);
      SuccessTotalAppend(r1, r2);
    }
    assert ErrorLines(names', outcomes') == ErrorLines(n1, r1) + [ErrorLine(name, message)] + ErrorLines(n2, r2) by {
      ErrorLinesAppend(n1, r1, one, fail);
      ErrorLinesAppend(n1 + one, r1 + fail, n2, r2);
    }
  }

  /** Every named file yields exactly one line, on standard output or on the error lines. */
  lemma {:induction false} OneLinePerFile(f: Flags, names: seq<string>, outcomes: seq<ReadOutcome>)
    requires |names| == |outcomes|
    ensures |FileLines(f, names, outcomes)| + |ErrorLines(names, outcomes)| == |names|
  {
    if outcomes != [] {
      var i := |outcomes| - 1;
      OneLinePerFile(f, names[..i], outcomes[..i]);
    }
  }

  /** When every file is read, the i-th output line is the i-th file's counts and name. */
  lemma {:induction false} AllReadLines(f: Flags, names: seq<string>, outcomes: seq<ReadOutcome>)
    requires |names| == |outcomes|
    requires forall i :: 0 <= i < |outcomes| ==> outcomes[i].Contents?
    ensures |FileLines(f, names, outcomes)| == |outcomes|
    ensures forall i :: 0 <= i < |outcomes| ==>
      FileLines(f, names, outcomes)[i] == FormatCounts(f, Count(outcomes[i].bytes), names[i])
    ensures ErrorLines(names, outcomes) == []
  {
    if outcomes != [] {
      var i := |outcomes| - 1;
      AllReadLines(f, names[..i], outcomes[..i]);
    }
  }

  /**
    When every named file fails, nothing is counted; with two or more names
    the report is then a single total line of zeros.
   */
  lemma {:induction false} AllFailed(f: Flags, names: seq<string>, outcomes: seq<ReadOutcome>)
    requires |names| == |outcomes|
    requires forall i :: 0 <= i < |outcomes| ==> outcomes[i].ReadFailure?
    ensures FileLines(f, names, outcomes) == []
    ensures SuccessTotal(outcomes) == Zero
    ensures |names| > 1 ==> FilesReport(f, names, outcomes) == [FormatCounts(f, Zero, "total")]
  {
    if outcomes != [] {
      var i := |outcomes| - 1;
      AllFailed(f, names[..i], outcomes[..i]);
    }
  }

  /**
    The lines and bytes of the total are those of all the read contents taken
    together (words are not: a word may straddle two files).
   */
  lemma {:induction false} TotalLinesAndBytes(outcomes: seq<ReadOutcome>)
    requires forall i :: 0 <= i < |outcomes| ==> outcomes[i].Contents?
    ensures SuccessTotal(outcomes).lines == Newlines(AllContents(outcomes))
    ensures SuccessTotal(outcomes).bytes == |AllContents(outcomes)|
  {
    if outcomes != [] {
      var i := |outcomes| - 1;
      TotalLinesAndBytes(outcomes[..i]);
      NewlinesAppend(AllContents(outcomes[..i]), outcomes[i].bytes);
    }
  }

  function AllContents(outcomes: seq<ReadOutcome>): seq<Byte>
    requires forall i :: 0 <= i < |outcomes| ==> outcomes[i].Contents?
  {
    if outcomes == [] then [] else AllContents(outcomes[..|outcomes| - 1]) + outcomes[|outcomes| - 1].bytes
  }

  /** Two files counting (1, 4, 23) and (2, 6, 41): two file lines and a total of (3, 10, 64). */
  lemma TwoFilesTotal(f: Flags, n1: string, b1: seq<Byte>, n2: string, b2: seq<Byte>)
    requires Count(b1) == CountResult(1, 4, 23) && Count(b2) == CountResult(2, 6, 41)
    ensures SuccessTotal([Contents(b1), Contents(b2)]) == CountResult(3, 10, 64)
    ensures FilesReport(f, [n1, n2], [Contents(b1), Contents(b2)])
         == [FormatCounts(f, Count(b1), n1), FormatCounts(f, Count(b2), n2), FormatCounts(f, CountResult(3, 10, 64), "total")]
  {
    var names, outcomes := [n1, n2], [Contents(b1), Contents(b2)];
    assert names[..1] == [n1] && outcomes[..1] == [Contents(b1)];
    assert names[..1][..0] == [] && outcomes[..1][..0] == [];
    assert SuccessTotal(outcomes[..1]) == Add(Zero, Count(b1));
    assert SuccessTotal(outcomes) == Add(SuccessTotal(outcomes[..1]), Count(b2));
    assert FileLines(f, names[..1], outcomes[..1]) == [FormatCounts(f, Count(b1), n1)];
    assert FileLines(f, names, outcomes) == FileLines(f, names[..1], outcomes[..1]) + [FormatCounts(f, Count(b2), n2)];
  }
}
