# wc: a verified model of the counting engine

This project models the core of a Java clone of `wc`. It has four parts:

- The byte counter. One left-to-right pass over a byte array yields the `(lines, words, bytes)` triple.
- Option defaulting. When no flag is given, `-l`, `-w`, `-c` and `-m` are all switched on.
- The report. Each source gets one fixed-width line. The `total` line follows when more than one file was named.
- The command registry and the `Result` value type.

Modules:

- `ByteCounter` (`byte_counter.dfy`) holds the `Byte` type and the whitespace test. Java's `Character.isWhitespace` sees each byte as a signed `int`. So the whitespace bytes are 0x09–0x0D, 0x1C–0x1F and 0x20, and 0x80–0xFF are always word bytes. The module also holds reference definitions of each count. `Newlines` counts line-feed bytes. `Tokens` gives the maximal runs of non-whitespace bytes, and `Words` is how many there are. `CountContent` is the single scan, proved equal to them.
- `Report` (`report.dfy`) holds the flags and their defaulting, and the `%8d` column: decimal digits padded on the left to width 8, never truncated. `FormatCounts` renders one line; what a line contains is stated by `LineShape` for any counts and by `ReadBack` for counts below 10^8.
- `Wc` (`wc_command.dfy`) holds the `WcCommand` class. Its option fields are updated in place by `Call`, and `ProcessStdin` and `ProcessFiles` are modelled. It also holds the pure description of a run over named files: `FileLines`, `ErrorLines`, `SuccessTotal` and `FilesReport`.
- `Registry` (`command_registry.dfy`) holds the `CommandRegistry` class. It is a mutable map keyed by lower-cased names. A ghost history of the registrations made so far explains the map.
- `Api` (`result.dfy`) holds the immutable `Result` triple and its two factories.
- `Wrappers` (`wrappers.dfy`) holds `Option`, which stands for Java's `null`.

A run reads nothing and prints nothing; instead:

- Standard input is given to `Call` as a byte sequence.
- Each named file comes with the outcome of reading it (`ReadOutcome`): its bytes, or the failure's message.
- Standard output and standard error are returned as sequences of lines.

The total line follows the code, not the intuitive policy. It is printed whenever more than one file was *named*, even if every file failed to read; in that case it shows zeros (`AllFailed`).

## Model

| member | source | states |
|---|---|---|
| ByteCounter.Signed | src/main/java/com/groundedtako/coreutils/commands/WcCommand.java:113 | the widened byte lies in -128..127 and agrees with the unsigned byte modulo 256 |
| ByteCounter.IsSpace | src/main/java/com/groundedtako/coreutils/commands/WcCommand.java:113 | a byte is whitespace iff it is one of 0x09–0x0D, 0x1C–0x1F, 0x20; bytes 0x80–0xFF never are (they widen to negative ints) |
| ByteCounter.CountResult | src/main/java/com/groundedtako/coreutils/commands/WcCommand.java:159 | the result of one count: lines, words and bytes, as unbounded naturals |
| ByteCounter.CountContent | src/main/java/com/groundedtako/coreutils/commands/WcCommand.java:98-128 | the scan's triple is the length, the number of LF bytes and the number of maximal non-whitespace runs, including a run that reaches end of input |
| ByteCounter.NewlinesIsMultiplicity | src/main/java/com/groundedtako/coreutils/commands/WcCommand.java:106-110 | the line count is the multiplicity of byte 0x0A in the input |
| ByteCounter.NewlinesAppend | src/main/java/com/groundedtako/coreutils/commands/WcCommand.java:106-110 | line counts of adjacent pieces add up |
| ByteCounter.TokensAreWords | src/main/java/com/groundedtako/coreutils/commands/WcCommand.java:112-120 | every counted word is non-empty and holds no whitespace byte |
| ByteCounter.TokensCoverWordBytes | src/main/java/com/groundedtako/coreutils/commands/WcCommand.java:112-120 | the counted words, joined in order, are exactly the non-whitespace bytes of the input: no byte is lost, duplicated or reordered |
| ByteCounter.AllSpaceHasNoWords | src/main/java/com/groundedtako/coreutils/commands/WcCommand.java:112-125 | input made only of whitespace has zero words |
| ByteCounter.WordsSnoc | src/main/java/com/groundedtako/coreutils/commands/WcCommand.java:113-120 | one more byte adds a word exactly when it is a word byte after whitespace or at the start, which is what the `isWord` flag tracks |
| ByteCounter.WordsAppend | src/main/java/com/groundedtako/coreutils/commands/WcCommand.java:104-125 | word counts of adjacent pieces add up, less one when a word straddles the boundary |
| ByteCounter.CollapseWhitespace | src/main/java/com/groundedtako/coreutils/commands/WcCommand.java:113-117 | collapsing two consecutive whitespace bytes into one never changes the word count |
| ByteCounter.Add | src/main/java/com/groundedtako/coreutils/commands/WcCommand.java:82-84 | the total accumulates lines, words and bytes field by field |
| ByteCounter.CountAppend | src/main/java/com/groundedtako/coreutils/commands/WcCommand.java:98-128 | the triple of a concatenation follows from the triples of its parts and the bytes at the seam |
| ByteCounter.EmptyCount | src/main/java/com/groundedtako/coreutils/commands/WcCommand.java:98-127 | empty input counts as (0, 0, 0) |
| ByteCounter.TrailingNewline | src/main/java/com/groundedtako/coreutils/commands/WcCommand.java:106-125 | a final LF adds one line and one byte and no word, so an unterminated last line is not counted |
| ByteCounter.WordRun | src/main/java/com/groundedtako/coreutils/commands/WcCommand.java:118-125 | a non-empty run with no whitespace byte counts as one word and no line, even at end of input |
| ByteCounter.ThreeLines | src/test/java/com/groundedtako/coreutils/commands/WcCommandTest.java:251-270 | "Line 1\nLine 2\nLine 3\n" counts as 3 lines, 6 words, 21 bytes |
| ByteCounter.NumberedLineCount | src/test/java/com/groundedtako/coreutils/commands/WcCommandTest.java:254 | a line "Line d\n" is one line, two words and seven bytes |
| ByteCounter.ThreeNumberedLines | src/test/java/com/groundedtako/coreutils/commands/WcCommandTest.java:254-265 | any three such lines count as 3 lines, 6 words, 21 bytes |
| ByteCounter.TwoLines | src/test/java/com/groundedtako/coreutils/commands/WcCommandTest.java:64-126 | "Hello\nWorld\n" counts as 2 lines, 2 words, 12 bytes |
| Report.Defaulted | src/main/java/com/groundedtako/coreutils/commands/WcCommand.java:38-41 | with no flag set all four flags become true; otherwise the flags are unchanged; never all false afterwards |
| Report.DefaultedIdempotent | src/main/java/com/groundedtako/coreutils/commands/WcCommand.java:38-41 | defaulting flags that were already defaulted changes nothing |
| Report.DefaultedPrintsSomething | src/main/java/com/groundedtako/coreutils/commands/WcCommand.java:38-41 | after defaulting at least one count is printed; with no flag, lines, words and bytes are |
| Report.BytesPrintedOnce | src/main/java/com/groundedtako/coreutils/commands/WcCommand.java:135 | `-c` and `-m` select the same single byte column, once even when both are given |
| Report.Decimal | src/main/java/com/groundedtako/coreutils/commands/WcCommand.java:133-135 | the rendering of a count is a non-empty run of digits without a leading zero |
| Report.DecimalRoundTrip | src/main/java/com/groundedtako/coreutils/commands/WcCommand.java:133-135 | the digits read back as the number rendered |
| Report.DecimalFits | src/main/java/com/groundedtako/coreutils/commands/WcCommand.java:133-135 | a number below 10^w has at most w digits |
| Report.ColumnShape | src/main/java/com/groundedtako/coreutils/commands/WcCommand.java:133-135 | a `%8d` column is max(8, digits) wide, is padded with spaces only, ends with all the digits (never truncated) and reads back as the count |
| Report.ColumnsLayout | src/main/java/com/groundedtako/coreutils/commands/WcCommand.java:133-135 | with counts below 10^8 the k-th column occupies characters 8k to 8k+8 |
| Report.Selected | src/main/java/com/groundedtako/coreutils/commands/WcCommand.java:133-135 | the printed counts are lines, words and bytes in that order, each present iff its flag is set, bytes once when `-c` or `-m` (or both) is set |
| Report.LineShape | src/main/java/com/groundedtako/coreutils/commands/WcCommand.java:130-141 | for any counts, a rendered line has at least eight characters per selected count and ends with " " + name when the name is non-empty; with an empty name it is just the columns |
| Report.ReadBack | src/main/java/com/groundedtako/coreutils/commands/WcCommand.java:130-141 | when every selected count is below 10^8, the line holds exactly one 8-wide column per selected count, in order lines, words, bytes, each reading back as its count, then " " + name iff the name is non-empty; a count of 10^8 or more widens its column, so this read-back does not hold for it |
| Wc.ErrorLine | src/main/java/com/groundedtako/coreutils/commands/WcCommand.java:86 | an error line is "wc: ", the file name, ": " and the failure's message |
| Wc.WcCommand.constructor | src/main/java/com/groundedtako/coreutils/commands/WcCommand.java:21-34 | a command starts with the parsed options and file list |
| Wc.WcCommand.Call | src/main/java/com/groundedtako/coreutils/commands/WcCommand.java:37-52 | the options are defaulted in place; with no file, standard input is counted and printed without a name; otherwise the file report; exit code 0 |
| Wc.WcCommand.ProcessStdin | src/main/java/com/groundedtako/coreutils/commands/WcCommand.java:54-68 | standard input's triple is its count, printed as one unnamed line |
| Wc.WcCommand.ProcessFiles | src/main/java/com/groundedtako/coreutils/commands/WcCommand.java:70-96 | the output is the file lines followed by a total line, and the total is returned, iff more than one file was named; failed files produce error lines only |
| Wc.ReportAppend | src/main/java/com/groundedtako/coreutils/commands/WcCommand.java:76-88 | files are processed independently: output, errors and total of a run split at any point are those of the two parts |
| Wc.FailureContributesNothing | src/main/java/com/groundedtako/coreutils/commands/WcCommand.java:85-87 | a file that fails to read adds no output line and nothing to the total, only its error line in its place |
| Wc.OneLinePerFile | src/main/java/com/groundedtako/coreutils/commands/WcCommand.java:76-88 | every named file yields exactly one line, on output or on errors |
| Wc.AllReadLines | src/main/java/com/groundedtako/coreutils/commands/WcCommand.java:78-80 | when every file reads, the i-th output line is the i-th file's counts and name, and there are no errors |
| Wc.AllFailed | src/main/java/com/groundedtako/coreutils/commands/WcCommand.java:90-94 | when every file fails, nothing is counted, and with two or more names the output is a single total line of zeros |
| Wc.TotalLinesAndBytes | src/main/java/com/groundedtako/coreutils/commands/WcCommand.java:82-84 | when every named file was read, the total's lines and bytes are those of all the contents taken together |
| Wc.TwoFilesTotal | src/main/java/com/groundedtako/coreutils/commands/WcCommand.java:76-94 | two files counting (1, 4, 23) and (2, 6, 41) print their lines and a total of (3, 10, 64) |
| Registry.ToLower | src/main/java/com/groundedtako/coreutils/CommandRegistry.java:17 | lower-casing keeps the length and folds each letter A–Z to a–z |
| Registry.ToLowerIdempotent | src/main/java/com/groundedtako/coreutils/CommandRegistry.java:17-21 | a lower-cased name lower-cases to itself, so stored keys are their own lookup keys |
| Registry.DirectoryLookup | src/main/java/com/groundedtako/coreutils/CommandRegistry.java:16-22 | looking a lower-cased name up in the map built by the registrations gives the latest registration under a name with the same lower-cased form |
| Registry.DirectoryKeys | src/main/java/com/groundedtako/coreutils/CommandRegistry.java:24-26 | the map's keys are exactly the lower-cased forms of the registered names |
| Registry.RegisteredIff | src/main/java/com/groundedtako/coreutils/CommandRegistry.java:20-30 | a lookup finds a command iff some registration used a name with the same lower-cased form; never-registered names give none |
| Registry.RegisterThenGet | src/main/java/com/groundedtako/coreutils/CommandRegistry.java:16-22 | after registering under n, every name lower-casing like n finds that command |
| Registry.RegisterOther | src/main/java/com/groundedtako/coreutils/CommandRegistry.java:17 | registering under n leaves every name that lower-cases differently as it was |
| Registry.LastRegistrationWins | src/main/java/com/groundedtako/coreutils/CommandRegistry.java:17 | a second registration under the same lower-cased name silently replaces the first |
| Registry.CommandRegistry.constructor | src/main/java/com/groundedtako/coreutils/CommandRegistry.java:14 | a new registry is empty |
| Registry.CommandRegistry.Register | src/main/java/com/groundedtako/coreutils/CommandRegistry.java:16-18 | the map gains the command under the lower-cased name, overwriting, and the invariant is kept |
| Registry.CommandRegistry.Get | src/main/java/com/groundedtako/coreutils/CommandRegistry.java:20-22 | the result is the latest registration under the same lower-cased name, or none |
| Registry.CommandRegistry.HasCommand | src/main/java/com/groundedtako/coreutils/CommandRegistry.java:28-30 | true iff some registration used a name with the same lower-cased form, iff `Get` finds a command |
| Registry.CommandRegistry.GetCommandNames | src/main/java/com/groundedtako/coreutils/CommandRegistry.java:24-26 | the lower-cased forms of all registered names, each already lower-case and resolving through `Get`; the registry is only read |
| Api.Result.GetExitCode | src/main/java/com/groundedtako/coreutils/api/Result.java:17-19 | returns the exit code the value was built with |
| Api.Result.GetOutput | src/main/java/com/groundedtako/coreutils/api/Result.java:21-23 | returns the output the value was built with |
| Api.Result.GetError | src/main/java/com/groundedtako/coreutils/api/Result.java:25-27 | returns the error text the value was built with |
| Api.Result.Success | src/main/java/com/groundedtako/coreutils/api/Result.java:29-31 | exit code 0, the given output, empty error |
| Api.Result.Error | src/main/java/com/groundedtako/coreutils/api/Result.java:33-35 | the given code and error text, empty output |
| Api.GettersReturnArguments | src/main/java/com/groundedtako/coreutils/api/Result.java:11-27 | the getters return exactly the constructor's arguments |
| Api.FactoriesDistinct | src/main/java/com/groundedtako/coreutils/api/Result.java:29-35 | a success and an error coincide only for code 0 with empty output and error |
| Api.FactoriesInjective | src/main/java/com/groundedtako/coreutils/api/Result.java:29-35 | each factory's result determines its arguments |

## Left out

- Reading standard input in 8192-byte chunks (`processStdin`), and `Files.readAllBytes`, are I/O. Standard input is given as bytes. Each named file is given as the outcome of reading it.
- An `IOException` while reading standard input is not modelled. It would escape `call` and reach the argument-parsing library.
- Printing is not modelled. Output lines and error lines are returned as two separate sequences, so their interleaving on the terminal is not captured. The trailing line separator of `println`/`%n` is not part of a line.
- `file.getName()` is a path API. The name printed for a file is taken as given.
- `String.format("%8d")` is modelled only as decimal digits padded on the left with spaces to width 8. Java's formatter itself is not modelled.
- Registry.ToLower: models `toLowerCase` as ASCII lower-casing, because Java's version depends on the locale and on Unicode tables.
- `execute`, the picocli options and `Main` (static registry, `System.exit`, `showUsage`) are not modelled. They are argument parsing and process plumbing. Flags and file names enter through the `WcCommand` constructor.
- Wc.WcCommand.ProcessFiles: only an `IOException` from reading a file is caught. Any other failure, such as the `OutOfMemoryError` that `Files.readAllBytes` raises for a file over about 2 GiB or larger than the heap, escapes `processFiles` and `call` and ends the run after the lines of the earlier files, with no error line, no later files and no total line. `ReadOutcome` has no outcome for that, so `OneLinePerFile` and the rest of the run description hold only for runs where every read either succeeds or throws an `IOException`.
- Registry.CommandRegistry.HasCommand: Java's `HashMap` accepts a `null` command, after which `hasCommand` is true while `get` returns `null`. Commands here are values, so `HasCommand` agrees with `Get` finding a command; a registered `null` is not modelled.
- Registry.CommandRegistry.GetCommandNames: `getCommandNames` returns an unmodifiable live view of the key set, so later registrations show through it. The model returns the set of names at the moment of the call, a snapshot.
- `Command` has no behaviour of its own. The registry is generic in the command type.
- `getDescription` and `getUsage` return constant strings and are not modelled.
- Java `long` overflow of the counters and totals is not modelled. Counts are unbounded naturals.
- A `null` file name, message or `Result` string is not modelled. Every string is a value.
- Tests that read `src/test/resources/test.txt` are not modelled. That file is not part of this model.
