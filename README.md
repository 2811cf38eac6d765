# committed: commit-message rule checks, modelled in Dafny

`committed` checks a range of git commit messages against style rules and stops at the
first violation. This project models its rule engine:

- the three checks in `src/main.rs`: subject length, line length, and capitalization of the
  parsed subject or description;
- the per-commit loop of `run`, which fixes the order of the checks and fails fast;
- the configuration accessors of `src/config.rs`, each resolving an optional field to a
  fixed default.

Modules and files:

- `wrappers.dfy` (`Wrappers`): `Option` (with `unwrap_or`) and `Result`.
- `text.dfy` (`Text`): the text primitives, described below.
- `config.dfy` (`Config`): `Style`, `Config`, its four accessors and `Default`.
- `checks.dfy` (`Checks`): the three checks and their properties.
- `run.dfy` (`Run`): the per-commit verdict, the run loop and their properties.

`str::split('\n')` and `str::trim_end` are modelled exactly. `Split` always yields at least
one piece, and `JoinLines` is its inverse. The Unicode primitives are not implemented. They
are the three function fields of a `Unicode` value that every check takes as a parameter:

- extended grapheme cluster segmentation (Unicode Standard Annex #29, section 3);
- `char::is_uppercase`;
- `char::is_whitespace`.

Most properties hold for any choice of them. A few need `WellFormed(u)`, which states
facts the Unicode standard guarantees:

- the clusters concatenate back to the text and are nonempty;
- printable ASCII is one cluster per character;
- the case of ASCII letters, digits, punctuation, space, and U+00C5/U+00E5;
- space is whitespace, and no ASCII letter or digit is.

`AsciiUnicode` exhibits primitives that satisfy `WellFormed`, so the assumption is consistent.

The two commit-message grammars (`committed::conventional` and `committed::no_style`) are
not part of this model. A `Parsers` value supplies what each yields as the summary line (the
conventional description, the plain subject), and `Run.Summary` picks one by style.

The source's looping code is modelled as methods with loop invariants:

- `Checks.CheckLineLength`: the `for` over lines, with early exit;
- `Run.Run`: the fail-fast loop over commits.

Each method is proved equal to a ghost specification function (`CheckLines`, `RunVerdict`).
The contract of that function characterises the result: pass exactly when every item passes,
otherwise the error of the first failing item. The two straight-line checks are functions.

A failed check returns only that check's error, with no commit identity
(src/main.rs:102-116); the model does the same.

## Model

| member | source | states |
|---|---|---|
| `Wrappers.Option.UnwrapOr` | src/config.rs:17 | `unwrap_or` gives the held value when set and the default when unset |
| `Wrappers.First` | src/main.rs:31 | `.next()` on a fresh iterator is `None` exactly for an empty sequence, else its first item |
| `Text.Split` | src/main.rs:30 | `split('\n')` yields at least one piece, no piece contains a newline, and joining the pieces with newlines gives back the message |
| `Text.SplitJoinLines` | src/main.rs:46 | splitting undoes joining for newline-free pieces, so the lines the checks see are exactly the message's lines |
| `Text.SplitFirstIsFirstLine` | src/main.rs:29-31 | the first item of `split('\n')` is the text before the first newline |
| `Text.TrimEnd` | src/main.rs:33 | `trim_end` returns a prefix that does not end in whitespace, and everything it removes is whitespace |
| `Text.TrimEndIgnoresTrailingWhitespace` | src/main.rs:47 | appending whitespace to a line does not change what `trim_end` leaves |
| `Text.TrimEndIdempotent` | src/main.rs:33 | trimming an already trimmed line changes nothing |
| `Text.GraphemeCountBounds` | src/main.rs:34 | a text has no more grapheme clusters than characters, and zero clusters exactly when it is empty |
| `Config.Config.SubjectLength` | src/config.rs:16-18 | an unset subject length resolves to 50; a set value, including 0, is returned unchanged |
| `Config.Config.SubjectCapitalized` | src/config.rs:20-22 | an unset capitalization flag resolves to true; a set value is returned unchanged |
| `Config.Config.LineLength` | src/config.rs:24-26 | an unset line length resolves to 72; a set value, including 0, is returned unchanged |
| `Config.Config.Style` | src/config.rs:28-30 | an unset style resolves to `Conventional`; a set value is returned unchanged |
| `Config.Default` | src/config.rs:7-13 | the derived default leaves every field unset, so the accessors give 50, true, 72 and `Conventional` |
| `Config.AccessorsIndependent` | src/config.rs:15-31 | setting one field gives that accessor the new value and leaves the other three resolved values unchanged |
| `Checks.CheckSubjectLength` | src/main.rs:28-43 | passes iff the trimmed first line has at most `max_length` clusters; a count equal to the limit passes; the only error is the length error, with the count and the limit |
| `Checks.EmptyCommitUnreachable` | src/main.rs:29-32 | the "Commit cannot be empty" error never occurs, and an empty message passes every limit |
| `Checks.SubjectLengthIgnoresBody` | src/main.rs:29-31 | text after the first newline never changes the subject-length verdict |
| `Checks.ShortSubjectPasses` | src/main.rs:33-35 | a first line with no more characters than the limit always passes |
| `Checks.SubjectLengthBoundary` | src/main.rs:34-35 | "Fix bug" (7 clusters) passes a limit of 7 and fails a limit of 6, reporting 7 against 6 |
| `Checks.CheckLines` | src/main.rs:46-57 | the line-length verdict passes iff every trimmed line has at most `max_length` clusters; otherwise it reports the count of the first line over the limit |
| `Checks.CheckLineLength` | src/main.rs:45-58 | the loop over lines with early exit returns exactly the verdict `CheckLines` gives for the message's lines |
| `Checks.LineLengthVerdict` | src/main.rs:46-56 | the line-length check of a message passes iff every one of its lines fits |
| `Checks.LineLengthFirstOffender` | src/main.rs:46-55 | when line k is over the limit and all earlier lines fit, the reported error carries line k's count |
| `Checks.LineLengthImpliesSubjectLength` | src/main.rs:28-57 | if the line-length check passes with limit L, the subject-length check passes with limit L |
| `Checks.LengthVerdictsIgnoreTrailingWhitespace` | src/main.rs:33-47 | two messages whose lines are equal once trimmed get the same subject-length and line-length verdicts |
| `Checks.PaddingPreservesLengthVerdicts` | src/main.rs:33-47 | padding any line of a message with whitespace changes neither length verdict |
| `Checks.CheckCapitalizedSubject` | src/main.rs:60-69 | passes iff the subject is nonempty and its first character is uppercase; an empty subject gives the empty-subject error, otherwise the error names the subject |
| `Checks.CapitalizationExamples` | src/main.rs:60-68 | "Ångström" passes; "ångström", "3 fixes" and "-fix" fail naming the subject; "" fails as empty |
| `Run.Summary` | src/main.rs:98-110 | the capitalization check reads the conventional grammar's description under `Conventional` and the plain grammar's subject under `NoStyle` |
| `Run.CommitVerdict` | src/main.rs:98-117 | a commit passes iff capitalization holds (when enabled), the subject fits (when its limit is not 0) and every line fits (when its limit is not 0) |
| `Run.RunVerdict` | src/main.rs:96-120 | a run returns 0 iff every commit passes; otherwise it returns the error of the first failing commit |
| `Run.Run` | src/main.rs:92-120 | the loop that resolves the settings and checks the commits in order returns exactly `RunVerdict` |
| `Run.CapitalizationCheckedFirst` | src/main.rs:101-103 | when capitalization is enabled and fails, that is the commit's error whatever the lengths |
| `Run.SubjectCheckedBeforeLines` | src/main.rs:112-116 | when capitalization passes or is off, a subject over a nonzero limit is reported before any line-length error |
| `Run.LinesCheckedLast` | src/main.rs:115-117 | when capitalization and subject length pass or are off and the line limit is not 0, the commit's verdict is the line-length verdict |
| `Run.DisabledChecksNeverFail` | src/main.rs:101-117 | a limit of 0 never yields that length error, capitalization off never yields a capitalization error, and with all three off every commit passes |
| `Run.RunStopsAtFirstFailure` | src/main.rs:96-118 | once some commits fail, the commits after them never change the result |
| `Run.EmptyRangePasses` | src/main.rs:96-120 | an empty commit range returns 0 |
| `Run.DefaultConfigRejectsLowercaseDescription` | src/main.rs:92-103 | with the default configuration, "fix: something" (description "something") fails capitalization |

## Left out

- Command-line parsing (`Options`, structopt): argument handling only.
- `load_toml` and the lookup of `committed.toml`: filesystem I/O and TOML deserialization. The model takes a `Config` value.
- Repository access: `canonicalize`, `git2::Repository::discover`, `workdir` (the bare-repository error) and `git::RevSpec`. The `git` module is not part of this model. The commit range is an input sequence of message strings, in resolution order.
- The conventional and plain grammars: their source is not part of this model. `Parsers` supplies the parsed description and subject as functions of the message, and a parse failure (an `unwrap` panic in the source) is not modelled.
- `commit.message().unwrap()` (a message that is not valid UTF-8), `run().unwrap()` and `std::process::exit`: process termination. `Run.Run` returns the `Result` that `run` returns.
- Unicode data: the grapheme segmentation tables and the case and whitespace properties are abstract parameters. The model proves nothing about which code-point sequences form one cluster, for example an emoji sequence or a letter with a combining mark.
- Error messages are datatype constructors that carry their values (count, limit, subject), not formatted strings.
- `usize` is modelled as `nat`. Limits and counts are only compared, never computed with, so no width matters.
- `Style::None` is named `NoStyle`, so that it does not clash with `Option`'s `None`.
