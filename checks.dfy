/**
 * The three rule checks applied to one commit message: subject length, line length and
 * capitalization of the parsed subject or description.
 */
module Checks {
  import opened Wrappers
  import opened Text

  /** Why a check rejected a message. */
  datatype CheckError =
    | CommitEmpty                                   // "Commit cannot be empty"
    | SubjectTooLong(count: nat, maxLength: nat)    // "Commit subject is {count}, exceeding the max length of {max}"
    | LineTooLong(count: nat, maxLength: nat)       // "Commit line is {count}, exceeding the max length of {max}"
    | SubjectEmpty                                  // "Subject cannot be empty"
    | NotCapitalized(subject: string)               // "Subject must be capitalized: `{subject}`"

  /** The length that counts for a line: its grapheme clusters once trailing whitespace is trimmed. */
  function LineCount(u: Unicode, line: string): nat
  {
    GraphemeCount(u, TrimEnd(u, line))
  }

  /**
   * `check_subject_length`: the first line, trimmed, may have at most `maxLength` clusters.
   * The error for a missing first line cannot happen: `split` always yields a piece.
   */
  function CheckSubjectLength(u: Unicode, message: string, maxLength: nat): (r: Result<(), CheckError>)
    ensures r.Ok? <==> LineCount(u, FirstLine(message)) <= maxLength
    ensures r.Err? ==> r.error == SubjectTooLong(LineCount(u, FirstLine(message)), maxLength)
  {
    SplitFirstIsFirstLine(message);
    match First(Split(message))
    case None => Err(CommitEmpty)
    case Some(subject) =>
      var subject := TrimEnd(u, subject);
      var count := GraphemeCount(u, subject);
      if maxLength < count then Err(SubjectTooLong(count, maxLength)) else Ok(())
  }

  /**
   * The verdict of `check_line_length`: every line, trimmed, has at most `maxLength` clusters,
   * and otherwise the count of the first line that has more.
   */
  ghost function CheckLines(u: Unicode, lines: seq<string>, maxLength: nat): (r: Result<(), CheckError>)
    ensures r.Ok? <==> AllLinesFit(u, lines, maxLength)
    ensures r.Err? ==>
      exists k :: 0 <= k < |lines| && FirstLongLine(u, lines, maxLength, k) &&
        r.error == LineTooLong(LineCount(u, lines[k]), maxLength)
  {
    if lines == [] then Ok(())
    else
      var count := LineCount(u, lines[0]);
      if maxLength < count then
        assert FirstLongLine(u, lines, maxLength, 0);
        Err(LineTooLong(count, maxLength))
      else
        var r := CheckLines(u, lines[1..], maxLength);
        assert forall i :: 1 <= i < |lines| ==> lines[i] == lines[1..][i - 1];
        if r.Err? then
          var k :| 0 <= k < |lines| - 1 && FirstLongLine(u, lines[1..], maxLength, k)
            && r.error == LineTooLong(LineCount(u, lines[1..][k]), maxLength);
          assert FirstLongLine(u, lines, maxLength, k + 1);
          r
        else
          r
  }

  /** Every line, trimmed, has at most `maxLength` clusters. */
  ghost predicate AllLinesFit(u: Unicode, lines: seq<string>, maxLength: nat)
  {
    forall i :: 0 <= i < |lines| ==> LineCount(u, lines[i]) <= maxLength
  }

  /** Line `k` is over the limit and every line before it is within it. */
  ghost predicate FirstLongLine(u: Unicode, lines: seq<string>, maxLength: nat, k: nat)
    requires k < |lines|
  {
    && maxLength < LineCount(u, lines[k])
    && forall j :: 0 <= j < k ==> LineCount(u, lines[j]) <= maxLength
  }

  /**
   * `check_line_length`: walks the lines of `message` in order and stops at the first
   * whose trimmed cluster count exceeds `maxLength`.
   */
  method CheckLineLength(u: Unicode, message: string, maxLength: nat) returns (r: Result<(), CheckError>)
    ensures r == CheckLines(u, Split(message), maxLength)
  {
    var lines := Split(message);
    var i := 0;
    while i < |lines|
      invariant 0 <= i <= |lines|
      invariant CheckLines(u, lines[i..], maxLength) == CheckLines(u, lines, maxLength)
    {
      var line := TrimEnd(u, lines[i]);
      var count := GraphemeCount(u, line);
      if maxLength < count {
        return Err(LineTooLong(count, maxLength));
      }
      assert lines[i..][1..] == lines[i + 1..];
      i := i + 1;
    }
    return Ok(());
  }

  /**
   * `check_capitalized_subject`: the subject must start with an uppercase character.  An
   * empty subject is an error of its own; a caseless first character (a digit, punctuation)
   * fails like a lower-case one.
   */
  function CheckCapitalizedSubject(u: Unicode, subject: string): (r: Result<(), CheckError>)
    ensures r.Ok? <==> subject != [] && u.isUppercase(subject[0])
    ensures r.Err? ==> r.error == (if subject == [] then SubjectEmpty else NotCapitalized(subject))
  {
    match First(subject)
    case None => Err(SubjectEmpty)
    case Some(first) =>
      if !u.isUppercase(first) then Err(NotCapitalized(subject)) else Ok(())
  }

  // ----- Properties of the checks -----

  /** The subject-length check never reports an empty commit, and an empty message passes any limit. */
  lemma EmptyCommitUnreachable(u: Unicode, message: string, maxLength: nat)
    ensures CheckSubjectLength(u, message, maxLength) != Err(CommitEmpty)
    ensures WellFormed(u) && message == [] ==> CheckSubjectLength(u, message, maxLength) == Ok(())
  {
  }

  /** Only the first line matters to the subject-length check: the text after the first newline can be anything. */
  lemma SubjectLengthIgnoresBody(u: Unicode, subject: string, body1: string, body2: string, maxLength: nat)
    requires '\n' !in subject
    ensures CheckSubjectLength(u, subject + ['\n'] + body1, maxLength)
         == CheckSubjectLength(u, subject + ['\n'] + body2, maxLength)
         == CheckSubjectLength(u, subject, maxLength)
  {
    FirstLineOfPrefix(subject, body1);
    FirstLineOfPrefix(subject, body2);
    FirstLineOfSingleLine(subject);
  }

  /** A subject with no more characters than the limit always passes (clusters never outnumber characters). */
  lemma ShortSubjectPasses(u: Unicode, message: string, maxLength: nat)
    requires WellFormed(u)
    requires |FirstLine(message)| <= maxLength
    ensures CheckSubjectLength(u, message, maxLength) == Ok(())
  {
    GraphemeCountBounds(u, TrimEnd(u, FirstLine(message)));
  }

  /** The verdict of `check_line_length` on `message`: it passes exactly when every line fits. */
  ghost function LineLengthVerdict(u: Unicode, message: string, maxLength: nat): (r: Result<(), CheckError>)
    ensures r.Ok? <==> AllLinesFit(u, Split(message), maxLength)
  {
    CheckLines(u, Split(message), maxLength)
  }

  /** If every line fits the limit then so does the subject, the first line being one of them. */
  lemma LineLengthImpliesSubjectLength(u: Unicode, message: string, maxLength: nat)
    requires LineLengthVerdict(u, message, maxLength).Ok?
    ensures CheckSubjectLength(u, message, maxLength) == Ok(())
  {
  }

  /** The line-length check fails exactly when some line, trimmed, exceeds the limit, and reports the first such line. */
  lemma LineLengthFirstOffender(u: Unicode, message: string, maxLength: nat, k: nat)
    requires k < |Split(message)| && FirstLongLine(u, Split(message), maxLength, k)
    ensures LineLengthVerdict(u, message, maxLength)
         == Err(LineTooLong(LineCount(u, Split(message)[k]), maxLength))
  {
  }

  /**
   * Whitespace at the end of a line never changes a length verdict: two messages whose lines
   * agree once trimmed get the same subject-length and the same line-length verdict.
   */
  lemma LengthVerdictsIgnoreTrailingWhitespace(u: Unicode, m1: string, m2: string, maxLength: nat)
    requires |Split(m1)| == |Split(m2)|
    requires forall i :: 0 <= i < |Split(m1)| ==> TrimEnd(u, Split(m1)[i]) == TrimEnd(u, Split(m2)[i])
    ensures CheckSubjectLength(u, m1, maxLength) == CheckSubjectLength(u, m2, maxLength)
    ensures LineLengthVerdict(u, m1, maxLength) == LineLengthVerdict(u, m2, maxLength)
  {
    SplitFirstIsFirstLine(m1);
    SplitFirstIsFirstLine(m2);
    CheckLinesAgree(u, Split(m1), Split(m2), maxLength);
  }

  lemma {:induction false} CheckLinesAgree(u: Unicode, a: seq<string>, b: seq<string>, maxLength: nat)
    requires |a| == |b|
    requires forall i :: 0 <= i < |a| ==> TrimEnd(u, a[i]) == TrimEnd(u, b[i])
    ensures CheckLines(u, a, maxLength) == CheckLines(u, b, maxLength)
  {
    if a != [] {
      CheckLinesAgree(u, a[1..], b[1..], maxLength);
    }
  }

  /** Padding line `k` of a message with whitespace leaves every line equal once trimmed. */
  lemma PaddedLinesAgree(u: Unicode, lines: seq<string>, k: nat, w: string)
    requires |lines| >= 1 && k < |lines|
    requires forall i :: 0 <= i < |lines| ==> '\n' !in lines[i]
    requires '\n' !in w && AllWhitespace(u, w)
    ensures var padded := lines[k := lines[k] + w];
      |Split(JoinLines(padded))| == |Split(JoinLines(lines))| == |lines| &&
      forall i :: 0 <= i < |lines| ==>
        TrimEnd(u, Split(JoinLines(padded))[i]) == TrimEnd(u, Split(JoinLines(lines))[i])
  {
    var padded := lines[k := lines[k] + w];
    SplitJoinLines(lines);
    SplitJoinLines(padded);
    TrimEndIgnoresTrailingWhitespace(u, lines[k], w);
  }

  /** Padding any line of a message with whitespace changes neither length verdict. */
  lemma PaddingPreservesLengthVerdicts(u: Unicode, lines: seq<string>, k: nat, w: string, maxLength: nat)
    requires |lines| >= 1 && k < |lines|
    requires forall i :: 0 <= i < |lines| ==> '\n' !in lines[i]
    requires '\n' !in w && AllWhitespace(u, w)
    ensures CheckSubjectLength(u, JoinLines(lines[k := lines[k] + w]), maxLength)
         == CheckSubjectLength(u, JoinLines(lines), maxLength)
    ensures LineLengthVerdict(u, JoinLines(lines[k := lines[k] + w]), maxLength)
         == LineLengthVerdict(u, JoinLines(lines), maxLength)
  {
    PaddedLinesAgree(u, lines, k, w);
    LengthVerdictsIgnoreTrailingWhitespace(u, JoinLines(lines[k := lines[k] + w]), JoinLines(lines), maxLength);
  }

  /** Concrete boundary: "Fix bug" has 7 clusters, so it passes a limit of 7 and fails a limit of 6. */
  lemma SubjectLengthBoundary(u: Unicode)
    requires WellFormed(u)
    ensures CheckSubjectLength(u, "Fix bug", 7) == Ok(())
    ensures CheckSubjectLength(u, "Fix bug", 6) == Err(SubjectTooLong(7, 6))
  {
    FirstLineOfSingleLine("Fix bug");
    assert !u.isWhitespace('g');
    assert PrintableAscii("Fix bug");
  }

  /** Concrete capitalization verdicts: "Ångström" passes; "ångström", "3 fixes", "-fix" and "" fail. */
  lemma CapitalizationExamples(u: Unicode)
    requires WellFormed(u)
    ensures CheckCapitalizedSubject(u, "\U{00C5}ngstr\U{00F6}m") == Ok(())
    ensures CheckCapitalizedSubject(u, "\U{00E5}ngstr\U{00F6}m") == Err(NotCapitalized("\U{00E5}ngstr\U{00F6}m"))
    ensures CheckCapitalizedSubject(u, "3 fixes") == Err(NotCapitalized("3 fixes"))
    ensures CheckCapitalizedSubject(u, "-fix") == Err(NotCapitalized("-fix"))
    ensures CheckCapitalizedSubject(u, "") == Err(SubjectEmpty)
  {
  }
}
