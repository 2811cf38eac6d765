/**
 * The per-commit check loop of `run`: for every commit of the resolved revision range, in
 * order, capitalization (when enabled), then subject length (when its limit is not 0), then
 * line length (when its limit is not 0).  The first failure ends the whole run.
 */
module Run {
  import opened Wrappers
  import opened Text
  import opened Config
  import opened Checks

  /**
   * The two commit-message grammars, whose parsers are not part of this model: what each
   * yields as the summary line of a raw message (the conventional description, the plain subject).
   */
  datatype Parsers = Parsers(
    description: string -> string,  // `conventional::Message::parse(message).description`
    subject: string -> string       // `no_style::Message::parse(message).subject`
  )

  /** The summary line the capitalization check reads, chosen by style. */
  function Summary(p: Parsers, style: Style, message: string): (s: string)
    ensures style == Conventional ==> s == p.description(message)
    ensures style == NoStyle ==> s == p.subject(message)
  {
    match style
    case Conventional => p.description(message)
    case NoStyle => p.subject(message)
  }

  /** What the loop body of `run` decides for one commit message under configuration `c`. */
  ghost function CommitVerdict(u: Unicode, p: Parsers, c: Config, message: string): (r: Result<(), CheckError>)
    ensures r.Ok? <==>
      && (c.SubjectCapitalized() ==>
            var s := Summary(p, c.Style(), message); s != [] && u.isUppercase(s[0]))
      && (c.SubjectLength() != 0 ==> LineCount(u, FirstLine(message)) <= c.SubjectLength())
      && (c.LineLength() != 0 ==> AllLinesFit(u, Split(message), c.LineLength()))
  {
    var capitalized := if c.SubjectCapitalized() then CheckCapitalizedSubject(u, Summary(p, c.Style(), message)) else Ok(());
    if capitalized.Err? then capitalized
    else
      var subject := if c.SubjectLength() != 0 then CheckSubjectLength(u, message, c.SubjectLength()) else Ok(());
      if subject.Err? then subject
      else if c.LineLength() != 0 then LineLengthVerdict(u, message, c.LineLength())
      else Ok(())
  }

  /** What `run` returns for a sequence of commit messages: 0 when all pass, else the first commit's failure. */
  ghost function RunVerdict(u: Unicode, p: Parsers, c: Config, commits: seq<string>): (r: Result<int, CheckError>)
    ensures r.Ok? <==> forall i :: 0 <= i < |commits| ==> CommitVerdict(u, p, c, commits[i]).Ok?
    ensures r.Ok? ==> r.value == 0
    ensures r.Err? ==>
      exists k :: 0 <= k < |commits| && FirstFailingCommit(u, p, c, commits, k) &&
        CommitVerdict(u, p, c, commits[k]) == Err(r.error)
  {
    if commits == [] then Ok(0)
    else
      var first := CommitVerdict(u, p, c, commits[0]);
      if first.Err? then
        assert FirstFailingCommit(u, p, c, commits, 0);
        Err(first.error)
      else
        var r := RunVerdict(u, p, c, commits[1..]);
        assert forall i :: 1 <= i < |commits| ==> commits[i] == commits[1..][i - 1];
        if r.Err? then
          var k :| 0 <= k < |commits| - 1 && FirstFailingCommit(u, p, c, commits[1..], k) &&
            CommitVerdict(u, p, c, commits[1..][k]) == Err(r.error);
          assert FirstFailingCommit(u, p, c, commits, k + 1);
          r
        else
          r
  }

  /** Commit `k` fails and every commit before it passes. */
  ghost predicate FirstFailingCommit(u: Unicode, p: Parsers, c: Config, commits: seq<string>, k: nat)
    requires k < |commits|
  {
    && CommitVerdict(u, p, c, commits[k]).Err?
    && forall j :: 0 <= j < k ==> CommitVerdict(u, p, c, commits[j]).Ok?
  }

  /**
   * The loop of `run` (after the configuration is loaded and the revision range resolved):
   * resolve the four settings, then check each commit message in order, returning at the first error.
   */
  method Run(u: Unicode, p: Parsers, config: Config, commits: seq<string>) returns (r: Result<int, CheckError>)
    ensures r == RunVerdict(u, p, config, commits)
  {
    var style := config.Style();
    var subjectLength := config.SubjectLength();
    var lineLength := config.LineLength();
    var subjectCapitalized := config.SubjectCapitalized();
    var i := 0;
    while i < |commits|
      invariant 0 <= i <= |commits|
      invariant RunVerdict(u, p, config, commits[i..]) == RunVerdict(u, p, config, commits)
    {
      var message := commits[i];
      if subjectCapitalized {
        var checked := CheckCapitalizedSubject(u, Summary(p, style, message));
        if checked.Err? {
          return Err(checked.error);
        }
      }
      if subjectLength != 0 {
        var checked := CheckSubjectLength(u, message, subjectLength);
        if checked.Err? {
          return Err(checked.error);
        }
      }
      if lineLength != 0 {
        var checked := CheckLineLength(u, message, lineLength);
        if checked.Err? {
          return Err(checked.error);
        }
      }
      assert commits[i..][1..] == commits[i + 1..];
      i := i + 1;
    }
    return Ok(0);
  }

  // ----- Properties of the pipeline -----

  /** Capitalization is checked first: when enabled and failing, its error is the commit's verdict whatever the lengths. */
  lemma CapitalizationCheckedFirst(u: Unicode, p: Parsers, c: Config, message: string)
    requires c.SubjectCapitalized()
    requires CheckCapitalizedSubject(u, Summary(p, c.Style(), message)).Err?
    ensures CommitVerdict(u, p, c, message) == CheckCapitalizedSubject(u, Summary(p, c.Style(), message))
  {
  }

  /** Subject length comes before line length: once capitalization passes, a subject that is too long is what gets reported. */
  lemma SubjectCheckedBeforeLines(u: Unicode, p: Parsers, c: Config, message: string)
    requires c.SubjectCapitalized() ==> CheckCapitalizedSubject(u, Summary(p, c.Style(), message)).Ok?
    requires c.SubjectLength() != 0 && c.SubjectLength() < LineCount(u, FirstLine(message))
    ensures CommitVerdict(u, p, c, message) == Err(SubjectTooLong(LineCount(u, FirstLine(message)), c.SubjectLength()))
  {
  }

  /** Line length comes last: once capitalization and subject length pass or are off, the line-length verdict is the commit's. */
  lemma LinesCheckedLast(u: Unicode, p: Parsers, c: Config, message: string)
    requires c.SubjectCapitalized() ==> CheckCapitalizedSubject(u, Summary(p, c.Style(), message)).Ok?
    requires c.SubjectLength() != 0 ==> CheckSubjectLength(u, message, c.SubjectLength()).Ok?
    requires c.LineLength() != 0
    ensures CommitVerdict(u, p, c, message) == LineLengthVerdict(u, message, c.LineLength())
  {
  }

  /** A disabled check never produces the commit's error: a limit of 0, or capitalization turned off. */
  lemma DisabledChecksNeverFail(u: Unicode, p: Parsers, c: Config, message: string)
    ensures var r := CommitVerdict(u, p, c, message);
      !c.SubjectCapitalized() && r.Err? ==> !r.error.SubjectEmpty? && !r.error.NotCapitalized?
    ensures var r := CommitVerdict(u, p, c, message);
      c.SubjectLength() == 0 && r.Err? ==> !r.error.SubjectTooLong?
    ensures var r := CommitVerdict(u, p, c, message);
      c.LineLength() == 0 && r.Err? ==> !r.error.LineTooLong?
    ensures !c.SubjectCapitalized() && c.SubjectLength() == 0 && c.LineLength() == 0 ==>
      CommitVerdict(u, p, c, message) == Ok(())
  {
  }

  /** Fail-fast: once a prefix of the commits fails, the commits after it never affect the result. */
  lemma RunStopsAtFirstFailure(u: Unicode, p: Parsers, c: Config, done: seq<string>, rest: seq<string>)
    requires RunVerdict(u, p, c, done).Err?
    ensures RunVerdict(u, p, c, done + rest) == RunVerdict(u, p, c, done)
  {
    var all := done + rest;
    var k :| 0 <= k < |done| && FirstFailingCommit(u, p, c, done, k) &&
      CommitVerdict(u, p, c, done[k]) == Err(RunVerdict(u, p, c, done).error);
    assert forall j :: 0 <= j < |done| ==> all[j] == done[j];
    assert FirstFailingCommit(u, p, c, all, k);
    var r := RunVerdict(u, p, c, all);
    var k' :| 0 <= k' < |all| && FirstFailingCommit(u, p, c, all, k') &&
      CommitVerdict(u, p, c, all[k']) == Err(r.error);
    FirstFailingCommitUnique(u, p, c, all, k, k');
  }

  /** At most one commit is the first failing one. */
  lemma FirstFailingCommitUnique(u: Unicode, p: Parsers, c: Config, commits: seq<string>, k: nat, k': nat)
    requires k < |commits| && k' < |commits|
    requires FirstFailingCommit(u, p, c, commits, k) && FirstFailingCommit(u, p, c, commits, k')
    ensures k == k'
  {
  }

  /** An empty range passes under any configuration. */
  lemma EmptyRangePasses(u: Unicode, p: Parsers, c: Config)
    ensures RunVerdict(u, p, c, []) == Ok(0)
  {
  }

  /**
   * With the default configuration, "fix: something" fails on capitalization: its conventional
   * description "something" starts with a lower-case letter.
   */
  lemma DefaultConfigRejectsLowercaseDescription(u: Unicode, p: Parsers)
    requires WellFormed(u)
    requires p.description("fix: something") == "something"
    ensures RunVerdict(u, p, Default(), ["fix: something"]) == Err(NotCapitalized("something"))
  {
  }
}
