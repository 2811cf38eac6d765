/** The configuration read from `committed.toml`: four optional settings, each with a fixed default. */
module Config {
  import opened Wrappers

  /** The commit-message grammar to parse with. */
  datatype Style = Conventional | NoStyle

  /** Default for `subject_length`. */
  const DefaultSubjectLength: nat := 50
  /** Default for `line_length`. */
  const DefaultLineLength: nat := 72

  /** A configuration; an unset field is `None`. */
  datatype Config = Config(
    subjectLength: Option<nat>,
    subjectCapitalized: Option<bool>,
    lineLength: Option<nat>,
    style: Option<Style>)
  {
    /** The subject length limit: the set value, including 0, or 50 when unset. */
    function SubjectLength(): (r: nat)
      ensures subjectLength == Some(r) || (subjectLength == None && r == 50)
    {
      subjectLength.UnwrapOr(DefaultSubjectLength)
    }

    /** Whether subjects must be capitalized: the set value, or true when unset. */
    function SubjectCapitalized(): (r: bool)
      ensures subjectCapitalized == Some(r) || (subjectCapitalized == None && r)
    {
      subjectCapitalized.UnwrapOr(true)
    }

    /** The line length limit: the set value, including 0, or 72 when unset. */
    function LineLength(): (r: nat)
      ensures lineLength == Some(r) || (lineLength == None && r == 72)
    {
      lineLength.UnwrapOr(DefaultLineLength)
    }

    /** The style: the set value, or `Conventional` when unset. */
    function Style(): (r: Style)
      ensures style == Some(r) || (style == None && r == Conventional)
    {
      style.UnwrapOr(Conventional)
    }
  }

  /** The derived `Config::default()`: every field unset, so every accessor gives its default. */
  function Default(): (c: Config)
    ensures c.subjectLength == None && c.subjectCapitalized == None
    ensures c.lineLength == None && c.style == None
    ensures c.SubjectLength() == 50 && c.SubjectCapitalized()
    ensures c.LineLength() == 72 && c.Style() == Conventional
  {
    Config(None, None, None, None)
  }

  /** Each accessor reads only its own field: setting one field leaves the other three resolved values alone. */
  lemma AccessorsIndependent(c: Config, n: nat, b: bool, s: Style)
    ensures var d := c.(subjectLength := Some(n));
      d.SubjectLength() == n && d.SubjectCapitalized() == c.SubjectCapitalized()
      && d.LineLength() == c.LineLength() && d.Style() == c.Style()
    ensures var d := c.(subjectCapitalized := Some(b));
      d.SubjectCapitalized() == b && d.SubjectLength() == c.SubjectLength()
      && d.LineLength() == c.LineLength() && d.Style() == c.Style()
    ensures var d := c.(lineLength := Some(n));
      d.LineLength() == n && d.SubjectLength() == c.SubjectLength()
      && d.SubjectCapitalized() == c.SubjectCapitalized() && d.Style() == c.Style()
    ensures var d := c.(style := Some(s));
      d.Style() == s && d.SubjectLength() == c.SubjectLength()
      && d.SubjectCapitalized() == c.SubjectCapitalized() && d.LineLength() == c.LineLength()
  {
  }
}
