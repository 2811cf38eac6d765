/**
 * The text primitives the rule checks are built from.
 *
 * `str::split('\n')` and `str::trim_end` are modelled exactly.  The Unicode-dependent
 * primitives, extended grapheme cluster segmentation (Unicode Standard Annex #29, section 3,
 * as implemented by `unicode_segmentation`), `char::is_uppercase` and `char::is_whitespace`,
 * are left abstract: they are the fields of a `Unicode` value that every check takes as a
 * parameter.  `WellFormed` states the few facts about them that some properties need.
 */
module Text {

  /** The foreign Unicode primitives. */
  datatype Unicode = Unicode(
    graphemes: string -> seq<string>,  // `UnicodeSegmentation::graphemes(s, true)`, extended clusters
    isUppercase: char -> bool,         // `char::is_uppercase` (Unicode `Uppercase` property)
    isWhitespace: char -> bool         // `char::is_whitespace` (Unicode `White_Space` property)
  )

  /** Concatenation of a sequence of strings. */
  function Concat(parts: seq<string>): (r: string)
  {
    if parts == [] then [] else parts[0] + Concat(parts[1..])
  }

  /** Printable ASCII, U+0020 to U+007E: each such character is a grapheme cluster of its own. */
  predicate PrintableAscii(s: string)
  {
    forall i :: 0 <= i < |s| ==> ' ' <= s[i] <= '~'
  }

  /** An ASCII letter or digit. */
  predicate AsciiAlphanumeric(c: char)
  {
    'a' <= c <= 'z' || 'A' <= c <= 'Z' || '0' <= c <= '9'
  }

  /** ASCII punctuation and symbols: U+0021 to U+002F, U+003A to U+0040, U+005B to U+0060, U+007B to U+007E. */
  predicate AsciiPunctuation(c: char)
  {
    '!' <= c <= '/' || ':' <= c <= '@' || '[' <= c <= '`' || '{' <= c <= '~'
  }

  /**
   * Facts about the Unicode primitives that the standards guarantee:
   * segmentation partitions the text into nonempty clusters; printable ASCII is one cluster
   * per character; ASCII capitals, and U+00C5 (Å), are uppercase; ASCII lower-case letters,
   * digits, punctuation, space and U+00E5 (å) are not; space is whitespace and no ASCII letter or digit is.
   */
  ghost predicate WellFormed(u: Unicode)
  {
    && (forall s :: Concat(u.graphemes(s)) == s)
    && (forall s, i :: 0 <= i < |u.graphemes(s)| ==> u.graphemes(s)[i] != [])
    && (forall s :: PrintableAscii(s) ==> |u.graphemes(s)| == |s|)
    && (forall c :: 'A' <= c <= 'Z' ==> u.isUppercase(c))
    && (forall c :: ('a' <= c <= 'z' || '0' <= c <= '9') ==> !u.isUppercase(c))
    && (forall c :: AsciiPunctuation(c) ==> !u.isUppercase(c))
    && u.isUppercase('\U{00C5}') && !u.isUppercase('\U{00E5}') && !u.isUppercase(' ')
    && u.isWhitespace(' ')
    && (forall c :: AsciiAlphanumeric(c) ==> !u.isWhitespace(c))
  }

  /** Each character of `s` as a one-character string. */
  function Singletons(s: string): (r: seq<string>)
    ensures |r| == |s|
    ensures forall i :: 0 <= i < |r| ==> r[i] == [s[i]]
  {
    if s == [] then [] else [[s[0]]] + Singletons(s[1..])
  }

  lemma {:induction false} ConcatSingletons(s: string)
    ensures Concat(Singletons(s)) == s
  {
    if s != [] {
      ConcatSingletons(s[1..]);
      assert Singletons(s)[1..] == Singletons(s[1..]);
    }
  }

  /**
   * A particular choice of primitives (code points as clusters, ASCII-only case and
   * whitespace) satisfying `WellFormed`, so that `WellFormed` is a consistent assumption.
   */
  function AsciiUnicode(): (u: Unicode)
    ensures WellFormed(u)
  {
    var u := Unicode(
      s => Singletons(s),
      c => 'A' <= c <= 'Z' || c == '\U{00C5}',
      c => c == ' ' || c == '\t' || c == '\n' || c == '\r');
    assert forall s :: Concat(u.graphemes(s)) == s by {
      forall s ensures Concat(u.graphemes(s)) == s { ConcatSingletons(s); }
    }
    u
  }

  /** The number of grapheme clusters in `s`, `graphemes(s, true).count()`. */
  function GraphemeCount(u: Unicode, s: string): (n: nat)
  {
    |u.graphemes(s)|
  }

  lemma {:induction false} ConcatOfNonempty(parts: seq<string>)
    requires forall i :: 0 <= i < |parts| ==> parts[i] != []
    ensures |parts| <= |Concat(parts)|
    ensures Concat(parts) == [] ==> parts == []
  {
    if parts != [] {
      ConcatOfNonempty(parts[1..]);
    }
  }

  /** A string has no more clusters than characters, and has none exactly when it is empty. */
  lemma GraphemeCountBounds(u: Unicode, s: string)
    requires WellFormed(u)
    ensures GraphemeCount(u, s) <= |s|
    ensures GraphemeCount(u, s) == 0 <==> s == []
  {
    ConcatOfNonempty(u.graphemes(s));
  }

  /** `str::trim_end`: `s` without its trailing run of whitespace. */
  function TrimEnd(u: Unicode, s: string): (r: string)
    ensures r <= s
    ensures r == [] || !u.isWhitespace(r[|r| - 1])
    ensures forall i :: |r| <= i < |s| ==> u.isWhitespace(s[i])
    decreases |s|
  {
    if s != [] && u.isWhitespace(s[|s| - 1]) then TrimEnd(u, s[..|s| - 1]) else s
  }

  predicate AllWhitespace(u: Unicode, w: string)
  {
    forall i :: 0 <= i < |w| ==> u.isWhitespace(w[i])
  }

  /** Appending whitespace never changes what `trim_end` leaves. */
  lemma {:induction false} TrimEndIgnoresTrailingWhitespace(u: Unicode, s: string, w: string)
    requires AllWhitespace(u, w)
    ensures TrimEnd(u, s + w) == TrimEnd(u, s)
    decreases |w|
  {
    if w != [] {
      var w' := w[..|w| - 1];
      assert (s + w)[..|s + w| - 1] == s + w';
      assert u.isWhitespace((s + w)[|s + w| - 1]);
      TrimEndIgnoresTrailingWhitespace(u, s, w');
    } else {
      assert s + w == s;
    }
  }

  /** Trimming is idempotent. */
  lemma TrimEndIdempotent(u: Unicode, s: string)
    ensures TrimEnd(u, TrimEnd(u, s)) == TrimEnd(u, s)
  {
  }

  /** Lines joined back with `'\n'` between them; the inverse of `Split`. */
  function JoinLines(lines: seq<string>): (s: string)
    requires |lines| >= 1
  {
    if |lines| == 1 then lines[0] else lines[0] + ['\n'] + JoinLines(lines[1..])
  }

  /**
   * `str::split('\n')`: the pieces between newlines.  There is always at least one piece:
   * the empty string splits into `[""]` and a trailing newline yields a final empty piece.
   */
  function Split(s: string): (lines: seq<string>)
    ensures |lines| >= 1
    ensures forall i :: 0 <= i < |lines| ==> '\n' !in lines[i]
    ensures JoinLines(lines) == s
    decreases |s|
  {
    if s == [] then [[]]
    else
      var rest := Split(s[1..]);
      if s[0] == '\n' then
        assert ([[]] + rest)[1..] == rest;
        [[]] + rest
      else
        var lines := [[s[0]] + rest[0]] + rest[1..];
        assert lines[1..] == rest[1..];
        assert s == [s[0]] + s[1..];
        lines
  }

  /** Splitting undoes joining, for pieces free of newlines. */
  lemma {:induction false} SplitJoinLines(lines: seq<string>)
    requires |lines| >= 1
    requires forall i :: 0 <= i < |lines| ==> '\n' !in lines[i]
    ensures Split(JoinLines(lines)) == lines
    decreases |lines|, |lines[0]|
  {
    var head := lines[0];
    if head == [] {
      if |lines| > 1 {
        SplitJoinLines(lines[1..]);
        assert JoinLines(lines) == ['\n'] + JoinLines(lines[1..]);
        assert JoinLines(lines)[1..] == JoinLines(lines[1..]);
      }
    } else {
      var lines' := [head[1..]] + lines[1..];
      assert lines'[1..] == lines[1..];
      SplitJoinLines(lines');
      assert JoinLines(lines) == [head[0]] + JoinLines(lines');
      assert JoinLines(lines)[1..] == JoinLines(lines');
      assert [head[0]] + head[1..] == head;
    }
  }

  /** The text before the first `'\n'` (all of `s` when it has none). */
  function FirstLine(s: string): (r: string)
    ensures r <= s && '\n' !in r
    ensures |r| == |s| || s[|r|] == '\n'
  {
    if s == [] || s[0] == '\n' then [] else [s[0]] + FirstLine(s[1..])
  }

  /** The first piece of `split('\n')` is the first line. */
  lemma {:induction false} SplitFirstIsFirstLine(s: string)
    ensures Split(s)[0] == FirstLine(s)
    decreases |s|
  {
    if s != [] && s[0] != '\n' {
      SplitFirstIsFirstLine(s[1..]);
    }
  }

  /** The first line of `a + "\n" + b`, with `a` free of newlines, is `a`, whatever `b` is. */
  lemma {:induction false} FirstLineOfPrefix(a: string, b: string)
    requires '\n' !in a
    ensures FirstLine(a + ['\n'] + b) == a
    decreases |a|
  {
    if a != [] {
      assert (a + ['\n'] + b)[1..] == a[1..] + ['\n'] + b;
      FirstLineOfPrefix(a[1..], b);
    }
  }

  /** The first line of a text without newlines is the whole text. */
  lemma FirstLineOfSingleLine(a: string)
    requires '\n' !in a
    ensures FirstLine(a) == a
  {
  }
}
