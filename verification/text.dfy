/**
 * Text helpers used to turn a stored clipboard text into a menu label:
 * `string.Trim()`, the `FirstLine()` extension and `shorttenedContent`.
 * The functions are plain definitions; what they guarantee is stated by
 * the lemmas after each of them.
 */
module Text {

  import opened Base

  /** The characters .NET's `char.IsWhiteSpace` accepts, which `Trim()` removes. */
  predicate IsWhiteSpace(c: char)
  {
    var k := c as int;
    (0x09 <= k <= 0x0D) || k == 0x20 || k == 0x85 || k == 0xA0 || k == 0x1680
    || (0x2000 <= k <= 0x200A) || k == 0x2028 || k == 0x2029 || k == 0x202F
    || k == 0x205F || k == 0x3000
  }

  /** The characters that end the first line of a text. */
  predicate IsLineBreak(c: char)
  {
    c == '\n' || c == '\r'
  }

  /** Drops the leading white space. */
  function TrimStart(s: string): string
  {
    if s != [] && IsWhiteSpace(s[0]) then TrimStart(s[1..]) else s
  }

  /** `TrimStart` keeps a suffix of `s` and drops only white space before it. */
  lemma {:induction false} TrimStartSpec(s: string)
    ensures var r := TrimStart(s);
      && |r| <= |s| && r == s[|s| - |r|..]
      && (forall i :: 0 <= i < |s| - |r| ==> IsWhiteSpace(s[i]))
      && (r != [] ==> !IsWhiteSpace(r[0]))
  {
    if s != [] && IsWhiteSpace(s[0]) {
      var t := s[1..];
      TrimStartSpec(t);
      var r := TrimStart(t);
      assert TrimStart(s) == r;
      assert r == s[|s| - |r|..] by { assert t[|t| - |r|..] == s[|s| - |r|..]; }
      forall i | 0 <= i < |s| - |r| ensures IsWhiteSpace(s[i]) {
        if i > 0 { assert s[i] == t[i - 1]; }
      }
    }
  }

  /** Drops the trailing white space. */
  function TrimEnd(s: string): string
  {
    if s != [] && IsWhiteSpace(s[|s| - 1]) then TrimEnd(s[..|s| - 1]) else s
  }

  /** `TrimEnd` keeps a prefix of `s` and drops only white space after it. */
  lemma {:induction false} TrimEndSpec(s: string)
    ensures var r := TrimEnd(s);
      && |r| <= |s| && r == s[..|r|]
      && (forall i :: |r| <= i < |s| ==> IsWhiteSpace(s[i]))
      && (r != [] ==> !IsWhiteSpace(r[|r| - 1]))
  {
    if s != [] && IsWhiteSpace(s[|s| - 1]) {
      TrimEndSpec(s[..|s| - 1]);
    }
  }

  /** `string.Trim()`: white space dropped from both ends. */
  function Trim(s: string): string
  {
    TrimEnd(TrimStart(s))
  }

  /**
   * `Trim` keeps the infix of `s` between its leading and its trailing
   * white space; it is empty exactly when `s` is all white space.
   */
  lemma TrimSpec(s: string)
    ensures var r := Trim(s);
      var a := |s| - |TrimStart(s)|;
      && 0 <= a && a + |r| <= |s| && r == s[a..a + |r|]
      && (forall i :: 0 <= i < a ==> IsWhiteSpace(s[i]))
      && (forall i :: a + |r| <= i < |s| ==> IsWhiteSpace(s[i]))
      && (r != [] ==> !IsWhiteSpace(r[0]) && !IsWhiteSpace(r[|r| - 1]))
      && (r == [] <==> forall i :: 0 <= i < |s| ==> IsWhiteSpace(s[i]))
  {
    TrimStartSpec(s);
    TrimEndSpec(TrimStart(s));
  }

  /** Trimming a trimmed text changes nothing. */
  lemma TrimIdempotent(s: string)
    ensures Trim(Trim(s)) == Trim(s)
  {
    var t := Trim(s);
    TrimSpec(s);
    assert TrimStart(t) == t;
    assert TrimEnd(t) == t;
  }

  /** `FirstLine()`: the text before the first line break. */
  function FirstLine(s: string): string
  {
    if s == [] || IsLineBreak(s[0]) then [] else [s[0]] + FirstLine(s[1..])
  }

  /**
   * `FirstLine` is the longest prefix of `s` without a line break: all of
   * `s` when it has none.
   */
  lemma {:induction false} FirstLineSpec(s: string)
    ensures var r := FirstLine(s);
      && |r| <= |s| && r == s[..|r|]
      && (forall i :: 0 <= i < |r| ==> !IsLineBreak(r[i]))
      && (|r| < |s| ==> IsLineBreak(s[|r|]))
  {
    if s != [] && !IsLineBreak(s[0]) {
      FirstLineSpec(s[1..]);
    }
  }

  /** The marker `shorttenedContent` appends to a clipped title. */
  const Ellipsis: string := "..."

  /**
   * `shorttenedContent`: a text longer than `maxTitle` is cut to its first
   * `maxTitle` characters followed by the ellipsis; a shorter one is kept.
   * `Substring(0, maxTitle)` throws for a negative `maxTitle`.
   */
  function Shortened(content: string, maxTitle: int): string
    requires maxTitle >= 0
  {
    if |content| > maxTitle then content[..maxTitle] + Ellipsis else content
  }

  /**
   * A shortened title keeps the first `min(|content|, maxTitle)` characters
   * of the text, and ends with the ellipsis exactly when the text was cut;
   * so it is never longer than `maxTitle` plus the ellipsis.
   */
  lemma ShortenedSpec(content: string, maxTitle: int)
    requires maxTitle >= 0
    ensures var r := Shortened(content, maxTitle);
      var kept := Min(|content|, maxTitle);
      && |r| == kept + (if |content| > maxTitle then |Ellipsis| else 0)
      && r[..kept] == content[..kept]
      && r[kept..] == (if |content| > maxTitle then Ellipsis else [])
      && |r| <= maxTitle + |Ellipsis|
  {
  }

  /** Shortening an already shortened title gives the same title back. */
  lemma ShortenedIdempotent(content: string, maxTitle: int)
    requires maxTitle >= 0
    ensures Shortened(Shortened(content, maxTitle), maxTitle) == Shortened(content, maxTitle)
  {
    if |content| > maxTitle {
      var r := Shortened(content, maxTitle);
      assert r[..maxTitle] == content[..maxTitle];
    }
  }

  /** With a title length of zero every non-empty text shows as the ellipsis alone. */
  lemma ShortenedToNothing(content: string)
    ensures Shortened(content, 0) == if content == [] then [] else Ellipsis
  {
  }

  /** Shortening a single line keeps it a single line. */
  lemma ShortenedSingleLine(line: string, maxTitle: int)
    requires maxTitle >= 0
    requires forall i :: 0 <= i < |line| ==> !IsLineBreak(line[i])
    ensures forall i :: 0 <= i < |Shortened(line, maxTitle)| ==> !IsLineBreak(Shortened(line, maxTitle)[i])
  {
    var r := Shortened(line, maxTitle);
    var kept := Min(|line|, maxTitle);
    ShortenedSpec(line, maxTitle);
    forall i | 0 <= i < |r| ensures !IsLineBreak(r[i]) {
      if i < kept {
        assert r[i] == r[..kept][i] == line[..kept][i] == line[i];
      } else {
        assert r[i] == r[kept..][i - kept] == Ellipsis[i - kept];
      }
    }
  }

  /**
   * The label a menu entry shows for a stored text:
   * `shorttenedContent(content.Trim().FirstLine())`.
   */
  function MenuTitle(content: string, maxTitle: int): string
    requires maxTitle >= 0
  {
    Shortened(FirstLine(Trim(content)), maxTitle)
  }

  /**
   * A menu label is a single line, no longer than `maxTitle` plus the
   * ellipsis, and starts with the trimmed text's first line cut to `maxTitle`.
   */
  lemma MenuTitleSingleLine(content: string, maxTitle: int)
    requires maxTitle >= 0
    ensures var r := MenuTitle(content, maxTitle);
      var line := FirstLine(Trim(content));
      && |r| <= maxTitle + |Ellipsis|
      && (forall i :: 0 <= i < |r| ==> !IsLineBreak(r[i]))
      && r[..Min(|line|, maxTitle)] == line[..Min(|line|, maxTitle)]
  {
    var line := FirstLine(Trim(content));
    FirstLineSpec(Trim(content));
    ShortenedSpec(line, maxTitle);
    ShortenedSingleLine(line, maxTitle);
  }
}
