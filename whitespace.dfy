/** The white-space notions of .NET that the Product constructor relies on:
    `char.IsWhiteSpace`, `string.IsNullOrWhiteSpace` and, as a reference point,
    `string.Trim`. */
module WhiteSpace {
  import opened Wrappers

  /** The characters for which .NET's `char.IsWhiteSpace` holds: the control characters
      U+0009..U+000D and U+0085, and every member of the Unicode categories
      SpaceSeparator, LineSeparator and ParagraphSeparator. */
  const WhiteSpaceChars: set<char> := {
    '\U{0009}', '\U{000A}', '\U{000B}', '\U{000C}', '\U{000D}', '\U{0020}', '\U{0085}', '\U{00A0}',
    '\U{1680}', '\U{2000}', '\U{2001}', '\U{2002}', '\U{2003}', '\U{2004}', '\U{2005}', '\U{2006}',
    '\U{2007}', '\U{2008}', '\U{2009}', '\U{200A}', '\U{2028}', '\U{2029}', '\U{202F}', '\U{205F}',
    '\U{3000}'
  }

  predicate IsWhiteSpace(c: char) {
    c in WhiteSpaceChars
  }

  /** Scans `s` from the front and stops at the first character that is not white space. */
  predicate AllWhiteSpace(s: string) {
    |s| == 0 || (IsWhiteSpace(s[0]) && AllWhiteSpace(s[1..]))
  }

  /** `string.IsNullOrWhiteSpace`: null, the empty string, and strings made only of white space. */
  predicate IsNullOrWhiteSpace(s: Option<string>) {
    match s
    case None => true
    case Some(t) => AllWhiteSpace(t)
  }

  /** Reference definition: the string has at least one character that is not white space. */
  ghost predicate HasVisibleChar(s: string) {
    exists i :: 0 <= i < |s| && !IsWhiteSpace(s[i])
  }

  /** The scan agrees with the reference definition, in both directions. */
  lemma {:induction false} AllWhiteSpaceIff(s: string)
    ensures AllWhiteSpace(s) <==> !HasVisibleChar(s)
  {
    if |s| > 0 {
      AllWhiteSpaceIff(s[1..]);
      if HasVisibleChar(s) && IsWhiteSpace(s[0]) {
        var i :| 0 <= i < |s| && !IsWhiteSpace(s[i]);
        assert s[1..][i - 1] == s[i];
      }
      if HasVisibleChar(s[1..]) {
        var i :| 0 <= i < |s[1..]| && !IsWhiteSpace(s[1..][i]);
        assert s[i + 1] == s[1..][i];
      }
    }
  }

  /** `string.IsNullOrWhiteSpace` fails exactly for present strings with a visible character. */
  lemma IsNullOrWhiteSpaceIff(s: Option<string>)
    ensures !IsNullOrWhiteSpace(s) <==> s.Some? && HasVisibleChar(s.value)
  {
    if s.Some? {
      AllWhiteSpaceIff(s.value);
    }
  }

  /** `string.TrimStart()`: drops the leading white space. */
  function TrimStart(s: string): string {
    if |s| > 0 && IsWhiteSpace(s[0]) then TrimStart(s[1..]) else s
  }

  /** `string.TrimEnd()`: drops the trailing white space. */
  function TrimEnd(s: string): string {
    if |s| > 0 && IsWhiteSpace(s[|s| - 1]) then TrimEnd(s[..|s| - 1]) else s
  }

  /** `string.Trim()`. */
  function Trim(s: string): string {
    TrimEnd(TrimStart(s))
  }

  lemma {:induction false} TrimStartEmptyIff(s: string)
    ensures TrimStart(s) == [] <==> AllWhiteSpace(s)
    ensures TrimStart(s) != [] ==> !IsWhiteSpace(TrimStart(s)[0])
  {
    if |s| > 0 && IsWhiteSpace(s[0]) {
      TrimStartEmptyIff(s[1..]);
    }
  }

  /** TrimEnd never removes a leading visible character. */
  lemma {:induction false} TrimEndKeepsVisibleHead(s: string)
    requires |s| > 0 && !IsWhiteSpace(s[0])
    ensures TrimEnd(s) != []
  {
    if IsWhiteSpace(s[|s| - 1]) {
      assert |s| > 1;
      TrimEndKeepsVisibleHead(s[..|s| - 1]);
    }
  }

  /** A string is blank for `IsNullOrWhiteSpace` exactly when trimming leaves nothing. */
  lemma TrimEmptyIff(s: string)
    ensures Trim(s) == [] <==> AllWhiteSpace(s)
  {
    TrimStartEmptyIff(s);
    if TrimStart(s) != [] {
      TrimEndKeepsVisibleHead(TrimStart(s));
    }
  }
}
