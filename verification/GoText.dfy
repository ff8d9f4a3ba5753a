/** Go's strings package, as far as the document translator needs it. */
module GoText {
  import opened Text

  // unicode.IsSpace
  predicate IsUnicodeSpace(c: char) {
    || '\t' <= c <= '\r' || c == ' ' || c == '\U{0085}' || c == '\U{00A0}' || c == '\U{1680}'
    || '\U{2000}' <= c <= '\U{200A}' || c == '\U{2028}' || c == '\U{2029}' || c == '\U{202F}' || c == '\U{205F}'
    || c == '\U{3000}'
  }

  // The white space of the Unicode standard, character by character.
  const WHITE_SPACE: set<char> :=
    { '\t', '\n', '\U{000B}', '\U{000C}', '\r', ' ', '\U{0085}', '\U{00A0}', '\U{1680}', '\U{2000}', '\U{2001}',
      '\U{2002}', '\U{2003}', '\U{2004}', '\U{2005}', '\U{2006}', '\U{2007}', '\U{2008}', '\U{2009}', '\U{200A}',
      '\U{2028}', '\U{2029}', '\U{202F}', '\U{205F}', '\U{3000}' }

  // Go trims the white space of Unicode; ECMAScript trims the byte order mark too, but not the next line character.
  lemma SpacesDiffer(c: char)
    ensures IsUnicodeSpace(c) <==> c in WHITE_SPACE
    ensures IsSpace(c) <==> c == '\U{FEFF}' || (c != '\U{0085}' && c in WHITE_SPACE)
  {
    if c == '\U{FEFF}' || c == '\U{0085}' {
    } else if c in WHITE_SPACE {
    }
  }

  function TrimLeft(s: string): string {
    if s != "" && IsUnicodeSpace(s[0]) then TrimLeft(s[1..]) else s
  }

  function TrimRight(s: string): string {
    if s != "" && IsUnicodeSpace(s[|s| - 1]) then TrimRight(s[..|s| - 1]) else s
  }

  function TrimSpace(s: string): string {
    TrimRight(TrimLeft(s))
  }

  predicate SpaceAtEnds(s: string) {
    s != "" && (IsUnicodeSpace(s[0]) || IsUnicodeSpace(s[|s| - 1]))
  }

  lemma {:induction false} TrimLeftShortens(s: string)
    ensures |TrimLeft(s)| <= |s|
    ensures s != "" && IsUnicodeSpace(s[0]) ==> |TrimLeft(s)| < |s|
  {
    if s != "" { TrimLeftShortens(s[1..]); }
  }

  lemma {:induction false} TrimRightShortens(s: string)
    ensures |TrimRight(s)| <= |s|
    ensures s != "" && IsUnicodeSpace(s[|s| - 1]) ==> |TrimRight(s)| < |s|
  {
    if s != "" { TrimRightShortens(s[..|s| - 1]); }
  }

  lemma TrimSpaceKeepsIff(s: string)
    ensures TrimSpace(s) == s <==> !SpaceAtEnds(s)
  {
    TrimLeftShortens(s);
    TrimRightShortens(TrimLeft(s));
    TrimRightShortens(s);
  }

  lemma TrimRightAppend(s: string, w: string)
    requires w != ""
    ensures !IsUnicodeSpace(w[|w| - 1]) ==> TrimRight(s + w) == s + w
    ensures |w| == 1 && IsUnicodeSpace(w[0]) ==> TrimRight(s + w) == TrimRight(s)
  {
    assert (s + w)[|s + w| - 1] == w[|w| - 1];
    assert |w| == 1 ==> (s + w)[..|s + w| - 1] == s;
  }

  lemma TrimLeftAppend(w: string, s: string)
    requires w != ""
    ensures !IsUnicodeSpace(w[0]) ==> TrimLeft(w + s) == w + s
    ensures |w| == 1 && IsUnicodeSpace(w[0]) ==> TrimLeft(w + s) == TrimLeft(s)
  {
    assert (w + s)[0] == w[0];
    assert |w| == 1 ==> (w + s)[1..] == s;
  }

  lemma {:induction false} SolidEndStays(s: string)
    requires s != "" && !IsUnicodeSpace(s[|s| - 1])
    ensures TrimLeft(s) != "" && TrimLeft(s)[|TrimLeft(s)| - 1] == s[|s| - 1]
    ensures TrimSpace(s) != ""
  {
    if IsUnicodeSpace(s[0]) { SolidEndStays(s[1..]); }
  }

  // ----- what trimming leaves

  predicate AllWhite(s: string) {
    forall i :: 0 <= i < |s| ==> s[i] in WHITE_SPACE
  }

  predicate IsSolid(s: string) {
    s != "" ==> s[0] !in WHITE_SPACE && s[|s| - 1] !in WHITE_SPACE
  }

  lemma {:induction false} TrimLeftIgnores(w: string, s: string)
    requires AllWhite(w)
    ensures TrimLeft(w + s) == TrimLeft(s)
  {
    if w == "" {
      assert w + s == s;
    } else {
      SpacesDiffer(w[0]);
      assert (w + s)[1..] == w[1..] + s;
      TrimLeftIgnores(w[1..], s);
    }
  }

  lemma {:induction false} TrimRightIgnores(s: string, w: string)
    requires AllWhite(w)
    ensures TrimRight(s + w) == TrimRight(s)
  {
    if w == "" {
      assert s + w == s;
    } else {
      SpacesDiffer(w[|w| - 1]);
      assert (s + w)[..|s + w| - 1] == s + w[..|w| - 1];
      TrimRightIgnores(s, w[..|w| - 1]);
    }
  }

  lemma SolidStays(s: string, w: string)
    requires IsSolid(s) && s != ""
    ensures TrimLeft(s + w) == s + w && TrimRight(s) == s
  {
    SpacesDiffer(s[0]);
    SpacesDiffer(s[|s| - 1]);
    assert (s + w)[0] == s[0];
  }

  // Trimming takes off the white space at both ends, and nothing else.
  lemma TrimSpaceIsMiddle(before: string, middle: string, behind: string)
    requires AllWhite(before) && IsSolid(middle) && AllWhite(behind)
    ensures TrimSpace(before + middle + behind) == middle
  {
    assert before + middle + behind == before + (middle + behind);
    TrimLeftIgnores(before, middle + behind);
    if middle == "" {
      assert middle + behind == behind + "";
      TrimLeftIgnores(behind, "");
    } else {
      SolidStays(middle, behind);
      TrimRightIgnores(middle, behind);
    }
  }

  lemma {:induction false} FirstSolid(s: string) returns (w: string, rest: string)
    ensures s == w + rest && AllWhite(w) && (rest != "" ==> rest[0] !in WHITE_SPACE)
  {
    w, rest := "", s;
    if s != "" && s[0] in WHITE_SPACE {
      w, rest := FirstSolid(s[1..]);
      w := [s[0]] + w;
    }
  }

  lemma WhiteIffTrimmed(s: string)
    ensures AllWhite(s) <==> TrimSpace(s) == ""
  {
    var w, rest := FirstSolid(s);
    if rest == "" {
      assert s == w + "" + "";
      TrimSpaceIsMiddle(w, "", "");
    } else {
      SpacesDiffer(rest[0]);
      assert s[|w|] == rest[0];
      TrimLeftIgnores(w, rest);
      assert TrimLeft(rest) == rest;
      SolidStartStays(rest);
    }
  }

  lemma {:induction false} SolidStartStays(s: string)
    requires s != "" && !IsUnicodeSpace(s[0])
    ensures TrimRight(s) != ""
  {
    if |s| > 1 && IsUnicodeSpace(s[|s| - 1]) { SolidStartStays(s[..|s| - 1]); }
  }
}
