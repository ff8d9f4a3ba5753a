/**
 Trying several searches over one window, the strictest first: the answer is the leftmost hit of the
 first search that hits anywhere.
 */
module TieredSearch {
  import opened Text

  ghost function Leftmost(hit: int -> bool, from: int, hi: int): (r: Option<int>)
    ensures r.Some? ==> from <= r.value <= hi
    decreases hi - from
  {
    if from > hi then None
    else if hit(from) then Some(from)
    else Leftmost(hit, from + 1, hi)
  }

  ghost function Search(tiers: seq<int -> bool>, from: int, hi: int): Option<int> {
    if tiers == [] then None
    else
      var found := Leftmost(tiers[0], from, hi);
      if found.Some? then found else Search(tiers[1..], from, hi)
  }

  // `i` is the leftmost hit of tier `t`, and no stricter tier hits anywhere in the window.
  ghost predicate IsBest(tiers: seq<int -> bool>, from: int, hi: int, t: int, i: int) {
    && 0 <= t < |tiers|
    && from <= i <= hi
    && tiers[t](i)
    && (forall j :: from <= j < i ==> !tiers[t](j))
    && (forall s, j :: 0 <= s < t && from <= j <= hi ==> !tiers[s](j))
  }

  lemma {:induction false} LeftmostIsFirstHit(hit: int -> bool, from: int, hi: int)
    ensures var r := Leftmost(hit, from, hi);
            && (r.Some? ==> from <= r.value <= hi && hit(r.value))
            && (forall j :: from <= j <= hi && (r.Some? ==> j < r.value) ==> !hit(j))
    decreases hi - from
  {
    if from <= hi && !hit(from) {
      LeftmostIsFirstHit(hit, from + 1, hi);
    }
  }

  // How a scan that has come to `i` without a hit decides what the leftmost hit is.
  lemma {:induction false} LeftmostAfterMisses(hit: int -> bool, from: int, hi: int, i: int)
    requires from <= i
    requires forall j :: from <= j < i ==> !hit(j)
    requires i <= hi ==> hit(i)
    ensures Leftmost(hit, from, hi) == if i <= hi then Some(i) else None
    decreases i - from
  {
    if from < i {
      LeftmostAfterMisses(hit, from + 1, hi, i);
    }
  }

  lemma {:induction false} SearchHitsBest(tiers: seq<int -> bool>, from: int, hi: int) returns (t: int)
    ensures var r := Search(tiers, from, hi);
            && (r.Some? ==> IsBest(tiers, from, hi, t, r.value))
            && (r.None? ==> forall s, j :: 0 <= s < |tiers| && from <= j <= hi ==> !tiers[s](j))
  {
    if tiers == [] {
      t := 0;
    } else {
      LeftmostIsFirstHit(tiers[0], from, hi);
      if Leftmost(tiers[0], from, hi).Some? {
        t := 0;
      } else {
        var u := SearchHitsBest(tiers[1..], from, hi);
        t := u + 1;
        assert forall s :: 0 < s < |tiers| ==> tiers[s] == tiers[1..][s - 1];
      }
    }
  }

  lemma SearchIsBest(tiers: seq<int -> bool>, from: int, hi: int, i: int)
    ensures Search(tiers, from, hi) == Some(i) <==> exists t :: IsBest(tiers, from, hi, t, i)
  {
    var t := SearchHitsBest(tiers, from, hi);
    if u :| IsBest(tiers, from, hi, u, i) {
      assert Search(tiers, from, hi).Some?;
    }
  }
}

/**
 How the lines of a chunk are located in a file: four passes over the same window, each comparing
 lines more loosely than the one before.
 */
module LineSearch {
  import opened Text
  import opened TieredSearch

  // Every character rewritten here is one code point and one code unit.
  function PlainCharacter(c: char): char {
    if '\U{2010}' <= c <= '\U{2015}' || c == '\U{2212}' then '-'
    else if '\U{2018}' <= c <= '\U{201B}' then '\''
    else if '\U{201C}' <= c <= '\U{201F}' then '\"'
    else if c == '\U{00A0}' || '\U{2002}' <= c <= '\U{200A}' || c == '\U{202F}' || c == '\U{205F}' || c == '\U{3000}' then ' '
    else c
  }

  function NormalizePunctuation(s: string): string {
    seq(|s|, i requires 0 <= i < |s| => PlainCharacter(s[i]))
  }

  // What the four passes compare lines by, the strictest first.
  datatype Normalizer = Verbatim | WithoutTrailing | WithoutSurrounding | Loosely {
    function Of(s: string): string {
      match this
      case Verbatim => s
      case WithoutTrailing => TrimEnd(s)
      case WithoutSurrounding => Trim(s)
      case Loosely => NormalizePunctuation(Trim(s))
    }
  }

  // The lines from index `i` on equal the pattern once both are normalized.
  ghost predicate MatchesAt(normalize: Normalizer, lines: seq<string>, pattern: seq<string>, i: int) {
    && 0 <= i <= |lines| - |pattern|
    && forall k :: 0 <= k < |pattern| ==> normalize.Of(lines[i + k]) == normalize.Of(pattern[k])
  }

  lemma TiersLoosen(lines: seq<string>, pattern: seq<string>, i: int)
    ensures MatchesAt(Verbatim, lines, pattern, i) ==> MatchesAt(WithoutTrailing, lines, pattern, i)
    ensures MatchesAt(WithoutTrailing, lines, pattern, i) ==> MatchesAt(WithoutSurrounding, lines, pattern, i)
    ensures MatchesAt(WithoutSurrounding, lines, pattern, i) ==> MatchesAt(Loosely, lines, pattern, i)
  {
    Loosening(Verbatim, WithoutTrailing, lines, pattern, i);
    Loosening(WithoutTrailing, WithoutSurrounding, lines, pattern, i);
    Loosening(WithoutSurrounding, Loosely, lines, pattern, i);
  }

  lemma Loosening(strict: Normalizer, loose: Normalizer, lines: seq<string>, pattern: seq<string>, i: int)
    requires forall s, t :: strict.Of(s) == strict.Of(t) ==> loose.Of(s) == loose.Of(t)
    ensures MatchesAt(strict, lines, pattern, i) ==> MatchesAt(loose, lines, pattern, i)
  {
  }

  // ----- what the search returns

  // An end-of-file chunk is compared with the last lines only, wherever the cursor is.
  function WindowStart(lines: seq<string>, pattern: seq<string>, start: nat, eof: bool): nat {
    if eof && |lines| >= |pattern| then |lines| - |pattern| else start
  }

  ghost function Pass(normalize: Normalizer, lines: seq<string>, pattern: seq<string>): int -> bool {
    i => MatchesAt(normalize, lines, pattern, i)
  }

  ghost function Passes(lines: seq<string>, pattern: seq<string>): seq<int -> bool> {
    [Pass(Verbatim, lines, pattern), Pass(WithoutTrailing, lines, pattern),
     Pass(WithoutSurrounding, lines, pattern), Pass(Loosely, lines, pattern)]
  }

  ghost function Seek(lines: seq<string>, pattern: seq<string>, start: nat, eof: bool): (r: Option<int>)
    ensures r.Some? && pattern != [] ==> WindowStart(lines, pattern, start, eof) <= r.value <= |lines| - |pattern|
    ensures pattern == [] ==> r == Some(start)
  {
    if pattern == [] then Some(start)
    else
      FourPasses(Pass(Verbatim, lines, pattern), Pass(WithoutTrailing, lines, pattern),
                 Pass(WithoutSurrounding, lines, pattern), Pass(Loosely, lines, pattern),
                 WindowStart(lines, pattern, start, eof), |lines| - |pattern|)
  }

  ghost function FourPasses(a: int -> bool, b: int -> bool, c: int -> bool, d: int -> bool, from: int, hi: int)
    : Option<int>
  {
    if Leftmost(a, from, hi).Some? then Leftmost(a, from, hi)
    else if Leftmost(b, from, hi).Some? then Leftmost(b, from, hi)
    else if Leftmost(c, from, hi).Some? then Leftmost(c, from, hi)
    else Leftmost(d, from, hi)
  }

  // Seek is a tiered search: the leftmost index of the strictest tier that matches in the window.
  lemma SeekIsTiered(lines: seq<string>, pattern: seq<string>, start: nat, eof: bool, i: int)
    requires pattern != []
    ensures var from, hi := WindowStart(lines, pattern, start, eof), |lines| - |pattern|;
            var r := Seek(lines, pattern, start, eof);
            && r == Search(Passes(lines, pattern), from, hi)
            && (r == Some(i) <==> exists t :: IsBest(Passes(lines, pattern), from, hi, t, i))
  {
    var from, hi := WindowStart(lines, pattern, start, eof), |lines| - |pattern|;
    PassesInOrder(lines, pattern, from, hi);
    SearchIsBest(Passes(lines, pattern), from, hi, i);
  }

  lemma PassesInOrder(lines: seq<string>, pattern: seq<string>, from: int, hi: int)
    ensures Search(Passes(lines, pattern), from, hi) ==
            FourPasses(Pass(Verbatim, lines, pattern), Pass(WithoutTrailing, lines, pattern),
                       Pass(WithoutSurrounding, lines, pattern), Pass(Loosely, lines, pattern), from, hi)
  {
    FourInOrder(Pass(Verbatim, lines, pattern), Pass(WithoutTrailing, lines, pattern),
                Pass(WithoutSurrounding, lines, pattern), Pass(Loosely, lines, pattern), from, hi);
  }

  lemma FourInOrder(a: int -> bool, b: int -> bool, c: int -> bool, d: int -> bool, from: int, hi: int)
    ensures Search([a, b, c, d], from, hi) == FourPasses(a, b, c, d, from, hi)
  {
    var tiers := [a, b, c, d];
    assert tiers[1..] == [b, c, d] && tiers[1..][1..] == [c, d] && tiers[1..][1..][1..] == [d];
    assert Search([d], from, hi) == Leftmost(d, from, hi);
    assert Search([c, d], from, hi) ==
           if Leftmost(c, from, hi).Some? then Leftmost(c, from, hi) else Search([d], from, hi);
  }

  // The search fails exactly when the loosest comparison matches nowhere in the window; otherwise it
  // returns a match inside the window.
  lemma SeekIsComplete(lines: seq<string>, pattern: seq<string>, start: nat, eof: bool)
    requires pattern != []
    ensures var from := WindowStart(lines, pattern, start, eof);
            var r := Seek(lines, pattern, start, eof);
            && (r.None? <==> forall j :: from <= j ==> !MatchesAt(Loosely, lines, pattern, j))
            && (r.Some? ==> from <= r.value <= |lines| - |pattern| && MatchesAt(Loosely, lines, pattern, r.value))
  {
    var from, hi := WindowStart(lines, pattern, start, eof), |lines| - |pattern|;
    var r := Seek(lines, pattern, start, eof);
    SeekIsTiered(lines, pattern, start, eof, 0);
    var t := SearchHitsBest(Passes(lines, pattern), from, hi);
    if r.Some? {
      BestMatchesLoosely(lines, pattern, from, t, r.value);
    } else {
      NothingMatchesLoosely(lines, pattern, from);
    }
  }

  lemma BestMatchesLoosely(lines: seq<string>, pattern: seq<string>, from: int, t: int, i: int)
    requires IsBest(Passes(lines, pattern), from, |lines| - |pattern|, t, i)
    ensures MatchesAt(Loosely, lines, pattern, i)
  {
    assert Passes(lines, pattern)[t](i);
    TiersLoosen(lines, pattern, i);
  }

  lemma NothingMatchesLoosely(lines: seq<string>, pattern: seq<string>, from: int)
    requires forall s, j :: 0 <= s < 4 && from <= j <= |lines| - |pattern| ==> !Passes(lines, pattern)[s](j)
    ensures forall j :: from <= j ==> !MatchesAt(Loosely, lines, pattern, j)
  {
    forall j | from <= j
      ensures !MatchesAt(Loosely, lines, pattern, j)
    {
      assert j <= |lines| - |pattern| ==> !Passes(lines, pattern)[3](j);
    }
  }

  // The lines from `i` on are a character-for-character copy of the pattern.
  ghost predicate CopyAt(lines: seq<string>, pattern: seq<string>, i: int) {
    0 <= i <= |lines| - |pattern| && lines[i..i + |pattern|] == pattern
  }

  lemma CopyIsExactMatch(lines: seq<string>, pattern: seq<string>, i: int)
    ensures CopyAt(lines, pattern, i) <==> MatchesAt(Verbatim, lines, pattern, i)
  {
    if CopyAt(lines, pattern, i) {
      forall k | 0 <= k < |pattern|
        ensures lines[i + k] == pattern[k]
      {
        assert lines[i..i + |pattern|][k] == lines[i + k];
      }
    }
    if MatchesAt(Verbatim, lines, pattern, i) {
      assert forall k :: 0 <= k < |pattern| ==> Verbatim.Of(lines[i + k]) == Verbatim.Of(pattern[k]);
    }
  }

  // A copy of the pattern is found where it first starts inside the window, whatever looser
  // matches lie before it.
  lemma SeekFindsFirstCopy(lines: seq<string>, pattern: seq<string>, start: nat, eof: bool, at: int)
    requires pattern != []
    requires WindowStart(lines, pattern, start, eof) <= at
    requires CopyAt(lines, pattern, at)
    requires forall j :: WindowStart(lines, pattern, start, eof) <= j < at ==> !CopyAt(lines, pattern, j)
    ensures Seek(lines, pattern, start, eof) == Some(at)
  {
    var from, hi := WindowStart(lines, pattern, start, eof), |lines| - |pattern|;
    var tiers := Passes(lines, pattern);
    CopyIsExactMatch(lines, pattern, at);
    assert tiers[0](at);
    forall j | from <= j < at
      ensures !tiers[0](j)
    {
      CopyIsExactMatch(lines, pattern, j);
    }
    assert IsBest(tiers, from, hi, 0, at);
    SeekIsTiered(lines, pattern, start, eof, at);
  }

  // ----- which match is returned

  // How many comparisons are stricter.
  function Rank(n: Normalizer): nat {
    match n
    case Verbatim => 0
    case WithoutTrailing => 1
    case WithoutSurrounding => 2
    case Loosely => 3
  }

  // If a comparison matches somewhere in the window and no stricter one does, its leftmost match is returned.
  lemma SeekStrictest(lines: seq<string>, pattern: seq<string>, start: nat, eof: bool, n: Normalizer, at: int)
    requires pattern != [] && WindowStart(lines, pattern, start, eof) <= at && MatchesAt(n, lines, pattern, at)
    requires forall j :: WindowStart(lines, pattern, start, eof) <= j < at ==> !MatchesAt(n, lines, pattern, j)
    requires forall m, j :: WindowStart(lines, pattern, start, eof) <= j && Rank(m) < Rank(n) ==>
               !MatchesAt(m, lines, pattern, j)
    ensures Seek(lines, pattern, start, eof) == Some(at)
  {
    var from, hi := WindowStart(lines, pattern, start, eof), |lines| - |pattern|;
    var tiers := Passes(lines, pattern);
    var order := [Verbatim, WithoutTrailing, WithoutSurrounding, Loosely];
    assert forall k, j :: 0 <= k < 4 ==> (tiers[k](j) <==> MatchesAt(order[k], lines, pattern, j));
    assert forall k :: 0 <= k < 4 ==> Rank(order[k]) == k;
    assert order[Rank(n)] == n;
    assert IsBest(tiers, from, hi, Rank(n), at);
    SeekIsTiered(lines, pattern, start, eof, at);
  }

  // ----- what the comparisons disregard

  ghost predicate Around(s: string, before: string, inner: string, behind: string) {
    s == before + inner + behind && IsWhite(before) && IsWhite(behind)
  }

  // The second comparison disregards white space at the end.
  lemma TrailingIff(s: string, t: string)
    ensures WithoutTrailing.Of(s) == WithoutTrailing.Of(t) <==>
              exists inner, a, b :: Around(s, "", inner, a) && Around(t, "", inner, b)
  {
    if TrimEnd(s) == TrimEnd(t) {
      var a := TrimEndSplits(s);
      var b := TrimEndSplits(t);
      assert "" + TrimEnd(s) + a == TrimEnd(s) + a && "" + TrimEnd(t) + b == TrimEnd(t) + b;
      assert Around(s, "", TrimEnd(s), a) && Around(t, "", TrimEnd(s), b);
    }
    if inner, a, b :| Around(s, "", inner, a) && Around(t, "", inner, b) {
      assert "" + inner == inner;
      TrimEndIgnores(inner, a);
      TrimEndIgnores(inner, b);
    }
  }

  lemma {:induction false} WhiteTrimsEnd(s: string)
    requires IsWhite(s)
    ensures TrimEnd(s) == ""
  {
    if s != "" { WhiteTrimsEnd(s[..|s| - 1]); }
  }

  lemma {:induction false} EndTrimmedBehind(a: string, c: string)
    requires TrimEnd(c) != ""
    ensures TrimEnd(a + c) == a + TrimEnd(c)
  {
    assert (a + c)[..|a + c| - 1] == a + c[..|c| - 1];
    if IsSpace(c[|c| - 1]) { EndTrimmedBehind(a, c[..|c| - 1]); }
  }

  lemma {:induction false} NothingButWhite(s: string)
    requires TrimEnd(s) == ""
    ensures IsWhite(s)
  {
    if s != "" { NothingButWhite(s[..|s| - 1]); }
  }

  lemma TrimIgnores(a: string, c: string, b: string)
    requires IsWhite(a) && IsWhite(b)
    ensures Trim(a + c + b) == Trim(c)
  {
    TrimEndIgnores(a + c, b);
    if TrimEnd(c) == "" {
      NothingButWhite(c);
      WhiteTrimsEnd(a + c);
    } else {
      EndTrimmedBehind(a, c);
      TrimStartIgnores(a, TrimEnd(c));
    }
  }

  lemma TrimSplits(s: string) returns (a: string, b: string)
    ensures Around(s, a, Trim(s), b)
  {
    b := TrimEndSplits(s);
    a := TrimStartSplits(TrimEnd(s));
  }

  // The third disregards it at both ends.
  lemma SurroundingIff(s: string, t: string)
    ensures WithoutSurrounding.Of(s) == WithoutSurrounding.Of(t) <==>
              exists inner, a, b, a', b' :: Around(s, a, inner, b) && Around(t, a', inner, b')
  {
    if Trim(s) == Trim(t) {
      var a, b := TrimSplits(s);
      var a', b' := TrimSplits(t);
      assert Around(s, a, Trim(s), b) && Around(t, a', Trim(s), b');
    }
    if inner, a, b, a', b' :| Around(s, a, inner, b) && Around(t, a', inner, b') {
      TrimIgnores(a, inner, b);
      TrimIgnores(a', inner, b');
    }
  }

  // The characters that one stands for: hyphens and dashes, single and double quotation marks, blanks.
  const HYPHENS := "-\U{2010}\U{2011}\U{2012}\U{2013}\U{2014}\U{2015}\U{2212}"
  const SINGLE_QUOTES := "'\U{2018}\U{2019}\U{201A}\U{201B}"
  const DOUBLE_QUOTES := "\"\U{201C}\U{201D}\U{201E}\U{201F}"
  const BLANKS := " \U{00A0}\U{2002}\U{2003}\U{2004}\U{2005}\U{2006}\U{2007}\U{2008}\U{2009}\U{200A}\U{202F}\U{205F}\U{3000}"

  predicate Alike(c: char, d: char) {
    || c == d
    || (c in HYPHENS && d in HYPHENS)
    || (c in SINGLE_QUOTES && d in SINGLE_QUOTES)
    || (c in DOUBLE_QUOTES && d in DOUBLE_QUOTES)
    || (c in BLANKS && d in BLANKS)
  }

  predicate AllAlike(s: string, t: string) {
    |s| == |t| && forall i :: 0 <= i < |s| ==> Alike(s[i], t[i])
  }

  lemma PlainIff(c: char, d: char)
    ensures PlainCharacter(c) == PlainCharacter(d) <==> Alike(c, d)
  {
    PlainClass(c);
    PlainClass(d);
  }

  lemma PlainClass(c: char)
    ensures c in HYPHENS <==> PlainCharacter(c) == '-'
    ensures c in SINGLE_QUOTES <==> PlainCharacter(c) == '\''
    ensures c in DOUBLE_QUOTES <==> PlainCharacter(c) == '\"'
    ensures c in BLANKS <==> PlainCharacter(c) == ' '
    ensures c in HYPHENS || c in SINGLE_QUOTES || c in DOUBLE_QUOTES || c in BLANKS || PlainCharacter(c) == c
  {
  }

  lemma NormalizedIff(s: string, t: string)
    ensures NormalizePunctuation(s) == NormalizePunctuation(t) <==> AllAlike(s, t)
  {
    var m, n := NormalizePunctuation(s), NormalizePunctuation(t);
    if |s| == |t| {
      forall i | 0 <= i < |s| ensures m[i] == n[i] <==> Alike(s[i], t[i]) { PlainIff(s[i], t[i]); }
    }
  }

  lemma AlikeSpace(c: char, d: char)
    requires Alike(c, d)
    ensures IsSpace(c) <==> IsSpace(d)
  {
  }

  lemma {:induction false} TrimEndAlike(s: string, t: string)
    requires AllAlike(s, t)
    ensures AllAlike(TrimEnd(s), TrimEnd(t))
  {
    if s != "" {
      AlikeSpace(s[|s| - 1], t[|t| - 1]);
      TrimEndAlike(s[..|s| - 1], t[..|t| - 1]);
    }
  }

  lemma {:induction false} TrimStartAlike(s: string, t: string)
    requires AllAlike(s, t)
    ensures AllAlike(TrimStart(s), TrimStart(t))
  {
    if s != "" {
      AlikeSpace(s[0], t[0]);
      TrimStartAlike(s[1..], t[1..]);
    }
  }

  // The fourth disregards white space at both ends and does not tell characters of one kind apart.
  lemma LooselyIff(s: string, t: string)
    ensures Loosely.Of(s) == Loosely.Of(t) <==>
              exists c, d, a, b, a', b' :: Around(s, a, c, b) && Around(t, a', d, b') && AllAlike(c, d)
  {
    NormalizedIff(Trim(s), Trim(t));
    if AllAlike(Trim(s), Trim(t)) {
      var a, b := TrimSplits(s);
      var a', b' := TrimSplits(t);
      assert Around(s, a, Trim(s), b) && Around(t, a', Trim(t), b');
    }
    if c, d, a, b, a', b' :| Around(s, a, c, b) && Around(t, a', d, b') && AllAlike(c, d) {
      TrimIgnores(a, c, b);
      TrimIgnores(a', d, b');
      TrimEndAlike(c, d);
      TrimStartAlike(TrimEnd(c), TrimEnd(d));
    }
  }

  // ----- the program

  method LinesMatch(lines: seq<string>, pattern: seq<string>, start: nat, normalize: Normalizer) returns (matches: bool)
    requires start + |pattern| <= |lines|
    ensures matches <==> MatchesAt(normalize, lines, pattern, start)
  {
    var idx := 0;
    while idx < |pattern|
      invariant 0 <= idx <= |pattern|
      invariant forall k :: 0 <= k < idx ==> normalize.Of(lines[start + k]) == normalize.Of(pattern[k])
    {
      if normalize.Of(lines[start + idx]) != normalize.Of(pattern[idx]) {
        return false;
      }
      idx := idx + 1;
    }
    return true;
  }

  // One pass of the search; the four passes differ only in how they normalize.
  method Scan(lines: seq<string>, pattern: seq<string>, searchStart: nat, normalize: Normalizer) returns (found: Option<int>)
    requires 0 < |pattern| <= |lines|
    ensures found == Leftmost(Pass(normalize, lines, pattern), searchStart, |lines| - |pattern|)
  {
    var maxStart := |lines| - |pattern|;
    ghost var hit := Pass(normalize, lines, pattern);
    var i: int := searchStart;
    while i <= maxStart
      invariant searchStart <= i
      invariant forall j :: searchStart <= j < i ==> !hit(j)
      decreases maxStart - i
    {
      var here := LinesMatch(lines, pattern, i, normalize);
      if here {
        LeftmostAfterMisses(hit, searchStart, maxStart, i);
        return Some(i);
      }
      i := i + 1;
    }
    LeftmostAfterMisses(hit, searchStart, maxStart, i);
    return None;
  }

  method SeekSequence(lines: seq<string>, pattern: seq<string>, start: nat, eof: bool) returns (found: Option<int>)
    ensures found == Seek(lines, pattern, start, eof)
  {
    if |pattern| == 0 {
      return Some(start);
    }
    if |pattern| > |lines| {
      return None;
    }
    var maxStart := |lines| - |pattern|;
    var searchStart := if eof && |lines| >= |pattern| then maxStart else start;
    if searchStart > maxStart {
      return None;
    }
    found := Scan(lines, pattern, searchStart, Verbatim);
    if found.Some? {
      return found;
    }
    found := Scan(lines, pattern, searchStart, WithoutTrailing);
    if found.Some? {
      return found;
    }
    found := Scan(lines, pattern, searchStart, WithoutSurrounding);
    if found.Some? {
      return found;
    }
    found := Scan(lines, pattern, searchStart, Loosely);
  }
}
