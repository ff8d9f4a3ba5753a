/** Placeholder names, the names already in a text, and the supply of fresh ones. */
module Placeholders {

  const OPEN := "__OC_I18N_"
  const FIRST: nat := 900000

  // ----- names

  predicate IsDigit(c: char) {
    '0' <= c <= '9'
  }

  function Digits(n: nat): (r: string)
    ensures |r| > 0 && forall k :: 0 <= k < |r| ==> IsDigit(r[k])
  {
    if n < 10 then [('0' as int + n) as char] else Digits(n / 10) + [('0' as int + n % 10) as char]
  }

  function Value(s: string): int {
    if s == "" then 0 else 10 * Value(s[..|s| - 1]) + (s[|s| - 1] as int - '0' as int)
  }

  lemma {:induction false} ValueOfDigits(n: nat)
    ensures Value(Digits(n)) == n
  {
    if n >= 10 {
      ValueOfDigits(n / 10);
      assert Digits(n)[..|Digits(n)| - 1] == Digits(n / 10);
    } else {
      assert Value([]) == 0;
      assert Digits(n)[..0] == [];
    }
  }

  function Name(n: nat): string {
    OPEN + Digits(n) + "__"
  }

  lemma RunLength(s: string, a: nat, b: nat)
    requires |s| > 10 + a && |s| > 10 + b
    requires forall k :: 10 <= k < 10 + a || 10 <= k < 10 + b ==> IsDigit(s[k])
    requires !IsDigit(s[10 + a]) && !IsDigit(s[10 + b])
    ensures a == b
  {
  }

  lemma NameParts(n: nat, rest: string)
    ensures var s, d := Name(n) + rest, Digits(n);
            && |s| >= 12 + |d| && s[10 + |d|] == '_' && s[10..10 + |d|] == d
            && forall k :: 10 <= k < 10 + |d| ==> IsDigit(s[k])
  {
    var s, d := Name(n) + rest, Digits(n);
    assert s == OPEN + (d + ("__" + rest));
    assert forall k :: 10 <= k < 10 + |d| ==> s[k] == d[k - 10];
  }

  // No name is the beginning of another, whatever follows it.
  lemma NameIsPrefixFree(m: nat, n: nat, rest: string)
    requires Name(m) <= Name(n) + rest
    ensures m == n
  {
    var s := Name(n) + rest;
    var d, e := Digits(m), Digits(n);
    var more := s[|Name(m)|..];
    assert s == Name(m) + more;
    NameParts(m, more);
    NameParts(n, rest);
    RunLength(s, |d|, |e|);
    assert d == s[10..10 + |d|] == e;
    ValueOfDigits(m);
    ValueOfDigits(n);
  }

  lemma NameIsInjective(m: nat, n: nat)
    requires Name(m) == Name(n)
    ensures m == n
  {
    assert Name(n) + "" == Name(n);
    NameIsPrefixFree(m, n, "");
  }

  // ----- the placeholders a text already has

  function DigitRun(text: string, p: nat): nat
    decreases |text| - p
  {
    if p < |text| && IsDigit(text[p]) then 1 + DigitRun(text, p + 1) else 0
  }

  // Where the match of the placeholder pattern that starts at p ends; p itself if there is none.
  function MatchEnd(text: string, p: nat): (q: nat)
    ensures q == p || p + 13 <= q <= |text|
  {
    var q := p + 10 + DigitRun(text, p + 10);
    if p + 10 <= |text| && text[p..p + 10] == OPEN && q > p + 10 && q + 2 <= |text| && text[q..q + 2] == "__" then q + 2
    else p
  }

  predicate IsHit(text: string, p: nat) {
    MatchEnd(text, p) > p
  }

  // The search goes on behind each match.
  function FindAll(text: string, p: nat): seq<nat>
    decreases |text| - p
  {
    if p >= |text| then []
    else if IsHit(text, p) then [p] + FindAll(text, MatchEnd(text, p))
    else FindAll(text, p + 1)
  }

  ghost predicate Apart(text: string, p: nat) {
    forall i, j :: p <= i < j && IsHit(text, i) && IsHit(text, j) ==> MatchEnd(text, i) <= j
  }

  lemma {:induction false} FindAllOnlyHits(text: string, p: nat, h: nat)
    requires h in FindAll(text, p)
    ensures p <= h && IsHit(text, h)
    decreases |text| - p
  {
    if IsHit(text, p) {
      if h != p { FindAllOnlyHits(text, MatchEnd(text, p), h); }
    } else {
      FindAllOnlyHits(text, p + 1, h);
    }
  }

  lemma {:induction false} FindsAllApart(text: string, p: nat, h: nat)
    requires Apart(text, p) && p <= h && IsHit(text, h)
    ensures h in FindAll(text, p)
    decreases |text| - p
  {
    if IsHit(text, p) {
      if h != p { FindsAllApart(text, MatchEnd(text, p), h); }
    } else {
      FindsAllApart(text, p + 1, h);
    }
  }

  lemma {:induction false} FoundAreApart(text: string, p: nat, i: nat, j: nat)
    requires i in FindAll(text, p) && j in FindAll(text, p) && i < j
    ensures MatchEnd(text, i) <= j
    decreases |text| - p
  {
    if IsHit(text, p) {
      var q := MatchEnd(text, p);
      if j != p { FindAllOnlyHits(text, q, j); }
      if i != p {
        FindAllOnlyHits(text, q, i);
        FoundAreApart(text, q, i, j);
      }
    } else {
      FoundAreApart(text, p + 1, i, j);
    }
  }

  // The search finds every placeholder of the text exactly if no two of them share their underscores.
  lemma FindsAllIff(text: string)
    ensures (forall h :: IsHit(text, h) ==> h in FindAll(text, 0)) <==> Apart(text, 0)
  {
    if Apart(text, 0) {
      forall h | IsHit(text, h) ensures h in FindAll(text, 0) { FindsAllApart(text, 0, h); }
    }
    if forall h :: IsHit(text, h) ==> h in FindAll(text, 0) {
      forall i, j | 0 <= i < j && IsHit(text, i) && IsHit(text, j)
        ensures MatchEnd(text, i) <= j
      {
        FoundAreApart(text, 0, i, j);
      }
    }
  }

  // ----- the supply

  ghost predicate NamedFrom(u: string, counter: nat) {
    exists n: nat :: n >= counter && u == Name(n)
  }

  // The used names the counter has yet to pass.
  ghost function Ahead(used: set<string>, counter: nat): set<string> {
    set u | u in used && NamedFrom(u, counter)
  }

  lemma AheadShrinks(used: set<string>, counter: nat)
    ensures Ahead(used, counter + 1) == Ahead(used, counter) - {Name(counter)}
    ensures Name(counter) in used ==> |Ahead(used, counter + 1)| < |Ahead(used, counter)|
  {
    forall u
      ensures u in Ahead(used, counter + 1) <==> u in Ahead(used, counter) && u != Name(counter)
    {
      if u in Ahead(used, counter + 1) {
        var n: nat :| n >= counter + 1 && u == Name(n);
        if u == Name(counter) { NameIsInjective(n, counter); }
        assert NamedFrom(u, counter);
      } else if u in Ahead(used, counter) && u != Name(counter) {
        var n: nat :| n >= counter && u == Name(n);
        assert NamedFrom(u, counter + 1);
      }
    }
    if Name(counter) in used {
      assert NamedFrom(Name(counter), counter);
      assert Name(counter) in Ahead(used, counter);
    }
  }

  // The first number from the counter on whose name is not used.
  ghost function NextFree(used: set<string>, counter: nat): (n: nat)
    ensures n >= counter && Name(n) !in used
    decreases |Ahead(used, counter)|
  {
    AheadShrinks(used, counter);
    if Name(counter) in used then NextFree(used, counter + 1) else counter
  }

  // Only used names are passed over.
  lemma {:induction false} NextFreeIsFirst(used: set<string>, counter: nat, m: nat)
    requires counter <= m < NextFree(used, counter)
    ensures Name(m) in used
    decreases |Ahead(used, counter)|
  {
    AheadShrinks(used, counter);
    if m > counter { NextFreeIsFirst(used, counter + 1, m); }
  }

  // What k calls give, one after another.
  ghost function Draw(used: set<string>, counter: nat, k: nat): seq<nat>
    decreases k
  {
    if k == 0 then []
    else
      var n := NextFree(used, counter);
      [n] + Draw(used + {Name(n)}, n + 1, k - 1)
  }

  // They are all new: none is used at the start, and no two are the same.
  lemma {:induction false} DrawIsFresh(used: set<string>, counter: nat, k: nat)
    ensures |Draw(used, counter, k)| == k
    ensures forall i :: 0 <= i < k ==> Draw(used, counter, k)[i] >= counter && Name(Draw(used, counter, k)[i]) !in used
    ensures forall i, j :: 0 <= i < j < k ==> Name(Draw(used, counter, k)[i]) != Name(Draw(used, counter, k)[j])
    decreases k
  {
    if k > 0 {
      var n := NextFree(used, counter);
      DrawIsFresh(used + {Name(n)}, n + 1, k - 1);
      var later := Draw(used + {Name(n)}, n + 1, k - 1);
      assert forall i :: 0 < i < k ==> Draw(used, counter, k)[i] == later[i - 1];
    }
  }

  lemma AheadOfMore(used: set<string>, counter: nat)
    ensures Ahead(used + {Name(counter)}, counter + 1) == Ahead(used, counter + 1)
  {
    forall n: nat | n >= counter + 1 ensures Name(n) != Name(counter) {
      if Name(n) == Name(counter) { NameIsInjective(n, counter); }
    }
  }

  lemma NothingUsed(used: set<string>, counter: nat)
    requires Ahead(used, counter) == {}
    ensures NextFree(used, counter) == counter
    ensures Ahead(used + {Name(counter)}, counter + 1) == {}
  {
    assert NamedFrom(Name(counter), counter);
    assert Name(counter) in used ==> Name(counter) in Ahead(used, counter);
    AheadShrinks(used, counter);
    AheadOfMore(used, counter);
  }

  lemma DrawCons(used: set<string>, counter: nat, k: nat, n: nat)
    requires k > 0 && NextFree(used, counter) == n
    ensures Draw(used, counter, k) == [n] + Draw(used + {Name(n)}, n + 1, k - 1)
  {
  }

  // With nothing used, the numbers follow one another.
  lemma {:induction false} DrawFromNothing(used: set<string>, counter: nat, k: nat)
    requires Ahead(used, counter) == {}
    ensures |Draw(used, counter, k)| == k
    ensures forall i :: 0 <= i < k ==> Draw(used, counter, k)[i] == counter + i
    decreases k
  {
    if k > 0 {
      NothingUsed(used, counter);
      DrawCons(used, counter, k, counter);
      DrawFromNothing(used + {Name(counter)}, counter + 1, k - 1);
    }
  }

  function HitText(text: string, h: nat): string {
    if h <= MatchEnd(text, h) <= |text| then text[h..MatchEnd(text, h)] else ""
  }

  function HitTexts(text: string, hits: seq<nat>): set<string> {
    if hits == [] then {} else HitTexts(text, hits[..|hits| - 1]) + {HitText(text, hits[|hits| - 1])}
  }

  lemma HitTextsGrow(text: string, hits: seq<nat>, h: nat)
    ensures HitTexts(text, hits + [h]) == HitTexts(text, hits) + {HitText(text, h)}
  {
    assert (hits + [h])[..|hits|] == hits;
  }

  lemma {:induction false} HitTextsHas(text: string, hits: seq<nat>, h: nat)
    requires h in hits
    ensures HitText(text, h) in HitTexts(text, hits)
  {
    var last := |hits| - 1;
    if h != hits[last] { HitTextsHas(text, hits[..last], h); }
  }

  lemma NextFreeStops(used: set<string>, counter: nat)
    requires Name(counter) !in used
    ensures NextFree(used, counter) == counter
  {
  }

  lemma {:induction false} DigitRunIs(text: string, p: nat, k: nat)
    requires p + k < |text| && !IsDigit(text[p + k])
    requires forall q :: p <= q < p + k ==> IsDigit(text[q])
    ensures DigitRun(text, p) == k
    decreases k
  {
    if k > 0 { DigitRunIs(text, p + 1, k - 1); }
  }

  lemma NameIsHit(text: string, p: nat, n: nat)
    requires p + |Name(n)| <= |text| && text[p..p + |Name(n)|] == Name(n)
    ensures MatchEnd(text, p) == p + |Name(n)| && HitText(text, p) == Name(n)
  {
    var s := text[p..p + |Name(n)|];
    var d := Digits(n);
    assert text[p..p + 10] == s[..10] == OPEN;
    assert forall k :: 0 <= k < |d| ==> s[10 + k] == d[k];
    assert forall q :: p + 10 <= q < p + 10 + |d| ==> text[q] == s[q - p];
    assert text[p + 10 + |d|] == s[10 + |d|] == '_';
    DigitRunIs(text, p + 10, |d|);
    assert text[p + 10 + |d|..p + 12 + |d|] == s[10 + |d|..] == "__";
  }

  predicate AllDigits(s: string) {
    s != "" && forall k :: 0 <= k < |s| ==> s[k] in "0123456789"
  }

  lemma TenDigits(c: char)
    ensures IsDigit(c) <==> c in "0123456789"
  {
    var digits := "0123456789";
    if IsDigit(c) { assert digits[c as int - '0' as int] == c; }
  }

  lemma {:induction false} DigitRunMeans(text: string, p: nat)
    ensures p + DigitRun(text, p) <= |text| || DigitRun(text, p) == 0
    ensures forall q :: p <= q < p + DigitRun(text, p) ==> q < |text| && IsDigit(text[q])
    decreases |text| - p
  {
    if p < |text| && IsDigit(text[p]) { DigitRunMeans(text, p + 1); }
  }

  lemma HitMeans(text: string, p: nat) returns (d: string)
    requires IsHit(text, p)
    ensures AllDigits(d) && OccursAt(text, p, OPEN + d + "__")
  {
    var n := DigitRun(text, p + 10);
    var q := p + 10 + n;
    DigitRunMeans(text, p + 10);
    d := text[p + 10..q];
    assert text[p..p + 10] == OPEN && text[q..q + 2] == "__";
    forall k | 0 <= k < |d| ensures d[k] in "0123456789" {
      assert d[k] == text[p + 10 + k];
      TenDigits(d[k]);
    }
    Pieces(text, p, p + 10, q, q + 2);
  }

  lemma Pieces(text: string, a: nat, b: nat, c: nat, d: nat)
    requires a <= b <= c <= d <= |text|
    ensures text[a..b] + text[b..c] + text[c..d] == text[a..d]
  {
  }

  lemma DigitsAreHit(text: string, p: nat, d: string)
    requires AllDigits(d) && OccursAt(text, p, OPEN + d + "__")
    ensures IsHit(text, p)
  {
    var n := |d|;
    var q := p + 10 + n;
    PiecesOf(text, p, OPEN, d, "__", q);
    forall r | p + 10 <= r < q ensures IsDigit(text[r]) {
      assert text[r] == text[p + 10..q][r - p - 10] == d[r - p - 10];
      TenDigits(text[r]);
    }
    assert text[q] == text[q..q + 2][0] == '_';
    DigitRunIs(text, p + 10, n);
  }

  lemma PiecesOf(text: string, p: nat, a: string, b: string, c: string, q: nat)
    requires OccursAt(text, p, a + b + c) && q == p + |a| + |b|
    ensures q + |c| <= |text| && text[p..p + |a|] == a && text[p + |a|..q] == b && text[q..q + |c|] == c
  {
    var s := text[p..p + |a + b + c|];
    assert s == a + b + c;
    assert s[..|a|] == a && s[|a|..|a| + |b|] == b && s[|a| + |b|..] == c;
    SliceOfSlice(text, p, p + |s|, 0, |a|);
    SliceOfSlice(text, p, p + |s|, |a|, |a| + |b|);
    SliceOfSlice(text, p, p + |s|, |a| + |b|, |s|);
  }

  lemma SliceOfSlice(text: string, p: nat, end: nat, i: nat, j: nat)
    requires p <= end <= |text| && i <= j <= end - p
    ensures text[p..end][i..j] == text[p + i..p + j]
  {
    var s := text[p..end];
    assert forall k :: 0 <= k < |s| ==> s[k] == text[p + k];
    assert s[i..j] == text[p + i..p + j];
  }

  // A placeholder is noticed for what it is: digits, with `__OC_I18N_` in front and two underscores behind.
  lemma HitIff(text: string, p: nat)
    ensures IsHit(text, p) <==> exists d :: AllDigits(d) && OccursAt(text, p, "__OC_I18N_" + d + "__")
  {
    assert OPEN == "__OC_I18N_";
    if IsHit(text, p) {
      var d := HitMeans(text, p);
      assert OPEN + d + "__" == "__OC_I18N_" + d + "__";
    }
    if d :| AllDigits(d) && OccursAt(text, p, "__OC_I18N_" + d + "__") { DigitsAreHit(text, p, d); }
  }

  lemma {:induction false} NoHitFrom(text: string, p: nat)
    requires forall q :: p + 2 <= q < |text| ==> text[q] != 'O'
    ensures FindAll(text, p) == []
    decreases |text| - p
  {
    if p < |text| {
      assert !IsHit(text, p) by { assert p + 10 <= |text| ==> text[p..p + 10][2] == text[p + 2]; }
      NoHitFrom(text, p + 1);
    }
  }

  lemma NameEnds(n: nat)
    ensures Name(n) == "__" + Name(n)[2..] && |Name(n)| > 4 && Name(n)[|Name(n)| - 2..] == "__"
  {
    assert Name(n)[..2] == OPEN[..2] == "__";
    assert Name(n) == Name(n)[..2] + Name(n)[2..];
  }

  // The second name begins with the underscores that end the first.
  lemma NamesOverlap(m: nat, n: nat, rest: string)
    ensures var text, p := Name(m) + Name(n)[2..] + rest, |Name(m)|;
            text[..p] == Name(m) && text[p..] == Name(n)[2..] + rest && p > 2 && text[p - 2..] == Name(n) + rest
  {
    NameEnds(m);
    NameEnds(n);
    var text, p := Name(m) + Name(n)[2..] + rest, |Name(m)|;
    assert text == Name(m) + (Name(n)[2..] + rest);
    assert text[p - 2..] == Name(m)[p - 2..] + (Name(n)[2..] + rest);
    assert "__" + (Name(n)[2..] + rest) == ("__" + Name(n)[2..]) + rest;
  }

  // Two placeholders that share two underscores: only the first is noticed, so the second may be given out again.
  lemma SharedUnderscoresAreMissed(m: nat, n: nat, rest: string)
    requires 'O' !in rest
    ensures var text := Name(m) + Name(n)[2..] + rest;
            && HitText(text, |Name(m)| - 2) == Name(n)
            && FindAll(text, 0) == [0]
            && (m != n ==> NextFree(HitTexts(text, FindAll(text, 0)), n) == n)
  {
    var text := Name(m) + Name(n)[2..] + rest;
    var p := |Name(m)|;
    NamesOverlap(m, n, rest);
    NameIsHit(text, 0, m);
    assert text[p - 2..p - 2 + |Name(n)|] == text[p - 2..][..|Name(n)|] == Name(n);
    NameIsHit(text, p - 2, n);
    forall q | p + 2 <= q < |text| ensures text[q] != 'O' {
      assert text[q] == (Name(n) + rest)[q - p + 2];
      if q - p + 2 < |Name(n)| { NameHasOneO(n, q - p + 2); }
    }
    NoHitFrom(text, p);
    assert FindAll(text, 0) == [0] + FindAll(text, p);
    HitTextsGrow(text, [], 0);
    assert [] + [0] == [0];
    if m != n {
      if Name(m) == Name(n) { NameIsInjective(m, n); }
      NextFreeStops(HitTexts(text, [0]), n);
    }
  }

  lemma NameHasOneO(n: nat, k: nat)
    requires k < |Name(n)|
    ensures Name(n)[k] == 'O' <==> k == 2
  {
    if 10 <= k < 10 + |Digits(n)| { assert IsDigit(Name(n)[k]); }
  }

  predicate OccursAt(text: string, p: nat, u: string) {
    p + |u| <= |text| && text[p..p + |u|] == u
  }

  // Otherwise every name that occurs in the text is noticed, and so is not given out.
  lemma OccurrenceIsNoticed(text: string, p: nat, n: nat)
    requires Apart(text, 0) && OccursAt(text, p, Name(n))
    ensures Name(n) in HitTexts(text, FindAll(text, 0))
  {
    NameIsHit(text, p, n);
    FindsAllIff(text);
    assert IsHit(text, p);
    HitTextsHas(text, FindAll(text, 0), p);
  }

  ghost function Left(used: set<string>, counter: nat): nat {
    |Ahead(used, counter)|
  }

  // The counter passes a used name.
  lemma Passes(used: set<string>, counter: nat)
    requires Name(counter) in used
    ensures Left(used, counter + 1) < Left(used, counter)
    ensures NextFree(used, counter) == NextFree(used, counter + 1)
  {
    AheadShrinks(used, counter);
  }

  // What the search up to p has found.
  ghost predicate Collected(text: string, p: nat, seen: seq<nat>, used: set<string>) {
    FindAll(text, 0) == seen + FindAll(text, p) && used == HitTexts(text, seen)
  }

  lemma CollectedStart(text: string)
    ensures Collected(text, 0, [], {})
  {
    assert [] + FindAll(text, 0) == FindAll(text, 0);
  }

  lemma CollectedStep(text: string, p: nat, seen: seq<nat>, used: set<string>)
    requires p < |text| && Collected(text, p, seen, used)
    ensures IsHit(text, p) ==> Collected(text, MatchEnd(text, p), seen + [p], used + {text[p..MatchEnd(text, p)]})
    ensures !IsHit(text, p) ==> Collected(text, p + 1, seen, used)
  {
    if IsHit(text, p) {
      var rest := FindAll(text, MatchEnd(text, p));
      assert seen + ([p] + rest) == (seen + [p]) + rest;
      HitTextsGrow(text, seen, p);
    }
  }

  lemma CollectedEnd(text: string, p: nat, seen: seq<nat>, used: set<string>)
    requires p >= |text| && Collected(text, p, seen, used)
    ensures used == HitTexts(text, FindAll(text, 0))
  {
    assert seen + [] == seen;
  }

  class PlaceholderState {
    var counter: nat
    var used: set<string>

    constructor (text: string)
      ensures counter == FIRST
      ensures used == HitTexts(text, FindAll(text, 0))
    {
      counter := FIRST;
      used := {};
      new;
      var p := 0;
      ghost var seen: seq<nat> := [];
      CollectedStart(text);
      while p < |text|
        invariant 0 <= p
        invariant counter == FIRST
        invariant Collected(text, p, seen, used)
        decreases |text| - p
      {
        CollectedStep(text, p, seen, used);
        if IsHit(text, p) {
          used := used + {text[p..MatchEnd(text, p)]};
          seen := seen + [p];
          p := MatchEnd(text, p);
        } else {
          p := p + 1;
        }
      }
      CollectedEnd(text, p, seen, used);
    }

    method Next() returns (name: string)
      modifies this
      ensures name == Name(NextFree(old(used), old(counter)))
      ensures counter == NextFree(old(used), old(counter)) + 1
      ensures used == old(used) + {name}
    {
      while true
        invariant used == old(used)
        invariant NextFree(used, counter) == NextFree(old(used), old(counter))
        decreases Left(used, counter)
      {
        name := Name(counter);
        counter := counter + 1;
        if name in used {
          Passes(used, counter - 1);
          continue;
        }
        NextFreeStops(used, counter - 1);
        used := used + {name};
        return;
      }
    }
  }
}
