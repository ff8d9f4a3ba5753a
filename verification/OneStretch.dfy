/**
 Texts of which the three passes take out one stretch: unmasking gives the text back exactly if the name drawn does not
 occur behind the stretch, nor before it, where it may end in the underscores with which the placeholder begins.
 */
module OneStretch {
  import opened GoText
  import opened MaskLedger
  import opened MaskPasses
  import opened Masking
  import opened MaskTokens
  import opened Placeholders
  import opened Text

  // ----- replacing, by length

  lemma {:induction false} NothingReplaced(s: string, u: string, v: string)
    requires u != "" && !Contains(s, u)
    ensures ReplaceAll(s, u, v) == s
  {
    if s != "" { NothingReplaced(s[1..], u, v); }
  }

  lemma {:induction false} ReplacedLonger(s: string, u: string, v: string)
    requires u != "" && |v| >= |u|
    ensures |ReplaceAll(s, u, v)| >= |s|
    ensures |v| > |u| && Contains(s, u) ==> |ReplaceAll(s, u, v)| > |s|
    decreases |s|
  {
    if s != "" {
      if u <= s { ReplacedLonger(s[|u|..], u, v); } else { ReplacedLonger(s[1..], u, v); }
    }
  }

  lemma {:induction false} ReplacedShorter(s: string, u: string, v: string)
    requires u != "" && |v| <= |u|
    ensures |ReplaceAll(s, u, v)| <= |s|
    ensures Contains(s, u) ==> |ReplaceAll(s, u, v)| <= |s| - (|u| - |v|)
    decreases |s|
  {
    if s != "" {
      if u <= s { ReplacedShorter(s[|u|..], u, v); } else { ReplacedShorter(s[1..], u, v); }
    }
  }

  // The first occurrence.
  lemma {:induction false} FirstOccurrence(s: string, u: string) returns (d: nat)
    requires Contains(s, u)
    ensures d <= |s| && u <= s[d..]
    ensures forall e :: 0 <= e < d ==> !(u <= s[e..])
  {
    d := 0;
    assert s[0..] == s;
    if !(u <= s) {
      d := FirstOccurrence(s[1..], u);
      d := d + 1;
      assert s[1..][d - 1..] == s[d..];
      forall e | 0 <= e < d ensures !(u <= s[e..]) {
        if e > 0 { assert s[1..][e - 1..] == s[e..]; }
      }
    }
  }

  // What replacing does from the first occurrence on.
  lemma FirstReplaced(p: string, r: string, u: string, v: string)
    requires u != "" && u <= r && forall e :: 0 <= e < |p| ==> !(u <= (p + r)[e..])
    ensures ReplaceAll(p + r, u, v) == p + (v + ReplaceAll(r[|u|..], u, v))
  {
    ReplaceSkips(p, r, u, v);
  }

  // ----- a name right behind a fence is noticed

  lemma HitHasNoFence(text: string, p: nat, q: nat)
    requires IsHit(text, p) && p <= q < MatchEnd(text, p)
    ensures !IsFence(text[q])
  {
    var k := DigitRun(text, p + 10);
    DigitsInRun(text, p + 10, q);
    if q < p + 10 {
      assert text[q] == text[p..p + 10][q - p];
    } else if q >= p + 10 + k {
      assert text[q] == text[p + 10 + k..p + 12 + k][q - (p + 10 + k)];
    }
  }

  lemma {:induction false} DigitsInRun(text: string, p: nat, q: nat)
    ensures p <= q < p + DigitRun(text, p) ==> q < |text| && IsDigit(text[q])
    decreases |text| - p
  {
    if p < |text| && IsDigit(text[p]) && p < q { DigitsInRun(text, p + 1, q); }
  }

  lemma {:induction false} FoundBehindFence(text: string, p: nat, h: nat)
    requires p <= h < |text| && IsHit(text, h)
    requires h > 0 ==> IsFence(text[h - 1])
    ensures h in FindAll(text, p)
    decreases |text| - p
  {
    if p < h {
      if IsHit(text, p) {
        if h < MatchEnd(text, p) { HitHasNoFence(text, p, h - 1); }
        FoundBehindFence(text, MatchEnd(text, p), h);
      } else {
        FoundBehindFence(text, p + 1, h);
      }
    }
  }

  // A stretch taken out does not begin with a name that is not used.
  lemma StretchIsNotNamed(a: string, v: string, b: string, n: nat)
    requires v != "" && Cut(a + v + b, |a|)
    requires Name(n) !in Opened(a + v + b).page.supply.used
    ensures !(Name(n) <= v)
  {
    var text, h := a + v + b, |a|;
    if Name(n) <= v {
      assert text[h..] == v + b;
      assert text[h..h + |Name(n)|] == v[..|Name(n)|] == Name(n);
      NameIsHit(text, h, n);
      assert text[h] == '_';
      FoundBehindFence(text, 0, h);
      HitTextsHas(text, FindAll(text, 0), h);
    }
  }

  // ----- one stretch

  lemma ThirdCharacter(c: string, u: string, b: string)
    requires |u| > 2 && u <= c + (u + b) && |c| + 2 < |u|
    ensures u[|c| + 2] == u[2]
  {
    assert (c + (u + b))[|c| + 2] == u[2];
  }

  lemma NameBeforeName(c: string, b: string, n: nat)
    requires c != "" && Name(n) <= c + (Name(n) + b)
    ensures |Name(n)| <= |c| + 2
  {
    NameShape(n);
    if |c| + 2 < |Name(n)| { ThirdCharacter(c, Name(n), b); }
  }

  lemma CutPrefix(u: string, w: string, t: string)
    requires u <= w + t && |u| <= |w|
    ensures u <= w
  {
    assert (w + t)[..|u|] == w[..|u|];
  }

  lemma RegroupText(c: string, t: string, b: string)
    ensures c + (("__" + t) + b) == (c + "__") + (t + b)
  {
  }

  lemma EndsInUnderscores(c: string, b: string, n: nat)
    requires c != "" && Name(n) <= c + (Name(n) + b)
    ensures Name(n) <= c + "__"
  {
    var u := Name(n);
    NameBeforeName(c, b, n);
    NameEnds(n);
    RegroupText(c, u[2..], b);
    CutPrefix(u, c + "__", u[2..] + b);
  }

  lemma SlicesAt(a: string, t: string, d: nat)
    requires d <= |a|
    ensures (a + t)[..d] == a[..d] && (a + t)[d..] == a[d..] + t && a[..d] + (a[d..] + t) == a + t
  {
  }

  // Where a name can begin in front of the placeholder: so that it ends before it, or in its first underscores.
  lemma InFront(a: string, b: string, n: nat, d: nat)
    requires d < |a| && Name(n) <= (a + (Name(n) + b))[d..]
    ensures Name(n) <= a[d..] + "__" && Contains(a + "__", Name(n))
  {
    SlicesAt(a, Name(n) + b, d);
    EndsInUnderscores(a[d..], b, n);
    SlicesAt(a, "__", d);
    OccursFrom(a + "__", Name(n), d);
  }

  lemma {:induction false} OccursFrom(s: string, u: string, d: nat)
    requires d <= |s| && u <= s[d..]
    ensures Contains(s, u)
  {
    if d == 0 {
      assert s[0..] == s;
    } else {
      assert s[1..][d - 1..] == s[d..];
      OccursFrom(s[1..], u, d - 1);
    }
  }

  // The name occurs neither in front of the stretch nor behind it.
  predicate Alone(a: string, b: string, n: nat) {
    !Contains(a + "__", Name(n)) && !Contains(b, Name(n))
  }

  // ----- the converse

  lemma SamePlace(p: string, x: string, y: string)
    requires p + x == p + y
    ensures x == y
  {
    assert (p + x)[|p|..] == x && (p + y)[|p|..] == y;
  }

  lemma PrefixesOfOne(u: string, v: string, x: string, y: string)
    requires u + x == v + y
    ensures u <= v || v <= u
  {
    assert u == (u + x)[..|u|] && v == (v + y)[..|v|];
  }

  // A name behind the stretch is replaced too, and that changes the text.
  lemma BehindIsLost(u: string, v: string, b: string)
    requires u != "" && Contains(b, u) && ReplaceAll(b, u, v) == b
    ensures u <= v
  {
    var e := FirstOccurrence(b, u);
    var more := b[e..][|u|..];
    assert b[..e] + b[e..] == b;
    FirstReplaced(b[..e], b[e..], u, v);
    ReplacedShorterIf(b, u, v);
    SamePlace(b[..e], v + ReplaceAll(more, u, v), b[e..]);
    assert b[e..] == u + more;
    PrefixesOfOne(u, v, more, ReplaceAll(more, u, v));
  }

  lemma ReplacedShorterIf(s: string, u: string, v: string)
    requires u != "" && Contains(s, u) && |ReplaceAll(s, u, v)| >= |s|
    ensures |v| >= |u|
  {
    if |v| < |u| { ReplacedShorter(s, u, v); }
  }

  // What is replaced in r cannot make up for u being longer than v.
  lemma LengthsTell(p: string, u: string, v: string, r: string, t: string)
    requires u != "" && Contains(r, u) && p + (v + ReplaceAll(r, u, v)) == t
    requires |t| + |u| == |p| + |u| + |v| + |r|
    ensures |v| >= |u|
  {
    ReplacedShorterIf(r, u, v);
  }

  lemma LongerPrefix(u: string, v: string, x: string, y: string)
    requires u + x == v + y && |v| >= |u|
    ensures u <= v
  {
    PrefixesOfOne(u, v, x, y);
  }

  // So is one in front of it. If it ends in front of the placeholder, that one is still there.
  lemma WholeInFrontIsLost(p: string, u: string, v: string, b: string, more: string, r: string)
    requires u != "" && r == more + u + b
    requires p + (v + ReplaceAll(r, u, v)) == p + (u + (more + (v + b)))
    ensures u <= v
  {
    ContainsIn(more, u, b);
    LengthsTell(p, u, v, r, p + (u + (more + (v + b))));
    SamePlace(p, v + ReplaceAll(r, u, v), u + (more + (v + b)));
    LongerPrefix(u, v, more + (v + b), ReplaceAll(r, u, v));
  }

  // If it ends in the underscores of the placeholder, the stretch would have to begin with an underscore, behind a
  // character that is no fence.
  lemma HeadInFrontIsLost(a: string, v: string, b: string, n: nat, d: nat, rest: string)
    requires d < |a| < d + |Name(n)| && Name(n) <= a[d..] + "__" && v != "" && Cut(a + v + b, |a|)
    ensures a[..d] + (v + rest) != a + v + b
  {
    var u, k := Name(n), |a| - d;
    assert |u| <= k + 2;
    assert a[|a| - 1] == (a[d..] + "__")[k - 1] == u[k - 1];
    NameHasNoFence(n, k - 1);
    assert (a + v + b)[|a|] == v[0] && (a + v + b)[|a| - 1] == a[|a| - 1];
    assert (a + v + b)[d] == a[d] == (a[d..] + "__")[0] == u[0] == '_';
    assert (a[..d] + (v + rest))[d] == v[0];
  }

  lemma FrontOccurs(a: string, b: string, n: nat) returns (e: nat)
    requires Contains(a + "__", Name(n))
    ensures e < |a| && Name(n) <= (a + (Name(n) + b))[e..]
  {
    var u := Name(n);
    NameEnds(n);
    e := FirstOccurrence(a + "__", u);
    RegroupText(a, u[2..], b);
    SlicesAt(a + "__", u[2..] + b, e);
  }

  lemma FrontWhole(a: string, u: string, v: string, b: string, d: nat, r: string)
    requires d <= |a| && u != "" && u <= a[d..] && a[d..] + (u + b) == u + r
    requires a[..d] + (v + ReplaceAll(r, u, v)) == a + v + b
    ensures u <= v
  {
    var p, more := a[..d], a[d..][|u|..];
    assert a[d..] == u + more && a == p + (u + more);
    SameRest(u, more, b, r);
    FiveParts(p, u, more, v, b);
    WholeInFrontIsLost(p, u, v, b, more, r);
  }

  lemma SameRest(u: string, more: string, b: string, r: string)
    requires (u + more) + (u + b) == u + r
    ensures r == more + u + b
  {
    assert (u + more) + (u + b) == u + (more + u + b);
    SamePlace(u, r, more + u + b);
  }

  lemma FiveParts(p: string, u: string, more: string, v: string, b: string)
    ensures (p + (u + more)) + v + b == p + (u + (more + (v + b)))
  {
  }

  lemma FrontAt(a: string, v: string, b: string, n: nat, d: nat, r: string)
    requires d < |a| && a[d..] + (Name(n) + b) == Name(n) + r && v != "" && Cut(a + v + b, |a|)
    requires a[..d] + (v + ReplaceAll(r, Name(n), v)) == a + v + b
    ensures Name(n) <= v
  {
    EndsInUnderscores(a[d..], b, n);
    if d + |Name(n)| <= |a| {
      CutPrefix(Name(n), a[d..], "__");
      FrontWhole(a, Name(n), v, b, d, r);
    } else {
      HeadInFrontIsLost(a, v, b, n, d, ReplaceAll(r, Name(n), v));
    }
  }

  // Replacing begins at an occurrence in front of the placeholder, if there is one.
  lemma FirstInFront(a: string, u: string, t: string, v: string, e: nat) returns (d: nat, r: string)
    requires u != "" && e < |a| && u <= (a + t)[e..]
    ensures d < |a| && a[d..] + t == u + r
    ensures ReplaceAll(a + t, u, v) == a[..d] + (v + ReplaceAll(r, u, v))
  {
    OccursFrom(a + t, u, e);
    d := FirstOccurrence(a + t, u);
    SlicesAt(a, t, d);
    r := (a[d..] + t)[|u|..];
    FirstReplaced(a[..d], a[d..] + t, u, v);
  }

  lemma FrontIsLost(a: string, v: string, b: string, n: nat)
    requires v != "" && Cut(a + v + b, |a|) && Contains(a + "__", Name(n))
    requires ReplaceAll(a + (Name(n) + b), Name(n), v) == a + v + b
    ensures Name(n) <= v
  {
    var e := FrontOccurs(a, b, n);
    var d, r := FirstInFront(a, Name(n), Name(n) + b, v, e);
    FrontAt(a, v, b, n, d, r);
  }

  lemma BehindIsReplaced(a: string, v: string, b: string, n: nat)
    requires !Contains(a + "__", Name(n))
    ensures ReplaceAll(a + (Name(n) + b), Name(n), v) == a + (v + ReplaceAll(b, Name(n), v))
  {
    var u := Name(n);
    forall e | 0 <= e < |a| ensures !(u <= (a + (u + b))[e..]) {
      if u <= (a + (u + b))[e..] { InFront(a, b, n, e); }
    }
    assert (u + b)[|u|..] == b;
    FirstReplaced(a, u + b, u, v);
  }

  // Replacing gives the text back exactly if the name is at no other place.
  lemma ReplacedIffAlone(a: string, v: string, b: string, n: nat)
    requires v != "" && Cut(a + v + b, |a|) && !(Name(n) <= v)
    ensures ReplaceAll(a + (Name(n) + b), Name(n), v) == a + v + b <==> Alone(a, b, n)
  {
    var u := Name(n);
    if Contains(a + "__", u) {
      if ReplaceAll(a + (u + b), u, v) == a + v + b { FrontIsLost(a, v, b, n); }
    } else {
      BehindIsReplaced(a, v, b, n);
      BehindIff(a, v, b, u);
    }
  }

  lemma BehindIff(a: string, v: string, b: string, u: string)
    requires u != "" && !(u <= v)
    ensures a + (v + ReplaceAll(b, u, v)) == a + v + b <==> !Contains(b, u)
  {
    assert a + v + b == a + (v + b);
    if Contains(b, u) {
      if a + (v + ReplaceAll(b, u, v)) == a + (v + b) {
        SamePlace(a, v + ReplaceAll(b, u, v), v + b);
        SamePlace(v, ReplaceAll(b, u, v), b);
        BehindIsLost(u, v, b);
      }
    } else {
      NothingReplaced(b, u, v);
    }
  }

  // ----- texts of which one stretch is taken out

  // The placeholder given out for the stretch v.
  ghost predicate Stands(page: Page, n: nat, v: string) {
    page.placeholders == [Name(n)] && page.mapping == map[Name(n) := v]
  }

  lemma OneMasked(text: string, spans: seq<Span>, n: nat, a: string, v: string, b: string)
    requires spans == [Span(|a|, |a| + |v|)] && Ordered(text, spans, 0, 0) && text == a + v + b
    ensures Masked(text, spans, [n], 0, 0) == a + (Name(n) + b) && Slices(text, spans, 0, 0) == [v]
  {
    assert text[0..|a|] == a && text[|a|..|a| + |v|] == v && text[|a| + |v|..] == b;
    assert Masked(text, spans, [n], 1, |a| + |v|) == b;
    assert Slices(text, spans, 1, |a| + |v|) == [];
    Associates(a, Name(n), b);
    assert [v] + [] == [v];
  }

  lemma OneNoted(page: Page, n: nat, v: string)
    requires page.placeholders == [] && page.mapping == map[]
    ensures Stands(Noted(page, [n], [v]), n, v)
  {
    NamesAppend([], n);
    MappedAppend(map[], [], [], n, v);
    assert [] + [n] == [n] && [] + [v] == [v] && [] + [Name(n)] == [Name(n)];
  }

  lemma OneGiven(s: Supply) returns (n: nat)
    ensures n == NextFree(s.used, s.counter) && Give(s, 1) == [n]
  {
    n := NextFree(s.used, s.counter);
    GiveCons(s, 1);
    assert [n] + [] == [n];
  }

  lemma OneTakenOut(text: string, spans: seq<Span>, a: string, v: string, b: string, l: Ledger) returns (n: nat)
    requires spans == [Span(|a|, |a| + |v|)] && Ordered(text, spans, 0, 0) && text == a + v + b
    requires l == PassOn(Opened(text), spans)
    ensures n == NextFree(Opened(text).page.supply.used, FIRST)
    ensures l.masked == a + (Name(n) + b) && Stands(l.page, n, v)
  {
    n := OneGiven(Opened(text).page.supply);
    OneMasked(text, spans, n, a, v, b);
    OneNoted(Opened(text).page, n, v);
  }

  // One of the passes takes out one stretch of the text itself, the others nothing.
  lemma OnePass(text: string, code: string -> seq<Span>, angle: string -> seq<Span>, link: string -> seq<Span>)
    returns (spans: seq<Span>)
    requires Proper(code) && Proper(angle) && Proper(link)
    requires |MaskAll(Opened(text), code, angle, link).page.placeholders| == 1
    ensures |spans| == 1 && Ordered(text, spans, 0, 0)
    ensures MaskAll(Opened(text), code, angle, link) == PassOn(Opened(text), spans)
  {
    var start := Opened(text);
    var one := PassOn(start, code(text));
    var two := PassOn(one, angle(one.masked));
    PassCounts(start, code(text));
    PassCounts(one, angle(one.masked));
    PassCounts(two, link(two.masked));
    NothingToMask(start);
    NothingToMask(one);
    NothingToMask(two);
    spans := if code(text) != [] then code(text) else if angle(text) != [] then angle(text) else link(text);
  }

  lemma OneIsUnmasked(page: Page, masked: string, n: nat, v: string)
    requires Stands(page, n, v)
    ensures AllNamed(page.placeholders)
    ensures UnmaskFrom(masked, page.placeholders, page.mapping, 0) == ReplaceAll(masked, Name(n), v)
    ensures Contains(masked, Name(n)) ==> Missing(masked, page.placeholders).None?
  {
    assert UnmaskFrom(ReplaceAll(masked, Name(n), v), page.placeholders, page.mapping, 1) == ReplaceAll(masked, Name(n), v);
    assert page.placeholders[1..] == [];
  }

  lemma StretchIff(page: Page, masked: string, text: string, a: string, v: string, b: string, n: nat)
    requires text == a + v + b && v != "" && Cut(text, |a|) && Name(n) !in Opened(text).page.supply.used
    requires masked == a + (Name(n) + b) && Stands(page, n, v)
    ensures AllNamed(page.placeholders) && Missing(masked, page.placeholders).None?
    ensures UnmaskFrom(masked, page.placeholders, page.mapping, 0) == text <==> Alone(a, b, n)
  {
    ContainsIn(a, Name(n), b);
    Associates(a, Name(n), b);
    OneIsUnmasked(page, masked, n, v);
    StretchIsNotNamed(a, v, b, n);
    ReplacedIffAlone(a, v, b, n);
  }

  lemma PassIff(text: string, spans: seq<Span>, sp: Span, l: Ledger) returns (n: nat)
    requires spans == [sp] && Ordered(text, spans, 0, 0) && l == PassOn(Opened(text), spans)
    ensures Stands(l.page, n, text[sp.start..sp.end])
    ensures AllNamed(l.page.placeholders) && Missing(l.masked, l.page.placeholders).None?
    ensures UnmaskFrom(l.masked, l.page.placeholders, l.page.mapping, 0) == text <==>
              Alone(text[..sp.start], text[sp.end..], n)
  {
    var a, v, b := text[..sp.start], text[sp.start..sp.end], text[sp.end..];
    assert text == a + v + b;
    n := OneTakenOut(text, spans, a, v, b, l);
    StretchIff(l.page, l.masked, text, a, v, b, n);
  }

  // Validation accepts the masked text, and unmasking gives the text back exactly if the name is at no other place.
  lemma OneStretchIff(text: string, code: string -> seq<Span>, angle: string -> seq<Span>, link: string -> seq<Span>)
    returns (sp: Span, n: nat)
    requires Proper(code) && Proper(angle) && Proper(link)
    requires |MaskAll(Opened(text), code, angle, link).page.placeholders| == 1
    ensures var l := MaskAll(Opened(text), code, angle, link);
            && sp.start < sp.end <= |text| && Stands(l.page, n, text[sp.start..sp.end])
            && AllNamed(l.page.placeholders) && Missing(l.masked, l.page.placeholders).None?
            && (UnmaskFrom(l.masked, l.page.placeholders, l.page.mapping, 0) == text <==>
                  Alone(text[..sp.start], text[sp.end..], n))
  {
    var l := MaskAll(Opened(text), code, angle, link);
    var spans := OnePass(text, code, angle, link);
    sp := spans[0];
    n := PassIff(text, spans, sp, l);
  }
}
