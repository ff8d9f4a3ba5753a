/**
 Texts that validation accepts once masked and that do not come back, in each of the three ways in which a name can be
 spelled beside its placeholder: as a whole, with its end in the text behind another placeholder, and with its
 beginning in the text in front of one.
 */
module CorruptedTexts {
  import opened GoText
  import opened MaskLedger
  import opened MaskPasses
  import opened Masking
  import opened MaskTokens
  import opened OneStretch
  import opened Placeholders
  import opened Text
  import opened TranslateMasked

  // A name without the underscores at its end.
  function Front(n: nat): string {
    "__" + Core(n)
  }

  lemma FrontIs(n: nat)
    ensures Name(n) == Front(n) + "__" && Name(n) == "__" + Name(n)[2..] && Name(n)[2..] == Core(n) + "__"
  {
    NameShape(n);
    NameEnds(n);
  }

  // No other name begins in front of a name's last underscores.
  lemma NoneInFront(m: nat, n: nat, rest: string, d: nat)
    requires m != n && d < |Front(m)|
    ensures !(Name(n) <= (Front(m) + (Name(n) + rest))[d..])
  {
    FrontIs(m);
    FrontIs(n);
    var w := Front(m) + (Name(n) + rest);
    RegroupText(Front(m), Name(n)[2..], rest);
    assert w == Name(m) + (Name(n)[2..] + rest);
    if Name(n) <= w[d..] { WhereInName(n, m, Name(n)[2..] + rest, d); }
  }

  // Replacing a name behind another one's front.
  lemma ReplacedBehindFront(m: nat, n: nat, rest: string, v: string)
    requires m != n
    ensures ReplaceAll(Front(m) + (Name(n) + rest), Name(n), v) == Front(m) + (v + ReplaceAll(rest, Name(n), v))
  {
    var u := Name(n);
    forall d | 0 <= d < |Front(m)| ensures !(u <= (Front(m) + (u + rest))[d..]) { NoneInFront(m, n, rest, d); }
    assert (u + rest)[|u|..] == rest;
    FirstReplaced(Front(m), u + rest, u, v);
  }

  lemma NameReplaced(n: nat, v: string)
    ensures ReplaceAll(Name(n), Name(n), v) == v
  {
    var u := Name(n);
    assert u[|u|..] == "";
    assert ReplaceAll(u, u, v) == v + ReplaceAll("", u, v);
  }

  // Neither the beginning nor the end is white space.
  lemma EndsStay(s: string)
    requires |s| > 0 && s[0] == '_' && s[|s| - 1] == '_'
    ensures TrimSpace(s) == s
  {
    TrimSpaceKeepsIff(s);
  }

  // ----- a whole name: two placeholders sharing underscores, of which the second is not noticed

  function SharedCore(m: nat): string {
    Name(m) + Name(FIRST)[2..] + "`a`"
  }

  lemma SharedDraw(m: nat)
    requires m != FIRST
    ensures NextFree(Opened(SharedCore(m)).page.supply.used, FIRST) == FIRST
  {
    SharedUnderscoresAreMissed(m, FIRST, "`a`");
  }

  lemma SharedIsFront(m: nat)
    ensures Name(m) + Name(FIRST)[2..] == Front(m) + Name(FIRST)
  {
    FrontIs(m);
    FrontIs(FIRST);
  }

  lemma OneAnswer(page: Page, masked: string, n: nat, v: string)
    requires Stands(page, n, v) && Contains(masked, Name(n)) && TrimSpace(masked) == masked && masked != ""
    ensures AllNamed(page.placeholders)
    ensures Answer(page, Said(masked)) == Ok(ReplaceAll(masked, Name(n), v))
  {
    OneIsUnmasked(page, masked, n, v);
  }

  lemma SharedAnswer(page: Page, masked: string, m: nat)
    requires m != FIRST && Stands(page, FIRST, "`a`")
    requires masked == Front(m) + (Name(FIRST) + Name(FIRST))
    ensures AllNamed(page.placeholders) && Answer(page, Said(masked)) == Ok(Front(m) + ("`a`" + "`a`"))
  {
    var u := Name(FIRST);
    FrontIs(m);
    FrontIs(FIRST);
    EndsStay(masked);
    Associates(Front(m), u, u);
    ContainsIn(Front(m), u, u);
    OneAnswer(page, masked, FIRST, "`a`");
    ReplacedBehindFront(m, FIRST, u, "`a`");
    NameReplaced(FIRST, "`a`");
  }

  lemma OnlyCode(text: string, code: string -> seq<Span>, angle: string -> seq<Span>, link: string -> seq<Span>, l: Ledger)
    requires Proper(code) && Proper(angle) && Proper(link)
    requires l == PassOn(Opened(text), code(text)) && angle(l.masked) == [] && link(l.masked) == []
    ensures MaskAll(Opened(text), code, angle, link) == l
  {
    NothingToMask(l);
  }

  // If the regular expressions take out the code of this text and nothing more, a translator that repeats its prompt
  // passes validation and does not give the text back.
  lemma SharedIsCorrupted(m: nat, code: string -> seq<Span>, angle: string -> seq<Span>, link: string -> seq<Span>)
    requires Proper(code) && Proper(angle) && Proper(link) && m != FIRST
    requires var q := |SharedCore(m)| - 3; code(SharedCore(m)) == [Span(q, q + 3)]
    requires var masked := Front(m) + (Name(FIRST) + Name(FIRST)); angle(masked) == [] && link(masked) == []
    ensures var l := MaskAll(Opened(SharedCore(m)), code, angle, link);
            && AllNamed(l.page.placeholders)
            && Answer(l.page, Said(l.masked)) == Ok(Front(m) + ("`a`" + "`a`"))
            && Front(m) + ("`a`" + "`a`") != SharedCore(m)
  {
    var text, a := SharedCore(m), Name(m) + Name(FIRST)[2..];
    assert Ordered(text, code(text), 0, 0) && text == a + "`a`" + "";
    var l := PassOn(Opened(text), code(text));
    SharedDraw(m);
    SharedIsFront(m);
    var n := OneTakenOut(text, code(text), a, "`a`", "", l);
    Associates(Front(m), Name(FIRST), Name(FIRST));
    assert l.masked == Front(m) + (Name(FIRST) + Name(FIRST)) by { assert Name(FIRST) + "" == Name(FIRST); }
    OnlyCode(text, code, angle, link, l);
    SharedAnswer(l.page, l.masked, m);
    assert |text| > |Front(m) + ("`a`" + "`a`")|;
  }

  // ----- texts without a placeholder

  lemma CoreIs(n: nat)
    ensures |Core(n)| > 1 && Core(n) == "O" + Core(n)[1..] && 'O' !in Core(n)[1..]
  {
    NameShape(n);
    var c := Core(n);
    forall k | 0 <= k < |c[1..]| ensures c[1..][k] != 'O' {
      assert c[1..][k] == Name(n)[k + 3];
    }
  }

  lemma HitHasO(text: string, p: nat)
    requires IsHit(text, p)
    ensures p + 10 <= |text| && text[p + 1] == '_' && text[p + 2] == 'O'
  {
    assert text[p..p + 10][1] == text[p + 1] && text[p..p + 10][2] == text[p + 2];
  }

  lemma OnlyO(a: string, z: string)
    requires 'O' !in a && 'O' !in z
    ensures forall q :: 0 <= q < |a + "O" + z| && q != |a| ==> (a + "O" + z)[q] != 'O'
  {
    var w := a + "O" + z;
    assert w == a + ("O" + z);
    forall q | 0 <= q < |w| && q != |a| ensures w[q] != 'O' {
      if q < |a| { assert w[q] == a[q]; } else { assert w[q] == z[q - |a| - 1]; }
    }
  }

  // With one O in it, a text has a placeholder there or nowhere.
  lemma NoHitElsewhere(a: string, z: string)
    requires 'O' !in a && 'O' !in z
    requires |a| >= 2 ==> !IsHit(a + "O" + z, |a| - 2)
    ensures FindAll(a + "O" + z, 0) == []
  {
    var w := a + "O" + z;
    OnlyO(a, z);
    forall p | 0 <= p
      ensures !IsHit(w, p)
    {
      if IsHit(w, p) { HitHasO(w, p); }
    }
    NoHits(w, 0);
  }

  lemma {:induction false} NoHits(text: string, p: nat)
    requires forall q :: p <= q ==> !IsHit(text, q)
    ensures FindAll(text, p) == []
    decreases |text| - p
  {
    if p < |text| { NoHits(text, p + 1); }
  }

  lemma NothingIsUsed(text: string, n: nat)
    requires FindAll(text, 0) == []
    ensures Opened(text).page.supply.used == {} && NextFree({}, n) == n
  {
    NextFreeStops({}, n);
  }

  lemma {:induction false} TooShort(s: string, u: string)
    requires |s| < |u|
    ensures !Contains(s, u)
  {
    if s != "" { TooShort(s[1..], u); }
  }

  // ----- a head: the text spells a name up to its last underscores, right in front of the stretch

  function HeadText(): string {
    Front(FIRST) + "`a`"
  }

  lemma FrontIsNoHit(n: nat, rest: string)
    requires rest != "" && rest[0] != '_' && !IsDigit(rest[0])
    ensures !IsHit(Front(n) + rest, 0)
  {
    var text, k := Front(n) + rest, |Digits(n)|;
    assert Front(n) == OPEN + Digits(n) && text == OPEN + (Digits(n) + rest);
    assert text[10 + k] == rest[0];
    assert forall q :: 10 <= q < 10 + k ==> text[q] == Digits(n)[q - 10];
    DigitRunIs(text, 10, k);
    assert 12 + k <= |text| ==> text[10 + k..12 + k][0] == rest[0];
  }

  lemma HeadHasNoHit()
    ensures FindAll(HeadText(), 0) == []
  {
    CoreIs(FIRST);
    var z := Core(FIRST)[1..] + "`a`";
    assert HeadText() == "__" + "O" + z;
    FrontIsNoHit(FIRST, "`a`");
    NoHitElsewhere("__", z);
  }

  lemma ReplacedAtStart(u: string, r: string, v: string)
    requires |r| < |u|
    ensures ReplaceAll(u + r, u, v) == v + r
  {
    assert (u + r)[|u|..] == r;
    TooShort(r, u);
    NothingReplaced(r, u, v);
  }

  lemma HeadReplaced(n: nat, v: string)
    ensures ReplaceAll(Front(n) + Name(n), Name(n), v) == v + (Core(n) + "__")
  {
    FrontIs(n);
    Associates(Front(n), "__", Core(n) + "__");
    ReplacedAtStart(Name(n), Core(n) + "__", v);
  }

  lemma HeadAnswer(page: Page, masked: string)
    requires Stands(page, FIRST, "`a`") && masked == Front(FIRST) + Name(FIRST)
    ensures AllNamed(page.placeholders) && Answer(page, Said(masked)) == Ok("`a`" + (Core(FIRST) + "__"))
  {
    FrontIs(FIRST);
    EndsStay(masked);
    assert masked == Front(FIRST) + Name(FIRST) + "";
    ContainsIn(Front(FIRST), Name(FIRST), "");
    OneAnswer(page, masked, FIRST, "`a`");
    HeadReplaced(FIRST, "`a`");
  }

  // The stretch, put back where the name begins, is followed by what the name leaves over.
  lemma HeadIsCorrupted(text: string, code: string -> seq<Span>, angle: string -> seq<Span>, link: string -> seq<Span>)
    requires text == HeadText() && Proper(code) && Proper(angle) && Proper(link)
    requires code(text) == [Span(|Front(FIRST)|, |Front(FIRST)| + 3)]
    requires var masked := Front(FIRST) + Name(FIRST); angle(masked) == [] && link(masked) == []
    ensures FindAll(text, 0) == []
    ensures var l := MaskAll(Opened(text), code, angle, link);
            && AllNamed(l.page.placeholders)
            && Answer(l.page, Said(l.masked)) == Ok("`a`" + (Core(FIRST) + "__"))
            && "`a`" + (Core(FIRST) + "__") != text
  {
    var l := PassOn(Opened(text), code(text));
    assert text == Front(FIRST) + "`a`" + "";
    HeadHasNoHit();
    NothingIsUsed(text, FIRST);
    var n := OneTakenOut(text, code(text), Front(FIRST), "`a`", "", l);
    assert Name(FIRST) + "" == Name(FIRST);
    OnlyCode(text, code, angle, link, l);
    HeadAnswer(l.page, l.masked);
    assert text[0] == '_' && ("`a`" + (Core(FIRST) + "__"))[0] == '`';
  }

  // ----- a tail: the text behind a link spells a name from its middle on, and the link is given a later number than a
  // stretch of code, whose name is replaced first

  // What stands between the link and the code.
  function Tail(): string {
    Core(FIRST) + "__" + " "
  }

  predicate IsLink(v: string) {
    |v| > 2 && v[0] == '<' && v[|v| - 1] == '>' && 'O' !in v
  }

  lemma TailHasNoHit(v: string)
    requires IsLink(v)
    ensures FindAll(v + Tail() + "`c`", 0) == []
  {
    CoreIs(FIRST);
    var z := Core(FIRST)[1..] + ("__" + " " + "`c`");
    assert v + Tail() + "`c`" == v + "O" + z;
    var w := v + "O" + z;
    assert w[|v| - 1] == v[|v| - 1];
    if IsHit(w, |v| - 2) { HitHasO(w, |v| - 2); }
    NoHitElsewhere(v, z);
  }

  // The names that the two passes give out, and the masked texts.
  function CodeMasked(v: string): string {
    v + (Tail() + Name(FIRST))
  }

  function BothMasked(): string {
    Name(FIRST + 1) + (Tail() + Name(FIRST))
  }

  ghost predicate StandsTwo(page: Page, v: string) {
    && page.placeholders == [Name(FIRST), Name(FIRST + 1)]
    && page.mapping == map[Name(FIRST) := "`c`"][Name(FIRST + 1) := v]
  }

  lemma SecondNoted(page: Page, v: string)
    requires Stands(page, FIRST, "`c`")
    ensures StandsTwo(Noted(page, [FIRST + 1], [v]), v)
  {
    NamesAppend([], FIRST + 1);
    MappedAppend(page.mapping, [], [], FIRST + 1, v);
    assert [] + [FIRST + 1] == [FIRST + 1] && [] + [v] == [v] && [] + [Name(FIRST + 1)] == [Name(FIRST + 1)];
  }

  lemma SecondGiven(s: Supply)
    requires s == Supply({Name(FIRST)}, FIRST + 1)
    ensures Give(s, 1) == [FIRST + 1]
  {
    if Name(FIRST + 1) in s.used { NameIsInjective(FIRST + 1, FIRST); }
    NextFreeStops(s.used, FIRST + 1);
    var n := OneGiven(s);
  }

  lemma SecondPass(l: Ledger, v: string, spans: seq<Span>)
    requires IsLink(v) && spans == [Span(0, |v|)] && Ordered(l.masked, spans, 0, 0)
    requires l.masked == CodeMasked(v) && Stands(l.page, FIRST, "`c`")
    requires l.page.supply == Supply({Name(FIRST)}, FIRST + 1)
    ensures PassOn(l, spans).masked == BothMasked() && StandsTwo(PassOn(l, spans).page, v)
  {
    SecondGiven(l.page.supply);
    var b := Tail() + Name(FIRST);
    assert l.masked == "" + v + b;
    OneMasked(l.masked, spans, FIRST + 1, "", v, b);
    assert "" + BothMasked() == BothMasked();
    SecondNoted(l.page, v);
  }

  lemma ThirdIs(w: string, u: string, d: nat)
    requires d <= |w| && u <= w[d..] && |u| > 2
    ensures d + 2 < |w| && w[d + 2] == u[2]
  {
  }

  lemma NameOnlyAtFront(n: nat, rest: string, d: nat)
    requires 'O' !in rest && d <= |Front(n) + rest| && Name(n) <= (Front(n) + rest)[d..]
    ensures d == 0
  {
    CoreIs(n);
    NameShape(n);
    assert Front(n) + rest == "__" + "O" + (Core(n)[1..] + rest);
    OnlyO("__", Core(n)[1..] + rest);
    ThirdIs(Front(n) + rest, Name(n), d);
  }

  lemma NoPrefix(u: string, w: string, k: nat)
    requires k < |u| && k < |w| && u[k] != w[k]
    ensures !(u <= w)
  {
  }

  lemma FrontIsNotPrefix(n: nat, rest: string)
    requires rest != "" && rest[0] != '_'
    ensures !(Name(n) <= Front(n) + rest)
  {
    FrontIs(n);
    var k := |Front(n)|;
    assert (Front(n) + rest)[k] == rest[0] && Name(n)[k] == '_';
    NoPrefix(Name(n), Front(n) + rest, k);
  }

  // A name whose last underscores are gone is no name any more.
  lemma FrontIsNotName(n: nat, rest: string)
    requires rest != "" && rest[0] != '_' && 'O' !in rest
    ensures !Contains(Front(n) + rest, Name(n))
  {
    var w := Front(n) + rest;
    assert w[0..] == w;
    FrontIsNotPrefix(n, rest);
    if Contains(w, Name(n)) {
      var d := FirstOccurrence(w, Name(n));
      NameOnlyAtFront(n, rest, d);
    }
  }

  // What is left when both names have been replaced: the link is gone.
  function TailLeft(): string {
    Front(FIRST + 1) + ("`c`" + (" " + "`c`"))
  }

  lemma BehindBlank(u: string, v: string)
    requires u != "" && u[0] != ' '
    ensures ReplaceAll(" " + u, u, v) == " " + v
  {
    var w := " " + u;
    assert w[1..] == u && u[|u|..] == "";
    assert ReplaceAll(u, u, v) == v + ReplaceAll("", u, v);
  }

  lemma TailRegroups(p: string, c: string, u: string)
    ensures (p + "__") + ((c + "__" + " ") + u) == p + (("__" + (c + "__")) + (" " + u))
  {
  }

  lemma BothAreNames()
    ensures BothMasked() == Front(FIRST + 1) + (Name(FIRST) + (" " + Name(FIRST)))
  {
    FrontIs(FIRST);
    FrontIs(FIRST + 1);
    TailRegroups(Front(FIRST + 1), Core(FIRST), Name(FIRST));
  }

  lemma TailReplaced(v: string)
    ensures ReplaceAll(BothMasked(), Name(FIRST), "`c`") == TailLeft()
    ensures ReplaceAll(TailLeft(), Name(FIRST + 1), v) == TailLeft()
  {
    FrontIs(FIRST);
    BothAreNames();
    ReplacedBehindFront(FIRST + 1, FIRST, " " + Name(FIRST), "`c`");
    BehindBlank(Name(FIRST), "`c`");
    FrontIsNotName(FIRST + 1, "`c`" + (" " + "`c`"));
    NothingReplaced(TailLeft(), Name(FIRST + 1), v);
  }

  lemma TwoAreUnmasked(page: Page, masked: string, u: string, v: string, x: string, y: string)
    requires page.placeholders == [u, v] && page.mapping == map[u := x][v := y] && u != v && u != "" && v != ""
    ensures AllNamed(page.placeholders)
    ensures UnmaskFrom(masked, page.placeholders, page.mapping, 0) == ReplaceAll(ReplaceAll(masked, u, x), v, y)
    ensures Contains(masked, u) && Contains(masked, v) ==> Missing(masked, page.placeholders).None?
  {
    var once := ReplaceAll(masked, u, x);
    assert UnmaskFrom(once, page.placeholders, page.mapping, 1) ==
           UnmaskFrom(ReplaceAll(once, v, y), page.placeholders, page.mapping, 2);
    assert page.placeholders[1..] == [v] && [v][1..] == [];
    assert Missing(masked, [v]) == if Contains(masked, v) then None else Some(v);
  }

  lemma BothContained()
    ensures Contains(BothMasked(), Name(FIRST)) && Contains(BothMasked(), Name(FIRST + 1))
    ensures TrimSpace(BothMasked()) == BothMasked() && BothMasked() != ""
  {
    FrontIs(FIRST);
    FrontIs(FIRST + 1);
    BothAreNames();
    var w := BothMasked();
    assert Name(FIRST + 1) <= w;
    Associates(Front(FIRST + 1), Name(FIRST), " " + Name(FIRST));
    ContainsIn(Front(FIRST + 1), Name(FIRST), " " + Name(FIRST));
    assert w[0] == '_' && w[|w| - 1] == '_';
    EndsStay(w);
  }

  lemma TailAnswer(page: Page, v: string)
    requires StandsTwo(page, v)
    ensures AllNamed(page.placeholders) && Answer(page, Said(BothMasked())) == Ok(TailLeft())
  {
    if Name(FIRST) == Name(FIRST + 1) { NameIsInjective(FIRST, FIRST + 1); }
    TwoAreUnmasked(page, BothMasked(), Name(FIRST), Name(FIRST + 1), "`c`", v);
    BothContained();
    TailReplaced(v);
  }

  lemma TakenFirst(s: Supply)
    requires s == Supply({}, FIRST)
    ensures After(s, 1) == Supply({Name(FIRST)}, FIRST + 1)
  {
    NextFreeStops({}, FIRST);
    assert After(s, 1) == After(Taken(s), 0);
    assert {} + {Name(FIRST)} == {Name(FIRST)};
  }

  lemma FirstPass(v: string, text: string, spans: seq<Span>, l: Ledger)
    requires IsLink(v) && text == v + Tail() + "`c`" && Ordered(text, spans, 0, 0)
    requires spans == [Span(|v + Tail()|, |v + Tail()| + 3)] && l == PassOn(Opened(text), spans)
    ensures FindAll(text, 0) == []
    ensures l.masked == CodeMasked(v) && Stands(l.page, FIRST, "`c`")
    ensures l.page.supply == Supply({Name(FIRST)}, FIRST + 1)
  {
    var a := v + Tail();
    assert text == a + "`c`" + "";
    TailHasNoHit(v);
    NothingIsUsed(text, FIRST);
    var n := OneTakenOut(text, spans, a, "`c`", "", l);
    assert Name(FIRST) + "" == Name(FIRST);
    Associates(v, Tail(), Name(FIRST));
    TakenFirst(Opened(text).page.supply);
  }

  // The link is lost and a broken placeholder stays, in a text that has no placeholder in it.
  lemma TailIsCorrupted(v: string, text: string, code: string -> seq<Span>, angle: string -> seq<Span>,
                        link: string -> seq<Span>)
    requires Proper(code) && Proper(angle) && Proper(link) && IsLink(v) && text == v + Tail() + "`c`"
    requires code(text) == [Span(|v + Tail()|, |v + Tail()| + 3)]
    requires angle(CodeMasked(v)) == [Span(0, |v|)] && link(BothMasked()) == []
    ensures FindAll(text, 0) == []
    ensures var l := MaskAll(Opened(text), code, angle, link);
            && AllNamed(l.page.placeholders)
            && Answer(l.page, Said(l.masked)) == Ok(TailLeft()) && TailLeft() != text
  {
    var l := PassOn(Opened(text), code(text));
    FirstPass(v, text, code(text), l);
    var r := PassOn(l, angle(l.masked));
    SecondPass(l, v, angle(l.masked));
    NothingToMask(r);
    TailAnswer(r.page, v);
    assert text[0] == '<' && TailLeft()[0] == '_';
  }
}
