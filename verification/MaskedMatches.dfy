/** What masking takes out of a text, match by match, said over the text, the list of placeholders and the mapping. */
module MaskedMatches {
  import opened MaskLedger
  import opened MaskPasses
  import opened MaskTokens
  import opened Placeholders
  import opened Text

  // The text from pos on, with each match from the k-th on replaced by its placeholder.
  function Replaced(text: string, spans: seq<Span>, placeholders: seq<string>, k: nat, pos: nat): string
    requires pos <= |text| && Ordered(text, spans, k, pos) && |placeholders| == |spans|
    decreases |spans| - k
  {
    if k >= |spans| then text[pos..]
    else text[pos..spans[k].start] + placeholders[k] + Replaced(text, spans, placeholders, k + 1, spans[k].end)
  }

  // The placeholders stand for the matches in the text, one by one.
  predicate StandFor(placeholders: seq<string>, mapping: map<string, string>, text: string, spans: seq<Span>) {
    && |placeholders| == |spans|
    && forall k :: 0 <= k < |spans| ==>
         && spans[k].start <= spans[k].end <= |text|
         && placeholders[k] in mapping && mapping[placeholders[k]] == text[spans[k].start..spans[k].end]
  }

  // ----- one pass

  lemma {:induction false} SliceIsMatch(text: string, spans: seq<Span>, k: nat, pos: nat, j: nat)
    requires Ordered(text, spans, k, pos) && k <= j < |spans|
    ensures spans[j].start <= spans[j].end <= |text|
    ensures |Slices(text, spans, k, pos)| == |spans| - k
    ensures Slices(text, spans, k, pos)[j - k] == text[spans[j].start..spans[j].end]
    decreases |spans| - k
  {
    SlicesCount(text, spans, k, pos);
    if j > k { SliceIsMatch(text, spans, k + 1, spans[k].end, j); }
  }

  lemma {:induction false} NamesAreReplaced(text: string, spans: seq<Span>, names: seq<nat>, placeholders: seq<string>,
                                            k: nat, pos: nat)
    requires pos <= |text| && Ordered(text, spans, k, pos) && |names| == |spans| == |placeholders|
    requires forall i :: 0 <= i < |spans| ==> placeholders[i] == Name(names[i])
    ensures Masked(text, spans, names, k, pos) == Replaced(text, spans, placeholders, k, pos)
    decreases |spans| - k
  {
    if k < |spans| { NamesAreReplaced(text, spans, names, placeholders, k + 1, spans[k].end); }
  }

  // What is noted for m stretches, and how far the supply is used up.
  ghost predicate NotedSoFar(l: Ledger, first: Supply, ns: seq<nat>, originals: seq<string>, m: nat) {
    && |originals| == m && l.page.supply == After(first, m)
    && Holds(ns, l.page.placeholders, l.page.mapping, originals)
  }

  lemma PartsNote(page: Page, r: Page, first: Supply, ns: seq<nat>, originals: seq<string>, names: seq<nat>,
                  texts: seq<string>, m: nat)
    requires Holds(ns, page.placeholders, page.mapping, originals) && Distinct(ns)
    requires |names| == |texts| && NamesFrom(ns, names, |originals|) && m == |originals| + |texts|
    requires r.placeholders == page.placeholders + Names(names) && r.mapping == Mapped(page.mapping, names, texts)
    ensures Holds(ns, r.placeholders, r.mapping, originals + texts) && |originals + texts| == m
  {
    HoldsMore(ns, page.placeholders, page.mapping, originals, names, texts);
  }

  lemma PassNotes(l: Ledger, first: Supply, ns: seq<nat>, spans: seq<Span>, originals: seq<string>, k: nat,
                  names: seq<nat>, texts: seq<string>, r: Ledger, left: Supply, m: nat)
    requires NotedSoFar(l, first, ns, originals, k) && ns == Give(first, |ns|) && Ordered(l.masked, spans, 0, 0)
    requires k + |spans| == m <= |ns| && r == PassOn(l, spans) && Distinct(ns)
    requires names == Give(l.page.supply, |spans|) && left == After(l.page.supply, |spans|)
    requires texts == Slices(l.masked, spans, 0, 0)
    ensures NotedSoFar(r, first, ns, originals + texts, m) && NamesFrom(ns, names, k)
    ensures |names| == |spans| == |texts| && r.masked == Masked(l.masked, spans, names, 0, 0)
  {
    PassDraws(first, l.page.supply, ns, k, |spans|, m, names, left);
    PassParts(l, spans, names, texts, left, r);
    PartsNote(l.page, r.page, first, ns, originals, names, texts, m);
  }

  // ----- the passes together

  // The part of a list that one pass has added.
  function Part(placeholders: seq<string>, from: nat, n: nat): seq<string>
    requires from + n <= |placeholders|
  {
    placeholders[from..from + n]
  }

  lemma PartStands(ns: seq<nat>, placeholders: seq<string>, mapping: map<string, string>, originals: seq<string>,
                   from: nat, names: seq<nat>, texts: seq<string>, text: string, spans: seq<Span>)
    requires Ordered(text, spans, 0, 0) && |names| == |spans| == |texts| && NamesFrom(ns, names, from)
    requires Holds(ns, placeholders, mapping, originals) && from + |texts| <= |originals| == |placeholders|
    requires originals[from..from + |texts|] == texts && texts == Slices(text, spans, 0, 0)
    ensures StandFor(Part(placeholders, from, |spans|), mapping, text, spans)
    ensures Masked(text, spans, names, 0, 0) == Replaced(text, spans, Part(placeholders, from, |spans|), 0, 0)
  {
    var part := Part(placeholders, from, |spans|);
    forall k | 0 <= k < |spans|
      ensures part[k] == Name(names[k]) && part[k] in mapping && mapping[part[k]] == texts[k]
    {
      assert part[k] == placeholders[from + k] == Label(ns, from + k);
      assert names[k] == ns[from..from + |names|][k] == ns[from + k];
      assert texts[k] == originals[from..from + |texts|][k] == originals[from + k];
    }
    forall k | 0 <= k < |spans|
      ensures spans[k].start <= spans[k].end <= |text| && texts[k] == text[spans[k].start..spans[k].end]
    {
      SliceIsMatch(text, spans, 0, 0, k);
    }
    NamesAreReplaced(text, spans, names, part, 0, 0);
  }

  lemma NoneTwice(ns: seq<nat>, placeholders: seq<string>, mapping: map<string, string>, originals: seq<string>)
    requires Holds(ns, placeholders, mapping, originals) && Distinct(ns)
    ensures forall i, j :: 0 <= i < j < |placeholders| ==> placeholders[i] != placeholders[j]
  {
    forall i, j | 0 <= i < j < |placeholders| ensures placeholders[i] != placeholders[j] {
      if placeholders[i] == placeholders[j] { NameIsInjective(ns[i], ns[j]); }
    }
  }

  // The stretches of three passes, one behind the other.
  lemma ThreeParts(x: seq<string>, y: seq<string>, z: seq<string>, all: seq<string>)
    requires all == x + y + z
    ensures all[0..|x|] == x && all[|x|..|x| + |y|] == y && all[|x| + |y|..|x| + |y| + |z|] == z
  {
  }

  lemma OnePassNotes(l: Ledger, first: Supply, ns: seq<nat>, spans: seq<Span>, originals: seq<string>, k: nat, r: Ledger,
                     m: nat) returns (names: seq<nat>, texts: seq<string>)
    requires NotedSoFar(l, first, ns, originals, k) && ns == Give(first, |ns|) && Ordered(l.masked, spans, 0, 0)
    requires k + |spans| == m <= |ns| && r == PassOn(l, spans) && Distinct(ns)
    ensures NotedSoFar(r, first, ns, originals + texts, m) && NamesFrom(ns, names, k)
    ensures |names| == |spans| == |texts| && texts == Slices(l.masked, spans, 0, 0)
    ensures r.masked == Masked(l.masked, spans, names, 0, 0)
  {
    names, texts := Give(l.page.supply, |spans|), Slices(l.masked, spans, 0, 0);
    PassNotes(l, first, ns, spans, originals, k, names, texts, r, After(l.page.supply, |spans|), m);
  }

  // What one pass has taken out of a text, from the given place in the list on.
  ghost predicate TookOut(page: Page, from: nat, text: string, spans: seq<Span>, masked: string) {
    && from + |spans| <= |page.placeholders| && Ordered(text, spans, 0, 0)
    && StandFor(Part(page.placeholders, from, |spans|), page.mapping, text, spans)
    && masked == Replaced(text, spans, Part(page.placeholders, from, |spans|), 0, 0)
  }

  lemma PassTookOut(ns: seq<nat>, page: Page, originals: seq<string>, from: nat, names: seq<nat>, texts: seq<string>,
                    text: string, spans: seq<Span>, masked: string)
    requires Ordered(text, spans, 0, 0) && |names| == |spans| == |texts| && NamesFrom(ns, names, from)
    requires Holds(ns, page.placeholders, page.mapping, originals) && from + |texts| <= |originals|
    requires originals[from..from + |texts|] == texts && texts == Slices(text, spans, 0, 0)
    requires masked == Masked(text, spans, names, 0, 0)
    ensures TookOut(page, from, text, spans, masked)
  {
    PartStands(ns, page.placeholders, page.mapping, originals, from, names, texts, text, spans);
  }

  // The list has a placeholder for each of the matches, in order, and no two are the same; ab of them are for code and
  // angle brackets.
  ghost predicate TookAllOut(page: Page, text: string, code: seq<Span>, one: string, angle: seq<Span>, two: string,
                             link: seq<Span>, masked: string, ab: nat) {
    && ab == |code| + |angle| && |page.placeholders| == ab + |link|
    && (forall i, j :: 0 <= i < j < |page.placeholders| ==> page.placeholders[i] != page.placeholders[j])
    && TookOut(page, 0, text, code, one) && TookOut(page, |code|, one, angle, two)
    && TookOut(page, ab, two, link, masked)
  }

  lemma PassesTakeOut(start: Ledger, l1: Ledger, l2: Ledger, l3: Ledger, code: seq<Span>, angle: seq<Span>,
                      link: seq<Span>, ab: nat, abc: nat)
    requires start.page.placeholders == [] && start.page.mapping == map[]
    requires Ordered(start.masked, code, 0, 0) && l1 == PassOn(start, code)
    requires Ordered(l1.masked, angle, 0, 0) && l2 == PassOn(l1, angle)
    requires Ordered(l2.masked, link, 0, 0) && l3 == PassOn(l2, link)
    requires ab == |code| + |angle| && abc == ab + |link|
    ensures TookAllOut(l3.page, start.masked, code, l1.masked, angle, l2.masked, link, l3.masked, ab)
  {
    var first, a := start.page.supply, |code|;
    var ns := Give(first, abc);
    GiveCounts(first, abc);
    assert NotedSoFar(start, first, ns, [], 0);
    var m1, x := OnePassNotes(start, first, ns, code, [], 0, l1, a);
    var m2, y := OnePassNotes(l1, first, ns, angle, [] + x, a, l2, ab);
    var m3, z := OnePassNotes(l2, first, ns, link, [] + x + y, ab, l3, abc);
    var all := [] + x + y + z;
    NotedIsTakenOut(ns, l3.page, all, x, y, z, m1, m2, m3, start.masked, l1.masked, l2.masked, l3.masked, code, angle,
                    link, ab, abc);
  }

  lemma NotedIsTakenOut(ns: seq<nat>, page: Page, all: seq<string>, x: seq<string>, y: seq<string>, z: seq<string>,
                        m1: seq<nat>, m2: seq<nat>, m3: seq<nat>, zero: string, one: string, two: string, three: string,
                        code: seq<Span>, angle: seq<Span>, link: seq<Span>, ab: nat, abc: nat)
    requires Holds(ns, page.placeholders, page.mapping, all) && Distinct(ns) && all == [] + x + y + z
    requires Ordered(zero, code, 0, 0) && Ordered(one, angle, 0, 0) && Ordered(two, link, 0, 0)
    requires |m1| == |code| == |x| && |m2| == |angle| == |y| && |m3| == |link| == |z|
    requires ab == |code| + |angle| && abc == ab + |link|
    requires NamesFrom(ns, m1, 0) && NamesFrom(ns, m2, |code|) && NamesFrom(ns, m3, ab)
    requires x == Slices(zero, code, 0, 0) && y == Slices(one, angle, 0, 0) && z == Slices(two, link, 0, 0)
    requires one == Masked(zero, code, m1, 0, 0) && two == Masked(one, angle, m2, 0, 0) && three == Masked(two, link, m3, 0, 0)
    ensures TookAllOut(page, zero, code, one, angle, two, link, three, ab)
  {
    assert [] + x == x;
    ThreeParts(x, y, z, all);
    PassTookOut(ns, page, all, 0, m1, x, zero, code, one);
    PassTookOut(ns, page, all, |code|, m2, y, one, angle, two);
    PassTookOut(ns, page, all, ab, m3, z, two, link, three);
    NoneTwice(ns, page.placeholders, page.mapping, all);
  }

  lemma InThreePasses(text: string, code: string -> seq<Span>, angle: string -> seq<Span>, link: string -> seq<Span>,
                      l1: Ledger, l2: Ledger, l3: Ledger)
    requires Proper(code) && Proper(angle) && Proper(link)
    requires l1 == PassOn(Opened(text), code(text)) && l2 == PassOn(l1, angle(l1.masked))
    requires l3 == PassOn(l2, link(l2.masked))
    ensures MaskAll(Opened(text), code, angle, link) == l3
  {
  }

  // The list has a placeholder for each match of each of the three searches: those for code in the text, those for angle
  // brackets in the text with the code replaced, those for links in the text with both replaced, in this order. Each
  // stands for its match, and no two are the same.
  lemma EveryMatchIsTakenOut(text: string, code: string -> seq<Span>, angle: string -> seq<Span>,
                             link: string -> seq<Span>) returns (one: string, two: string, ab: nat)
    requires Proper(code) && Proper(angle) && Proper(link)
    ensures var l := MaskAll(Opened(text), code, angle, link);
            TookAllOut(l.page, text, code(text), one, angle(one), two, link(two), l.masked, ab)
  {
    var start := Opened(text);
    var l1 := PassOn(start, code(text));
    var l2 := PassOn(l1, angle(l1.masked));
    var l3 := PassOn(l2, link(l2.masked));
    one, two := l1.masked, l2.masked;
    InThreePasses(text, code, angle, link, l1, l2, l3);
    ab := |code(text)| + |angle(one)|;
    PassesTakeOut(start, l1, l2, l3, code(text), angle(one), link(two), ab, ab + |link(two)|);
  }

  // ----- a link

  lemma HitBegins(text: string, p: nat)
    requires IsHit(text, p)
    ensures p < |text| && text[p] == '_'
  {
    assert text[p..p + 10][0] == OPEN[0];
  }

  lemma {:induction false} NothingFound(text: string, p: nat)
    requires '_' !in text
    ensures FindAll(text, p) == []
    decreases |text| - p
  {
    if p < |text| {
      if IsHit(text, p) { HitBegins(text, p); }
      NothingFound(text, p + 1);
    }
  }

  lemma OneMoreDigit(n: nat)
    requires n > 0
    ensures Digits(10 * n) == Digits(n) + "0"
  {
  }

  lemma FirstName()
    ensures Name(900000) == "__OC_I18N_900000__"
  {
    OneMoreDigit(9);
    OneMoreDigit(90);
    OneMoreDigit(900);
    OneMoreDigit(9000);
    OneMoreDigit(90000);
    NameSpelled("9" + "0" + "0" + "0" + "0" + "0");
  }

  lemma NameSpelled(digits: string)
    requires digits == "900000"
    ensures OPEN + digits + "__" == "__OC_I18N_900000__"
  {
  }

  lemma NothingIsOpened(text: string)
    requires '_' !in text
    ensures Opened(text) == Ledger(text, Page([], map[], Supply({}, 900000)))
  {
    NothingFound(text, 0);
  }

  lemma OnlyLinks(text: string, code: string -> seq<Span>, angle: string -> seq<Span>, link: string -> seq<Span>,
                  start: Ledger, l: Ledger)
    requires Proper(code) && Proper(angle) && Proper(link) && start == Opened(text)
    requires code(text) == [] && angle(text) == [] && l == PassOn(start, link(text))
    ensures MaskAll(start, code, angle, link) == l
  {
    NothingToMask(start);
  }

  // The concrete text of one link, of which the search for links finds the URL and the others find nothing: the URL does
  // not stand in the prompt, but the first placeholder does, and stands for it.
  lemma LinkIsTakenOut(text: string, code: string -> seq<Span>, angle: string -> seq<Span>, link: string -> seq<Span>,
                       l: Ledger)
    requires Proper(code) && Proper(angle) && Proper(link) && text == "[docs](https://x.y/z)"
    requires code(text) == [] && angle(text) == [] && link(text) == [Span(7, 20)]
    requires l == MaskAll(Opened(text), code, angle, link)
    ensures l.masked == "[docs](__OC_I18N_900000__)" && l.page.placeholders == ["__OC_I18N_900000__"]
    ensures l.page.mapping == map["__OC_I18N_900000__" := "https://x.y/z"]
  {
    NothingIsOpened(text);
    FirstName();
    LinkPass(Opened(text), text);
    OnlyLinks(text, code, angle, link, Opened(text), PassOn(Opened(text), [Span(7, 20)]));
    LinkSpelled("__OC_I18N_900000__");
  }

  lemma LinkSpelled(name: string)
    requires name == "__OC_I18N_900000__"
    ensures "[docs](" + name + ")" == "[docs](__OC_I18N_900000__)"
  {
  }

  lemma LinkPieces(text: string, spans: seq<Span>, names: seq<nat>)
    requires text == "[docs](https://x.y/z)" && spans == [Span(7, 20)] && names == [900000]
    ensures Ordered(text, spans, 0, 0) && Slices(text, spans, 0, 0) == ["https://x.y/z"]
    ensures Masked(text, spans, names, 0, 0) == "[docs](" + Name(900000) + ")"
  {
    assert text[6] == '(' && text[20] == ')';
    assert text[7..20] == "https://x.y/z" && text[0..7] == "[docs](" && text[20..] == ")";
  }

  lemma FirstGiven(s: Supply)
    requires s == Supply({}, 900000)
    ensures Give(s, 1) == [900000] && After(s, 1) == Supply({Name(900000)}, 900001)
  {
    assert NextFree(s.used, s.counter) == 900000;
    GiveCons(s, 1);
    assert After(s, 1) == Taken(s);
  }

  lemma OneName(n: nat, t: string)
    ensures Names([n]) == [Name(n)] && Mapped(map[], [n], [t]) == map[Name(n) := t]
  {
    NamesAppend([], n);
    MappedAppend(map[], [], [], n, t);
  }

  lemma LinkPass(start: Ledger, text: string)
    requires text == "[docs](https://x.y/z)" && start == Ledger(text, Page([], map[], Supply({}, 900000)))
    ensures Ordered(text, [Span(7, 20)], 0, 0)
    ensures PassOn(start, [Span(7, 20)]) ==
              Ledger("[docs](" + Name(900000) + ")",
                     Page([Name(900000)], map[Name(900000) := "https://x.y/z"], Supply({Name(900000)}, 900001)))
  {
    LinkPieces(text, [Span(7, 20)], [900000]);
    FirstGiven(start.page.supply);
    OneName(900000, "https://x.y/z");
  }
}
