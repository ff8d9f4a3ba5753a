/**
 What a supply of placeholders, a list of them and a mapping come to over the three passes: which names are drawn,
 for which stretches of text, and which names are used up.
 */
module MaskLedger {
  import opened MaskPasses
  import opened Masking
  import opened MaskTokens
  import opened Placeholders
  import opened Text

  // ----- lists of names and mappings

  function Names(ns: seq<nat>): seq<string> {
    if ns == [] then [] else Names(ns[..|ns| - 1]) + [Name(ns[|ns| - 1])]
  }

  function Mapped(m: map<string, string>, ns: seq<nat>, texts: seq<string>): map<string, string>
    requires |ns| == |texts|
  {
    if ns == [] then m
    else Mapped(m, ns[..|ns| - 1], texts[..|ns| - 1])[Name(ns[|ns| - 1]) := texts[|ns| - 1]]
  }

  lemma NamesAppend(ns: seq<nat>, n: nat)
    ensures Names(ns + [n]) == Names(ns) + [Name(n)]
  {
    assert (ns + [n])[..|ns|] == ns;
  }

  lemma MappedAppend(m: map<string, string>, ns: seq<nat>, texts: seq<string>, n: nat, t: string)
    requires |ns| == |texts|
    ensures Mapped(m, ns + [n], texts + [t]) == Mapped(m, ns, texts)[Name(n) := t]
  {
    assert (ns + [n])[..|ns|] == ns && (texts + [t])[..|ns|] == texts;
  }

  lemma {:induction false} SlicesCount(text: string, spans: seq<Span>, k: nat, pos: nat)
    requires Ordered(text, spans, k, pos) && k <= |spans|
    ensures |Slices(text, spans, k, pos)| == |spans| - k
    decreases |spans| - k
  {
    if k < |spans| { SlicesCount(text, spans, k + 1, spans[k].end); }
  }

  predicate AllNamed(placeholders: seq<string>) {
    forall i :: 0 <= i < |placeholders| ==> placeholders[i] != ""
  }

  lemma {:induction false} NamesAreNamed(placeholders: seq<string>, ns: seq<nat>)
    requires AllNamed(placeholders)
    ensures AllNamed(placeholders + Names(ns))
  {
    if ns == [] {
      assert placeholders + Names(ns) == placeholders;
    } else {
      NamesAreNamed(placeholders, ns[..|ns| - 1]);
      var last := Name(ns[|ns| - 1]);
      assert placeholders + Names(ns) == placeholders + Names(ns[..|ns| - 1]) + [last];
    }
  }

  // ----- the ledger

  // The names used, and where the search for the next one starts.
  datatype Supply = Supply(used: set<string>, counter: nat)

  ghost function Give(s: Supply, k: nat): seq<nat> {
    Draw(s.used, s.counter, k)
  }

  ghost function Taken(s: Supply): Supply {
    var n := NextFree(s.used, s.counter);
    Supply(s.used + {Name(n)}, n + 1)
  }

  ghost function After(s: Supply, k: nat): Supply
    decreases k
  {
    if k == 0 then s else After(Taken(s), k - 1)
  }

  lemma GiveCons(s: Supply, k: nat)
    requires k > 0
    ensures Give(s, k) == [NextFree(s.used, s.counter)] + Give(Taken(s), k - 1)
  {
    DrawCons(s.used, s.counter, k, NextFree(s.used, s.counter));
  }

  lemma {:induction false} AfterSnoc(s: Supply, k: nat)
    ensures After(s, k + 1) == Taken(After(s, k))
    decreases k
  {
    if k > 0 { AfterSnoc(Taken(s), k - 1); }
  }

  lemma {:induction false} AfterAfter(s: Supply, k: nat, n: nat, m: nat)
    requires k + n == m
    ensures After(After(s, k), n) == After(s, m)
    decreases k
  {
    if k > 0 { AfterAfter(Taken(s), k - 1, n, m - 1); }
  }

  // Drawing goes on where it stopped.
  lemma {:induction false} GiveSplit(s: Supply, a: nat, all: nat)
    requires a <= all
    ensures Give(s, all) == Give(s, a) + Give(After(s, a), all - a)
    decreases a
  {
    if a == 0 {
      assert [] + Give(s, all) == Give(s, all);
    } else {
      GiveCons(s, a);
      GiveCons(s, all);
      GiveSplit(Taken(s), a - 1, all - 1);
      Associates([NextFree(s.used, s.counter)], Give(Taken(s), a - 1), Give(After(s, a), all - a));
    }
  }

  // The placeholders, what they stand for, and the supply.
  datatype Page = Page(placeholders: seq<string>, mapping: map<string, string>, supply: Supply)

  // The page once these names have been drawn for these stretches of text.
  ghost function Noted(page: Page, ns: seq<nat>, texts: seq<string>): Page
    requires |ns| == |texts|
  {
    Page(page.placeholders + Names(ns), Mapped(page.mapping, ns, texts), After(page.supply, |ns|))
  }

  // A text masked so far, and the page that goes with it.
  datatype Ledger = Ledger(masked: string, page: Page)

  // Before masking: nothing is noted, and the placeholders found in the text are used.
  function Opened(text: string): Ledger {
    Ledger(text, Page([], map[], Supply(HitTexts(text, FindAll(text, 0)), FIRST)))
  }

  lemma GiveCounts(s: Supply, k: nat)
    ensures |Give(s, k)| == k && Distinct(Give(s, k))
  {
    DrawIsFresh(s.used, s.counter, k);
  }

  ghost function PassOn(l: Ledger, spans: seq<Span>): Ledger
    requires Ordered(l.masked, spans, 0, 0)
  {
    var ns := Give(l.page.supply, |spans|);
    GiveCounts(l.page.supply, |spans|);
    SlicesCount(l.masked, spans, 0, 0);
    Ledger(Masked(l.masked, spans, ns, 0, 0), Noted(l.page, ns, Slices(l.masked, spans, 0, 0)))
  }

  ghost function MaskAll(l: Ledger, code: string -> seq<Span>, angle: string -> seq<Span>, link: string -> seq<Span>)
    : Ledger
    requires Proper(code) && Proper(angle) && Proper(link)
  {
    var one := PassOn(l, code(l.masked));
    var two := PassOn(one, angle(one.masked));
    PassOn(two, link(two.masked))
  }

  lemma NothingToMask(l: Ledger)
    ensures PassOn(l, []) == l
  {
    assert l.masked[0..] == l.masked;
    assert l.page.placeholders + [] == l.page.placeholders;
  }

  lemma MaskAllIsNamed(l: Ledger, code: string -> seq<Span>, angle: string -> seq<Span>, link: string -> seq<Span>)
    requires Proper(code) && Proper(angle) && Proper(link) && AllNamed(l.page.placeholders)
    ensures AllNamed(MaskAll(l, code, angle, link).page.placeholders)
  {
    var one := PassOn(l, code(l.masked));
    NamesAreNamed(l.page.placeholders, Give(l.page.supply, |code(l.masked)|));
    var two := PassOn(one, angle(one.masked));
    NamesAreNamed(one.page.placeholders, Give(one.page.supply, |angle(one.masked)|));
    NamesAreNamed(two.page.placeholders, Give(two.page.supply, |link(two.masked)|));
  }

  // ----- validating and unmasking over the list and the mapping

  function Lookup(mapping: map<string, string>, key: string): string {
    if key in mapping then mapping[key] else ""
  }

  function UnmaskFrom(text: string, placeholders: seq<string>, mapping: map<string, string>, k: nat): string
    requires k <= |placeholders| && AllNamed(placeholders)
    decreases |placeholders| - k
  {
    if k == |placeholders| then text
    else UnmaskFrom(ReplaceAll(text, placeholders[k], Lookup(mapping, placeholders[k])), placeholders, mapping, k + 1)
  }

  // The first placeholder that is missing, if any.
  function Missing(text: string, placeholders: seq<string>): Option<string> {
    if placeholders == [] then None
    else if !Contains(text, placeholders[0]) then Some(placeholders[0])
    else Missing(text, placeholders[1..])
  }

  lemma {:induction false} MissingMeans(text: string, placeholders: seq<string>) returns (k: nat)
    ensures forall j :: 0 <= j < k && j < |placeholders| ==> Contains(text, placeholders[j])
    ensures match Missing(text, placeholders)
            case None => k == |placeholders|
            case Some(name) => k < |placeholders| && name == placeholders[k] && !Contains(text, name)
  {
    k := 0;
    if placeholders != [] && Contains(text, placeholders[0]) {
      k := MissingMeans(text, placeholders[1..]);
      k := k + 1;
    }
  }

  // The numbers given out for n stretches of the text.
  ghost function Drawn(text: string, n: nat): seq<nat> {
    Give(Opened(text).page.supply, n)
  }

  // ----- what the placeholders stand for

  // The i-th placeholder has the i-th number drawn, and stands for the i-th stretch taken out.
  predicate Holds(ns: seq<nat>, placeholders: seq<string>, mapping: map<string, string>, originals: seq<string>) {
    && |placeholders| == |originals| <= |ns|
    && forall i :: 0 <= i < |originals| ==>
         placeholders[i] == Label(ns, i) && Label(ns, i) in mapping && mapping[Label(ns, i)] == originals[i]
  }

  lemma HoldsOne(ns: seq<nat>, placeholders: seq<string>, mapping: map<string, string>, originals: seq<string>, v: string)
    requires Holds(ns, placeholders, mapping, originals) && |originals| < |ns| && Distinct(ns)
    ensures var u := Label(ns, |originals|); Holds(ns, placeholders + [u], mapping[u := v], originals + [v])
  {
    forall i | 0 <= i < |originals|
      ensures Label(ns, i) != Label(ns, |originals|)
    {
      if Label(ns, i) == Label(ns, |originals|) { NameIsInjective(ns[i], ns[|originals|]); }
    }
  }

  // One more name at the end of those noted.
  lemma NotedByOne(placeholders: seq<string>, mapping: map<string, string>, originals: seq<string>, names: seq<nat>,
                   texts: seq<string>, last: nat)
    requires |names| == |texts| == last + 1
    ensures placeholders + Names(names) == placeholders + Names(names[..last]) + [Name(names[last])]
    ensures Mapped(mapping, names, texts) == Mapped(mapping, names[..last], texts[..last])[Name(names[last]) := texts[last]]
    ensures originals + texts == originals + texts[..last] + [texts[last]]
  {
    assert texts == texts[..last] + [texts[last]];
  }

  lemma {:induction false} HoldsMore(ns: seq<nat>, placeholders: seq<string>, mapping: map<string, string>,
                                     originals: seq<string>, names: seq<nat>, texts: seq<string>)
    requires Holds(ns, placeholders, mapping, originals) && Distinct(ns)
    requires |names| == |texts| && NamesFrom(ns, names, |originals|)
    ensures Holds(ns, placeholders + Names(names), Mapped(mapping, names, texts), originals + texts)
    decreases |names|
  {
    if names == [] {
      assert placeholders + Names(names) == placeholders && originals + texts == originals;
    } else {
      var last := |names| - 1;
      FewerNames(ns, names, |originals|, last);
      HoldsMore(ns, placeholders, mapping, originals, names[..last], texts[..last]);
      HoldsOne(ns, placeholders + Names(names[..last]), Mapped(mapping, names[..last], texts[..last]),
               originals + texts[..last], texts[last]);
      NotedByOne(placeholders, mapping, originals, names, texts, last);
    }
  }

  lemma FewerNames(ns: seq<nat>, names: seq<nat>, i: nat, last: nat)
    requires NamesFrom(ns, names, i) && |names| == last + 1
    ensures NamesFrom(ns, names[..last], i) && names[last] == ns[i + last]
  {
    assert names[..last] == ns[i..i + last];
  }

  // The masked text and its page stand for the text, a name having been taken from the supply for each stretch.
  ghost predicate Shows(l: Ledger, first: Supply, ns: seq<nat>, text: string, tokens: seq<Token>,
                        originals: seq<seq<Token>>) {
    && StandsFor(tokens, originals, text) && l.masked == Render(ns, tokens)
    && Holds(ns, l.page.placeholders, l.page.mapping, Texts(ns, originals))
    && l.page.supply == After(first, |originals|)
  }

  ghost predicate Represents(l: Ledger, first: Supply, ns: seq<nat>, text: string) {
    exists tokens, originals :: Shows(l, first, ns, text, tokens, originals)
  }

  lemma OpenedRepresents(text: string, ns: seq<nat>)
    ensures Represents(Opened(text), Opened(text).page.supply, ns, text)
  {
    CharactersStandForText(ns, text);
    assert StandsFor(Characters(text), [], text);
    assert Shows(Opened(text), Opened(text).page.supply, ns, text, Characters(text), []);
  }

  // The numbers a pass draws, and what is left to draw.
  lemma PassDraws(first: Supply, s: Supply, ns: seq<nat>, k: nat, n: nat, m: nat, names: seq<nat>, left: Supply)
    requires ns == Give(first, |ns|) && s == After(first, k) && k + n == m <= |ns|
    requires names == Give(s, n) && left == After(s, n)
    ensures NamesFrom(ns, names, k) && left == After(first, m)
  {
    AfterAfter(first, k, n, m);
    GiveSplit(first, k, m);
    GiveSplit(first, m, |ns|);
    GiveCounts(first, k);
    MiddlePart(ns, Give(first, k), names, Give(left, |ns| - m));
  }

  lemma MiddlePart(ns: seq<nat>, a: seq<nat>, names: seq<nat>, c: seq<nat>)
    requires ns == a + names + c
    ensures NamesFrom(ns, names, |a|)
  {
  }

  lemma {:induction false} NamesCount(ns: seq<nat>)
    ensures |Names(ns)| == |ns|
  {
    if ns != [] { NamesCount(ns[..|ns| - 1]); }
  }

  lemma PassCounts(l: Ledger, spans: seq<Span>)
    requires Ordered(l.masked, spans, 0, 0)
    ensures |PassOn(l, spans).page.placeholders| == |l.page.placeholders| + |spans|
  {
    GiveCounts(l.page.supply, |spans|);
    NamesCount(Give(l.page.supply, |spans|));
  }

  lemma PassTokens(ns: seq<nat>, text: string, masked: string, spans: seq<Span>, names: seq<nat>, tokens: seq<Token>,
                   originals: seq<seq<Token>>)
    returns (after: seq<Token>, more: seq<seq<Token>>)
    requires StandsFor(tokens, originals, text) && masked == Render(ns, tokens)
    requires Ordered(masked, spans, 0, 0) && |names| == |spans| && NamesFrom(ns, names, |originals|)
    ensures StandsFor(after, more, text) && |more| == |originals| + |spans|
    ensures Masked(masked, spans, names, 0, 0) == Render(ns, after)
    ensures Texts(ns, more) == Texts(ns, originals) + Slices(masked, spans, 0, 0)
  {
    assert [] + tokens == tokens && masked[0..] == masked;
    assert Copied(ns, text, masked, 0, [], tokens, originals);
    after, more := PassStandsFor(ns, |originals|, text, masked, spans, names, 0, 0, [], tokens, originals);
    assert "" + Masked(masked, spans, names, 0, 0) == Masked(masked, spans, names, 0, 0);
  }

  lemma ShowsFrom(l: Ledger, first: Supply, ns: seq<nat>, text: string, tokens: seq<Token>,
                  originals: seq<seq<Token>>, texts: seq<string>, m: nat)
    requires StandsFor(tokens, originals, text) && l.masked == Render(ns, tokens)
    requires Holds(ns, l.page.placeholders, l.page.mapping, texts) && Texts(ns, originals) == texts
    requires |originals| == m && l.page.supply == After(first, m)
    ensures Represents(l, first, ns, text)
  {
    assert Shows(l, first, ns, text, tokens, originals);
  }

  // What a pass masks and notes, part by part.
  lemma PassParts(l: Ledger, spans: seq<Span>, names: seq<nat>, texts: seq<string>, left: Supply, r: Ledger)
    requires Ordered(l.masked, spans, 0, 0) && r == PassOn(l, spans)
    requires names == Give(l.page.supply, |spans|) && texts == Slices(l.masked, spans, 0, 0)
    requires left == After(l.page.supply, |spans|)
    ensures |names| == |spans| == |texts|
    ensures r.masked == Masked(l.masked, spans, names, 0, 0)
    ensures r.page.placeholders == l.page.placeholders + Names(names)
    ensures r.page.mapping == Mapped(l.page.mapping, names, texts) && r.page.supply == left
  {
    GiveCounts(l.page.supply, |spans|);
    SlicesCount(l.masked, spans, 0, 0);
  }

  // A ledger with these parts stands for the same text.
  lemma PartsShow(l: Ledger, r: Ledger, first: Supply, ns: seq<nat>, text: string, spans: seq<Span>, names: seq<nat>,
                  texts: seq<string>, tokens: seq<Token>, originals: seq<seq<Token>>, m: nat)
    requires StandsFor(tokens, originals, text) && l.masked == Render(ns, tokens) && Distinct(ns)
    requires Holds(ns, l.page.placeholders, l.page.mapping, Texts(ns, originals)) && Ordered(l.masked, spans, 0, 0)
    requires |names| == |spans| == |texts| && texts == Slices(l.masked, spans, 0, 0)
    requires NamesFrom(ns, names, |originals|) && |originals| + |spans| == m
    requires r.masked == Masked(l.masked, spans, names, 0, 0)
    requires r.page.placeholders == l.page.placeholders + Names(names)
    requires r.page.mapping == Mapped(l.page.mapping, names, texts) && r.page.supply == After(first, m)
    ensures Represents(r, first, ns, text)
  {
    HoldsMore(ns, l.page.placeholders, l.page.mapping, Texts(ns, originals), names, texts);
    var after, more := PassTokens(ns, text, l.masked, spans, names, tokens, originals);
    ShowsFrom(r, first, ns, text, after, more, Texts(ns, originals) + texts, m);
  }

  lemma PassShows(l: Ledger, first: Supply, ns: seq<nat>, text: string, spans: seq<Span>, tokens: seq<Token>,
                  originals: seq<seq<Token>>, m: nat, names: seq<nat>, left: Supply, r: Ledger)
    requires Shows(l, first, ns, text, tokens, originals) && ns == Give(first, |ns|) && Distinct(ns)
    requires Ordered(l.masked, spans, 0, 0) && |originals| + |spans| == m <= |ns| && r == PassOn(l, spans)
    requires names == Give(l.page.supply, |spans|) && left == After(l.page.supply, |spans|)
    ensures Represents(r, first, ns, text)
  {
    var texts := Slices(l.masked, spans, 0, 0);
    PassDraws(first, l.page.supply, ns, |originals|, |spans|, m, names, left);
    PassParts(l, spans, names, texts, left, r);
    PartsShow(l, r, first, ns, text, spans, names, texts, tokens, originals, m);
  }

  lemma PassRepresents(l: Ledger, first: Supply, ns: seq<nat>, text: string, spans: seq<Span>)
    requires Represents(l, first, ns, text) && ns == Give(first, |ns|) && Ordered(l.masked, spans, 0, 0)
    requires |l.page.placeholders| + |spans| <= |ns|
    ensures Represents(PassOn(l, spans), first, ns, text)
  {
    GiveCounts(first, |ns|);
    var tokens, originals :| Shows(l, first, ns, text, tokens, originals);
    PassShows(l, first, ns, text, spans, tokens, originals, |originals| + |spans|, Give(l.page.supply, |spans|),
              After(l.page.supply, |spans|), PassOn(l, spans));
  }

  // Over the three passes, for all regular expressions with such matches and whatever the text already holds.
  lemma MaskingRepresents(text: string, code: string -> seq<Span>, angle: string -> seq<Span>,
                          link: string -> seq<Span>)
    requires Proper(code) && Proper(angle) && Proper(link)
    ensures var l := MaskAll(Opened(text), code, angle, link);
            Represents(l, Opened(text).page.supply, Drawn(text, |l.page.placeholders|), text)
  {
    var start := Opened(text);
    var one := PassOn(start, code(text));
    var two := PassOn(one, angle(one.masked));
    PassCounts(start, code(text));
    PassCounts(one, angle(one.masked));
    PassCounts(two, link(two.masked));
    var n := |PassOn(two, link(two.masked)).page.placeholders|;
    var first, ns := start.page.supply, Drawn(text, n);
    GiveCounts(first, n);
    OpenedRepresents(text, ns);
    PassRepresents(start, first, ns, text, code(text));
    PassRepresents(one, first, ns, text, angle(one.masked));
    PassRepresents(two, first, ns, text, link(two.masked));
  }

  // ----- validating and unmasking what is masked

  lemma {:induction false} UnmaskFromIsUnmask(ns: seq<nat>, text: string, placeholders: seq<string>,
                                              mapping: map<string, string>, originals: seq<string>, k: nat)
    requires Holds(ns, placeholders, mapping, originals) && k <= |originals|
    requires AllNamed(placeholders)
    ensures UnmaskFrom(text, placeholders, mapping, k) == Unmask(ns, text, originals, k)
    decreases |originals| - k
  {
    if k < |originals| {
      UnmaskFromIsUnmask(ns, ReplaceAll(text, Label(ns, k), originals[k]), placeholders, mapping, originals, k + 1);
    }
  }

  lemma {:induction false} PrefixContained(s: string, u: string, v: string)
    requires u <= v && Contains(s, v)
    ensures Contains(s, u)
  {
    if !(v <= s) { PrefixContained(s[1..], u, v); }
  }

  // A text without the marker mentions no number at all.
  lemma NoMarkerIsUnmentioned(ns: seq<nat>, text: string)
    requires !Contains(text, MARKER)
    ensures Unmentioned(ns, text)
  {
    forall i | 0 <= i < |ns| ensures !Contains(text, Core(ns[i])) {
      if Contains(text, Core(ns[i])) { PrefixContained(text, MARKER, Core(ns[i])); }
    }
  }

  // No stretch taken out holds a placeholder given out.
  predicate NoneHeld(page: Page) {
    forall i, j :: 0 <= i < |page.placeholders| && 0 <= j < |page.placeholders| ==>
      !Contains(Lookup(page.mapping, page.placeholders[i]), page.placeholders[j])
  }

  lemma AcceptedIffNothingMissing(ns: seq<nat>, text: string, placeholders: seq<string>)
    requires |placeholders| == |ns| && forall i :: 0 <= i < |ns| ==> placeholders[i] == Label(ns, i)
    ensures Accepted(ns, text) <==> Missing(text, placeholders).None?
  {
    var k := MissingMeans(text, placeholders);
    if Missing(text, placeholders).Some? { assert placeholders[k] == Label(ns, k); }
    else {
      forall i | 0 <= i < |ns| ensures Contains(text, Label(ns, i)) { assert placeholders[i] == Label(ns, i); }
    }
  }

  lemma NoneHeldIffUnnamed(ns: seq<nat>, page: Page, originals: seq<string>)
    requires Holds(ns, page.placeholders, page.mapping, originals) && |originals| == |ns|
    ensures NoneHeld(page) <==> NoneNamed(ns, originals)
  {
    forall i, j | 0 <= i < |ns| && 0 <= j < |ns|
      ensures Contains(Lookup(page.mapping, page.placeholders[i]), page.placeholders[j]) <==>
                Contains(originals[i], Label(ns, j))
    {
    }
  }

  // For any text that does not mention a number drawn for it: validation accepts the masked text as it is, if and only
  // if unmasking gives the text back, if and only if no stretch taken out holds a placeholder given out.
  lemma MaskingIsLosslessOrRejected(text: string, code: string -> seq<Span>, angle: string -> seq<Span>,
                                    link: string -> seq<Span>)
    requires Proper(code) && Proper(angle) && Proper(link)
    requires Unmentioned(Drawn(text, |MaskAll(Opened(text), code, angle, link).page.placeholders|), text)
    ensures var l := MaskAll(Opened(text), code, angle, link);
            var page := l.page;
            && AllNamed(page.placeholders)
            && (Missing(l.masked, page.placeholders).None? <==>
                  UnmaskFrom(l.masked, page.placeholders, page.mapping, 0) == text)
            && (Missing(l.masked, page.placeholders).None? <==> NoneHeld(page))
  {
    var l := MaskAll(Opened(text), code, angle, link);
    var ns := Drawn(text, |l.page.placeholders|);
    MaskAllIsNamed(Opened(text), code, angle, link);
    MaskingRepresents(text, code, angle, link);
    GiveCounts(Opened(text).page.supply, |l.page.placeholders|);
    var tokens, originals :| Shows(l, Opened(text).page.supply, ns, text, tokens, originals);
    ShownIsLosslessOrRejected(l, Opened(text).page.supply, ns, text, tokens, originals);
  }

  lemma ShownIsLosslessOrRejected(l: Ledger, first: Supply, ns: seq<nat>, text: string, tokens: seq<Token>,
                                  originals: seq<seq<Token>>)
    requires Shows(l, first, ns, text, tokens, originals) && |l.page.placeholders| == |ns| && Distinct(ns)
    requires Unmentioned(ns, text) && AllNamed(l.page.placeholders)
    ensures Missing(l.masked, l.page.placeholders).None? <==>
              UnmaskFrom(l.masked, l.page.placeholders, l.page.mapping, 0) == text
    ensures Missing(l.masked, l.page.placeholders).None? <==> NoneHeld(l.page)
  {
    AcceptedIffLossless(ns, tokens, originals, text);
    AcceptedIffNothingMissing(ns, l.masked, l.page.placeholders);
    UnmaskFromIsUnmask(ns, l.masked, l.page.placeholders, l.page.mapping, Texts(ns, originals), 0);
    NoneHeldIffUnnamed(ns, l.page, Texts(ns, originals));
  }
}
