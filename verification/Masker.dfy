/** Masking, validating and unmasking as the translator runs them, over a list of placeholders and a mapping it fills. */
module Masker {
  import opened MaskLedger
  import opened MaskPasses
  import opened Masking
  import opened MaskTokens
  import opened Placeholders
  import opened Text

  // A link: the whole match, and its parenthesised URL.
  datatype Link = Link(full: int, url: Span)

  function Urls(links: seq<Link>): seq<Span> {
    seq(|links|, k requires 0 <= k < |links| => links[k].url)
  }

  // A URL lies inside its match, and matches do not overlap.
  predicate LinksApart(links: seq<Link>) {
    && (forall k :: 0 <= k < |links| ==> links[k].full <= links[k].url.start)
    && (forall k :: 0 < k < |links| ==> links[k - 1].url.end <= links[k].full)
  }

  // What is left to copy and to take out, at the k-th match.
  ghost predicate Halfway(text: string, spans: seq<Span>, ns: seq<nat>, k: nat, pos: nat, out: string, texts: seq<string>) {
    && k <= |spans| == |ns| && pos <= |text| && Ordered(text, spans, 0, 0) && Ordered(text, spans, k, pos)
    && Masked(text, spans, ns, 0, 0) == out + Masked(text, spans, ns, k, pos)
    && Slices(text, spans, 0, 0) == texts + Slices(text, spans, k, pos)
  }

  lemma HalfwayStart(text: string, spans: seq<Span>, ns: seq<nat>)
    requires Ordered(text, spans, 0, 0) && |spans| == |ns|
    ensures Halfway(text, spans, ns, 0, 0, "", [])
  {
    assert "" + Masked(text, spans, ns, 0, 0) == Masked(text, spans, ns, 0, 0);
    assert [] + Slices(text, spans, 0, 0) == Slices(text, spans, 0, 0);
  }

  lemma HalfwayStep(text: string, spans: seq<Span>, ns: seq<nat>, k: nat, pos: nat, out: string, texts: seq<string>)
    requires Halfway(text, spans, ns, k, pos, out, texts) && k < |spans|
    ensures pos <= spans[k].start < spans[k].end <= |text|
    ensures Halfway(text, spans, ns, k + 1, spans[k].end, out + text[pos..spans[k].start] + Name(ns[k]),
                    texts + [text[spans[k].start..spans[k].end]])
  {
    var a, later := text[pos..spans[k].start], Masked(text, spans, ns, k + 1, spans[k].end);
    assert out + (a + Name(ns[k]) + later) == out + a + Name(ns[k]) + later;
    var t, more := text[spans[k].start..spans[k].end], Slices(text, spans, k + 1, spans[k].end);
    assert texts + ([t] + more) == texts + [t] + more;
  }

  lemma HalfwayEnd(text: string, spans: seq<Span>, ns: seq<nat>, pos: nat, out: string, texts: seq<string>)
    requires Halfway(text, spans, ns, |spans|, pos, out, texts)
    ensures Masked(text, spans, ns, 0, 0) == out + text[pos..]
    ensures Slices(text, spans, 0, 0) == texts
  {
    assert texts + [] == texts;
  }

  // The first k names have been drawn and noted.
  ghost predicate Entered(first: Page, now: Page, ns: seq<nat>, k: nat, texts: seq<string>) {
    && |texts| == k <= |ns| && Give(now.supply, |ns| - k) == ns[k..]
    && now == Noted(first, ns[..k], texts)
  }

  lemma EnteredStart(page: Page, ns: seq<nat>)
    requires ns == Give(page.supply, |ns|)
    ensures Entered(page, page, ns, 0, [])
  {
    assert page.placeholders + [] == page.placeholders;
  }

  lemma EnteredStep(first: Page, now: Page, ns: seq<nat>, k: nat, texts: seq<string>, t: string, next: Page)
    requires Entered(first, now, ns, k, texts) && k < |ns|
    requires var n := NextFree(now.supply.used, now.supply.counter);
             next == Page(now.placeholders + [Name(n)], now.mapping[Name(n) := t], Taken(now.supply))
    ensures NextFree(now.supply.used, now.supply.counter) == ns[k]
    ensures Entered(first, next, ns, k + 1, texts + [t])
  {
    GiveCons(now.supply, |ns| - k);
    assert ns[k] == ns[k..][0] && ns[k..][1..] == ns[k + 1..];
    assert ns[..k + 1] == ns[..k] + [ns[k]];
    NamesAppend(ns[..k], ns[k]);
    MappedAppend(first.mapping, ns[..k], texts, ns[k], t);
    AfterSnoc(first.supply, k);
    assert first.placeholders + Names(ns[..k]) + [Name(ns[k])] == first.placeholders + (Names(ns[..k]) + [Name(ns[k])]);
  }

  lemma EnteredEnd(first: Page, now: Page, ns: seq<nat>, texts: seq<string>)
    requires Entered(first, now, ns, |ns|, texts)
    ensures now == Noted(first, ns, texts)
  {
    assert ns[..|ns|] == ns;
  }

  function UrlFinder(link: string -> seq<Link>): string -> seq<Span> {
    t => Urls(link(t))
  }

  ghost predicate ProperLinks(link: string -> seq<Link>) {
    Proper(UrlFinder(link)) && forall t: string :: LinksApart(link(t))
  }

  method UnmaskMarkdown(text: string, placeholders: seq<string>, mapping: map<string, string>) returns (out: string)
    requires AllNamed(placeholders)
    ensures out == UnmaskFrom(text, placeholders, mapping, 0)
  {
    out := text;
    for k := 0 to |placeholders|
      invariant UnmaskFrom(text, placeholders, mapping, 0) == UnmaskFrom(out, placeholders, mapping, k)
    {
      var original := Lookup(mapping, placeholders[k]);
      out := ReplaceAll(out, placeholders[k], original);
    }
  }

  lemma {:induction false} MissingAt(text: string, placeholders: seq<string>, k: nat)
    requires k <= |placeholders| && forall j :: 0 <= j < k ==> Contains(text, placeholders[j])
    ensures Missing(text, placeholders) == Missing(text, placeholders[k..])
  {
    if k > 0 {
      assert placeholders[1..][k - 1..] == placeholders[k..];
      MissingAt(text, placeholders[1..], k - 1);
    }
  }

  method ValidatePlaceholders(text: string, placeholders: seq<string>) returns (missing: Option<string>)
    ensures missing == Missing(text, placeholders)
    ensures missing.None? <==> forall i :: 0 <= i < |placeholders| ==> Contains(text, placeholders[i])
  {
    ghost var first := MissingMeans(text, placeholders);
    for k := 0 to |placeholders|
      invariant forall j :: 0 <= j < k ==> Contains(text, placeholders[j])
    {
      if !Contains(text, placeholders[k]) {
        MissingAt(text, placeholders, k);
        return Some(placeholders[k]);
      }
    }
    missing := None;
  }

  class Book {
    var placeholders: seq<string>
    var mapping: map<string, string>
    const state: PlaceholderState

    ghost function Contents(): Page
      reads this, state
    {
      Page(placeholders, mapping, Supply(state.used, state.counter))
    }

    constructor (state: PlaceholderState)
      ensures this.state == state && Contents() == Page([], map[], Supply(state.used, state.counter))
    {
      placeholders := [];
      mapping := map[];
      this.state := state;
    }

    // Take a fresh name for a stretch of text.
    method Enter(stretch: string) returns (name: string)
      modifies this, state
      ensures var was, n := old(Contents()), NextFree(old(state.used), old(state.counter));
              && name == Name(n)
              && Contents() == Page(was.placeholders + [name], was.mapping[name := stretch], Taken(was.supply))
    {
      name := state.Next();
      mapping := mapping[name := stretch];
      placeholders := placeholders + [name];
    }

    method MaskMatches(text: string, matches: seq<Span>) returns (masked: string)
      requires Ordered(text, matches, 0, 0)
      modifies this, state
      ensures Ledger(masked, Contents()) == PassOn(Ledger(text, old(Contents())), matches)
    {
      ghost var ns := Give(Contents().supply, |matches|);
      GiveCounts(Contents().supply, |matches|);
      SlicesCount(text, matches, 0, 0);
      HalfwayStart(text, matches, ns);
      EnteredStart(Contents(), ns);
      var out := "";
      var pos := 0;
      var k := 0;
      ghost var texts: seq<string> := [];
      while k < |matches|
        invariant k <= |matches| == |ns| && pos <= |text|
        invariant Halfway(text, matches, ns, k, pos, out, texts)
        invariant Entered(old(Contents()), Contents(), ns, k, texts)
      {
        var start, end := matches[k].start, matches[k].end;
        HalfwayStep(text, matches, ns, k, pos, out, texts);
        assert pos <= start; // so the test that skips a match never holds
        ghost var before := Contents();
        out := out + text[pos..start];
        var placeholder := Enter(text[start..end]);
        EnteredStep(old(Contents()), before, ns, k, texts, text[start..end], Contents());
        out := out + placeholder;
        texts := texts + [text[start..end]];
        pos := end;
        k := k + 1;
      }
      EnteredEnd(old(Contents()), Contents(), ns, texts);
      HalfwayEnd(text, matches, ns, pos, out, texts);
      out := out + text[pos..];
      masked := out;
    }

    method MaskLinkUrls(text: string, links: seq<Link>) returns (masked: string)
      requires LinksApart(links) && Ordered(text, Urls(links), 0, 0)
      modifies this, state
      ensures Ledger(masked, Contents()) == PassOn(Ledger(text, old(Contents())), Urls(links))
    {
      ghost var spans := Urls(links);
      ghost var ns := Give(Contents().supply, |links|);
      GiveCounts(Contents().supply, |links|);
      SlicesCount(text, spans, 0, 0);
      HalfwayStart(text, spans, ns);
      EnteredStart(Contents(), ns);
      var out := "";
      var pos := 0;
      var k := 0;
      ghost var texts: seq<string> := [];
      while k < |links|
        invariant k <= |links| == |ns| && pos <= |text|
        invariant pos == if k == 0 then 0 else links[k - 1].url.end
        invariant Halfway(text, spans, ns, k, pos, out, texts)
        invariant Entered(old(Contents()), Contents(), ns, k, texts)
      {
        var start, end := links[k].url.start, links[k].url.end;
        assert spans[k] == links[k].url;
        assert k > 0 ==> pos <= links[k].full; // so the test that skips a match never holds
        HalfwayStep(text, spans, ns, k, pos, out, texts);
        ghost var before := Contents();
        out := out + text[pos..start];
        var placeholder := Enter(text[start..end]);
        EnteredStep(old(Contents()), before, ns, k, texts, text[start..end], Contents());
        out := out + placeholder;
        texts := texts + [text[start..end]];
        pos := end;
        k := k + 1;
      }
      EnteredEnd(old(Contents()), Contents(), ns, texts);
      HalfwayEnd(text, spans, ns, pos, out, texts);
      out := out + text[pos..];
      masked := out;
    }

    method MaskMarkdown(text: string, code: string -> seq<Span>, angle: string -> seq<Span>, link: string -> seq<Link>)
      returns (masked: string)
      requires Proper(code) && Proper(angle) && ProperLinks(link)
      modifies this, state
      ensures Ledger(masked, Contents()) == MaskAll(Ledger(text, old(Contents())), code, angle, UrlFinder(link))
    {
      masked := MaskMatches(text, code(text));
      masked := MaskMatches(masked, angle(masked));
      assert UrlFinder(link)(masked) == Urls(link(masked));
      masked := MaskLinkUrls(masked, link(masked));
    }
  }
}
