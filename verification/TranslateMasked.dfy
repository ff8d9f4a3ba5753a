/**
 One translation: mask, prompt, trim, validate, unmask. A translator that only repeats what it is given shows
 what the frame around it does to a text.
 */
module TranslateMasked {
  import opened GoText
  import opened Masker
  import opened MaskLedger
  import opened MaskPasses
  import opened Masking
  import opened MaskTokens
  import opened Placeholders
  import opened Text

  // What comes back for a prompt; whether a failure is worth another attempt is read off its message.
  datatype Reply = Said(text: string) | Failed(retryable: bool)

  datatype TranslateError = PromptFailed(retryable: bool) | EmptyTranslation | PlaceholderMissing(name: string)

  // Validate against the placeholders noted, then unmask.
  function Validated(page: Page, translated: string): Result<string, TranslateError>
    requires AllNamed(page.placeholders)
  {
    match Missing(translated, page.placeholders)
    case Some(name) => Err(PlaceholderMissing(name))
    case None => Ok(UnmaskFrom(translated, page.placeholders, page.mapping, 0))
  }

  function Answer(page: Page, reply: Reply): Result<string, TranslateError>
    requires AllNamed(page.placeholders)
  {
    match reply
    case Failed(retryable) => Err(PromptFailed(retryable))
    case Said(text) =>
      if TrimSpace(text) == "" then Err(EmptyTranslation) else Validated(page, TrimSpace(text))
  }

  // The second half: all placeholders are there, or the first missing one is reported.
  method Restore(translated: string, placeholders: seq<string>, mapping: map<string, string>, ghost page: Page)
    returns (r: Result<string, TranslateError>)
    requires placeholders == page.placeholders && mapping == page.mapping && AllNamed(placeholders)
    ensures r == Validated(page, translated)
  {
    var missing := ValidatePlaceholders(translated, placeholders);
    if missing.Some? {
      return Err(PlaceholderMissing(missing.value));
    }
    var out := UnmaskMarkdown(translated, placeholders, mapping);
    return Ok(out);
  }

  method Translate(core: string, prompt: string -> Reply, code: string -> seq<Span>,
                   angle: string -> seq<Span>, link: string -> seq<Link>)
    returns (r: Result<string, TranslateError>)
    requires Proper(code) && Proper(angle) && ProperLinks(link)
    ensures var l := MaskAll(Opened(core), code, angle, UrlFinder(link));
            AllNamed(l.page.placeholders) && r == Answer(l.page, prompt(l.masked))
  {
    MaskAllIsNamed(Opened(core), code, angle, UrlFinder(link));
    var state := new PlaceholderState(core);
    var book := new Book(state);
    var masked := book.MaskMarkdown(core, code, angle, link);
    match prompt(masked)
    case Failed(retryable) =>
      return Err(PromptFailed(retryable));
    case Said(text) =>
      var translated := TrimSpace(text);
      if translated == "" {
        return Err(EmptyTranslation);
      }
      r := Restore(translated, book.placeholders, book.mapping, book.Contents());
  }

  // ----- what comes back

  // White space is no translation. Of another one the middle counts, without the white space around it: it is given
  // back unmasked exactly if it contains every placeholder, and otherwise the first it lacks is reported.
  lemma AnswerIsMeant(page: Page, before: string, middle: string, behind: string)
    requires AllNamed(page.placeholders) && AllWhite(before) && IsSolid(middle) && AllWhite(behind)
    ensures var r := Answer(page, Said(before + middle + behind));
            if middle == "" then r == Err(EmptyTranslation)
            else if forall name :: name in page.placeholders ==> Contains(middle, name) then
              r == Ok(UnmaskFrom(middle, page.placeholders, page.mapping, 0))
            else
              exists k :: 0 <= k < |page.placeholders| && r == Err(PlaceholderMissing(page.placeholders[k]))
                          && !Contains(middle, page.placeholders[k])
                          && forall j :: 0 <= j < k ==> Contains(middle, page.placeholders[j])
  {
    TrimSpaceIsMiddle(before, middle, behind);
    var k := MissingMeans(middle, page.placeholders);
  }

  // ----- a translator that repeats its prompt

  lemma {:induction false} PassKeepsLastSpace(text: string, spans: seq<Span>, names: seq<nat>, k: nat, pos: nat)
    requires pos <= |text| && k <= |spans| == |names| && Ordered(text, spans, k, pos)
    ensures var w := Masked(text, spans, names, k, pos);
            if pos == |text| then w == ""
            else w != "" && (IsUnicodeSpace(w[|w| - 1]) <==> IsUnicodeSpace(text[|text| - 1]))
    decreases |spans| - k
  {
    if k < |spans| {
      var end := spans[k].end;
      PassKeepsLastSpace(text, spans, names, k + 1, end);
      var head := text[pos..spans[k].start] + Name(names[k]);
      var later := Masked(text, spans, names, k + 1, end);
      if end == |text| {
        assert head + later == head;
        assert head[|head| - 1] == '_';
      } else {
        assert (head + later)[|head + later| - 1] == later[|later| - 1];
      }
    }
  }

  lemma PassKeepsFirstSpace(text: string, spans: seq<Span>, names: seq<nat>)
    requires |spans| == |names| && Ordered(text, spans, 0, 0) && text != ""
    ensures var w := Masked(text, spans, names, 0, 0); w != "" && (IsUnicodeSpace(w[0]) <==> IsUnicodeSpace(text[0]))
  {
    if spans != [] {
      var later := Masked(text, spans, names, 1, spans[0].end);
      if spans[0].start == 0 {
        assert text[0..0] + Name(names[0]) + later == Name(names[0]) + later;
        assert Name(names[0])[0] == OPEN[0] == '_';
      } else {
        assert (text[0..spans[0].start] + Name(names[0]) + later)[0] == text[0];
      }
    }
  }

  lemma PassKeepsSpaces(l: Ledger, spans: seq<Span>)
    requires Ordered(l.masked, spans, 0, 0) && l.masked != ""
    ensures PassOn(l, spans).masked != ""
    ensures SpaceAtEnds(PassOn(l, spans).masked) <==> SpaceAtEnds(l.masked)
  {
    GiveCounts(l.page.supply, |spans|);
    PassKeepsLastSpace(l.masked, spans, Give(l.page.supply, |spans|), 0, 0);
    PassKeepsFirstSpace(l.masked, spans, Give(l.page.supply, |spans|));
  }

  lemma MaskingKeepsSpaces(l: Ledger, code: string -> seq<Span>, angle: string -> seq<Span>, link: string -> seq<Span>)
    requires Proper(code) && Proper(angle) && Proper(link) && l.masked != ""
    ensures MaskAll(l, code, angle, link).masked != ""
    ensures SpaceAtEnds(MaskAll(l, code, angle, link).masked) <==> SpaceAtEnds(l.masked)
  {
    PassKeepsSpaces(l, code(l.masked));
    var one := PassOn(l, code(l.masked));
    PassKeepsSpaces(one, angle(one.masked));
    var two := PassOn(one, angle(one.masked));
    PassKeepsSpaces(two, link(two.masked));
  }

  lemma PieceEnds(ns: seq<nat>, t: Token)
    ensures Piece(ns, t) != ""
    ensures t.Hole? ==> !IsUnicodeSpace(Piece(ns, t)[0]) && !IsUnicodeSpace(Piece(ns, t)[|Piece(ns, t)| - 1])
  {
    if t.Hole? {
      var n := if t.i < |ns| then ns[t.i] else 0;
      NameHasNoFence(n, 0);
      NameHasNoFence(n, |Name(n)| - 1);
    }
  }

  lemma RenderSingle(ns: seq<nat>, t: Token)
    ensures Render(ns, [t]) == Piece(ns, t)
  {
    var w := Piece(ns, t);
    assert Render(ns, [t]) == w + Render(ns, []);
  }

  predicate OnlyCharacters(tokens: seq<Token>) {
    forall k :: 0 <= k < |tokens| ==> tokens[k].Chr?
  }

  lemma {:induction false} CharactersExpand(tokens: seq<Token>, originals: seq<seq<Token>>)
    requires OnlyCharacters(tokens)
    ensures |Expand(tokens, originals)| == |tokens|
  {
    if tokens != [] { CharactersExpand(tokens[1..], originals); }
  }

  lemma TrimLeftOne(ns: seq<nat>, t: Token, rest: seq<Token>, tokens: seq<Token>)
    requires tokens == [t] + rest
    ensures TrimLeft(Render(ns, tokens)) ==
              if t.Chr? && IsUnicodeSpace(t.c) then TrimLeft(Render(ns, rest)) else Render(ns, tokens)
  {
    assert tokens[1..] == rest;
    PieceEnds(ns, t);
    TrimLeftAppend(Piece(ns, t), Render(ns, rest));
  }

  lemma TrimRightOne(ns: seq<nat>, init: seq<Token>, t: Token, tokens: seq<Token>)
    requires tokens == init + [t]
    ensures TrimRight(Render(ns, tokens)) ==
              if t.Chr? && IsUnicodeSpace(t.c) then TrimRight(Render(ns, init)) else Render(ns, tokens)
  {
    RenderAppend(ns, init, [t]);
    RenderSingle(ns, t);
    PieceEnds(ns, t);
    TrimRightAppend(Render(ns, init), Piece(ns, t));
  }

  // Trimming takes characters off, never a part of a name.
  lemma {:induction false} TrimLeftTokens(ns: seq<nat>, tokens: seq<Token>) returns (a: seq<Token>, b: seq<Token>)
    ensures tokens == a + b && Render(ns, b) == TrimLeft(Render(ns, tokens)) && OnlyCharacters(a)
    decreases |tokens|
  {
    a, b := [], tokens;
    if tokens != [] {
      var t, rest := tokens[0], tokens[1..];
      TrimLeftOne(ns, t, rest, tokens);
      if t.Chr? && IsUnicodeSpace(t.c) {
        var c;
        c, b := TrimLeftTokens(ns, rest);
        a := [t] + c;
        Associates([t], c, b);
      }
    }
  }

  lemma {:induction false} TrimRightTokens(ns: seq<nat>, tokens: seq<Token>) returns (a: seq<Token>, b: seq<Token>)
    ensures tokens == a + b && Render(ns, a) == TrimRight(Render(ns, tokens)) && OnlyCharacters(b)
    decreases |tokens|
  {
    a, b := tokens, [];
    if tokens != [] {
      var init, t := tokens[..|tokens| - 1], tokens[|tokens| - 1];
      TrimRightOne(ns, init, t, tokens);
      if t.Chr? && IsUnicodeSpace(t.c) {
        var c;
        a, c := TrimRightTokens(ns, init);
        b := c + [t];
        Associates(a, c, [t]);
      }
    }
  }

  // Trimming a masked text takes something off that expands to as many characters.
  lemma TrimTokens(ns: seq<nat>, tokens: seq<Token>, originals: seq<seq<Token>>)
    returns (a: seq<Token>, b: seq<Token>, c: seq<Token>)
    ensures tokens == a + (b + c) && Render(ns, b) == TrimSpace(Render(ns, tokens))
    ensures |Expand(a, originals)| == |a| && |Expand(c, originals)| == |c|
  {
    var rest;
    a, rest := TrimLeftTokens(ns, tokens);
    b, c := TrimRightTokens(ns, rest);
    CharactersExpand(a, originals);
    CharactersExpand(c, originals);
  }

  lemma TrimmedExpands(ns: seq<nat>, tokens: seq<Token>, originals: seq<seq<Token>>, text: string)
    returns (b: seq<Token>)
    requires StandsFor(tokens, originals, text) && Unmentioned(ns, text)
    ensures Render(ns, b) == TrimSpace(Render(ns, tokens)) && HolesIn(b, 0, |originals|)
    ensures Unmentioned(ns, Expand(b, originals))
    ensures forall i: nat :: Hole(i) in b ==> Hole(i) in tokens
    ensures b == tokens || |Expand(b, originals)| < |text|
  {
    var a, c;
    a, b, c := TrimTokens(ns, tokens, originals);
    ExpandAppend(a, b + c, originals);
    ExpandAppend(b, c, originals);
    HolesInAppend(a, b + c, 0, |originals|);
    HolesInAppend(b, c, 0, |originals|);
    UnmentionedBehind(ns, Expand(a, originals), Expand(b, originals) + Expand(c, originals));
    UnmentionedBefore(ns, Expand(b, originals), Expand(c, originals));
    if a == [] && c == [] {
      assert [] + (b + []) == b;
    }
  }

  // If the frame trims anything off, what comes back is shorter than the text.
  lemma TrimmedIsNotText(ns: seq<nat>, tokens: seq<Token>, originals: seq<seq<Token>>, text: string)
    requires StandsFor(tokens, originals, text) && Distinct(ns) && |originals| == |ns| && Unmentioned(ns, text)
    requires TrimSpace(Render(ns, tokens)) != Render(ns, tokens)
    requires Accepted(ns, TrimSpace(Render(ns, tokens)))
    ensures Unmask(ns, TrimSpace(Render(ns, tokens)), Texts(ns, originals), 0) != text
  {
    var b := TrimmedExpands(ns, tokens, originals, text);
    UnmentionedIsClean(ns, b, originals);
    AcceptedIffNoneMissing(ns, b);
    NoneMissingIsPlain(tokens, originals, text);
    UnmaskExpands(ns, b, originals);
  }

  lemma SpacesAreLost(l: Ledger, first: Supply, ns: seq<nat>, text: string, tokens: seq<Token>,
                      originals: seq<seq<Token>>)
    requires Shows(l, first, ns, text, tokens, originals) && |l.page.placeholders| == |ns| && Distinct(ns)
    requires Unmentioned(ns, text) && AllNamed(l.page.placeholders) && TrimSpace(l.masked) != l.masked
    ensures Answer(l.page, Said(l.masked)) != Ok(text)
  {
    var t := TrimSpace(l.masked);
    AcceptedIffNothingMissing(ns, t, l.page.placeholders);
    UnmaskFromIsUnmask(ns, t, l.page.placeholders, l.page.mapping, Texts(ns, originals), 0);
    if Accepted(ns, t) { TrimmedIsNotText(ns, tokens, originals, text); }
  }

  // The text comes back unchanged exactly if no stretch taken out holds a placeholder given out and the text has no
  // white space (Unicode's, of which the caller has only removed blanks, tabs and line ends) at either end.
  lemma EchoIff(core: string, code: string -> seq<Span>, angle: string -> seq<Span>, link: string -> seq<Span>)
    requires Proper(code) && Proper(angle) && Proper(link) && core != ""
    requires Unmentioned(Drawn(core, |MaskAll(Opened(core), code, angle, link).page.placeholders|), core)
    ensures var l := MaskAll(Opened(core), code, angle, link);
            && AllNamed(l.page.placeholders)
            && (Answer(l.page, Said(l.masked)) == Ok(core) <==> NoneHeld(l.page) && !SpaceAtEnds(core))
  {
    var l := MaskAll(Opened(core), code, angle, link);
    MaskingIsLosslessOrRejected(core, code, angle, link);
    MaskingKeepsSpaces(Opened(core), code, angle, link);
    TrimSpaceKeepsIff(l.masked);
    if SpaceAtEnds(core) {
      var ns := Drawn(core, |l.page.placeholders|);
      GiveCounts(Opened(core).page.supply, |l.page.placeholders|);
      MaskingRepresents(core, code, angle, link);
      var tokens, originals :| Shows(l, Opened(core).page.supply, ns, core, tokens, originals);
      SpacesAreLost(l, Opened(core).page.supply, ns, core, tokens, originals);
    }
  }
}
