/**
 The three masking passes over strings, and validation: a masked text is accepted exactly if no pass took out
 an earlier placeholder, and exactly then unmasking gives the text back.
 */
module MaskPasses {
  import opened GoText
  import opened Text
  import opened Placeholders
  import opened MaskTokens
  import opened Masking

  datatype Span = Span(start: nat, end: nat)

  // ----- what the regular expressions guarantee

  predicate IsFence(c: char) {
    c == '`' || c == '<' || c == '>' || c == '(' || c == ')'
  }

  // A backquote, angle bracket or parenthesis stands right before or right at p.
  predicate Cut(text: string, p: nat) {
    (p < |text| && IsFence(text[p])) || (0 < p <= |text| && IsFence(text[p - 1]))
  }

  // The matches from the k-th on, in order and apart, begin and end at such a character.
  predicate Ordered(text: string, spans: seq<Span>, k: nat, pos: nat)
    decreases |spans| - k
  {
    k >= |spans|
    || (pos <= spans[k].start < spans[k].end <= |text| && Cut(text, spans[k].start) && Cut(text, spans[k].end)
        && Ordered(text, spans, k + 1, spans[k].end))
  }

  // The text from pos on, with each match from the k-th on replaced by its name.
  function Masked(text: string, spans: seq<Span>, names: seq<nat>, k: nat, pos: nat): string
    requires pos <= |text| && Ordered(text, spans, k, pos) && |names| == |spans|
    decreases |spans| - k
  {
    if k >= |spans| then text[pos..]
    else text[pos..spans[k].start] + Name(names[k]) + Masked(text, spans, names, k + 1, spans[k].end)
  }

  function Slices(text: string, spans: seq<Span>, k: nat, pos: nat): seq<string>
    requires Ordered(text, spans, k, pos)
    decreases |spans| - k
  {
    if k >= |spans| then [] else [text[spans[k].start..spans[k].end]] + Slices(text, spans, k + 1, spans[k].end)
  }

  // ----- no match cuts a placeholder

  lemma NameHasNoFence(n: nat, k: nat)
    requires k < |Name(n)|
    ensures !IsFence(Name(n)[k]) && !IsUnicodeSpace(Name(n)[k])
  {
    var d := Digits(n);
    if 10 <= k < 10 + |d| { assert Name(n)[k] == d[k - 10]; }
  }

  lemma HoleHasNoFence(ns: seq<nat>, i: nat, k: nat)
    requires k < |Label(ns, i)|
    ensures !IsFence(Label(ns, i)[k])
  {
    NameHasNoFence(if i < |ns| then ns[i] else 0, k);
  }

  lemma {:induction false} SplitAt(ns: seq<nat>, tokens: seq<Token>, p: nat)
    returns (a: seq<Token>, b: seq<Token>)
    requires p <= |Render(ns, tokens)|
    requires p == 0 || Cut(Render(ns, tokens), p)
    ensures tokens == a + b && |Render(ns, a)| == p
    decreases tokens, 1
  {
    if p == 0 {
      a, b := [], tokens;
    } else {
      a, b := SplitBehindFirst(ns, tokens, p);
    }
  }

  lemma {:induction false} SplitBehindFirst(ns: seq<nat>, tokens: seq<Token>, p: nat)
    returns (a: seq<Token>, b: seq<Token>)
    requires 0 < p <= |Render(ns, tokens)| && Cut(Render(ns, tokens), p)
    ensures tokens == a + b && |Render(ns, a)| == p
    decreases tokens, 0
  {
    var w := Piece(ns, tokens[0]);
    var r := Render(ns, tokens[1..]);
    WholePieces(ns, tokens[0], r, p);
    if p > |w| { CutBehind(w, r, p); }
    a, b := SplitAt(ns, tokens[1..], p - |w|);
    RenderCons(ns, tokens[0], a);
    PutBack(tokens, a, b);
    a := [tokens[0]] + a;
  }

  lemma RenderCons(ns: seq<nat>, t: Token, a: seq<Token>)
    ensures |Render(ns, [t] + a)| == |Piece(ns, t)| + |Render(ns, a)|
  {
    assert ([t] + a)[1..] == a;
  }

  lemma PutBack(tokens: seq<Token>, a: seq<Token>, b: seq<Token>)
    requires tokens != [] && tokens[1..] == a + b
    ensures tokens == [tokens[0]] + a + b
  {
    assert tokens == [tokens[0]] + tokens[1..];
  }

  lemma SplitText(ns: seq<nat>, tokens: seq<Token>, text: string, pos: nat, p: nat)
    returns (a: seq<Token>, b: seq<Token>)
    requires pos <= p <= |text| && Render(ns, tokens) == text[pos..]
    requires p == pos || Cut(text, p)
    ensures tokens == a + b && Render(ns, a) == text[pos..p] && Render(ns, b) == text[p..]
  {
    if p == pos {
      a, b := [], tokens;
    } else {
      CutInRest(text, pos, p);
      a, b := SplitAt(ns, tokens, p - pos);
      RenderAppend(ns, a, b);
      SliceHead(text, pos, p);
    }
  }

  lemma WholePieces(ns: seq<nat>, t: Token, r: string, p: nat)
    requires p > 0 && Cut(Piece(ns, t) + r, p)
    ensures p >= |Piece(ns, t)|
  {
    match t
    case Chr(c) => {}
    case Hole(i) =>
      if p < |Label(ns, i)| {
        HoleHasNoFence(ns, i, p);
        HoleHasNoFence(ns, i, p - 1);
      }
  }

  lemma CutBehind(w: string, r: string, p: nat)
    requires Cut(w + r, p) && p > |w|
    ensures Cut(r, p - |w|)
  {
  }

  lemma CutInRest(text: string, pos: nat, p: nat)
    requires pos <= |text| && Cut(text, p) && pos <= p <= |text|
    ensures p == pos || Cut(text[pos..], p - pos)
  {
  }

  // ----- a pass

  // The numbers given out by a pass are those drawn from the i-th on.
  predicate NamesFrom(ns: seq<nat>, names: seq<nat>, i: nat) {
    i + |names| <= |ns| && names == ns[i..i + |names|]
  }

  lemma SliceHead(s: string, p: nat, q: nat)
    requires p <= q <= |s|
    ensures s[p..][..q - p] == s[p..q] && s[p..][q - p..] == s[q..]
  {
  }

  // Cut a match out of the part of the text not yet copied.
  lemma CutOut(ns: seq<nat>, text: string, pos: nat, start: nat, end: nat, rest: seq<Token>)
    returns (a: seq<Token>, b: seq<Token>, c: seq<Token>)
    requires pos <= start < end <= |text| && Cut(text, start) && Cut(text, end)
    requires Render(ns, rest) == text[pos..]
    ensures rest == a + (b + c)
    ensures Render(ns, a) == text[pos..start] && Render(ns, b) == text[start..end] && Render(ns, c) == text[end..]
  {
    var more;
    a, more := SplitText(ns, rest, text, pos, start);
    b, c := SplitText(ns, more, text, start, end);
  }

  lemma Join(done: seq<Token>, a: seq<Token>, b: seq<Token>, c: seq<Token>)
    ensures done + (a + (b + c)) == done + a + b + c
  {
  }

  lemma RenderThree(ns: seq<nat>, a: seq<Token>, b: seq<Token>, c: seq<Token>)
    ensures Render(ns, a + b + c) == Render(ns, a) + (Render(ns, b) + Render(ns, c))
  {
    RenderAppend(ns, a + b, c);
    RenderAppend(ns, a, b);
    Associates(Render(ns, a), Render(ns, b), Render(ns, c));
  }

  lemma RenderName(ns: seq<nat>, hole: Token, n: nat)
    requires Piece(ns, hole) == Name(n)
    ensures Render(ns, [hole]) == Name(n)
  {
    var w := Piece(ns, hole);
    assert Render(ns, [hole]) == w + Render(ns, []);
  }

  lemma StepRenders(ns: seq<nat>, text: string, spans: seq<Span>, names: seq<nat>, k: nat, pos: nat, done: seq<Token>,
                    a: seq<Token>, hole: Token)
    requires k < |spans| == |names| && pos <= |text| && Ordered(text, spans, k, pos)
    requires Render(ns, a) == text[pos..spans[k].start] && Piece(ns, hole) == Name(names[k])
    ensures Render(ns, done + a + [hole]) + Masked(text, spans, names, k + 1, spans[k].end)
         == Render(ns, done) + Masked(text, spans, names, k, pos)
  {
    RenderThree(ns, done, a, [hole]);
    RenderName(ns, hole, names[k]);
    Associates(Render(ns, done), Render(ns, a) + Name(names[k]), Masked(text, spans, names, k + 1, spans[k].end));
  }

  lemma StepTexts(ns: seq<nat>, text: string, spans: seq<Span>, k: nat, pos: nat, originals: seq<seq<Token>>,
                  b: seq<Token>)
    requires k < |spans| && Ordered(text, spans, k, pos)
    requires Render(ns, b) == text[spans[k].start..spans[k].end]
    ensures Texts(ns, originals + [b]) + Slices(text, spans, k + 1, spans[k].end)
         == Texts(ns, originals) + Slices(text, spans, k, pos)
  {
    assert Texts(ns, originals + [b]) == Texts(ns, originals) + [Render(ns, b)];
  }

  // A pass that has copied the text up to pos: what is copied and what is left stand for the whole.
  ghost predicate Copied(ns: seq<nat>, whole: string, text: string, pos: nat, done: seq<Token>, rest: seq<Token>,
                         originals: seq<seq<Token>>) {
    pos <= |text| && Render(ns, rest) == text[pos..] && StandsFor(done + rest, originals, whole)
  }

  lemma PassStep(ns: seq<nat>, whole: string, text: string, spans: seq<Span>, names: seq<nat>, k: nat, pos: nat,
                 done: seq<Token>, rest: seq<Token>, originals: seq<seq<Token>>)
    returns (next: seq<Token>, left: seq<Token>, taken: seq<Token>)
    requires k < |spans| == |names| && pos <= |text| && Ordered(text, spans, k, pos)
    requires |originals| < |ns| && names[k] == ns[|originals|]
    requires Copied(ns, whole, text, pos, done, rest, originals)
    ensures spans[k].end <= |text| && Ordered(text, spans, k + 1, spans[k].end)
    ensures Copied(ns, whole, text, spans[k].end, next, left, originals + [taken])
    ensures Render(ns, next) + Masked(text, spans, names, k + 1, spans[k].end)
         == Render(ns, done) + Masked(text, spans, names, k, pos)
    ensures Texts(ns, originals + [taken]) + Slices(text, spans, k + 1, spans[k].end)
         == Texts(ns, originals) + Slices(text, spans, k, pos)
  {
    var a;
    a, taken, left := CutOut(ns, text, pos, spans[k].start, spans[k].end, rest);
    var hole := Hole(|originals|);
    next := done + a + [hole];
    Join(done, a, taken, left);
    TakeOut(done + a, taken, left, originals, whole);
    StepRenders(ns, text, spans, names, k, pos, done, a, hole);
    StepTexts(ns, text, spans, k, pos, originals, taken);
  }

  lemma PassEnd(ns: seq<nat>, whole: string, text: string, spans: seq<Span>, names: seq<nat>, pos: nat,
                done: seq<Token>, rest: seq<Token>, originals: seq<seq<Token>>)
    requires |spans| == |names| && Copied(ns, whole, text, pos, done, rest, originals)
    ensures Render(ns, done + rest) == Render(ns, done) + Masked(text, spans, names, |spans|, pos)
    ensures Texts(ns, originals) == Texts(ns, originals) + Slices(text, spans, |spans|, pos)
  {
    RenderAppend(ns, done, rest);
  }

  lemma {:induction false} PassStandsFor(
      ns: seq<nat>, first: nat, whole: string, text: string, spans: seq<Span>, names: seq<nat>, k: nat, pos: nat,
      done: seq<Token>, rest: seq<Token>, originals: seq<seq<Token>>)
    returns (tokens: seq<Token>, more: seq<seq<Token>>)
    requires k <= |spans| == |names| && pos <= |text| && Ordered(text, spans, k, pos)
    requires NamesFrom(ns, names, first) && |originals| == first + k
    requires Copied(ns, whole, text, pos, done, rest, originals)
    ensures StandsFor(tokens, more, whole) && |more| == |originals| + (|spans| - k)
    ensures Render(ns, tokens) == Render(ns, done) + Masked(text, spans, names, k, pos)
    ensures Texts(ns, more) == Texts(ns, originals) + Slices(text, spans, k, pos)
    decreases |spans| - k
  {
    if k == |spans| {
      PassEnd(ns, whole, text, spans, names, pos, done, rest, originals);
      tokens, more := done + rest, originals;
    } else {
      var next, left, taken := PassStep(ns, whole, text, spans, names, k, pos, done, rest, originals);
      tokens, more := PassStandsFor(
        ns, first, whole, text, spans, names, k + 1, spans[k].end, next, left, originals + [taken]);
    }
  }

  // A regular expression: its matches in each text, of which nothing is known but that they are in order, apart,
  // and fenced.
  ghost predicate Proper(find: string -> seq<Span>) {
    forall t: string :: Ordered(t, find(t), 0, 0)
  }

  function Characters(s: string): seq<Token> {
    if s == "" then [] else [Chr(s[0])] + Characters(s[1..])
  }

  lemma {:induction false} CharactersStandForText(ns: seq<nat>, s: string)
    ensures Render(ns, Characters(s)) == s && Expand(Characters(s), []) == s && HolesIn(Characters(s), 0, 0)
  {
    if s != "" { CharactersStandForText(ns, s[1..]); }
  }

  // ----- accepted, lossless, nothing taken out twice: the same thing

  // No stretch taken out holds a name that was drawn.
  predicate NoneNamed(ns: seq<nat>, originals: seq<string>) {
    forall k, i :: 0 <= k < |originals| && 0 <= i < |ns| ==> !Contains(originals[k], Label(ns, i))
  }

  lemma {:induction false} ExpansionHoldsOriginal(tokens: seq<Token>, originals: seq<seq<Token>>, i: nat, u: string)
    requires i < |originals| && Hole(i) in tokens && Contains(Expand(originals[i], originals[..i]), u)
    ensures Contains(Expand(tokens, originals), u)
  {
    if tokens[0] == Hole(i) {
      ContainsBefore(Expand(originals[i], originals[..i]), Expand(tokens[1..], originals), u);
    } else {
      ExpansionHoldsOriginal(tokens[1..], originals, i, u);
      ContainsBehind(ExpandOne(tokens[0], originals), Expand(tokens[1..], originals), u);
    }
  }

  lemma {:induction false} HasHole(tokens: seq<Token>, n: nat) returns (i: nat)
    requires HolesIn(tokens, 0, n) && !HolesIn(tokens, 0, 0)
    ensures i < n && Hole(i) in tokens
  {
    if tokens[0].Hole? { i := tokens[0].i; } else { i := HasHole(tokens[1..], n); }
  }

  lemma PlainIsUnnamed(ns: seq<nat>, tokens: seq<Token>, originals: seq<seq<Token>>, text: string)
    requires StandsFor(tokens, originals, text) && Unmentioned(ns, text)
    requires forall i :: 0 <= i < |originals| ==> Hole(i) in tokens
    ensures NoneNamed(ns, Texts(ns, originals))
  {
    NoneMissingIsPlain(tokens, originals, text);
    forall k, i | 0 <= k < |originals| && 0 <= i < |ns|
      ensures !Contains(Texts(ns, originals)[k], Label(ns, i))
    {
      PlainRenders(ns, originals[k], 0, originals[..k]);
      if Contains(Render(ns, originals[k]), Label(ns, i)) {
        LabelShowsCore(ns, i);
        ContainsInner(Render(ns, originals[k]), Label(ns, i), Core(ns[i]));
        ExpansionHoldsOriginal(tokens, originals, k, Core(ns[i]));
      }
    }
  }

  lemma NotPlainIsNamed(ns: seq<nat>, originals: seq<seq<Token>>)
    requires Nested(originals) && !AllPlain(originals) && |originals| == |ns|
    ensures !NoneNamed(ns, Texts(ns, originals))
  {
    var m :| 0 <= m < |originals| && !HolesIn(originals[m], 0, 0);
    var i := HasHole(originals[m], m);
    HoleShowsName(ns, originals[m], i);
    assert Texts(ns, originals)[m] == Render(ns, originals[m]);
  }

  lemma AcceptedIffNoneMissing(ns: seq<nat>, tokens: seq<Token>)
    requires Distinct(ns) && HolesIn(tokens, 0, |ns|) && Clean(ns, tokens)
    ensures Accepted(ns, Render(ns, tokens)) <==> forall i :: 0 <= i < |ns| ==> Hole(i) in tokens
  {
    forall i | 0 <= i < |ns|
      ensures Contains(Render(ns, tokens), Label(ns, i)) <==> Hole(i) in tokens
    {
      ContainsIffHole(ns, tokens, i);
    }
  }

  // For a text that does not mention the numbers drawn, three things are the same: validation accepts the masked text
  // as it is; no pass took out an earlier placeholder; unmasking gives the text back.
  lemma AcceptedIffLossless(ns: seq<nat>, tokens: seq<Token>, originals: seq<seq<Token>>, text: string)
    requires StandsFor(tokens, originals, text) && Distinct(ns) && |originals| == |ns| && Unmentioned(ns, text)
    ensures Accepted(ns, Render(ns, tokens)) <==> Unmask(ns, Render(ns, tokens), Texts(ns, originals), 0) == text
    ensures Accepted(ns, Render(ns, tokens)) <==> NoneNamed(ns, Texts(ns, originals))
  {
    UnmentionedIsClean(ns, tokens, originals);
    AcceptedIffNoneMissing(ns, tokens);
    if forall i :: 0 <= i < |originals| ==> Hole(i) in tokens {
      NoneMissingIsPlain(tokens, originals, text);
      UnmaskExpands(ns, tokens, originals);
      PlainIsUnnamed(ns, tokens, originals, text);
    } else {
      MissingIsLost(ns, tokens, originals, text);
      NotPlainIsNamed(ns, originals);
    }
  }
}
