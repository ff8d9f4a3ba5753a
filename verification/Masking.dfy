/**
 What masking keeps: taking stretches of a text out behind placeholders, pass after pass, and putting them back.
 A pass may take out a stretch that holds an earlier placeholder; that is what validation has to notice.
 */
module Masking {
  import opened Placeholders
  import opened MaskTokens

  // ----- expanding

  // The text the tokens stand for when every hole is filled, and every hole in what fills it.
  function Expand(tokens: seq<Token>, originals: seq<seq<Token>>): string
    decreases |originals|, |tokens|
  {
    if tokens == [] then "" else ExpandOne(tokens[0], originals) + Expand(tokens[1..], originals)
  }

  function ExpandOne(t: Token, originals: seq<seq<Token>>): string
    decreases |originals|, 0
  {
    match t
    case Chr(c) => [c]
    case Hole(i) => if i < |originals| then Expand(originals[i], originals[..i]) else ""
  }

  lemma {:induction false} HolesInAppend(a: seq<Token>, b: seq<Token>, lo: nat, hi: nat)
    ensures HolesIn(a + b, lo, hi) <==> HolesIn(a, lo, hi) && HolesIn(b, lo, hi)
  {
    if a == [] {
      assert a + b == b;
    } else {
      assert (a + b)[1..] == a[1..] + b;
      HolesInAppend(a[1..], b, lo, hi);
    }
  }

  lemma {:induction false} HolesInWider(tokens: seq<Token>, lo: nat, hi: nat, more: nat)
    requires HolesIn(tokens, lo, hi) && hi <= more
    ensures HolesIn(tokens, lo, more)
  {
    if tokens != [] { HolesInWider(tokens[1..], lo, hi, more); }
  }

  lemma {:induction false} ExpandAppend(a: seq<Token>, b: seq<Token>, originals: seq<seq<Token>>)
    ensures Expand(a + b, originals) == Expand(a, originals) + Expand(b, originals)
  {
    if a == [] {
      assert a + b == b;
    } else {
      assert (a + b)[1..] == a[1..] + b;
      ExpandAppend(a[1..], b, originals);
    }
  }

  lemma {:induction false} ExpandPrefix(tokens: seq<Token>, originals: seq<seq<Token>>, n: nat)
    requires n <= |originals| && HolesIn(tokens, 0, n)
    ensures Expand(tokens, originals) == Expand(tokens, originals[..n])
  {
    if tokens != [] {
      if tokens[0].Hole? { assert originals[..n][..tokens[0].i] == originals[..tokens[0].i]; }
      ExpandPrefix(tokens[1..], originals, n);
    }
  }

  // ----- counting

  function Uses(tokens: seq<Token>, i: nat): nat {
    if tokens == [] then 0 else (if tokens[0] == Hole(i) then 1 else 0) + Uses(tokens[1..], i)
  }

  function UsesInAll(originals: seq<seq<Token>>, i: nat): nat {
    if originals == [] then 0
    else UsesInAll(originals[..|originals| - 1], i) + Uses(originals[|originals| - 1], i)
  }

  lemma {:induction false} UsesAppend(a: seq<Token>, b: seq<Token>, i: nat)
    ensures Uses(a + b, i) == Uses(a, i) + Uses(b, i)
  {
    if a == [] {
      assert a + b == b;
    } else {
      assert (a + b)[1..] == a[1..] + b;
      UsesAppend(a[1..], b, i);
    }
  }

  lemma {:induction false} UsesNone(tokens: seq<Token>, lo: nat, hi: nat, i: nat)
    requires HolesIn(tokens, lo, hi) && !(lo <= i < hi)
    ensures Uses(tokens, i) == 0
  {
    if tokens != [] { UsesNone(tokens[1..], lo, hi, i); }
  }

  lemma {:induction false} UsesIsIn(tokens: seq<Token>, i: nat)
    ensures Uses(tokens, i) > 0 <==> Hole(i) in tokens
  {
    if tokens != [] { UsesIsIn(tokens[1..], i); }
  }

  lemma {:induction false} UsedByOne(originals: seq<seq<Token>>, i: nat) returns (m: nat)
    requires UsesInAll(originals, i) > 0
    ensures m < |originals| && Uses(originals[m], i) > 0
  {
    var last := |originals| - 1;
    if Uses(originals[last], i) > 0 { m := last; } else { m := UsedByOne(originals[..last], i); }
  }

  lemma {:induction false} UsedInAll(originals: seq<seq<Token>>, i: nat, m: nat)
    requires m < |originals| && Uses(originals[m], i) > 0
    ensures UsesInAll(originals, i) > 0
  {
    var last := |originals| - 1;
    if m < last { UsedInAll(originals[..last], i, m); }
  }

  // ----- masked text stands for the text it was made from

  predicate Nested(originals: seq<seq<Token>>) {
    forall i :: 0 <= i < |originals| ==> HolesIn(originals[i], 0, i)
  }

  // Each hole is at one place: in the tokens, or in a stretch taken out later.
  predicate Once(tokens: seq<Token>, originals: seq<seq<Token>>) {
    forall i :: 0 <= i < |originals| ==> Uses(tokens, i) + UsesInAll(originals, i) == 1
  }

  predicate StandsFor(tokens: seq<Token>, originals: seq<seq<Token>>, text: string) {
    && Expand(tokens, originals) == text
    && HolesIn(tokens, 0, |originals|)
    && Nested(originals)
    && Once(tokens, originals)
  }

  lemma ExpandThree(d: seq<Token>, b: seq<Token>, c: seq<Token>, originals: seq<seq<Token>>)
    ensures Expand(d + b + c, originals) == Expand(d, originals) + Expand(b, originals) + Expand(c, originals)
  {
    ExpandAppend(d + b, c, originals);
    ExpandAppend(d, b, originals);
  }

  lemma HolesInThree(d: seq<Token>, b: seq<Token>, c: seq<Token>, n: nat)
    ensures HolesIn(d + b + c, 0, n) <==> HolesIn(d, 0, n) && HolesIn(b, 0, n) && HolesIn(c, 0, n)
  {
    HolesInAppend(d + b, c, 0, n);
    HolesInAppend(d, b, 0, n);
  }

  lemma ExpandHole(b: seq<Token>, originals: seq<seq<Token>>)
    ensures Expand([Hole(|originals|)], originals + [b]) == Expand(b, originals)
  {
    assert (originals + [b])[..|originals|] == originals;
    assert Expand([], originals + [b]) == "";
  }

  lemma TakeOutExpands(d: seq<Token>, b: seq<Token>, c: seq<Token>, originals: seq<seq<Token>>)
    requires HolesIn(d, 0, |originals|) && HolesIn(c, 0, |originals|)
    ensures Expand(d + [Hole(|originals|)] + c, originals + [b]) == Expand(d + b + c, originals)
  {
    var n := |originals|;
    var more := originals + [b];
    ExpandThree(d, b, c, originals);
    ExpandThree(d, [Hole(n)], c, more);
    assert more[..n] == originals;
    ExpandPrefix(d, more, n);
    ExpandPrefix(c, more, n);
    ExpandHole(b, originals);
  }

  lemma TakeOutHoles(d: seq<Token>, b: seq<Token>, c: seq<Token>, n: nat)
    requires HolesIn(d + b + c, 0, n)
    ensures HolesIn(d, 0, n) && HolesIn(b, 0, n) && HolesIn(c, 0, n)
    ensures HolesIn(d + [Hole(n)] + c, 0, n + 1)
  {
    HolesInThree(d, b, c, n);
    HolesInWider(d, 0, n, n + 1);
    HolesInWider(c, 0, n, n + 1);
    HolesInThree(d, [Hole(n)], c, n + 1);
  }

  lemma TakeOutOnce(d: seq<Token>, b: seq<Token>, c: seq<Token>, originals: seq<seq<Token>>, i: nat)
    requires HolesIn(d + b + c, 0, |originals|) && Nested(originals) && Once(d + b + c, originals)
    requires i <= |originals|
    ensures Uses(d + [Hole(|originals|)] + c, i) + UsesInAll(originals + [b], i) == 1
  {
    var n := |originals|;
    UsesAppend(d + b, c, i);
    UsesAppend(d, b, i);
    UsesAppend(d + [Hole(n)], c, i);
    UsesAppend(d, [Hole(n)], i);
    assert (originals + [b])[..n] == originals;
    assert UsesInAll(originals + [b], i) == UsesInAll(originals, i) + Uses(b, i);
    if i == n {
      UsesNone(d + b + c, 0, n, n);
      NotYetUsed(originals, n, n);
    }
  }

  lemma {:induction false} NotYetUsed(originals: seq<seq<Token>>, k: nat, n: nat)
    requires k <= |originals| <= n && Nested(originals)
    ensures UsesInAll(originals[..k], n) == 0
    ensures k == |originals| ==> originals[..k] == originals
  {
    if k > 0 {
      NotYetUsed(originals, k - 1, n);
      assert originals[..k][..k - 1] == originals[..k - 1];
      UsesNone(originals[k - 1], 0, k - 1, n);
    }
  }

  lemma TakeOut(d: seq<Token>, b: seq<Token>, c: seq<Token>, originals: seq<seq<Token>>, text: string)
    requires StandsFor(d + b + c, originals, text)
    ensures StandsFor(d + [Hole(|originals|)] + c, originals + [b], text)
  {
    TakeOutHoles(d, b, c, |originals|);
    TakeOutExpands(d, b, c, originals);
    forall i | 0 <= i < |originals| + 1
      ensures Uses(d + [Hole(|originals|)] + c, i) + UsesInAll(originals + [b], i) == 1
    {
      TakeOutOnce(d, b, c, originals, i);
    }
  }

  // ----- putting back

  function Texts(ns: seq<nat>, originals: seq<seq<Token>>): seq<string> {
    seq(|originals|, i requires 0 <= i < |originals| => Render(ns, originals[i]))
  }

  // Replace the names one after another, in the order in which they were made.
  function Unmask(ns: seq<nat>, text: string, originals: seq<string>, i: nat): string
    requires i <= |originals|
    decreases |originals| - i
  {
    if i == |originals| then text
    else Unmask(ns, ReplaceAll(text, Label(ns, i), originals[i]), originals, i + 1)
  }

  predicate Accepted(ns: seq<nat>, text: string) {
    forall i :: 0 <= i < |ns| ==> Contains(text, Label(ns, i))
  }

  function FillAll(tokens: seq<Token>, originals: seq<seq<Token>>, i: nat): seq<Token>
    requires i <= |originals|
    decreases |originals| - i
  {
    if i == |originals| then tokens else FillAll(Fill(tokens, i, originals[i]), originals, i + 1)
  }

  lemma {:induction false} FillExpands(tokens: seq<Token>, i: nat, originals: seq<seq<Token>>)
    requires i < |originals| && Nested(originals)
    ensures Expand(Fill(tokens, i, originals[i]), originals) == Expand(tokens, originals)
  {
    if tokens != [] {
      FillExpands(tokens[1..], i, originals);
      var later := Fill(tokens[1..], i, originals[i]);
      if tokens[0] == Hole(i) {
        ExpandAppend(originals[i], later, originals);
        ExpandPrefix(originals[i], originals, i);
      } else {
        assert ([tokens[0]] + later)[1..] == later;
      }
    }
  }

  lemma {:induction false} SpelledExpands(tokens: seq<Token>, originals: seq<seq<Token>>, s: string)
    requires Spelled(tokens, s)
    ensures s <= Expand(tokens, originals)
  {
    if s != "" {
      assert tokens[0] == Chr(s[0]);
      assert forall d :: 0 <= d < |s| - 1 ==> tokens[1..][d] == tokens[d + 1] && s[1..][d] == s[d + 1];
      SpelledExpands(tokens[1..], originals, s[1..]);
      assert s == [s[0]] + s[1..];
    }
  }

  lemma {:induction false} ContainsBehind(a: string, s: string, u: string)
    requires Contains(s, u)
    ensures Contains(a + s, u)
  {
    if a == "" {
      assert a + s == s;
    } else {
      ContainsBehind(a[1..], s, u);
      assert (a + s)[1..] == a[1..] + s;
    }
  }

  lemma {:induction false} ContainsBefore(a: string, b: string, u: string)
    requires Contains(a, u)
    ensures Contains(a + b, u)
  {
    if u <= a {
      assert u <= a + b;
    } else {
      ContainsBefore(a[1..], b, u);
      assert (a + b)[1..] == a[1..] + b;
    }
  }

  // The text does not hold the middle of a name that was drawn.
  predicate Unmentioned(ns: seq<nat>, text: string) {
    forall i :: 0 <= i < |ns| ==> !Contains(text, Core(ns[i]))
  }

  lemma UnmentionedBehind(ns: seq<nat>, a: string, s: string)
    requires Unmentioned(ns, a + s)
    ensures Unmentioned(ns, s)
  {
    forall i | 0 <= i < |ns| ensures !Contains(s, Core(ns[i])) {
      if Contains(s, Core(ns[i])) { ContainsBehind(a, s, Core(ns[i])); }
    }
  }

  lemma UnmentionedBefore(ns: seq<nat>, a: string, s: string)
    requires Unmentioned(ns, a + s)
    ensures Unmentioned(ns, a)
  {
    forall i | 0 <= i < |ns| ensures !Contains(a, Core(ns[i])) {
      if Contains(a, Core(ns[i])) { ContainsBefore(a, s, Core(ns[i])); }
    }
  }

  lemma {:induction false} UnmentionedIsClean(ns: seq<nat>, tokens: seq<Token>, originals: seq<seq<Token>>)
    requires Unmentioned(ns, Expand(tokens, originals))
    ensures Clean(ns, tokens)
  {
    if tokens != [] {
      forall i | 0 <= i < |ns| ensures !Spelled(tokens, Core(ns[i])) {
        if Spelled(tokens, Core(ns[i])) { SpelledExpands(tokens, originals, Core(ns[i])); }
      }
      UnmentionedBehind(ns, ExpandOne(tokens[0], originals), Expand(tokens[1..], originals));
      UnmentionedIsClean(ns, tokens[1..], originals);
    }
  }

  lemma {:induction false} FillHolesIn(tokens: seq<Token>, i: nat, original: seq<Token>, n: nat)
    requires HolesIn(tokens, 0, n) && HolesIn(original, 0, n)
    ensures HolesIn(Fill(tokens, i, original), 0, n)
  {
    if tokens != [] {
      FillHolesIn(tokens[1..], i, original, n);
      HolesInAppend(if tokens[0] == Hole(i) then original else [tokens[0]], Fill(tokens[1..], i, original), 0, n);
    }
  }

  lemma {:induction false} UnmaskIsFillAll(ns: seq<nat>, tokens: seq<Token>, originals: seq<seq<Token>>, i: nat)
    requires i <= |originals| == |ns| && Nested(originals) && Distinct(ns) && HolesIn(tokens, 0, |ns|)
    requires Unmentioned(ns, Expand(tokens, originals))
    ensures Unmask(ns, Render(ns, tokens), Texts(ns, originals), i) == Render(ns, FillAll(tokens, originals, i))
    decreases |originals| - i
  {
    if i < |originals| {
      UnmentionedIsClean(ns, tokens, originals);
      ReplaceIsFill(ns, tokens, i, originals[i]);
      FillExpands(tokens, i, originals);
      HolesInWider(originals[i], 0, i, |ns|);
      FillHolesIn(tokens, i, originals[i], |ns|);
      UnmaskIsFillAll(ns, Fill(tokens, i, originals[i]), originals, i + 1);
    }
  }

  // ----- nothing was taken out twice

  lemma {:induction false} FillLeaves(tokens: seq<Token>, i: nat, original: seq<Token>, lo: nat, hi: nat)
    requires HolesIn(tokens, i, hi) && HolesIn(original, lo, hi) && i < lo
    ensures HolesIn(Fill(tokens, i, original), i + 1, hi)
  {
    if tokens != [] {
      FillLeaves(tokens[1..], i, original, lo, hi);
      var later := Fill(tokens[1..], i, original);
      HolesInAppend(if tokens[0] == Hole(i) then original else [tokens[0]], later, i + 1, hi);
      if tokens[0] == Hole(i) {
        HolesInLater(original, lo, hi, i + 1);
      } else {
        assert HolesIn([tokens[0]], i + 1, hi);
      }
    }
  }

  lemma {:induction false} HolesInLater(tokens: seq<Token>, lo: nat, hi: nat, less: nat)
    requires HolesIn(tokens, lo, hi) && less <= lo
    ensures HolesIn(tokens, less, hi)
  {
    if tokens != [] { HolesInLater(tokens[1..], lo, hi, less); }
  }

  // No stretch that was taken out holds a placeholder.
  predicate AllPlain(originals: seq<seq<Token>>) {
    forall i :: 0 <= i < |originals| ==> HolesIn(originals[i], 0, 0)
  }

  lemma {:induction false} NoHolesAnywhere(tokens: seq<Token>, lo: nat, hi: nat)
    requires HolesIn(tokens, 0, 0)
    ensures HolesIn(tokens, lo, hi)
  {
    if tokens != [] { NoHolesAnywhere(tokens[1..], lo, hi); }
  }

  lemma {:induction false} PlainIsFilled(tokens: seq<Token>, originals: seq<seq<Token>>, i: nat)
    requires i <= |originals| && AllPlain(originals)
    requires HolesIn(tokens, i, |originals|)
    ensures HolesIn(FillAll(tokens, originals, i), |originals|, |originals|)
    decreases |originals| - i
  {
    if i < |originals| {
      NoHolesAnywhere(originals[i], i + 1, |originals|);
      FillLeaves(tokens, i, originals[i], i + 1, |originals|);
      PlainIsFilled(Fill(tokens, i, originals[i]), originals, i + 1);
    }
  }

  lemma {:induction false} PlainRenders(ns: seq<nat>, tokens: seq<Token>, n: nat, originals: seq<seq<Token>>)
    requires HolesIn(tokens, n, n)
    ensures Render(ns, tokens) == Expand(tokens, originals)
  {
    if tokens != [] { PlainRenders(ns, tokens[1..], n, originals); }
  }

  lemma {:induction false} FillAllExpands(tokens: seq<Token>, originals: seq<seq<Token>>, i: nat)
    requires i <= |originals| && Nested(originals)
    ensures Expand(FillAll(tokens, originals, i), originals) == Expand(tokens, originals)
    decreases |originals| - i
  {
    if i < |originals| {
      FillExpands(tokens, i, originals);
      FillAllExpands(Fill(tokens, i, originals[i]), originals, i + 1);
    }
  }

  // Whatever a translation does with the placeholders (it may move them, repeat them, leave some out), each one
  // comes back as the stretch it was made for.
  lemma {:induction false} UnmaskExpands(ns: seq<nat>, tokens: seq<Token>, originals: seq<seq<Token>>)
    requires Distinct(ns) && AllPlain(originals) && HolesIn(tokens, 0, |originals|) && |originals| == |ns|
    requires Unmentioned(ns, Expand(tokens, originals))
    ensures Unmask(ns, Render(ns, tokens), Texts(ns, originals), 0) == Expand(tokens, originals)
  {
    forall i | 0 <= i < |originals| ensures HolesIn(originals[i], 0, i) { NoHolesAnywhere(originals[i], 0, i); }
    UnmaskIsFillAll(ns, tokens, originals, 0);
    PlainIsFilled(tokens, originals, 0);
    PlainRenders(ns, FillAll(tokens, originals, 0), |originals|, originals);
    FillAllExpands(tokens, originals, 0);
  }

  // ----- a placeholder taken out again stays in the text

  lemma {:induction false} FillKeeps(tokens: seq<Token>, i: nat, original: seq<Token>, n: nat)
    requires Hole(n) in tokens && n != i
    ensures Hole(n) in Fill(tokens, i, original)
  {
    if tokens[0] != Hole(n) { FillKeeps(tokens[1..], i, original, n); }
  }

  lemma {:induction false} FillBrings(tokens: seq<Token>, i: nat, original: seq<Token>, n: nat)
    requires Hole(i) in tokens && Hole(n) in original
    ensures Hole(n) in Fill(tokens, i, original)
  {
    if tokens[0] != Hole(i) { FillBrings(tokens[1..], i, original, n); }
  }

  lemma {:induction false} StaysBehind(tokens: seq<Token>, originals: seq<seq<Token>>, i: nat, n: nat)
    requires n < i <= |originals| && Hole(n) in tokens
    ensures Hole(n) in FillAll(tokens, originals, i)
    decreases |originals| - i
  {
    if i < |originals| {
      FillKeeps(tokens, i, originals[i], n);
      StaysBehind(Fill(tokens, i, originals[i]), originals, i + 1, n);
    }
  }

  lemma {:induction false} ComesBack(tokens: seq<Token>, originals: seq<seq<Token>>, i: nat, m: nat, n: nat)
    requires i <= m < |originals| && n < m && Hole(m) in tokens && Hole(n) in originals[m]
    ensures Hole(n) in FillAll(tokens, originals, i)
    decreases |originals| - i
  {
    if i == m {
      FillBrings(tokens, m, originals[m], n);
      StaysBehind(Fill(tokens, m, originals[m]), originals, m + 1, n);
    } else {
      FillKeeps(tokens, i, originals[i], m);
      ComesBack(Fill(tokens, i, originals[i]), originals, i + 1, m, n);
    }
  }

  lemma LabelShowsCore(ns: seq<nat>, i: nat)
    requires i < |ns|
    ensures Contains(Label(ns, i), Core(ns[i]))
  {
    NameShape(ns[i]);
    ContainsIn("__", Core(ns[i]), "__");
  }

  lemma {:induction false} HoleShowsName(ns: seq<nat>, tokens: seq<Token>, i: nat)
    requires Hole(i) in tokens
    ensures Contains(Render(ns, tokens), Label(ns, i))
  {
    if tokens[0] == Hole(i) {
      assert Label(ns, i) <= Render(ns, tokens);
    } else {
      HoleShowsName(ns, tokens[1..], i);
      ContainsBehind(Piece(ns, tokens[0]), Render(ns, tokens[1..]), Label(ns, i));
    }
  }

  lemma {:induction false} ContainsInner(s: string, u: string, v: string)
    requires Contains(s, u) && Contains(u, v)
    ensures Contains(s, v)
  {
    if u <= s {
      assert s == u + s[|u|..];
      ContainsBefore(u, s[|u|..], v);
    } else {
      ContainsInner(s[1..], u, v);
    }
  }

  lemma HoleShowsCore(ns: seq<nat>, tokens: seq<Token>, i: nat)
    requires i < |ns| && Hole(i) in tokens
    ensures Contains(Render(ns, tokens), Core(ns[i]))
  {
    HoleShowsName(ns, tokens, i);
    LabelShowsCore(ns, i);
    ContainsInner(Render(ns, tokens), Label(ns, i), Core(ns[i]));
  }

  // The last placeholder that is missing from the tokens was taken out with a stretch whose own hole is there.
  lemma {:induction false} LastMissing(tokens: seq<Token>, originals: seq<seq<Token>>, k: nat) returns (n: nat)
    requires k <= |originals|
    requires forall i :: k <= i < |originals| ==> Hole(i) in tokens
    requires exists i :: 0 <= i < k && Hole(i) !in tokens
    ensures n < |originals| && Hole(n) !in tokens
    ensures forall i :: n < i < |originals| ==> Hole(i) in tokens
  {
    if Hole(k - 1) in tokens { n := LastMissing(tokens, originals, k - 1); } else { n := k - 1; }
  }

  lemma MissingIsLost(ns: seq<nat>, tokens: seq<Token>, originals: seq<seq<Token>>, text: string)
    requires StandsFor(tokens, originals, text) && Distinct(ns) && |originals| == |ns| && Unmentioned(ns, text)
    requires exists i :: 0 <= i < |originals| && Hole(i) !in tokens
    ensures !Unmentioned(ns, Unmask(ns, Render(ns, tokens), Texts(ns, originals), 0))
    ensures !AllPlain(originals)
  {
    var n := LastMissing(tokens, originals, |originals|);
    UsesIsIn(tokens, n);
    var m := UsedByOne(originals, n);
    UsesIsIn(originals[m], n);
    if !(n < m) { UsesNone(originals[m], 0, m, n); }
    if HolesIn(originals[m], 0, 0) { UsesNone(originals[m], 0, 0, n); }
    ComesBack(tokens, originals, 0, m, n);
    UnmaskIsFillAll(ns, tokens, originals, 0);
    HoleShowsCore(ns, FillAll(tokens, originals, 0), n);
  }

  lemma NoneMissingIsPlain(tokens: seq<Token>, originals: seq<seq<Token>>, text: string)
    requires StandsFor(tokens, originals, text)
    requires forall i :: 0 <= i < |originals| ==> Hole(i) in tokens
    ensures AllPlain(originals)
  {
    forall m | 0 <= m < |originals|
      ensures HolesIn(originals[m], 0, 0)
    {
      forall i | 0 <= i < m
        ensures Uses(originals[m], i) == 0
      {
        UsesIsIn(tokens, i);
        if Uses(originals[m], i) > 0 { UsedInAll(originals, i, m); }
      }
      NoUsesIsPlain(originals[m], m);
    }
  }

  lemma {:induction false} NoUsesIsPlain(tokens: seq<Token>, n: nat)
    requires HolesIn(tokens, 0, n)
    requires forall i :: 0 <= i < n ==> Uses(tokens, i) == 0
    ensures HolesIn(tokens, 0, 0)
  {
    if tokens != [] {
      forall i | 0 <= i < n ensures Uses(tokens[1..], i) == 0 { assert Uses(tokens, i) == 0; }
      assert tokens[0].Hole? ==> Uses(tokens, tokens[0].i) > 0;
      NoUsesIsPlain(tokens[1..], n);
    }
  }
}
