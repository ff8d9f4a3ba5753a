/**
 Masked text seen as characters and placeholders: where a placeholder's name occurs, and what replacing all of
 its occurrences does.
 */
module MaskTokens {
  import opened Placeholders

  const MARKER := "OC_I18N_"

  // Hole(i) is the i-th placeholder made.
  datatype Token = Chr(c: char) | Hole(i: nat)

  // The name of the i-th placeholder, ns being the numbers drawn.
  function Label(ns: seq<nat>, i: nat): string {
    Name(if i < |ns| then ns[i] else 0)
  }

  ghost predicate Distinct(ns: seq<nat>) {
    forall i, j :: 0 <= i < j < |ns| ==> ns[i] != ns[j]
  }

  function Piece(ns: seq<nat>, t: Token): string {
    match t
    case Chr(c) => [c]
    case Hole(i) => Label(ns, i)
  }

  function Render(ns: seq<nat>, tokens: seq<Token>): string {
    if tokens == [] then "" else Piece(ns, tokens[0]) + Render(ns, tokens[1..])
  }

  predicate HolesIn(tokens: seq<Token>, lo: nat, hi: nat) {
    tokens == [] || ((tokens[0].Hole? ==> lo <= tokens[0].i < hi) && HolesIn(tokens[1..], lo, hi))
  }

  lemma {:induction false} RenderAppend(ns: seq<nat>, a: seq<Token>, b: seq<Token>)
    ensures Render(ns, a + b) == Render(ns, a) + Render(ns, b)
  {
    if a == [] {
      assert a + b == b;
    } else {
      assert (a + b)[1..] == a[1..] + b;
      RenderAppend(ns, a[1..], b);
    }
  }

  // ----- strings

  function ReplaceAll(s: string, old_: string, new_: string): string
    requires old_ != ""
  {
    if s == "" then ""
    else if old_ <= s then new_ + ReplaceAll(s[|old_|..], old_, new_)
    else [s[0]] + ReplaceAll(s[1..], old_, new_)
  }

  predicate Contains(s: string, u: string) {
    u <= s || (s != "" && Contains(s[1..], u))
  }

  lemma {:induction false} ContainsIn(a: string, u: string, b: string)
    ensures Contains(a + u + b, u)
  {
    if a == "" {
      assert u <= a + u + b;
    } else {
      assert (a + u + b)[1..] == a[1..] + u + b;
      ContainsIn(a[1..], u, b);
    }
  }

  // ----- where a name can occur

  // What a name has between its underscores.
  function Core(n: nat): string {
    MARKER + Digits(n)
  }

  predicate Spelled(tokens: seq<Token>, s: string) {
    |tokens| >= |s| && forall d :: 0 <= d < |s| ==> tokens[d] == Chr(s[d])
  }

  predicate NoneSpelled(ns: seq<nat>, tokens: seq<Token>) {
    forall i :: 0 <= i < |ns| ==> !Spelled(tokens, Core(ns[i]))
  }

  // No run of characters spells a name that was drawn.
  predicate Clean(ns: seq<nat>, tokens: seq<Token>) {
    tokens == [] || (NoneSpelled(ns, tokens) && Clean(ns, tokens[1..]))
  }

  lemma {:induction false} CleanLater(ns: seq<nat>, tokens: seq<Token>, k: nat)
    requires Clean(ns, tokens) && k < |tokens|
    ensures NoneSpelled(ns, tokens[k..]) && Clean(ns, tokens[k..])
  {
    if k == 0 {
      assert tokens[0..] == tokens;
    } else {
      CleanLater(ns, tokens[1..], k - 1);
      assert tokens[1..][k - 1..] == tokens[k..];
    }
  }

  lemma NameShape(n: nat)
    ensures |Digits(n)| >= 1 && Name(n) == "__" + Core(n) + "__"
    ensures forall k :: 0 <= k < |Name(n)| ==> (Name(n)[k] == 'O' <==> k == 2)
  {
    assert OPEN == "__" + MARKER;
    forall k | 0 <= k < |Name(n)| ensures Name(n)[k] == 'O' <==> k == 2 { NameHasOneO(n, k); }
  }

  // What does not begin with two underscores begins with a character.
  lemma Peel(ns: seq<nat>, tokens: seq<Token>, s: string)
    requires |s| >= 2 && s <= Render(ns, tokens)
    requires !(s[0] == '_' && s[1] == '_')
    ensures tokens != [] && tokens[0] == Chr(s[0]) && s[1..] <= Render(ns, tokens[1..])
  {
    var r := Render(ns, tokens);
    assert r[0] == s[0] && r[1] == s[1];
    match tokens[0]
    case Chr(c) => assert r[1..] == Render(ns, tokens[1..]);
    case Hole(i) => {}
  }

  lemma {:induction false} PeelAll(ns: seq<nat>, tokens: seq<Token>, s: string)
    requires s != "" && s <= Render(ns, tokens)
    requires forall d :: 0 <= d < |s| - 1 ==> !(s[d] == '_' && s[d + 1] == '_')
    ensures |tokens| >= |s| - 1 && forall d :: 0 <= d < |s| - 1 ==> tokens[d] == Chr(s[d])
  {
    if |s| > 1 {
      Peel(ns, tokens, s);
      assert forall d :: 0 <= d < |s| - 1 ==> s[1..][d] == s[d + 1];
      PeelAll(ns, tokens[1..], s[1..]);
      assert forall d :: 0 < d < |s| - 1 ==> tokens[d] == tokens[1..][d - 1] && s[d] == s[1..][d - 1];
    }
  }

  lemma CoreHasNoPair(n: nat)
    ensures var s := Core(n) + "_"; forall d :: 0 <= d < |s| - 1 ==> !(s[d] == '_' && s[d + 1] == '_')
  {
    var s, k := Core(n) + "_", Digits(n);
    assert forall d :: 8 <= d < 8 + |k| ==> s[d] == k[d - 8];
    assert |k| >= 1;
    assert s[..8] == MARKER;
    assert forall d :: 0 <= d < 8 ==> s[d] == MARKER[d];
  }

  // What is left of a name behind its first underscores, one of them or both.
  lemma RestIsSpelled(ns: seq<nat>, tokens: seq<Token>, n: nat, more: nat)
    requires 1 <= more <= 2 && Name(n)[more..] <= Render(ns, tokens)
    ensures 2 - more <= |tokens| && Spelled(tokens[2 - more..], Core(n))
  {
    NameShape(n);
    CoreHasNoPair(n);
    var s := Core(n) + "_";
    if more == 1 {
      assert Name(n)[1..] == "_" + s + "_";
      assert Name(n)[1..][1..] == s + "_";
      Peel(ns, tokens, Name(n)[1..]);
      PrefixOf(s, "_", Render(ns, tokens[1..]));
      PeelAll(ns, tokens[1..], s);
    } else {
      assert Name(n)[2..] == s + "_";
      PrefixOf(s, "_", Render(ns, tokens));
      PeelAll(ns, tokens, s);
      assert tokens[0..] == tokens;
    }
  }

  lemma PrefixOf(a: string, b: string, t: string)
    requires a + b <= t
    ensures a <= t
  {
    assert a == (a + b)[..|a|] == t[..|a|];
  }

  lemma DropFirst(u: string, c: char, r: string)
    requires u != "" && u <= [c] + r
    ensures u[1..] <= r
  {
    assert u[1..] == ([c] + r)[..|u|][1..] == r[..|u| - 1];
  }

  // Where a name can begin inside another: at its front if they are the same, or at its last underscores.
  lemma WhereInName(m: nat, n: nat, rest: string, d: nat)
    requires d < |Name(n)| && Name(m) <= (Name(n) + rest)[d..]
    ensures d == 0 || d >= |Name(n)| - 2
    ensures d == 0 ==> m == n
    ensures d > 0 ==> Name(m)[|Name(n)| - d..] <= rest
  {
    var s := Name(n) + rest;
    NameShape(m);
    NameShape(n);
    assert s[d + 2] == s[d..][2] == Name(m)[2] == 'O';
    assert d + 2 < |Name(n)| ==> s[d + 2] == Name(n)[d + 2];
    if d == 0 {
      assert s[0..] == s;
      NameIsPrefixFree(m, n, rest);
    } else {
      assert s[d..][|Name(n)| - d..] == rest;
    }
  }

  // A name that begins at a character, or inside another name, needs its middle spelled out behind.
  lemma FromCharacter(ns: seq<nat>, tokens: seq<Token>, n: nat)
    requires tokens != [] && tokens[0].Chr? && Name(n) <= Render(ns, tokens)
    ensures |tokens| >= 2 && Spelled(tokens[2..], Core(n))
  {
    NameShape(n);
    DropFirst(Name(n), tokens[0].c, Render(ns, tokens[1..]));
    RestIsSpelled(ns, tokens[1..], n, 1);
    assert tokens[1..][1..] == tokens[2..];
  }

  lemma FromHole(ns: seq<nat>, tokens: seq<Token>, n: nat, d: nat)
    requires tokens != [] && tokens[0].Hole? && 0 < d < |Piece(ns, tokens[0])|
    requires Name(n) <= Render(ns, tokens)[d..]
    ensures Spelled(tokens[1..], Core(n)) || (|tokens| >= 2 && Spelled(tokens[2..], Core(n)))
  {
    var m, j := if tokens[0].i < |ns| then ns[tokens[0].i] else 0, tokens[0].i;
    WhereInName(n, m, Render(ns, tokens[1..]), d);
    RestIsSpelled(ns, tokens[1..], n, |Name(m)| - d);
    assert tokens[1..][1..] == tokens[2..] || |tokens| < 2;
    assert tokens[1..][0..] == tokens[1..];
  }

  lemma SpelledIsNotClean(ns: seq<nat>, tokens: seq<Token>, k: nat, i: nat)
    requires Clean(ns, tokens) && k <= |tokens| && i < |ns|
    ensures !Spelled(tokens[k..], Core(ns[i]))
  {
    if k < |tokens| { CleanLater(ns, tokens, k); }
  }

  // In clean text a name occurs only where its hole is.
  lemma OnlyAtHole(ns: seq<nat>, tokens: seq<Token>, i: nat, d: nat)
    requires Distinct(ns) && i < |ns| && HolesIn(tokens, 0, |ns|)
    requires tokens != [] && Clean(ns, tokens) && d < |Piece(ns, tokens[0])|
    requires Label(ns, i) <= Render(ns, tokens)[d..]
    ensures d == 0 && tokens[0] == Hole(i)
  {
    SpelledIsNotClean(ns, tokens, 1, i);
    if |tokens| >= 2 { SpelledIsNotClean(ns, tokens, 2, i); }
    match tokens[0]
    case Chr(c) =>
      assert Render(ns, tokens)[0..] == Render(ns, tokens);
      FromCharacter(ns, tokens, ns[i]);
    case Hole(j) =>
      if d > 0 { FromHole(ns, tokens, ns[i], d); }
      WhereInName(ns[i], ns[j], Render(ns, tokens[1..]), d);
  }

  // ----- replacing a name replaces its holes

  function Fill(tokens: seq<Token>, i: nat, original: seq<Token>): seq<Token> {
    if tokens == [] then []
    else (if tokens[0] == Hole(i) then original else [tokens[0]]) + Fill(tokens[1..], i, original)
  }

  // Replacement passes over d characters in which no name begins.
  lemma {:induction false} ReplaceSkips(p: string, r: string, u: string, v: string)
    requires u != ""
    requires forall d :: 0 <= d < |p| ==> !(u <= (p + r)[d..])
    ensures ReplaceAll(p + r, u, v) == p + ReplaceAll(r, u, v)
  {
    if p == "" {
      assert p + r == r;
      assert p + ReplaceAll(r, u, v) == ReplaceAll(r, u, v);
    } else {
      assert (p + r)[0..] == p + r;
      assert (p + r)[1..] == p[1..] + r;
      forall d | 0 <= d < |p[1..]| ensures !(u <= (p[1..] + r)[d..]) {
        assert (p + r)[d + 1..] == (p[1..] + r)[d..];
      }
      ReplaceSkips(p[1..], r, u, v);
      assert [p[0]] + (p[1..] + ReplaceAll(r, u, v)) == p + ReplaceAll(r, u, v);
    }
  }

  lemma {:induction false} ReplaceIsFill(ns: seq<nat>, tokens: seq<Token>, i: nat, original: seq<Token>)
    requires Distinct(ns) && i < |ns| && HolesIn(tokens, 0, |ns|) && Clean(ns, tokens)
    ensures Label(ns, i) != ""
    ensures ReplaceAll(Render(ns, tokens), Label(ns, i), Render(ns, original)) == Render(ns, Fill(tokens, i, original))
  {
    if tokens != [] {
      ReplaceIsFill(ns, tokens[1..], i, original);
      var r := Render(ns, tokens[1..]);
      var filled := Fill(tokens[1..], i, original);
      if tokens[0] == Hole(i) {
        RenderAppend(ns, original, filled);
      } else {
        var p := Piece(ns, tokens[0]);
        forall d | 0 <= d < |p| ensures !(Label(ns, i) <= (p + r)[d..]) {
          if Label(ns, i) <= (p + r)[d..] { OnlyAtHole(ns, tokens, i, d); }
        }
        ReplaceSkips(p, r, Label(ns, i), Render(ns, original));
        assert ([tokens[0]] + filled)[1..] == filled;
      }
    }
  }

  // ----- a name is contained exactly if its hole is there

  lemma {:induction false} ContainsSkips(p: string, r: string, u: string)
    requires forall d :: 0 <= d < |p| ==> !(u <= (p + r)[d..])
    ensures Contains(p + r, u) == Contains(r, u)
  {
    if p == "" {
      assert p + r == r;
    } else {
      assert (p + r)[0..] == p + r;
      assert (p + r)[1..] == p[1..] + r;
      forall d | 0 <= d < |p[1..]| ensures !(u <= (p[1..] + r)[d..]) {
        assert (p + r)[d + 1..] == (p[1..] + r)[d..];
      }
      ContainsSkips(p[1..], r, u);
    }
  }

  lemma {:induction false} ContainsIffHole(ns: seq<nat>, tokens: seq<Token>, i: nat)
    requires Distinct(ns) && i < |ns| && HolesIn(tokens, 0, |ns|) && Clean(ns, tokens)
    ensures Contains(Render(ns, tokens), Label(ns, i)) <==> Hole(i) in tokens
  {
    if tokens != [] {
      var r := Render(ns, tokens[1..]);
      if tokens[0] == Hole(i) {
        assert Label(ns, i) <= Label(ns, i) + r;
      } else {
        ContainsIffHole(ns, tokens[1..], i);
        var p := Piece(ns, tokens[0]);
        forall d | 0 <= d < |p| ensures !(Label(ns, i) <= (p + r)[d..]) {
          if Label(ns, i) <= (p + r)[d..] { OnlyAtHole(ns, tokens, i, d); }
        }
        ContainsSkips(p, r, Label(ns, i));
      }
    }
  }
}
