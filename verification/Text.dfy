/** Strings as the rest of the model uses them: splitting, joining, trimming and searching. */
module Text {

  datatype Option<+T> = None | Some(value: T)

  datatype Result<+T, +E> = Ok(value: T) | Err(error: E)

  function Min(a: int, b: int): int {
    if a <= b then a else b
  }

  lemma Associates<T>(x: seq<T>, y: seq<T>, z: seq<T>)
    ensures x + y + z == x + (y + z)
  {
  }

  // ----- white space and trimming, as ECMAScript's String.prototype.trim defines them

  predicate IsSpace(c: char) {
    || '\t' <= c <= '\r' || c == ' ' || c == '\U{00A0}' || c == '\U{1680}' || '\U{2000}' <= c <= '\U{200A}'
    || c == '\U{2028}' || c == '\U{2029}' || c == '\U{202F}' || c == '\U{205F}' || c == '\U{3000}' || c == '\U{FEFF}'
  }

  function TrimStart(s: string): string {
    if s != "" && IsSpace(s[0]) then TrimStart(s[1..]) else s
  }

  function TrimEnd(s: string): string {
    if s != "" && IsSpace(s[|s| - 1]) then TrimEnd(s[..|s| - 1]) else s
  }

  function Trim(s: string): string {
    TrimStart(TrimEnd(s))
  }

  lemma TrimKeepsSolid(s: string)
    requires s != "" && !IsSpace(s[0]) && !IsSpace(s[|s| - 1])
    ensures Trim(s) == s
  {
  }

  // ----- what trimming leaves

  predicate IsWhite(s: string) {
    forall i :: 0 <= i < |s| ==> IsSpace(s[i])
  }

  lemma {:induction false} TrimEndIgnores(s: string, w: string)
    requires IsWhite(w)
    ensures TrimEnd(s + w) == TrimEnd(s)
  {
    if w == "" {
      assert s + w == s;
    } else {
      assert (s + w)[..|s + w| - 1] == s + w[..|w| - 1];
      TrimEndIgnores(s, w[..|w| - 1]);
    }
  }

  lemma {:induction false} TrimStartIgnores(w: string, s: string)
    requires IsWhite(w)
    ensures TrimStart(w + s) == TrimStart(s)
  {
    if w == "" {
      assert w + s == s;
    } else {
      assert (w + s)[1..] == w[1..] + s;
      TrimStartIgnores(w[1..], s);
    }
  }

  lemma {:induction false} TrimEndSplits(s: string) returns (w: string)
    ensures s == TrimEnd(s) + w && IsWhite(w)
    ensures TrimEnd(s) != "" ==> !IsSpace(TrimEnd(s)[|TrimEnd(s)| - 1])
  {
    w := "";
    if s != "" && IsSpace(s[|s| - 1]) {
      var v := TrimEndSplits(s[..|s| - 1]);
      w := v + [s[|s| - 1]];
      assert s == TrimEnd(s) + w;
    } else {
      assert s == TrimEnd(s) + w;
    }
  }

  lemma {:induction false} TrimStartSplits(s: string) returns (w: string)
    ensures s == w + TrimStart(s) && IsWhite(w)
  {
    w := "";
    if s != "" && IsSpace(s[0]) {
      var v := TrimStartSplits(s[1..]);
      w := [s[0]] + v;
    }
  }

  predicate EndsWith(s: string, suffix: string) {
    |suffix| <= |s| && s[|s| - |suffix|..] == suffix
  }

  // ----- lines

  // The pieces of `s` between newlines; there is always at least one.
  function Lines(s: string): (ls: seq<string>)
    ensures |ls| > 0
    ensures forall l :: l in ls ==> '\n' !in l
  {
    if s == "" then [""]
    else
      var rest := Lines(s[1..]);
      if s[0] == '\n' then [""] + rest else [[s[0]] + rest[0]] + rest[1..]
  }

  function JoinLines(ls: seq<string>): string {
    if ls == [] then ""
    else if |ls| == 1 then ls[0]
    else ls[0] + "\n" + JoinLines(ls[1..])
  }

  lemma {:induction false} JoinOfLines(s: string)
    ensures JoinLines(Lines(s)) == s
  {
    if s != "" {
      JoinOfLines(s[1..]);
      var rest := Lines(s[1..]);
      if s[0] == '\n' {
        assert ([""] + rest)[1..] == rest;
      } else {
        var ls := [[s[0]] + rest[0]] + rest[1..];
        assert ls[1..] == rest[1..];
        assert s == [s[0]] + s[1..];
      }
    }
  }

  lemma {:induction false} LinesOfPrefixed(l: string, s: string)
    requires '\n' !in l
    ensures Lines(l + "\n" + s) == [l] + Lines(s)
    ensures Lines(l) == [l]
  {
    if l == "" {
      assert (l + "\n" + s)[1..] == s;
    } else {
      LinesOfPrefixed(l[1..], s);
      assert (l + "\n" + s)[1..] == l[1..] + "\n" + s;
      assert l == [l[0]] + l[1..];
    }
  }

  lemma {:induction false} LinesOfJoin(ls: seq<string>)
    requires ls != []
    requires forall l :: l in ls ==> '\n' !in l
    ensures Lines(JoinLines(ls)) == ls
  {
    LinesOfPrefixed(ls[0], JoinLines(ls[1..]));
    if |ls| > 1 {
      LinesOfJoin(ls[1..]);
      assert ls == [ls[0]] + ls[1..];
    } else {
      assert ls == [ls[0]];
    }
  }
}
