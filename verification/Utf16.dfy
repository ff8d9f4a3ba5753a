/** Strings as UTF-16 code units (section 2 of RFC 2781), and slicing that never cuts a surrogate pair in two. */
module Utf16 {
  import opened Text

  type Unit = u: int | 0 <= u < 0x10000

  type Units = seq<Unit>

  predicate IsHigh(u: Unit) {
    0xD800 <= u <= 0xDBFF
  }

  predicate IsLow(u: Unit) {
    0xDC00 <= u <= 0xDFFF
  }

  // The two units that section 2.1 of RFC 2781 gives for a character above 0xFFFF.
  function FirstUnit(c: int): int {
    0xD800 + (c - 0x10000) / 0x400
  }

  function SecondUnit(c: int): int {
    0xDC00 + (c - 0x10000) % 0x400
  }

  predicate IsSupplementary(c: int) {
    0x10000 <= c <= 0x10FFFF
  }

  // High surrogates are the first units of such characters, low ones the second, and any two of them make a pair.
  lemma SurrogatesIff(u: Unit, v: Unit)
    ensures IsHigh(u) && IsLow(v) <==> exists c :: IsSupplementary(c) && FirstUnit(c) == u && SecondUnit(c) == v
  {
    if IsHigh(u) && IsLow(v) {
      var c := 0x10000 + (u - 0xD800) * 0x400 + (v - 0xDC00);
      assert IsSupplementary(c) && FirstUnit(c) == u && SecondUnit(c) == v;
    }
  }

  // ----- well-formed text

  // What section 2.2 of RFC 2781 can decode: single units that are no surrogates, and pairs.
  predicate Decodable(s: Units) {
    if s == [] then true
    else if IsHigh(s[0]) then |s| >= 2 && IsLow(s[1]) && Decodable(s[2..])
    else !IsLow(s[0]) && Decodable(s[1..])
  }

  predicate Lone(s: Units, i: nat)
    requires i < |s|
  {
    || (IsHigh(s[i]) && (i + 1 == |s| || !IsLow(s[i + 1])))
    || (IsLow(s[i]) && (i == 0 || !IsHigh(s[i - 1])))
  }

  predicate WellFormed(s: Units) {
    forall i :: 0 <= i < |s| ==> !Lone(s, i)
  }

  lemma LoneInRest(s: Units, k: nat, i: nat)
    requires k + i < |s| && (k == 0 || !IsHigh(s[k - 1]) || !IsLow(s[k]))
    ensures Lone(s[k..], i) <==> Lone(s, k + i)
  {
  }

  lemma {:induction false} DecodableIffWellFormed(s: Units)
    ensures Decodable(s) <==> WellFormed(s)
  {
    if s != [] {
      var k := if IsHigh(s[0]) && |s| >= 2 && IsLow(s[1]) then 2 else 1;
      DecodableIffWellFormed(s[k..]);
      if k == 2 {
        assert !Lone(s, 0) && !Lone(s, 1);
      } else {
        assert Lone(s, 0) <==> IsHigh(s[0]) || IsLow(s[0]);
      }
      if k == 2 || !IsHigh(s[0]) {
        forall i | 0 <= i < |s[k..]| ensures Lone(s[k..], i) <==> Lone(s, k + i) { LoneInRest(s, k, i); }
        assert WellFormed(s[k..]) <==> forall j :: k <= j < |s| ==> !Lone(s, j) by {
          assert forall j :: k <= j < |s| ==> (Lone(s, j) <==> Lone(s[k..], j - k));
        }
      }
    }
  }

  // ----- cuts

  predicate SplitsPair(s: Units, p: int) {
    0 < p < |s| && IsHigh(s[p - 1]) && IsLow(s[p])
  }

  // Cut at places that split no pair, a text has exactly the lone surrogates it had there before.
  lemma CleanCutsKeepLone(s: Units, from_: nat, end: nat, i: nat)
    requires from_ <= end <= |s| && i < end - from_
    requires !SplitsPair(s, from_) && !SplitsPair(s, end)
    ensures Lone(s[from_..end], i) <==> Lone(s, from_ + i)
  {
  }

  // A prefix of well-formed text is well formed exactly if it splits no pair.
  lemma PrefixWellFormedIff(s: Units, k: nat)
    requires WellFormed(s) && k <= |s|
    ensures WellFormed(s[..k]) <==> !SplitsPair(s, k)
  {
    if SplitsPair(s, k) {
      assert Lone(s[..k], k - 1);
    } else {
      assert s[..k] == s[0..k];
      forall i | 0 <= i < k ensures !Lone(s[..k], i) { CleanCutsKeepLone(s, 0, k, i); }
    }
  }

  // ----- the two functions

  // A position counted from the end when negative, kept inside the text.
  function Clamp(n: int, len: nat): (r: nat)
    ensures r <= len
  {
    if n < 0 then (if len + n > 0 then len + n else 0) else if n < len then n else len
  }

  function Max(a: nat, b: nat): nat {
    if a <= b then b else a
  }

  // The part between the two positions that begins and ends at no split pair.
  function Inner(s: Units, lo: nat, hi: nat): Units
    requires lo <= hi <= |s|
  {
    var a := if SplitsPair(s, lo) then lo + 1 else lo;
    var b := if SplitsPair(s, hi) then hi - 1 else hi;
    if a <= b then s[a..b] else []
  }

  // The part between two positions given in either order.
  function Sliced(s: Units, start: int, end: Option<int>): Units {
    var p, q := Clamp(start, |s|), if end.None? then |s| else Clamp(end.value, |s|);
    Inner(s, Min(p, q), Max(p, q))
  }

  method SliceUtf16Safe(input: Units, start: int, end: Option<int>) returns (r: Units)
    ensures r == Sliced(input, start, end)
  {
    var len := |input|;
    var lo := Clamp(start, len);
    var hi := if end.None? then len else Clamp(end.value, len);
    if hi < lo {
      lo, hi := hi, lo;
    }
    r := SliceBetween(input, lo, hi);
  }

  method SliceBetween(input: Units, lo: nat, hi: nat) returns (r: Units)
    requires lo <= hi <= |input|
    ensures r == Inner(input, lo, hi)
  {
    var first, end := lo, hi;
    if 0 < first < |input| {
      if IsLow(input[first]) && IsHigh(input[first - 1]) {
        first := first + 1;
      }
    }
    if 0 < end < |input| {
      if IsHigh(input[end - 1]) && IsLow(input[end]) {
        end := end - 1;
      }
    }
    // String.prototype.slice gives nothing when the end is before the start.
    r := if first <= end then input[first..end] else [];
  }

  method TruncateUtf16Safe(input: Units, maxLen: real) returns (r: Units)
    ensures r == Truncated(input, maxLen)
  {
    var limit: nat := if maxLen.Floor > 0 then maxLen.Floor else 0;
    if |input| <= limit {
      return input;
    }
    r := SliceUtf16Safe(input, 0, Some(limit));
  }

  function Limit(maxLen: real): nat {
    if maxLen.Floor > 0 then maxLen.Floor else 0
  }

  function Truncated(input: Units, maxLen: real): Units {
    if |input| <= Limit(maxLen) then input else Inner(input, 0, Limit(maxLen))
  }

  // ----- what they promise

  function Distance(a: int, b: int): nat {
    if a <= b then b - a else a - b
  }

  // A position stands for the place in the text nearest to the one asked for.
  lemma ClampIsNearest(n: int, s: Units, q: nat)
    requires q <= |s|
    ensures var wanted := if n < 0 then |s| + n else n;
            Distance(Clamp(n, |s|), wanted) <= Distance(q, wanted)
  {
  }

  // The order of the positions does not matter, an end past the text is the end of the text, and a start in front of
  // the text is its beginning; between its two ends, a text is its own slice.
  lemma SlicedEitherWay(s: Units, p: int, q: int)
    ensures Sliced(s, p, Some(q)) == Sliced(s, q, Some(p))
    ensures q >= |s| ==> Sliced(s, p, Some(q)) == Sliced(s, p, None)
    ensures q + |s| <= 0 ==> Sliced(s, p, Some(q)) == Sliced(s, 0, Some(p))
    ensures (p == 0 || p + |s| <= 0) && q >= |s| ==> Sliced(s, p, Some(q)) == s
  {
    ClampIsNearest(p, s, 0);
  }

  // Positions inside the text that split no pair are where the slice begins and ends.
  lemma SlicedAt(s: Units, p: nat, q: nat)
    requires p <= q <= |s| && !SplitsPair(s, p) && !SplitsPair(s, q)
    ensures Sliced(s, p, Some(q)) == s[p..q]
    ensures p < |s| && q < |s| ==> Sliced(s, p - |s|, Some(q - |s|)) == s[p..q]
  {
  }

  // Of all parts of the text between the two positions that split no pair, the slice is the greatest, and it is one.
  lemma InnerIsGreatest(s: Units, lo: nat, hi: nat) returns (a: nat, b: nat)
    requires lo <= hi <= |s|
    ensures lo <= a <= b <= hi && Inner(s, lo, hi) == s[a..b]
    ensures Inner(s, lo, hi) != [] ==> !SplitsPair(s, a) && !SplitsPair(s, b)
    ensures forall c, d :: lo <= c < d <= hi && !SplitsPair(s, c) && !SplitsPair(s, d) ==> a <= c && d <= b
  {
    a := if SplitsPair(s, lo) then lo + 1 else lo;
    b := if SplitsPair(s, hi) then hi - 1 else hi;
    if a > b { a, b := lo, lo; }
  }

  // No slice makes a surrogate lone that was not, or hides one that was.
  lemma SliceKeepsLone(s: Units, lo: nat, hi: nat)
    requires lo <= hi <= |s|
    ensures WellFormed(Inner(s, lo, hi)) <==>
              forall k :: lo <= k < hi && !(k == lo && SplitsPair(s, lo)) && !(k == hi - 1 && SplitsPair(s, hi)) ==>
                !Lone(s, k)
  {
    var a := if SplitsPair(s, lo) then lo + 1 else lo;
    var b := if SplitsPair(s, hi) then hi - 1 else hi;
    if a <= b {
      forall i | 0 <= i < b - a ensures Lone(s[a..b], i) <==> Lone(s, a + i) { CleanCutsKeepLone(s, a, b, i); }
      assert forall k :: a <= k < b ==> (Lone(s, k) <==> Lone(s[a..b], k - a));
    }
  }

  lemma SliceOfWellFormed(s: Units, lo: nat, hi: nat)
    requires lo <= hi <= |s| && WellFormed(s)
    ensures WellFormed(Inner(s, lo, hi))
  {
    SliceKeepsLone(s, lo, hi);
  }

  // A length within the limit, which may be fractional or negative.
  predicate Fits(k: nat, maxLen: real) {
    k == 0 || k as real <= maxLen
  }

  lemma FitsIff(k: nat, maxLen: real)
    ensures Fits(k, maxLen) <==> k <= Limit(maxLen)
  {
  }

  // Truncation gives the longest prefix within the limit that splits no pair.
  lemma TruncatedIsLongest(s: Units, maxLen: real)
    ensures var r := Truncated(s, maxLen);
            && r <= s && Fits(|r|, maxLen) && !SplitsPair(s, |r|)
            && forall k: nat :: k <= |s| && Fits(k, maxLen) && !SplitsPair(s, k) ==> k <= |r|
  {
    FitsIff(|s|, maxLen);
    FitsIff(|Truncated(s, maxLen)|, maxLen);
    forall k: nat | k <= |s| && Fits(k, maxLen) && !SplitsPair(s, k) ensures k <= |Truncated(s, maxLen)| {
      FitsIff(k, maxLen);
    }
  }

  // Of well-formed text, that is the longest well-formed prefix within the limit.
  lemma TruncatedIsWellFormed(s: Units, maxLen: real)
    requires WellFormed(s)
    ensures WellFormed(Truncated(s, maxLen))
    ensures forall k: nat :: k <= |s| && Fits(k, maxLen) && WellFormed(s[..k]) ==> k <= |Truncated(s, maxLen)|
  {
    var r := Truncated(s, maxLen);
    TruncatedIsLongest(s, maxLen);
    PrefixWellFormedIff(s, |r|);
    assert r == s[..|r|];
    forall k: nat | k <= |s| && Fits(k, maxLen) && WellFormed(s[..k]) ensures k <= |r| { PrefixWellFormedIff(s, k); }
  }

  // A negative position counts from the end: where it splits no pair, the slices on its two sides are the text's
  // last k units and the rest, and they put together to the text.
  lemma NegativeCountsFromEnd(s: Units, k: int)
    requires 0 < k <= |s| && !SplitsPair(s, |s| - k)
    ensures var p := Clamp(-k, |s|);
            && |Inner(s, p, |s|)| == k && Inner(s, 0, p) + Inner(s, p, |s|) == s
  {
    var p := |s| - k;
    assert Inner(s, 0, p) == s[0..p] && Inner(s, p, |s|) == s[p..|s|];
    assert s[0..p] + s[p..|s|] == s;
  }
}
