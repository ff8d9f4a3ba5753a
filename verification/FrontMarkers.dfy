/** The markers around the values of the front matter, and how a value is found between them. */
module FrontMarkers {
  import opened GoText
  import opened Placeholders
  import opened TaggedDocument
  import opened Text

  datatype Field = Summary | Title | ReadWhen

  datatype Mark = Mark(field: Field, index: nat)

  function FieldName(field: Field): string {
    match field
    case Summary => "SUMMARY"
    case Title => "TITLE"
    case ReadWhen => "READ_WHEN"
  }

  const FM := "[[[FM_"

  function Start(m: Mark): string {
    FM + FieldName(m.field) + "_" + Digits(m.index) + "_START" + "]]]"
  }

  function End(m: Mark): string {
    FM + FieldName(m.field) + "_" + Digits(m.index) + "_END" + "]]]"
  }

  lemma SummaryMark()
    ensures Start(Mark(Summary, 0)) == "[[[FM_SUMMARY_0_START]]]" && End(Mark(Summary, 0)) == "[[[FM_SUMMARY_0_END]]]"
  {
    assert FM + "SUMMARY" + "_" + "0" == "[[[FM_SUMMARY_0";
  }

  lemma TitleMark()
    ensures Start(Mark(Title, 0)) == "[[[FM_TITLE_0_START]]]" && End(Mark(Title, 0)) == "[[[FM_TITLE_0_END]]]"
  {
    assert FM + "TITLE" + "_" + "0" == "[[[FM_TITLE_0";
  }

  lemma SecondItemMark()
    ensures Start(Mark(ReadWhen, 1)) == "[[[FM_READ_WHEN_1_START]]]" && End(Mark(ReadWhen, 1)) == "[[[FM_READ_WHEN_1_END]]]"
  {
    assert FM + "READ_WHEN" + "_" + "1" == "[[[FM_READ_WHEN_1";
  }

  // ----- what a marker looks like

  // Three brackets open in front and nowhere else, three close at the end and nowhere else.
  predicate IsMarker(u: string) {
    && |u| > 6
    && (forall k :: 0 <= k < |u| ==> (u[k] == '[' <==> k < 3))
    && (forall k :: 0 <= k < |u| ==> (u[k] == ']' <==> k >= |u| - 3))
    && '\n' !in u
  }

  // Text with neither brackets nor line ends.
  predicate IsFlat(s: string) {
    forall k :: 0 <= k < |s| ==> s[k] != '[' && s[k] != ']' && s[k] != '\n'
  }

  lemma Between(s: string)
    requires IsFlat(s) && s != ""
    ensures IsMarker("[[[" + s + "]]]")
  {
    var u := "[[[" + s + "]]]";
    assert forall k :: 3 <= k < |u| - 3 ==> u[k] == s[k - 3];
  }

  lemma FlatTogether(s: string, t: string)
    requires IsFlat(s) && IsFlat(t)
    ensures IsFlat(s + t)
  {
  }

  lemma MarkerIsMarker(name: string, digits: string, side: string)
    requires IsFlat(name) && IsFlat(digits) && IsFlat(side)
    ensures IsMarker(FM + name + "_" + digits + side + "]]]")
  {
    FlatTogether(name, "_");
    FlatTogether(name + "_", digits);
    FlatTogether(name + "_" + digits, side);
    FlatTogether("FM_", name + "_" + digits + side);
    Between("FM_" + (name + "_" + digits + side));
    assert FM + name + "_" + digits + side + "]]]" == "[[[" + ("FM_" + (name + "_" + digits + side)) + "]]]";
  }

  lemma MarksAreMarkers(m: Mark)
    ensures IsMarker(Start(m)) && IsMarker(End(m))
  {
    MarkerIsMarker(FieldName(m.field), Digits(m.index), "_START");
    MarkerIsMarker(FieldName(m.field), Digits(m.index), "_END");
  }

  lemma Cancels(x: string, y: string, z: string, w: string)
    requires x + y + w == x + z + w
    ensures y == z
  {
    assert (x + y + w)[|x|..|x| + |y|] == y && (x + z + w)[|x|..|x| + |z|] == z;
  }

  // The names of the fields are told apart by their first letters.
  lemma FirstLetters(f: Field, g: Field, x: string, y: string)
    requires FM + FieldName(f) + x == FM + FieldName(g) + y
    ensures f == g
  {
    var u := FM + FieldName(f) + x;
    assert u[6] == FieldName(f)[0] && u[6] == FieldName(g)[0];
  }

  lemma Regroups(a: string, b: string, c: string, d: string, e: string, f: string)
    ensures a + b + c + d + e + f == a + b + (c + d + (e + f))
    ensures a + b + c + d + e + f == a + b + c + d + (e + f)
  {
  }

  lemma SameMark(m: Mark, n: Mark)
    requires Start(m) == Start(n)
    ensures m == n
  {
    var x, y, d, e := FieldName(m.field), FieldName(n.field), Digits(m.index), Digits(n.index);
    Regroups(FM, x, "_", d, "_START", "]]]");
    Regroups(FM, y, "_", e, "_START", "]]]");
    FirstLetters(m.field, n.field, "_" + d + ("_START" + "]]]"), "_" + e + ("_START" + "]]]"));
    Cancels(FM + x + "_", d, e, "_START" + "]]]");
    ValueOfDigits(m.index);
    ValueOfDigits(n.index);
  }

  lemma MarksDiffer(m: Mark, n: Mark)
    ensures Start(m) == Start(n) ==> m == n
    ensures Start(m) != End(n)
  {
    if Start(m) == Start(n) { SameMark(m, n); }
    var s, e := Start(m), End(n);
    assert s[|s| - 4] == 'T' && e[|e| - 4] == 'D';
  }

  // ----- where a text is found

  predicate OccursAt(s: string, u: string, p: nat) {
    p + |u| <= |s| && forall j :: 0 <= j < |u| ==> s[p + j] == u[j]
  }

  lemma PrefixIffOccurs(s: string, u: string)
    ensures u <= s <==> OccursAt(s, u, 0)
  {
  }

  lemma OccursBehind(s: string, u: string, p: nat)
    requires s != ""
    ensures OccursAt(s[1..], u, p) <==> OccursAt(s, u, p + 1)
  {
  }

  // As far as p goes, r is where the first occurrence is.
  predicate IsFirst(s: string, u: string, r: Option<nat>, p: nat) {
    match r
    case None => u != "" ==> !OccursAt(s, u, p)
    case Some(i) => OccursAt(s, u, i) && (p < i ==> !OccursAt(s, u, p))
  }

  lemma FirstBehind(s: string, u: string, r: Option<nat>, p: nat, q: nat)
    requires s != "" && !OccursAt(s, u, 0) && IsFirst(s[1..], u, r, q) && q == if p == 0 then 0 else p - 1
    ensures IsFirst(s, u, match r case None => None case Some(i) => Some(i + 1), p)
  {
    OccursBehind(s, u, q);
    if r.Some? { OccursBehind(s, u, r.value); }
  }

  lemma {:induction false} FoundIsFirst(s: string, u: string, p: nat)
    ensures IsFirst(s, u, Index(s, u), p)
  {
    PrefixIffOccurs(s, u);
    if !(u <= s) && s != "" {
      var q := if p == 0 then 0 else p - 1;
      FoundIsFirst(s[1..], u, q);
      FirstBehind(s, u, Index(s[1..], u), p, q);
    }
  }

  lemma {:induction false} FirstIsFound(s: string, u: string, i: nat)
    requires OccursAt(s, u, i) && forall p :: 0 <= p < i ==> !OccursAt(s, u, p)
    ensures Index(s, u) == Some(i)
  {
    FoundIsFirst(s, u, i);
    if Index(s, u).Some? { FoundIsFirst(s, u, Index(s, u).value); }
    if u == "" { assert OccursAt(s, u, 0); }
  }

  // ----- markers do not overlap

  lemma OpensAt(s: string, u: string, p: nat, k: nat)
    requires IsMarker(u) && OccursAt(s, u, p) && p <= k < p + |u|
    ensures s[k] == '[' <==> k < p + 3
  {
    assert s[p + (k - p)] == u[k - p];
  }

  lemma ClosesAt(s: string, u: string, p: nat, k: nat)
    requires IsMarker(u) && OccursAt(s, u, p) && p <= k < p + |u|
    ensures s[k] == ']' <==> k >= p + |u| - 3
  {
    assert s[p + (k - p)] == u[k - p];
  }

  lemma OneMarkerAt(s: string, u: string, v: string, p: nat)
    requires IsMarker(u) && IsMarker(v) && OccursAt(s, u, p) && OccursAt(s, v, p)
    ensures u == v
  {
    var k := p + Min(|u|, |v|) - 3;
    ClosesAt(s, u, p, k);
    ClosesAt(s, v, p, k);
    forall j | 0 <= j < |u| ensures u[j] == v[j] { assert s[p + j] == u[j]; }
  }

  lemma OverlapIsSame(s: string, u: string, v: string, p: nat, q: nat)
    requires IsMarker(u) && IsMarker(v) && OccursAt(s, u, p) && OccursAt(s, v, q) && p <= q < p + |u|
    ensures p == q
  {
    OpensAt(s, v, q, q);
    OpensAt(s, u, p, q);
    OpensAt(s, v, q, q + 2);
    OpensAt(s, u, p, q + 2);
  }

  // What occurs around a marker is before it, behind it, or it.
  lemma OccursAround(a: string, v: string, w: string, u: string, p: nat)
    requires IsMarker(u) && IsMarker(v) && OccursAt(a + v + w, u, p)
    ensures OccursAt(a, u, p) || (p == |a| && u == v) || (p >= |a| + |v| && OccursAt(w, u, p - |a| - |v|))
  {
    var s := a + v + w;
    assert OccursAt(s, v, |a|);
    if p + |u| <= |a| {
      assert OccursAt(a, u, p);
    } else if p >= |a| + |v| {
      assert OccursAt(w, u, p - |a| - |v|);
    } else {
      if p <= |a| { OverlapIsSame(s, u, v, p, |a|); } else { OverlapIsSame(s, v, u, |a|, p); }
      OneMarkerAt(s, u, v, p);
    }
  }

  lemma NotFoundAround(a: string, v: string, w: string, u: string)
    requires IsMarker(u) && IsMarker(v) && u != v && Index(a, u).None? && Index(w, u).None?
    ensures Index(a + v + w, u).None?
  {
    if Index(a + v + w, u).Some? {
      var p := Index(a + v + w, u).value;
      FoundIsFirst(a + v + w, u, p);
      OccursAround(a, v, w, u, p);
      FoundIsFirst(a, u, p);
      if p >= |a| + |v| { FoundIsFirst(w, u, p - |a| - |v|); }
    }
  }

  lemma FoundBetween(a: string, u: string, w: string)
    requires IsMarker(u) && Index(a, u).None?
    ensures Index(a + u + w, u) == Some(|a|)
  {
    forall p | 0 <= p < |a| ensures !OccursAt(a + u + w, u, p) {
      if OccursAt(a + u + w, u, p) {
        OccursAround(a, u, w, u, p);
        FoundIsFirst(a, u, p);
      }
    }
    FirstIsFound(a + u + w, u, |a|);
  }

  lemma OccursInFront(s: string, w: string, u: string, p: nat)
    requires p + |u| <= |s|
    ensures OccursAt(s + w, u, p) <==> OccursAt(s, u, p)
  {
  }

  lemma StillFound(s: string, w: string, u: string)
    requires Index(s, u).Some?
    ensures Index(s + w, u) == Index(s, u)
  {
    var i := Index(s, u).value;
    FoundIsFirst(s, u, i);
    OccursInFront(s, w, u, i);
    forall p | 0 <= p < i ensures !OccursAt(s + w, u, p) {
      FoundIsFirst(s, u, p);
      OccursInFront(s, w, u, p);
    }
    FirstIsFound(s + w, u, i);
  }

  // A line without the marker is passed over.
  lemma {:induction false} LinePassed(a: string, w: string, u: string)
    requires IsMarker(u) && Index(a, u).None?
    ensures match Index(w, u)
            case None => Index(a + "\n" + w, u).None?
            case Some(i) => Index(a + "\n" + w, u) == Some(|a| + 1 + i)
  {
    var s := a + "\n" + w;
    PrefixIffOccurs(s, u);
    if a == "" {
      assert s[0] == '\n' && s[1..] == w;
    } else {
      assert s[1..] == a[1..] + "\n" + w;
      LinePassed(a[1..], w, u);
      if u <= s { BeforeLineEnd(a, w, u); }
    }
  }

  lemma BeforeLineEnd(a: string, w: string, u: string)
    requires IsMarker(u) && u <= a + "\n" + w
    ensures u <= a
  {
    var s := a + "\n" + w;
    assert s[|a|] == '\n' && forall k :: 0 <= k < |u| ==> u[k] == s[k];
    assert u == s[..|u|];
  }

  lemma {:induction false} NotInFlat(s: string, u: string)
    requires IsFlat(s) && IsMarker(u)
    ensures Index(s, u).None?
  {
    assert u[0] == '[';
    if s != "" { NotInFlat(s[1..], u); }
  }

  // ----- cutting a value out

  datatype ExtractError = MissingMarker(marker: string)

  function ExtractMarkerValue(text: string, start: string, end: string): Result<string, ExtractError> {
    match Index(text, start)
    case None => Err(MissingMarker(start))
    case Some(i) =>
      IndexBounds(text, start);
      ExtractUntil(text[i + |start|..], end)
  }

  function ExtractUntil(text: string, end: string): Result<string, ExtractError> {
    match Index(text, end)
    case None => Err(MissingMarker(end))
    case Some(i) =>
      IndexBounds(text, end);
      Ok(text[..i])
  }

  // What is in front of the first closing marker; all of it if there is none.
  function UpTo(value: string, end: string): string {
    IndexBounds(value, end);
    if Index(value, end).Some? then value[..Index(value, end).value] else value
  }

  lemma ExtractHere(lead: string, start: string, value: string, end: string, rest: string)
    requires Index(lead, start).None? && IsMarker(start) && IsMarker(end)
    ensures ExtractMarkerValue(lead + start + (value + end + rest), start, end) == Ok(UpTo(value, end))
  {
    FoundBetween(lead, start, value + end + rest);
    assert (lead + start + (value + end + rest))[|lead| + |start|..] == value + end + rest;
    if Index(value, end).None? {
      FoundBetween(value, end, rest);
      assert (value + end + rest)[..|value|] == value;
    } else {
      var k := Index(value, end).value;
      IndexBounds(value, end);
      StillFound(value, end + rest, end);
      assert value + end + rest == value + (end + rest);
      assert (value + (end + rest))[..k] == value[..k];
    }
  }

  lemma ExtractAt(text: string, start: string, end: string, i: nat, rest: string)
    requires Index(text, start) == Some(i) && i + |start| <= |text| && text[i + |start|..] == rest
    ensures ExtractMarkerValue(text, start, end) == ExtractUntil(rest, end)
  {
  }

  lemma TailBehind(a: string, w: string, n: nat)
    requires n <= |w|
    ensures (a + "\n" + w)[|a| + 1 + n..] == w[n..]
  {
  }

  lemma ExtractBehind(a: string, w: string, start: string, end: string)
    requires IsMarker(start) && Index(a, start).None?
    ensures ExtractMarkerValue(a + "\n" + w, start, end) == ExtractMarkerValue(w, start, end)
  {
    LinePassed(a, w, start);
    if Index(w, start).Some? {
      var i := Index(w, start).value;
      IndexBounds(w, start);
      TailBehind(a, w, i + |start|);
      ExtractAt(w, start, end, i, w[i + |start|..]);
      ExtractAt(a + "\n" + w, start, end, |a| + 1 + i, w[i + |start|..]);
    }
  }

  // Cutting at a closing marker takes something off that trimming does not.
  lemma CutIsNoticedIff(value: string, end: string)
    requires IsMarker(end)
    ensures TrimSpace(UpTo(value, end)) == TrimSpace(value) <==> Index(value, end).None?
  {
    if Index(value, end).Some? {
      FoundIsFirst(value, end, 0);
      CutTakesOff(value, end, Index(value, end).value);
    }
  }

  lemma CutTakesOff(value: string, end: string, k: nat)
    requires IsMarker(end) && OccursAt(value, end, k)
    ensures TrimSpace(value[..k]) != TrimSpace(value)
  {
    var x, y := value[..k], value[k + |end|..];
    assert value[k..k + |end|] == end;
    assert value == x + end + y;
    SolidMiddleIsKept(x, end, y);
  }

  lemma SolidMiddleIsKept(x: string, u: string, y: string)
    requires u != "" && !IsUnicodeSpace(u[0]) && !IsUnicodeSpace(u[|u| - 1])
    ensures |TrimSpace(x + u + y)| > |TrimSpace(x)|
  {
    TrimLeftStops(x, u + y);
    assert x + u + y == x + (u + y);
    TrimRightStops(TrimLeft(x) + u, y);
    assert TrimLeft(x) + (u + y) == TrimLeft(x) + u + y;
    TrimRightShortens(TrimLeft(x));
  }

  lemma {:induction false} TrimLeftStops(x: string, w: string)
    requires w != "" && !IsUnicodeSpace(w[0])
    ensures TrimLeft(x + w) == TrimLeft(x) + w
  {
    if x == "" {
      assert x + w == w;
    } else {
      TrimLeftStops(x[1..], w);
      assert (x + w)[1..] == x[1..] + w;
    }
  }

  lemma {:induction false} TrimRightStops(w: string, y: string)
    requires w != "" && !IsUnicodeSpace(w[|w| - 1])
    ensures |TrimRight(w + y)| >= |w|
  {
    if y == "" {
      assert w + y == w;
    } else {
      TrimRightStops(w, y[..|y| - 1]);
      assert (w + y)[..|w + y| - 1] == w + y[..|y| - 1];
    }
  }
}
