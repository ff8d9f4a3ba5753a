/**
 Lists of replacements over the lines of a file, and how they are spliced in.
 */
module Replacements {
  import opened Text

  // Replace `oldLen` lines from index `start` on by `newLines`.
  datatype Replacement = Replacement(start: nat, oldLen: nat, newLines: seq<string>) {
    function End(): nat { start + oldLen }
  }

  // ----- ordering

  ghost predicate StartsBeforeAll(r: Replacement, rs: seq<Replacement>) {
    forall x :: x in rs ==> r.start <= x.start
  }

  ghost predicate SortedByStart(rs: seq<Replacement>) {
    rs != [] ==> StartsBeforeAll(rs[0], rs[1..]) && SortedByStart(rs[1..])
  }

  // The replacements that start at `at`, in their order.
  function StartingAt(rs: seq<Replacement>, at: nat): seq<Replacement> {
    if rs == [] then []
    else (if rs[0].start == at then [rs[0]] else []) + StartingAt(rs[1..], at)
  }

  function InsertByStart(r: Replacement, sorted: seq<Replacement>): seq<Replacement> {
    if sorted == [] || r.start <= sorted[0].start then [r] + sorted
    else [sorted[0]] + InsertByStart(r, sorted[1..])
  }

  // What a stable sort by start index returns.
  function SortByStart(rs: seq<Replacement>): seq<Replacement> {
    if rs == [] then [] else InsertByStart(rs[0], SortByStart(rs[1..]))
  }

  lemma {:induction false} InsertKeepsSorted(r: Replacement, sorted: seq<Replacement>)
    requires SortedByStart(sorted)
    ensures SortedByStart(InsertByStart(r, sorted))
    ensures forall x :: x in InsertByStart(r, sorted) <==> x == r || x in sorted
  {
    if sorted != [] {
      assert sorted == [sorted[0]] + sorted[1..];
      if r.start > sorted[0].start {
        InsertKeepsSorted(r, sorted[1..]);
        var rest := InsertByStart(r, sorted[1..]);
        assert ([sorted[0]] + rest)[1..] == rest;
      } else {
        assert ([r] + sorted)[1..] == sorted;
      }
    }
  }

  lemma {:induction false} InsertIsStable(r: Replacement, sorted: seq<Replacement>, at: nat)
    requires SortedByStart(sorted)
    ensures StartingAt(InsertByStart(r, sorted), at) == StartingAt([r] + sorted, at)
  {
    assert ([r] + sorted)[1..] == sorted;
    if sorted != [] && r.start > sorted[0].start {
      InsertIsStable(r, sorted[1..], at);
      var rest := InsertByStart(r, sorted[1..]);
      assert ([r] + sorted[1..])[1..] == sorted[1..];
      assert ([sorted[0]] + rest)[1..] == rest;
    }
  }

  // Sorted by start, and replacements with one start keep their order: together these determine the
  // sorted list.
  lemma {:induction false} SortIsStable(rs: seq<Replacement>, at: nat)
    ensures SortedByStart(SortByStart(rs))
    ensures StartingAt(SortByStart(rs), at) == StartingAt(rs, at)
    ensures forall x :: x in SortByStart(rs) <==> x in rs
  {
    if rs != [] {
      SortIsStable(rs[1..], at);
      InsertKeepsSorted(rs[0], SortByStart(rs[1..]));
      InsertIsStable(rs[0], SortByStart(rs[1..]), at);
      assert rs == [rs[0]] + rs[1..];
    }
  }

  // ----- well-formed lists

  // In range, sorted, and no two replacements overlap; `from` is where the next may start.
  ghost predicate Disjoint(rs: seq<Replacement>, from: nat, lineCount: nat) {
    if rs == [] then from <= lineCount
    else from <= rs[0].start && Disjoint(rs[1..], rs[0].End(), lineCount)
  }

  // `a`, which comes before `b` in the list, and `b` do not overlap once the list is stably sorted.
  predicate Compatible(a: Replacement, b: Replacement) {
    if a.start <= b.start then a.End() <= b.start else b.End() <= a.start
  }

  ghost predicate CompatibleWithAll(a: Replacement, rs: seq<Replacement>) {
    forall r :: r in rs ==> Compatible(a, r)
  }

  ghost predicate PairwiseCompatible(rs: seq<Replacement>) {
    rs != [] ==> CompatibleWithAll(rs[0], rs[1..]) && PairwiseCompatible(rs[1..])
  }

  ghost predicate InRange(rs: seq<Replacement>, lineCount: nat) {
    forall r :: r in rs ==> r.End() <= lineCount
  }

  lemma {:induction false} InsertIntoDisjoint(a: Replacement, sorted: seq<Replacement>, from: nat, lineCount: nat)
    requires SortedByStart(sorted)
    requires a.End() <= lineCount
    ensures Disjoint(InsertByStart(a, sorted), from, lineCount) <==>
            Disjoint(sorted, from, lineCount) && from <= a.start && CompatibleWithAll(a, sorted)
  {
    if sorted == [] {
    } else if a.start <= sorted[0].start {
      assert ([a] + sorted)[1..] == sorted;
      CompatibleWithFirst(a, sorted);
    } else {
      InsertIntoDisjoint(a, sorted[1..], sorted[0].End(), lineCount);
      var rest := InsertByStart(a, sorted[1..]);
      assert ([sorted[0]] + rest)[1..] == rest;
      CompatibleWithFirst(a, sorted);
    }
  }

  lemma CompatibleWithFirst(a: Replacement, rs: seq<Replacement>)
    requires rs != []
    ensures CompatibleWithAll(a, rs) <==> Compatible(a, rs[0]) && CompatibleWithAll(a, rs[1..])
  {
    assert forall x :: x in rs <==> x == rs[0] || x in rs[1..];
  }

  // After the stable sort the list is well formed exactly when every pair, in list order, is
  // compatible.
  lemma {:induction false} SortedIsDisjointIff(rs: seq<Replacement>, lineCount: nat)
    requires InRange(rs, lineCount)
    ensures Disjoint(SortByStart(rs), 0, lineCount) <==> PairwiseCompatible(rs)
  {
    if rs != [] {
      assert forall r :: r in rs[1..] ==> r in rs;
      SortedIsDisjointIff(rs[1..], lineCount);
      SortIsStable(rs[1..], 0);
      assert rs[0] in rs;
      InsertIntoDisjoint(rs[0], SortByStart(rs[1..]), 0, lineCount);
    }
  }

  // A list that is already well formed is left as it is.
  lemma {:induction false} SortKeepsDisjoint(rs: seq<Replacement>, from: nat, lineCount: nat)
    requires Disjoint(rs, from, lineCount)
    ensures SortByStart(rs) == rs
  {
    if rs != [] {
      SortKeepsDisjoint(rs[1..], rs[0].End(), lineCount);
      assert rs == [rs[0]] + rs[1..];
    }
  }

  // The replacements that start before `at`, in their order.
  function StartingBefore(rs: seq<Replacement>, at: nat): seq<Replacement> {
    if rs == [] then []
    else (if rs[0].start < at then [rs[0]] else []) + StartingBefore(rs[1..], at)
  }

  lemma {:induction false} PartsStart(rs: seq<Replacement>, at: nat)
    ensures forall x :: x in StartingBefore(rs, at) <==> x in rs && x.start < at
    ensures forall x :: x in StartingAt(rs, at) <==> x in rs && x.start == at
  {
    if rs != [] {
      PartsStart(rs[1..], at);
      assert rs == [rs[0]] + rs[1..];
    }
  }

  lemma {:induction false} InsertBetween(r: Replacement, before: seq<Replacement>, after: seq<Replacement>)
    requires forall x :: x in before ==> x.start < r.start
    requires forall x :: x in after ==> r.start <= x.start
    ensures InsertByStart(r, before + after) == before + [r] + after
  {
    if before == [] {
      assert before + after == after;
    } else {
      InsertBetween(r, before[1..], after);
      assert (before + after)[1..] == before[1..] + after;
      assert before + [r] + after == [before[0]] + (before[1..] + [r] + after);
    }
  }

  ghost predicate StartsUpTo(rs: seq<Replacement>, at: nat) {
    forall r :: r in rs ==> r.start <= at
  }

  // If everything before `at` is already in order, sorting only moves what starts at `at` to the end.
  lemma {:induction false} SortMovesToEnd(rs: seq<Replacement>, at: nat)
    requires StartsUpTo(rs, at)
    requires SortedByStart(StartingBefore(rs, at))
    ensures SortByStart(rs) == StartingBefore(rs, at) + StartingAt(rs, at)
  {
    if rs != [] {
      assert rs[0] in rs && forall x :: x in rs[1..] ==> x in rs;
      PartsOfCons(rs, at);
      PartsStart(rs[1..], at);
      SortMovesToEnd(rs[1..], at);
      ConsMovesToEnd(rs[0], StartingBefore(rs[1..], at), StartingAt(rs[1..], at), at);
    }
  }

  lemma ConsMovesToEnd(r: Replacement, before: seq<Replacement>, after: seq<Replacement>, at: nat)
    requires r.start <= at
    requires forall x :: x in before ==> x.start < at
    requires forall x :: x in after ==> x.start == at
    requires r.start < at ==> StartsBeforeAll(r, before)
    ensures InsertByStart(r, before + after) ==
            if r.start < at then ([r] + before) + after else before + ([r] + after)
  {
    if r.start < at {
      InsertBetween(r, [], before + after);
      assert [] + (before + after) == before + after;
    } else {
      InsertBetween(r, before, after);
    }
  }

  lemma PartsOfCons(rs: seq<Replacement>, at: nat)
    requires rs != [] && rs[0].start <= at
    ensures var before, after := StartingBefore(rs[1..], at), StartingAt(rs[1..], at);
            if rs[0].start < at
            then StartingBefore(rs, at) == [rs[0]] + before && StartingAt(rs, at) == after
            else StartingBefore(rs, at) == before && StartingAt(rs, at) == [rs[0]] + after
    ensures SortedByStart(StartingBefore(rs, at)) <==>
            SortedByStart(StartingBefore(rs[1..], at))
            && (rs[0].start < at ==> StartsBeforeAll(rs[0], StartingBefore(rs[1..], at)))
  {
    var before, after := StartingBefore(rs[1..], at), StartingAt(rs[1..], at);
    assert [] + before == before && [] + after == after;
    assert ([rs[0]] + before)[1..] == before;
  }

  // ----- what splicing means

  // The file read from line `from` on, with each replacement's new lines in place of its old ones.
  function Forward(lines: seq<string>, rs: seq<Replacement>, from: nat): seq<string>
    requires Disjoint(rs, from, |lines|)
  {
    if rs == [] then lines[from..]
    else
      DisjointBounds(rs, from, |lines|);
      lines[from..rs[0].start] + rs[0].newLines + Forward(lines, rs[1..], rs[0].End())
  }

  lemma {:induction false} DisjointBounds(rs: seq<Replacement>, from: nat, lineCount: nat)
    requires Disjoint(rs, from, lineCount)
    ensures from <= lineCount
    ensures rs != [] ==> from <= rs[0].start && rs[0].End() <= lineCount
  {
    if rs != [] {
      DisjointBounds(rs[1..], rs[0].End(), lineCount);
    }
  }

  // ----- the program

  // One replacement carried out in place: deletions past the end are skipped, and insertions past the
  // end append.
  function SpliceOne(lines: seq<string>, r: Replacement): seq<string> {
    var at := Min(r.start, |lines|);
    lines[..at] + r.newLines + lines[Min(r.End(), |lines|)..]
  }

  // The list carried out from its last replacement to its first.
  function Backward(lines: seq<string>, rs: seq<Replacement>): seq<string> {
    if rs == [] then lines else SpliceOne(Backward(lines, rs[1..]), rs[0])
  }

  // array.splice(index, 1) and array.splice(index, 0, line)
  function RemoveAt(lines: seq<string>, index: nat): seq<string> {
    var at := Min(index, |lines|);
    lines[..at] + lines[Min(at + 1, |lines|)..]
  }

  function InsertAt(lines: seq<string>, index: nat, line: string): seq<string> {
    var at := Min(index, |lines|);
    lines[..at] + [line] + lines[at..]
  }

  // The lines below the replacement are untouched, and the rest reads as the forward meaning.
  lemma {:induction false} BackwardIsForward(lines: seq<string>, rs: seq<Replacement>, from: nat)
    requires from <= |lines| && Disjoint(rs, from, |lines|)
    ensures Backward(lines, rs) == lines[..from] + Forward(lines, rs, from)
  {
    DisjointBounds(rs, from, |lines|);
    if rs != [] {
      var r := rs[0];
      BackwardIsForward(lines, rs[1..], r.End());
      SpliceBelow(lines, Forward(lines, rs[1..], r.End()), r);
      Regroup(lines[..r.start], lines[..from], lines[from..r.start], r.newLines, Forward(lines, rs[1..], r.End()));
    }
  }

  lemma Regroup(ab: seq<string>, a: seq<string>, b: seq<string>, c: seq<string>, d: seq<string>)
    requires ab == a + b
    ensures ab + c + d == a + (b + c + d)
  {
  }

  lemma SpliceBelow(lines: seq<string>, rest: seq<string>, r: Replacement)
    requires r.End() <= |lines|
    ensures SpliceOne(lines[..r.End()] + rest, r) == lines[..r.start] + r.newLines + rest
  {
    var all := lines[..r.End()] + rest;
    assert all[..r.start] == lines[..r.start];
    assert all[r.End()..] == rest;
  }

  // Splicing a well-formed list in place, back to front, yields the untouched lines interleaved with
  // the new lines, in list order.
  lemma SplicingRefinesForward(lines: seq<string>, rs: seq<Replacement>)
    requires Disjoint(rs, 0, |lines|)
    ensures Backward(lines, rs) == Forward(lines, rs, 0)
    ensures |Backward(lines, rs)| == |lines| - TotalOld(rs) + TotalNew(rs)
  {
    BackwardIsForward(lines, rs, 0);
    ForwardLength(lines, rs, 0);
  }

  function TotalOld(rs: seq<Replacement>): nat {
    if rs == [] then 0 else rs[0].oldLen + TotalOld(rs[1..])
  }

  function TotalNew(rs: seq<Replacement>): nat {
    if rs == [] then 0 else |rs[0].newLines| + TotalNew(rs[1..])
  }

  lemma {:induction false} ForwardLength(lines: seq<string>, rs: seq<Replacement>, from: nat)
    requires Disjoint(rs, from, |lines|)
    ensures |Forward(lines, rs, from)| == |lines| - from - TotalOld(rs) + TotalNew(rs)
  {
    DisjointBounds(rs, from, |lines|);
    if rs != [] {
      ForwardLength(lines, rs[1..], rs[0].End());
    }
  }

  method DeleteLines(lines: seq<string>, startIndex: nat, oldLen: nat) returns (result: seq<string>)
    ensures result == lines[..Min(startIndex, |lines|)] + lines[Min(startIndex + oldLen, |lines|)..]
  {
    result := lines;
    var i := 0;
    while i < oldLen
      invariant 0 <= i <= oldLen
      invariant result == lines[..Min(startIndex, |lines|)] + lines[Min(startIndex + i, |lines|)..]
    {
      if startIndex < |result| {
        result := RemoveAt(result, startIndex);
      }
      i := i + 1;
    }
  }

  method InsertLines(lines: seq<string>, startIndex: nat, newLines: seq<string>) returns (result: seq<string>)
    ensures result == lines[..Min(startIndex, |lines|)] + newLines + lines[Min(startIndex, |lines|)..]
  {
    result := lines;
    ghost var head, tail := lines[..Min(startIndex, |lines|)], lines[Min(startIndex, |lines|)..];
    var i := 0;
    while i < |newLines|
      invariant 0 <= i <= |newLines|
      invariant result == head + newLines[..i] + tail
    {
      result := InsertAt(result, startIndex + i, newLines[i]);
      assert newLines[..i + 1] == newLines[..i] + [newLines[i]];
      i := i + 1;
    }
    assert newLines[..i] == newLines;
  }

  method ApplyReplacements(lines: seq<string>, replacements: seq<Replacement>) returns (result: seq<string>)
    ensures result == Backward(lines, replacements)
    ensures Disjoint(replacements, 0, |lines|) ==> result == Forward(lines, replacements, 0)
  {
    result := lines;
    var k := |replacements|;
    while k > 0
      invariant 0 <= k <= |replacements|
      invariant result == Backward(lines, replacements[k..])
    {
      k := k - 1;
      assert replacements[k..][1..] == replacements[k + 1..];
      var shortened := DeleteLines(result, replacements[k].start, replacements[k].oldLen);
      result := InsertLines(shortened, replacements[k].start, replacements[k].newLines);
    }
    assert replacements[0..] == replacements;
    if Disjoint(replacements, 0, |lines|) {
      SplicingRefinesForward(lines, replacements);
    }
  }
}
