/**
 What may stand around the hunks of a patch: white space, a shell here-document, lines ended by a carriage return and a
 newline. And what is no patch at all.
 */
module PatchWrapping {
  import opened Text
  import opened PatchLines
  import opened PatchParser
  import opened PatchPrinter

  // ----- white space

  predicate HasSolidEnds(s: string) {
    s != "" && !IsSpace(s[0]) && !IsSpace(s[|s| - 1])
  }

  lemma TrimAround(before: string, s: string, after: string)
    requires IsWhite(before) && IsWhite(after) && HasSolidEnds(s)
    ensures Trim(before + s + after) == s
  {
    TrimEndIgnores(before + s, after);
    assert (before + s)[|before + s| - 1] == s[|s| - 1];
    TrimStartIgnores(before, s);
  }

  lemma {:induction false} WhiteTrims(s: string)
    requires IsWhite(s)
    ensures Trim(s) == ""
  {
    if s != "" { WhiteTrims(s[..|s| - 1]); }
  }

  // ----- line ends

  // Every line but the last may be given a carriage return.
  function WithReturns(ls: seq<string>, crs: seq<bool>): (r: seq<string>)
    requires |crs| == |ls|
    ensures |r| == |ls|
  {
    if |ls| <= 1 then ls else [ls[0] + if crs[0] then "\r" else ""] + WithReturns(ls[1..], crs[1..])
  }

  function JoinEnded(ls: seq<string>, crs: seq<bool>): string
    requires |crs| == |ls|
  {
    JoinLines(WithReturns(ls, crs))
  }

  lemma {:induction false} ReturnsAreDropped(ls: seq<string>, crs: seq<bool>)
    requires |crs| == |ls| && ArePlain(ls)
    ensures DropReturns(WithReturns(ls, crs)) == ls
    ensures forall l :: l in WithReturns(ls, crs) ==> '\n' !in l
  {
    if |ls| > 1 {
      assert ls[0] in ls && forall l :: l in ls[1..] ==> l in ls;
      ReturnsAreDropped(ls[1..], crs[1..]);
      var first := ls[0] + if crs[0] then "\r" else "";
      assert WithoutReturn(first) == ls[0] by { assert (ls[0] + "\r")[..|ls[0]|] == ls[0]; assert ls[0] + "" == ls[0]; }
      assert WithReturns(ls, crs)[1..] == WithReturns(ls[1..], crs[1..]);
    }
  }

  lemma {:induction false} ReturnsKeepEnds(ls: seq<string>, crs: seq<bool>)
    requires |crs| == |ls| && ls != [] && ls[0] != ""
    ensures var w := WithReturns(ls, crs); w[0] != "" && w[0][0] == ls[0][0] && w[|w| - 1] == ls[|ls| - 1]
  {
    LastIsKept(ls, crs);
  }

  lemma {:induction false} LastIsKept(ls: seq<string>, crs: seq<bool>)
    requires |crs| == |ls| && ls != []
    ensures WithReturns(ls, crs)[|ls| - 1] == ls[|ls| - 1]
  {
    if |ls| > 1 { LastIsKept(ls[1..], crs[1..]); }
  }

  // The lines of a text, whatever white space is around it and however its lines are ended.
  lemma SplitsInto(before: string, ls: seq<string>, crs: seq<bool>, after: string)
    requires |crs| == |ls| && ls != [] && ArePlain(ls) && IsWhite(before) && IsWhite(after)
    requires ls[0] != "" && !IsSpace(ls[0][0]) && ls[|ls| - 1] != "" && !IsSpace(ls[|ls| - 1][|ls[|ls| - 1]| - 1])
    ensures var s := Trim(before + JoinEnded(ls, crs) + after); s != "" && SplitLines(s) == ls
  {
    var w := WithReturns(ls, crs);
    ReturnsAreDropped(ls, crs);
    ReturnsKeepEnds(ls, crs);
    JoinEnds(w);
    TrimAround(before, JoinLines(w), after);
    LinesOfJoin(w);
  }

  // ----- a patch in its wrapping

  datatype Heredoc = Heredoc(open: string, close: string)

  // The lines that begin and end the patch, and what is around them.
  datatype Wrapping = Wrapping(before: string, begin: string, end: string, after: string, heredoc: Option<Heredoc>)

  predicate Opens(line: string) {
    line == "<<EOF" || line == "<<'EOF'" || line == "<<\"EOF\""
  }

  predicate Wraps(w: Wrapping) {
    && IsWhite(w.before) && IsWhite(w.after) && IsPlain(w.begin) && IsPlain(w.end)
    && Trim(w.begin) == BEGIN_PATCH && Trim(w.end) == END_PATCH
    && match w.heredoc
       case Some(h) => Opens(h.open) && IsPlain(h.close) && EndsWith(h.close, "EOF")
       case None => w.begin[0] == '*' && w.end != "" && w.end[|w.end| - 1] == 'h'
  }

  function PatchLinesOf(w: Wrapping, body: seq<string>): seq<string> {
    [w.begin] + body + [w.end]
  }

  function AllLines(w: Wrapping, body: seq<string>): seq<string> {
    match w.heredoc
    case Some(h) => [h.open] + PatchLinesOf(w, body) + [h.close]
    case None => PatchLinesOf(w, body)
  }

  function Wrapped(w: Wrapping, body: seq<string>, crs: seq<bool>): string
    requires |crs| == |AllLines(w, body)|
  {
    w.before + JoinEnded(AllLines(w, body), crs) + w.after
  }

  lemma BoundariesFound(w: Wrapping, body: seq<string>)
    requires Wraps(w)
    ensures CheckBoundaries(AllLines(w, body)) == Ok(PatchLinesOf(w, body))
  {
    var inner := PatchLinesOf(w, body);
    assert inner[0] == w.begin && inner[|inner| - 1] == w.end;
    if w.heredoc.Some? {
      var all := AllLines(w, body);
      assert all[0] == w.heredoc.value.open && all[|all| - 1] == w.heredoc.value.close;
      assert all[1..|all| - 1] == inner;
      TrimKeepsSolid(all[0]);
      assert BEGIN_PATCH[0] == '*';
    }
  }

  lemma AllLinesArePlain(w: Wrapping, body: seq<string>)
    requires Wraps(w) && ArePlain(body)
    ensures ArePlain(AllLines(w, body))
    ensures var all := AllLines(w, body);
            && all[0] != "" && !IsSpace(all[0][0])
            && all[|all| - 1] != "" && !IsSpace(all[|all| - 1][|all[|all| - 1]| - 1])
  {
    var all := AllLines(w, body);
    assert ArePlain(PatchLinesOf(w, body));
    if w.heredoc.Some? {
      var h := w.heredoc.value;
      assert all[0] == h.open && all[|all| - 1] == h.close;
      assert h.close[|h.close| - 1] == h.close[|h.close| - 3..][2] == "EOF"[2];
    } else {
      assert all[0] == w.begin && all[|all| - 1] == w.end;
    }
  }

  // Whatever is around a patch, what is parsed is the lines between its first and its last.
  lemma WrappingIsTakenOff(w: Wrapping, body: seq<string>, crs: seq<bool>)
    requires Wraps(w) && ArePlain(body) && |crs| == |AllLines(w, body)|
    ensures ParsePatch(Wrapped(w, body, crs)) == ParseHunks(ScanLines(body), 0, 2)
  {
    AllLinesArePlain(w, body);
    SplitsInto(w.before, AllLines(w, body), crs, w.after);
    BoundariesFound(w, body);
    var inner := PatchLinesOf(w, body);
    assert inner[1..|inner| - 1] == body;
  }

  // Printed hunks are read back out of any wrapping.
  lemma ParseWrapped(w: Wrapping, hs: seq<HunkText>, crs: seq<bool>)
    requires Wraps(w) && Printable(hs) && |crs| == |AllLines(w, PrintHunks(hs))|
    ensures ParsePatch(Wrapped(w, PrintHunks(hs), crs)) == Ok(HunksOf(hs))
  {
    var ls := PrintHunks(hs);
    HunksArePlain(hs);
    WrappingIsTakenOff(w, ls, crs);
    ScanLinesScans(ls);
    PrintsHunks(ScanLines(ls), 0, hs, ls, |ls|);
    HunksReadBack(ScanLines(ls), 0, hs, 2);
  }

  // ----- no patch

  lemma EmptyIsRefused(input: string)
    requires IsWhite(input)
    ensures ParsePatch(input) == Err(EmptyInput)
  {
    WhiteTrims(input);
  }

  // Without the line that begins a patch, or without the one that ends it, and in no here-document, nothing is parsed.
  lemma UnmarkedIsRefused(before: string, ls: seq<string>, crs: seq<bool>, after: string)
    requires |crs| == |ls| && ls != [] && ArePlain(ls) && IsWhite(before) && IsWhite(after)
    requires ls[0] != "" && !IsSpace(ls[0][0]) && ls[|ls| - 1] != "" && !IsSpace(ls[|ls| - 1][|ls[|ls| - 1]| - 1])
    ensures var r := ParsePatch(before + JoinEnded(ls, crs) + after);
            && (Trim(ls[0]) == BEGIN_PATCH && Trim(ls[|ls| - 1]) != END_PATCH ==> r == Err(NoEndMarker))
            && (Trim(ls[0]) != BEGIN_PATCH && !(Opens(ls[0]) && EndsWith(ls[|ls| - 1], "EOF")) ==> r == Err(NoBeginMarker))
  {
    SplitsInto(before, ls, crs, after);
    if Opens(ls[0]) { TrimKeepsSolid(ls[0]); assert BEGIN_PATCH[0] == '*'; }
  }

  // A here-document needs its first and last line, and a patch between them.
  lemma BadHeredocIsRefused(before: string, open: string, inner: seq<string>, close: string, crs: seq<bool>, after: string)
    requires |crs| == |[open] + inner + [close]| && ArePlain(inner) && IsPlain(close)
    requires Opens(open) && EndsWith(close, "EOF") && IsWhite(before) && IsWhite(after)
    requires inner == [] || Trim(inner[0]) != BEGIN_PATCH || Trim(inner[|inner| - 1]) != END_PATCH
    ensures ParsePatch(before + JoinEnded([open] + inner + [close], crs) + after)
         == Err(if |inner| < 2 || Trim(inner[0]) != BEGIN_PATCH then NoBeginMarker else NoEndMarker)
  {
    var ls := [open] + inner + [close];
    assert ls[0] == open && ls[|ls| - 1] == close && ls[1..|ls| - 1] == inner;
    assert close[|close| - 1] == close[|close| - 3..][2] == "EOF"[2];
    SplitsInto(before, ls, crs, after);
    TrimKeepsSolid(open);
    assert BEGIN_PATCH[0] == '*';
  }
}
