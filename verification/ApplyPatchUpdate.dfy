/**
 Applying the chunks of one update hunk to a file: every chunk is located from a moving cursor, the
 located replacements are sorted by start, and the sorted list is spliced into the file's lines.
 */
module ApplyPatchUpdate {
  import opened Text
  import opened LineSearch
  import opened Replacements

  datatype Chunk = Chunk(context: Option<string>, oldLines: seq<string>, newLines: seq<string>, isEndOfFile: bool)

  datatype UpdateError =
    | ContextNotFound(context: string)
    | LinesNotFound(oldLines: seq<string>)

  // ----- where the chunks go

  // A chunk without old lines is inserted at the end, before a blank last line.
  function InsertionIndex(lines: seq<string>): nat {
    if |lines| > 0 && lines[|lines| - 1] == "" then |lines| - 1 else |lines|
  }

  // The cursor once the chunk's context line has been passed; an empty context counts as none.
  ghost function AfterContext(lines: seq<string>, chunk: Chunk, cursor: nat): (r: Option<nat>)
    requires cursor <= |lines|
    ensures r.Some? ==> cursor <= r.value <= |lines|
  {
    if chunk.context.Some? && chunk.context.value != "" then
      var found := Seek(lines, [chunk.context.value], cursor, false);
      if found.Some? then Some(found.value + 1) else None
    else Some(cursor)
  }

  function WithoutBlankLast(lines: seq<string>): seq<string> {
    if |lines| > 0 && lines[|lines| - 1] == "" then lines[..|lines| - 1] else lines
  }

  // Where the chunk's old lines are; a pattern that ends in a blank line is tried again without it.
  ghost function Locate(lines: seq<string>, chunk: Chunk, cursor: nat): (r: Option<Replacement>)
    requires cursor <= |lines| && chunk.oldLines != []
    ensures r.Some? ==> r.value.End() <= |lines|
    ensures r.Some? && !chunk.isEndOfFile ==> cursor <= r.value.start
    ensures r.Some? && chunk.isEndOfFile && r.value.oldLen > 0 ==> r.value.End() == |lines|
    ensures r.Some? && r.value.oldLen == 0 ==> r.value.start == cursor
  {
    var pattern := chunk.oldLines;
    var found := Seek(lines, pattern, cursor, chunk.isEndOfFile);
    if found.Some? then Some(Replacement(found.value, |pattern|, chunk.newLines))
    else if pattern[|pattern| - 1] != "" then None
    else
      var shorter := pattern[..|pattern| - 1];
      var retried := Seek(lines, shorter, cursor, chunk.isEndOfFile);
      if retried.Some? then Some(Replacement(retried.value, |shorter|, WithoutBlankLast(chunk.newLines)))
      else None
  }

  datatype Placed = Placed(replacement: Replacement, cursor: nat)

  // Where one chunk goes, and where the search for the next one starts.
  ghost function PlaceOne(lines: seq<string>, chunk: Chunk, cursor: nat): (r: Result<Placed, UpdateError>)
    requires cursor <= |lines|
    ensures r.Ok? ==> r.value.cursor <= |lines|
  {
    match AfterContext(lines, chunk, cursor)
    case None => Err(ContextNotFound(chunk.context.value))
    case Some(from) =>
      if chunk.oldLines == [] then Ok(Placed(Replacement(InsertionIndex(lines), 0, chunk.newLines), from))
      else
        match Locate(lines, chunk, from)
        case None => Err(LinesNotFound(chunk.oldLines))
        case Some(r) => Ok(Placed(r, r.End()))
  }

  // The replacements in chunk order; the first chunk that cannot be placed is the error.
  ghost function Place(lines: seq<string>, chunks: seq<Chunk>, cursor: nat): (r: Result<seq<Replacement>, UpdateError>)
    requires cursor <= |lines|
  {
    if chunks == [] then Ok([])
    else
      match PlaceOne(lines, chunks[0], cursor)
      case Err(e) => Err(e)
      case Ok(p) => Prepend([p.replacement], Place(lines, chunks[1..], p.cursor))
  }

  function Prepend(rs: seq<Replacement>, rest: Result<seq<Replacement>, UpdateError>)
    : Result<seq<Replacement>, UpdateError>
  {
    if rest.Ok? then Ok(rs + rest.value) else rest
  }

  ghost function Compute(lines: seq<string>, chunks: seq<Chunk>): Result<seq<Replacement>, UpdateError> {
    var placed := Place(lines, chunks, 0);
    if placed.Ok? then Ok(SortByStart(placed.value)) else placed
  }

  // ----- when the replacements fit together

  // How far the located replacements reach; an empty one after the last line reaches nowhere.
  function Reach(lines: seq<string>, reach: nat, r: Replacement): nat {
    if r.oldLen == 0 && r.start == |lines| then reach else r.End()
  }

  // Checked chunk by chunk, as the cursor moves: an end-of-file chunk whose search jumps to the last
  // lines does not jump in front of the end of what is already replaced, and no replaced range
  // contains the index where a chunk without old lines is inserted.
  ghost predicate FitsTogether(lines: seq<string>, chunks: seq<Chunk>, cursor: nat, reach: nat, inserted: bool)
    requires cursor <= |lines|
  {
    chunks == [] ||
    var chunk := chunks[0];
    match AfterContext(lines, chunk, cursor)
    case None => true
    case Some(from) =>
      if chunk.oldLines == [] then
        && reach <= InsertionIndex(lines)
        && FitsTogether(lines, chunks[1..], from, reach, true)
      else
        match Locate(lines, chunk, from)
        case None => true
        case Some(r) =>
          && (chunk.isEndOfFile && r.oldLen > 0 ==> reach <= |lines| - r.oldLen)
          && (inserted ==> r.End() <= InsertionIndex(lines) || InsertionIndex(lines) <= r.start)
          && FitsTogether(lines, chunks[1..], r.End(), Reach(lines, reach, r), inserted)
  }

  // What the cursor, the reach and the flag say about the replacements placed so far.
  ghost predicate Summarizes(lines: seq<string>, done: seq<Replacement>, cursor: nat, reach: nat, inserted: bool) {
    var at := InsertionIndex(lines);
    && (forall a :: a in done ==>
          || (inserted && a.start == at && a.oldLen == 0)
          || (a.End() <= cursor && (a.End() <= reach || (a.oldLen == 0 && a.start == |lines|))))
    && (inserted ==> exists a :: a in done && a.start == at && a.oldLen == 0)
    && (reach > 0 ==> exists a :: a in done && a.End() == reach && !(a.oldLen == 0 && a.start == |lines|))
    && reach <= cursor <= |lines|
  }

  ghost predicate AllCompatible(done: seq<Replacement>, r: Replacement) {
    forall a :: a in done ==> Compatible(a, r)
  }

  lemma InsertionFits(lines: seq<string>, done: seq<Replacement>, cursor: nat, reach: nat, inserted: bool, r: Replacement)
    requires Summarizes(lines, done, cursor, reach, inserted)
    requires r.start == InsertionIndex(lines) && r.oldLen == 0
    ensures AllCompatible(done, r) <==> reach <= InsertionIndex(lines)
  {
  }

  lemma LocatedFits(lines: seq<string>, done: seq<Replacement>, cursor: nat, reach: nat, inserted: bool,
                    r: Replacement, eof: bool)
    requires Summarizes(lines, done, cursor, reach, inserted)
    requires r.End() <= |lines|
    requires !eof || r.oldLen == 0 ==> cursor <= r.start
    requires eof && r.oldLen > 0 ==> r.End() == |lines|
    ensures AllCompatible(done, r) <==>
            && (eof && r.oldLen > 0 ==> reach <= |lines| - r.oldLen)
            && (inserted ==> r.End() <= InsertionIndex(lines) || InsertionIndex(lines) <= r.start)
  {
  }

  lemma SummaryAdvances(lines: seq<string>, done: seq<Replacement>, cursor: nat, reach: nat, inserted: bool, r: Replacement)
    requires Summarizes(lines, done, cursor, reach, inserted)
    requires r.End() <= |lines|
    requires cursor <= r.start || r.End() == |lines|
    ensures Summarizes(lines, done + [r], r.End(), Reach(lines, reach, r), inserted)
  {
    var more := done + [r];
    assert r in more && forall x :: x in more <==> x == r || x in done;
    if inserted {
      var a :| a in done && a.start == InsertionIndex(lines) && a.oldLen == 0;
      assert a in more;
    }
    if reach > 0 {
      var a :| a in done && a.End() == reach && !(a.oldLen == 0 && a.start == |lines|);
      assert a in more;
    }
  }

  lemma SummaryInserts(lines: seq<string>, done: seq<Replacement>, cursor: nat, reach: nat, inserted: bool, r: Replacement)
    requires Summarizes(lines, done, cursor, reach, inserted)
    requires r.start == InsertionIndex(lines) && r.oldLen == 0
    ensures Summarizes(lines, done + [r], cursor, reach, true)
  {
    var more := done + [r];
    assert r in more && forall x :: x in more <==> x == r || x in done;
    if reach > 0 {
      var a :| a in done && a.End() == reach && !(a.oldLen == 0 && a.start == |lines|);
      assert a in more;
    }
  }

  // No two of the first list's and the second list's replacements collide.
  ghost predicate CrossCompatible(done: seq<Replacement>, rs: seq<Replacement>) {
    forall r :: r in rs ==> AllCompatible(done, r)
  }

  lemma CrossSplit(done: seq<Replacement>, r: Replacement, rs: seq<Replacement>)
    ensures CrossCompatible(done, [r] + rs) && PairwiseCompatible([r] + rs) <==>
            AllCompatible(done, r) && CrossCompatible(done + [r], rs) && PairwiseCompatible(rs)
  {
    assert ([r] + rs)[1..] == rs;
    assert r in [r] + rs && forall x :: x in [r] + rs <==> x == r || x in rs;
    assert r in done + [r] && forall x :: x in done + [r] <==> x == r || x in done;
  }

  lemma {:induction false} PlacedFitIff(lines: seq<string>, chunks: seq<Chunk>, done: seq<Replacement>,
                                        cursor: nat, reach: nat, inserted: bool)
    requires Summarizes(lines, done, cursor, reach, inserted)
    requires Place(lines, chunks, cursor).Ok?
    ensures var rs := Place(lines, chunks, cursor).value;
            && (CrossCompatible(done, rs) && PairwiseCompatible(rs) <==>
                FitsTogether(lines, chunks, cursor, reach, inserted))
            && InRange(rs, |lines|)
    decreases |chunks|
  {
    if chunks != [] {
      var chunk := chunks[0];
      var from := AfterContext(lines, chunk, cursor).value;
      assert Summarizes(lines, done, from, reach, inserted);
      if chunk.oldLines == [] {
        var r := Replacement(InsertionIndex(lines), 0, chunk.newLines);
        InsertionFits(lines, done, from, reach, inserted, r);
        SummaryInserts(lines, done, from, reach, inserted, r);
        PlacedFitIff(lines, chunks[1..], done + [r], from, reach, true);
        CrossSplit(done, r, Place(lines, chunks[1..], from).value);
      } else {
        var r := Locate(lines, chunk, from).value;
        LocatedFits(lines, done, from, reach, inserted, r, chunk.isEndOfFile);
        SummaryAdvances(lines, done, from, reach, inserted, r);
        PlacedFitIff(lines, chunks[1..], done + [r], r.End(), Reach(lines, reach, r), inserted);
        CrossSplit(done, r, Place(lines, chunks[1..], r.End()).value);
      }
    }
  }

  // The sorted list is in range, in order and free of overlaps exactly when every chunk passes its check.
  lemma ReplacementsFitIff(lines: seq<string>, chunks: seq<Chunk>)
    requires Compute(lines, chunks).Ok?
    ensures Disjoint(Compute(lines, chunks).value, 0, |lines|) <==> FitsTogether(lines, chunks, 0, 0, false)
    ensures InRange(Compute(lines, chunks).value, |lines|)
  {
    var rs := Place(lines, chunks, 0).value;
    PlacedFitIff(lines, chunks, [], 0, 0, false);
    SortedIsDisjointIff(rs, |lines|);
    SortIsStable(rs, 0);
  }

  // ----- the ordinary case

  ghost predicate HasInsertions(chunks: seq<Chunk>) {
    exists chunk :: chunk in chunks && chunk.oldLines == []
  }

  // No end-of-file chunk is searched for behind the cursor.
  ghost predicate EofAhead(lines: seq<string>, chunks: seq<Chunk>, cursor: nat)
    requires cursor <= |lines|
  {
    chunks == [] ||
    var chunk := chunks[0];
    match AfterContext(lines, chunk, cursor)
    case None => true
    case Some(from) =>
      if chunk.oldLines == [] then EofAhead(lines, chunks[1..], from)
      else
        match Locate(lines, chunk, from)
        case None => true
        case Some(r) =>
          && (chunk.isEndOfFile && r.oldLen > 0 ==> from <= |lines| - r.oldLen)
          && EofAhead(lines, chunks[1..], r.End())
  }

  lemma {:induction false} EofAheadFits(lines: seq<string>, chunks: seq<Chunk>, cursor: nat, reach: nat, inserted: bool)
    requires reach <= cursor <= |lines|
    requires EofAhead(lines, chunks, cursor)
    requires InsertionIndex(lines) == |lines| || (!HasInsertions(chunks) && !inserted)
    ensures FitsTogether(lines, chunks, cursor, reach, inserted)
    decreases |chunks|
  {
    if chunks != [] && AfterContext(lines, chunks[0], cursor).Some? {
      var chunk, from := chunks[0], AfterContext(lines, chunks[0], cursor).value;
      assert HasInsertions(chunks[1..]) ==> HasInsertions(chunks);
      if chunk.oldLines == [] {
        assert chunk in chunks;
        EofAheadFits(lines, chunks[1..], from, reach, true);
      } else if Locate(lines, chunk, from).Some? {
        var r := Locate(lines, chunk, from).value;
        EofAheadFits(lines, chunks[1..], r.End(), Reach(lines, reach, r), inserted);
      }
    }
  }

  lemma ConsKeepsOrder(r: Replacement, next: nat, rest: seq<Replacement>, lineCount: nat)
    requires r.start <= next || r.start == lineCount
    requires r.start <= lineCount
    requires StartsUpTo(rest, lineCount)
    requires forall x :: x in rest ==> next <= x.start
    requires SortedByStart(StartingBefore(rest, lineCount))
    ensures StartsUpTo([r] + rest, lineCount)
    ensures SortedByStart(StartingBefore([r] + rest, lineCount))
  {
    assert ([r] + rest)[1..] == rest;
    PartsStart(rest, lineCount);
    PartsOfCons([r] + rest, lineCount);
  }

  lemma {:induction false} CursorMovesForward(lines: seq<string>, chunks: seq<Chunk>, cursor: nat)
    requires cursor <= |lines|
    requires EofAhead(lines, chunks, cursor)
    requires InsertionIndex(lines) == |lines| || !HasInsertions(chunks)
    requires Place(lines, chunks, cursor).Ok?
    ensures var rs := Place(lines, chunks, cursor).value;
            && StartsUpTo(rs, |lines|)
            && (forall r :: r in rs ==> cursor <= r.start)
            && SortedByStart(StartingBefore(rs, |lines|))
    decreases |chunks|
  {
    if chunks != [] {
      var chunk, from := chunks[0], AfterContext(lines, chunks[0], cursor).value;
      assert HasInsertions(chunks[1..]) ==> HasInsertions(chunks);
      assert chunk in chunks;
      var Placed(r, next) := PlaceOne(lines, chunk, cursor).value;
      CursorMovesForward(lines, chunks[1..], next);
      ConsKeepsOrder(r, next, Place(lines, chunks[1..], next).value, |lines|);
    }
  }

  // In the ordinary case the list is well formed, and sorting only moves insertions at the end of the
  // file behind the rest, keeping both groups in chunk order.
  lemma OrdinaryChunksFit(lines: seq<string>, chunks: seq<Chunk>)
    requires EofAhead(lines, chunks, 0)
    requires InsertionIndex(lines) == |lines| || !HasInsertions(chunks)
    requires Place(lines, chunks, 0).Ok?
    ensures var rs := Place(lines, chunks, 0).value;
            && Compute(lines, chunks) == Ok(StartingBefore(rs, |lines|) + StartingAt(rs, |lines|))
            && Disjoint(StartingBefore(rs, |lines|) + StartingAt(rs, |lines|), 0, |lines|)
  {
    var rs := Place(lines, chunks, 0).value;
    EofAheadFits(lines, chunks, 0, 0, false);
    ReplacementsFitIff(lines, chunks);
    CursorMovesForward(lines, chunks, 0);
    SortMovesToEnd(rs, |lines|);
  }

  // ----- the two ways chunks collide

  lemma SeekSingle(lines: seq<string>, pattern: seq<string>, start: nat, eof: bool, at: nat)
    requires pattern != [] && WindowStart(lines, pattern, start, eof) == at && CopyAt(lines, pattern, at)
    ensures Seek(lines, pattern, start, eof) == Some(at)
  {
    SeekFindsFirstCopy(lines, pattern, start, eof, at);
  }

  // An end-of-file chunk that jumps back into replaced lines: its new line is lost.
  lemma EofJumpLosesALine()
    ensures var lines := ["a", "b"];
            var chunks := [Chunk(None, ["a", "b"], ["x"], false), Chunk(None, ["b"], ["y"], true)];
            && Compute(lines, chunks) == Ok([Replacement(0, 2, ["x"]), Replacement(1, 1, ["y"])])
            && !FitsTogether(lines, chunks, 0, 0, false)
            && Backward(lines, Compute(lines, chunks).value) == ["x"]
  {
    var lines := ["a", "b"];
    var first, second := Chunk(None, ["a", "b"], ["x"], false), Chunk(None, ["b"], ["y"], true);
    var r0, r1 := Replacement(0, 2, ["x"]), Replacement(1, 1, ["y"]);
    assert lines[0..2] == ["a", "b"] && lines[1..2] == ["b"];
    SeekSingle(lines, ["a", "b"], 0, false, 0);
    SeekSingle(lines, ["b"], 2, true, 1);
    assert [first, second][1..] == [second] && [second][1..] == [];
    assert Place(lines, [], 2) == Ok([]);
    assert Locate(lines, first, 0) == Some(r0) && Locate(lines, second, 2) == Some(r1);
    assert [r1] + [] == [r1];
    assert Place(lines, [second], 2) == Ok([r1]);
    assert [r0] + [r1] == [r0, r1];
    assert Place(lines, [first, second], 0) == Ok([r0, r1]);
    assert [r0, r1][1..] == [r1] && [r1][1..] == [];
    assert SortByStart([r1]) == [r1];
    assert Backward(lines, [r1]) == ["a", "y"];
  }

  // An insertion in front of a blank last line that another chunk replaces: the insertion is lost.
  lemma InsertionBeforeBlankIsLost()
    ensures var lines := ["a", ""];
            var chunks := [Chunk(None, [], ["n"], false), Chunk(None, ["a", ""], ["x"], false)];
            && Compute(lines, chunks) == Ok([Replacement(0, 2, ["x"]), Replacement(1, 0, ["n"])])
            && !FitsTogether(lines, chunks, 0, 0, false)
            && Backward(lines, Compute(lines, chunks).value) == ["x", ""]
  {
    var lines := ["a", ""];
    var first, second := Chunk(None, [], ["n"], false), Chunk(None, ["a", ""], ["x"], false);
    var r0, r1 := Replacement(1, 0, ["n"]), Replacement(0, 2, ["x"]);
    assert lines[0..2] == ["a", ""];
    SeekSingle(lines, ["a", ""], 0, false, 0);
    assert [first, second][1..] == [second] && [second][1..] == [];
    assert Locate(lines, second, 0) == Some(r1);
    assert Place(lines, [], 2) == Ok([]);
    assert [r1] + [] == [r1];
    assert Place(lines, [second], 0) == Ok([r1]);
    assert [r0] + [r1] == [r0, r1];
    assert Place(lines, [first, second], 0) == Ok([r0, r1]);
    assert [r0, r1][1..] == [r1] && [r1, r0][1..] == [r0] && [r1][1..] == [] && [r0][1..] == [];
    assert SortByStart([r1]) == [r1];
    assert InsertByStart(r0, []) == [r0];
    assert [r1] + [r0] == [r1, r0];
    assert InsertByStart(r0, [r1]) == [r1, r0];
    assert SortByStart([r0, r1]) == [r1, r0];
    assert Backward(lines, [r0]) == ["a", "n", ""];
  }

  // ----- the program

  lemma PrependNothing(rest: Result<seq<Replacement>, UpdateError>)
    ensures Prepend([], rest) == rest
  {
    assert rest.Ok? ==> [] + rest.value == rest.value;
  }

  lemma PrependTwice(rs: seq<Replacement>, r: Replacement, rest: Result<seq<Replacement>, UpdateError>)
    ensures Prepend(rs, Prepend([r], rest)) == Prepend(rs + [r], rest)
  {
    assert rest.Ok? ==> rs + ([r] + rest.value) == (rs + [r]) + rest.value;
  }

  method LocateOldLines(originalLines: seq<string>, chunk: Chunk, lineIndex: nat) returns (r: Option<Replacement>)
    requires lineIndex <= |originalLines| && chunk.oldLines != []
    ensures r == Locate(originalLines, chunk, lineIndex)
  {
    var pattern := chunk.oldLines;
    var newSlice := chunk.newLines;
    var found := SeekSequence(originalLines, pattern, lineIndex, chunk.isEndOfFile);
    if found.None? && pattern[|pattern| - 1] == "" {
      pattern := pattern[..|pattern| - 1];
      if |newSlice| > 0 && newSlice[|newSlice| - 1] == "" {
        newSlice := newSlice[..|newSlice| - 1];
      }
      found := SeekSequence(originalLines, pattern, lineIndex, chunk.isEndOfFile);
    }
    return if found.None? then None else Some(Replacement(found.value, |pattern|, newSlice));
  }

  method SkipContext(originalLines: seq<string>, chunk: Chunk, cursor: nat) returns (lineIndex: Option<nat>)
    requires cursor <= |originalLines|
    ensures lineIndex == AfterContext(originalLines, chunk, cursor)
  {
    if chunk.context.Some? && chunk.context.value != "" {
      var ctxIndex := SeekSequence(originalLines, [chunk.context.value], cursor, false);
      return if ctxIndex.None? then None else Some(ctxIndex.value + 1);
    }
    return Some(cursor);
  }

  method PlaceChunk(originalLines: seq<string>, chunk: Chunk, cursor: nat) returns (r: Result<Placed, UpdateError>)
    requires cursor <= |originalLines|
    ensures r == PlaceOne(originalLines, chunk, cursor)
  {
    var lineIndex := SkipContext(originalLines, chunk, cursor);
    if lineIndex.None? {
      return Err(ContextNotFound(chunk.context.value));
    }
    if |chunk.oldLines| == 0 {
      var insertionIndex := if |originalLines| > 0 && originalLines[|originalLines| - 1] == ""
                            then |originalLines| - 1 else |originalLines|;
      return Ok(Placed(Replacement(insertionIndex, 0, chunk.newLines), lineIndex.value));
    }
    var found := LocateOldLines(originalLines, chunk, lineIndex.value);
    if found.None? {
      return Err(LinesNotFound(chunk.oldLines));
    }
    return Ok(Placed(found.value, found.value.End()));
  }

  method ComputeReplacements(originalLines: seq<string>, chunks: seq<Chunk>)
    returns (result: Result<seq<Replacement>, UpdateError>)
    ensures result == Compute(originalLines, chunks)
  {
    var replacements: seq<Replacement> := [];
    var lineIndex: nat := 0;
    PrependNothing(Place(originalLines, chunks, 0));
    assert chunks[0..] == chunks;
    var k := 0;
    while k < |chunks|
      invariant 0 <= k <= |chunks|
      invariant lineIndex <= |originalLines|
      invariant Place(originalLines, chunks, 0) ==
                Prepend(replacements, Place(originalLines, chunks[k..], lineIndex))
    {
      assert chunks[k..][1..] == chunks[k + 1..];
      var placed := PlaceChunk(originalLines, chunks[k], lineIndex);
      if placed.Err? {
        return Err(placed.error);
      }
      k := k + 1;
      lineIndex := placed.value.cursor;
      PrependTwice(replacements, placed.value.replacement, Place(originalLines, chunks[k..], lineIndex));
      replacements := replacements + [placed.value.replacement];
    }
    assert replacements + [] == replacements;
    return Ok(SortByStart(replacements));
  }

  // ----- files as text

  // The lines of a file, each ended by a newline.
  function TextOf(lines: seq<string>): string {
    if lines == [] then "" else lines[0] + "\n" + TextOf(lines[1..])
  }

  function FileLines(contents: string): seq<string> {
    WithoutBlankLast(Lines(contents))
  }

  // What is written back: a final newline is added only after a non-blank last line.
  function FileText(lines: seq<string>): string {
    JoinLines(if |lines| == 0 || lines[|lines| - 1] != "" then lines + [""] else lines)
  }

  ghost predicate NoNewlines(lines: seq<string>) {
    forall l :: l in lines ==> '\n' !in l
  }

  lemma {:induction false} TextIsJoin(lines: seq<string>)
    ensures TextOf(lines) == JoinLines(lines + [""])
  {
    if lines != [] {
      TextIsJoin(lines[1..]);
      assert (lines + [""])[1..] == lines[1..] + [""];
    }
  }

  // Reading a file of newline-ended lines gives those lines back.
  lemma FileLinesOfText(lines: seq<string>)
    requires NoNewlines(lines)
    ensures FileLines(TextOf(lines)) == lines
  {
    TextIsJoin(lines);
    LinesOfJoin(lines + [""]);
    assert (lines + [""])[..|lines|] == lines;
  }

  lemma {:induction false} JoinThenBlank(ls: seq<string>)
    requires ls != []
    ensures JoinLines(ls + [""]) == JoinLines(ls) + "\n"
  {
    assert (ls + [""])[1..] == ls[1..] + [""];
    if |ls| > 1 {
      JoinThenBlank(ls[1..]);
    } else {
      assert JoinLines([""]) == "";
    }
  }

  // What is read of any file, whether its last line is ended by a newline or not.
  lemma FileLinesOfContents(contents: string)
    ensures var text := TextOf(FileLines(contents)); text == contents || text == contents + "\n"
    ensures NoNewlines(FileLines(contents))
  {
    var ls := Lines(contents);
    JoinOfLines(contents);
    TextIsJoin(FileLines(contents));
    if ls[|ls| - 1] == "" {
      assert ls == ls[..|ls| - 1] + [""];
    } else {
      JoinThenBlank(ls);
    }
  }

  // The file written back has every line ended by a newline exactly when its last line is not blank;
  // a blank last line loses its newline.
  lemma {:induction false} FileTextIsTextIff(lines: seq<string>)
    ensures FileText(lines) == TextOf(lines) <==> lines == [] || lines[|lines| - 1] != ""
  {
    TextIsJoin(lines);
    if lines != [] && lines[|lines| - 1] == "" {
      JoinThenBlank(lines);
    }
  }

  ghost function Updated(contents: string, chunks: seq<Chunk>): Result<string, UpdateError> {
    match Compute(FileLines(contents), chunks)
    case Err(e) => Err(e)
    case Ok(rs) => Ok(FileText(Backward(FileLines(contents), rs)))
  }

  method ApplyUpdateHunk(originalContents: string, chunks: seq<Chunk>) returns (result: Result<string, UpdateError>)
    ensures result == Updated(originalContents, chunks)
  {
    var originalLines := Lines(originalContents);
    if |originalLines| > 0 && originalLines[|originalLines| - 1] == "" {
      originalLines := originalLines[..|originalLines| - 1];
    }
    var replacements := ComputeReplacements(originalLines, chunks);
    if replacements.Err? {
      return Err(replacements.error);
    }
    var newLines := ApplyReplacements(originalLines, replacements.value);
    if |newLines| == 0 || newLines[|newLines| - 1] != "" {
      newLines := newLines + [""];
    }
    return Ok(JoinLines(newLines));
  }
}
