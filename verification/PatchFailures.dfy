/** What a patch does that cannot be carried out: the changes in front of the failing one, and nothing else. */
module PatchFailures {
  import opened Text
  import opened LineSearch
  import opened Replacements
  import opened ApplyPatchUpdate
  import opened PatchLines
  import opened PatchParser
  import opened PatchPrinter
  import opened PatchApply

  // ----- a hunk that fails behind changes that do not

  lemma {:induction false} HunksOfTogether(hs: seq<HunkText>, more: seq<HunkText>)
    ensures HunksOf(hs + more) == HunksOf(hs) + HunksOf(more)
  {
    if hs == [] {
      assert hs + more == more;
    } else {
      assert (hs + more)[1..] == hs[1..] + more;
      HunksOfTogether(hs[1..], more);
    }
  }

  // The summary once the changes are made.
  function Noted(summary: Summary, changes: seq<Change>): Summary
    requires AllExpressible(changes)
    decreases |changes|
  {
    if changes == [] then summary else Noted(Recorded(summary, HunkOf(HunkTextOf(changes[0]))), changes[1..])
  }

  lemma ChangeThenHunks(files: Files, change: Change, hunk: Hunk, more: seq<Hunk>, summary: Summary, outcome: Outcome)
    requires Expressible(change) && Possible(files, change) && hunk == HunkOf(HunkTextOf(change))
    requires ApplyHunks(Done(files, change), more, Recorded(summary, hunk)) == outcome
    ensures ApplyHunks(files, [hunk] + more, summary) == outcome
  {
    HunkDoesChange(files, change);
    assert ([hunk] + more)[1..] == more;
  }

  lemma {:induction false} ChangesThenHunks(files: Files, changes: seq<Change>, rest: seq<Hunk>, hunks: seq<Hunk>,
                                            summary: Summary, outcome: Outcome)
    requires AllExpressible(changes) && AllPossible(files, changes)
    requires hunks == HunksOf(HunkTexts(changes)) + rest
    requires ApplyHunks(AllDone(files, changes), rest, Noted(summary, changes)) == outcome
    ensures ApplyHunks(files, hunks, summary) == outcome
    decreases |changes|
  {
    if changes == [] {
      assert hunks == rest;
    } else {
      var hunk, more := HunkOf(HunkTextOf(changes[0])), HunksOf(HunkTexts(changes[1..]));
      ChangesThenHunks(Done(files, changes[0]), changes[1..], rest, more + rest, Recorded(summary, hunk), outcome);
      HunksOfCons(changes);
      Associates([hunk], more, rest);
      ChangeThenHunks(files, changes[0], hunk, more + rest, summary, outcome);
    }
  }

  lemma FirstHunkStops(files: Files, hunk: Hunk, more: seq<Hunk>, summary: Summary, e: ApplyError)
    requires ApplyHunk(files, hunk) == Err(e)
    ensures ApplyHunks(files, [hunk] + more, summary) == Outcome(files, Err(e))
  {
  }

  // The patch is carried out up to the hunk that fails; what is behind it is not tried.
  lemma PatchStopsAt(files: Files, changes: seq<Change>, h: HunkText, more: seq<HunkText>, hs: seq<HunkText>, e: ApplyError)
    requires AllExpressible(changes) && AllPossible(files, changes)
    requires hs == HunkTexts(changes) + ([h] + more) && Printable(hs)
    requires ApplyHunk(AllDone(files, changes), HunkOf(h)) == Err(e)
    ensures Applied(files, PrintPatch(hs)) == Outcome(AllDone(files, changes), Err(e))
  {
    ParsePrinted(hs);
    HunksOfTogether(HunkTexts(changes), [h] + more);
    assert ([h] + more)[1..] == more;
    var none, rest := Summary([], [], []), HunksOf([h] + more);
    FirstHunkStops(AllDone(files, changes), HunkOf(h), HunksOf(more), Noted(none, changes), e);
    ChangesThenHunks(files, changes, rest, HunksOf(hs), none, Outcome(AllDone(files, changes), Err(e)));
  }

  // Deleting or updating a file that is not there.
  lemma MissingFileIsReported(files: Files, changes: seq<Change>, h: HunkText, more: seq<HunkText>, hs: seq<HunkText>)
    requires AllExpressible(changes) && AllPossible(files, changes)
    requires hs == HunkTexts(changes) + ([h] + more) && Printable(hs)
    requires !h.AddText? && h.path !in AllDone(files, changes)
    ensures Applied(files, PrintPatch(hs)) == Outcome(AllDone(files, changes), Err(FileMissing(h.path)))
  {
    PatchStopsAt(files, changes, h, more, hs, FileMissing(h.path));
  }

  // A text that is no patch, and a patch without hunks.
  lemma NothingToDoIsReported(files: Files, input: string)
    ensures ParsePatch(input).Err? ==> Applied(files, input) == Outcome(files, Err(BadPatch(ParsePatch(input).error)))
    ensures Applied(files, PrintPatch([])) == Outcome(files, Err(NoFilesModified))
  {
    ParsePrinted([]);
  }

  // ----- a chunk that is not found behind chunks that are

  // Where the search goes on behind the blocks.
  function BehindBlocks(pos: nat, blocks: seq<Block>): nat
    decreases |blocks|
  {
    if blocks == [] then pos else BehindBlocks(Behind(pos, blocks[0]), blocks[1..])
  }

  lemma PlaceErrs(lines: seq<string>, pos: nat, chunk: Chunk, p: Placed, chunks: seq<Chunk>, e: UpdateError)
    requires pos <= |lines| && p.cursor <= |lines|
    requires PlaceOne(lines, chunk, pos) == Ok(p) && Place(lines, chunks, p.cursor) == Err(e)
    ensures Place(lines, [chunk] + chunks, pos) == Err(e)
  {
    assert ([chunk] + chunks)[1..] == chunks;
  }

  lemma PlaceErrsFirst(lines: seq<string>, pos: nat, chunk: Chunk, chunks: seq<Chunk>, e: UpdateError)
    requires pos <= |lines| && PlaceOne(lines, chunk, pos) == Err(e)
    ensures Place(lines, [chunk] + chunks, pos) == Err(e)
  {
  }

  lemma BlockThenError(lines: seq<string>, pos: nat, b: Block, next: nat, below: seq<string>, later: seq<Chunk>,
                       e: UpdateError)
    requires pos <= |lines| && lines[pos..] == b.gap + OldLines(b) + below && next == Behind(pos, b) <= |lines|
    requires FirstFoundAt(lines, pos, b, pos + |b.gap|) && Place(lines, later, next) == Err(e)
    ensures Place(lines, [ChunkFor(b)] + later, pos) == Err(e)
  {
    var r := ReplacementOf(pos, b, InsertionIndex(lines));
    var p := Placed(r, next);
    BlockIsPlaced(lines, pos, b, r, below, p);
    PlaceErrs(lines, pos, ChunkFor(b), p, later, e);
  }

  lemma LaterChunks(b: Block, rest: seq<Block>, more: seq<Chunk>)
    requires AnchorInGap(b) && AnchorsInGaps(rest)
    ensures AnchorsInGaps([b] + rest)
    ensures ChunksOf(ChunkTexts([b] + rest)) + more == [ChunkFor(b)] + (ChunksOf(ChunkTexts(rest)) + more)
  {
    ChunksOfCons(b, rest);
    Associates([ChunkFor(b)], ChunksOf(ChunkTexts(rest)), more);
  }

  // The chunks behind some blocks, of which the first is not found.
  lemma {:induction false} BlocksThenError(lines: seq<string>, pos: nat, blocks: seq<Block>, tail: seq<string>,
                                           bad: seq<Chunk>, chunks: seq<Chunk>, at: nat, e: UpdateError)
    requires pos <= |lines| && lines[pos..] == OldFile(blocks, tail)
    requires AnchorsInGaps(blocks) && Anchored(lines, pos, blocks)
    requires at == BehindBlocks(pos, blocks) && at <= |lines| && Place(lines, bad, at) == Err(e)
    requires chunks == ChunksOf(ChunkTexts(blocks)) + bad
    ensures Place(lines, chunks, pos) == Err(e)
    decreases |blocks|
  {
    if blocks == [] {
      assert chunks == bad;
    } else {
      var b, rest, next := blocks[0], blocks[1..], Behind(pos, blocks[0]);
      BlockEnds(lines, pos, b, next, OldFile(rest, tail));
      BlocksThenError(lines, next, rest, tail, bad, ChunksOf(ChunkTexts(rest)) + bad, at, e);
      BlockThenError(lines, pos, b, next, OldFile(rest, tail), ChunksOf(ChunkTexts(rest)) + bad, e);
      LaterChunks(b, rest, bad);
      assert [b] + rest == blocks;
    }
  }

  // The chunk's context line matches no line from the cursor on, not even loosely.
  lemma ContextIsMissing(lines: seq<string>, chunk: Chunk, at: nat)
    requires at <= |lines| && chunk.context.Some? && chunk.context.value != ""
    requires Nowhere(lines, [chunk.context.value], at, false)
    ensures PlaceOne(lines, chunk, at) == Err(ContextNotFound(chunk.context.value))
  {
    SeekIsComplete(lines, [chunk.context.value], at, false);
  }

  lemma NotLocated(lines: seq<string>, chunk: Chunk, from: nat)
    requires from <= |lines| && chunk.oldLines != [] && Nowhere(lines, chunk.oldLines, from, chunk.isEndOfFile)
    requires var shorter := WithoutBlankLast(chunk.oldLines);
             shorter != [] && Nowhere(lines, shorter, from, chunk.isEndOfFile)
    ensures Locate(lines, chunk, from) == None
  {
    SeekIsComplete(lines, chunk.oldLines, from, chunk.isEndOfFile);
    SeekIsComplete(lines, WithoutBlankLast(chunk.oldLines), from, chunk.isEndOfFile);
  }

  // Nor do its old lines, from behind the context line on; without a blank last one either, if they end in one.
  lemma LinesAreMissing(lines: seq<string>, chunk: Chunk, at: nat, gap: seq<string>, anchor: Option<nat>, from: nat)
    requires at + |gap| <= |lines| && lines[at..at + |gap|] == gap && Anchors(chunk, gap, anchor)
    requires from == SearchStart(at, anchor) && chunk.oldLines != []
    requires Nowhere(lines, chunk.oldLines, from, chunk.isEndOfFile)
    requires var shorter := WithoutBlankLast(chunk.oldLines);
             shorter != [] && Nowhere(lines, shorter, from, chunk.isEndOfFile)
    ensures PlaceOne(lines, chunk, at) == Err(LinesNotFound(chunk.oldLines))
  {
    ContextPassed(lines, at, gap, anchor, chunk);
    NotLocated(lines, chunk, from);
  }

  // Behind changes that are carried out, and behind chunks that are found, one that is not makes the patch fail; the
  // file it is in stays as it was.
  lemma UnfoundChunkIsReported(files: Files, changes: seq<Change>, path: string, movePath: Option<string>,
                               blocks: seq<Block>, tail: seq<string>, c: ChunkText, cs: seq<ChunkText>,
                               more: seq<HunkText>, hs: seq<HunkText>, e: UpdateError)
    requires AllExpressible(changes) && AllPossible(files, changes) && path in AllDone(files, changes)
    requires FileLines(AllDone(files, changes)[path]) == OldFile(blocks, tail) && AnchorsInGaps(blocks)
    requires Anchored(OldFile(blocks, tail), 0, blocks)
    requires BehindBlocks(0, blocks) <= |OldFile(blocks, tail)|
    requires PlaceOne(OldFile(blocks, tail), ChunkOf(c), BehindBlocks(0, blocks)) == Err(e)
    requires hs == HunkTexts(changes) + ([UpdateText(path, movePath, ChunkTexts(blocks) + ([c] + cs))] + more)
    requires Printable(hs)
    ensures Applied(files, PrintPatch(hs)) == Outcome(AllDone(files, changes), Err(UpdateFailed(path, e)))
  {
    var lines := OldFile(blocks, tail);
    var h := UpdateText(path, movePath, ChunkTexts(blocks) + ([c] + cs));
    assert lines[0..] == lines;
    ChunksOfTogether(ChunkTexts(blocks), [c] + cs);
    assert ([c] + cs)[1..] == cs;
    PlaceErrsFirst(lines, BehindBlocks(0, blocks), ChunkOf(c), ChunksOf(cs), e);
    BlocksThenError(lines, 0, blocks, tail, ChunksOf([c] + cs), ChunksOf(h.chunks), BehindBlocks(0, blocks), e);
    PatchStopsAt(files, changes, h, more, hs, UpdateFailed(path, e));
  }

  lemma {:induction false} ChunksOfTogether(cs: seq<ChunkText>, more: seq<ChunkText>)
    ensures ChunksOf(cs + more) == ChunksOf(cs) + ChunksOf(more)
  {
    if cs == [] {
      assert cs + more == more;
    } else {
      assert (cs + more)[1..] == cs[1..] + more;
      ChunksOfTogether(cs[1..], more);
    }
  }
}
