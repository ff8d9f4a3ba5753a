/**
 Applying a whole patch to a set of files, and what a printed patch does: the edit it was printed from.
 */
module PatchApply {
  import opened Text
  import opened LineSearch
  import opened Replacements
  import opened ApplyPatchUpdate
  import opened PatchParser
  import opened PatchPrinter

  // ----- an edit of one file

  // Lines left alone, then one chunk. The chunk may name one of the lines above it as its context, and
  // may be marked as the end of the file. A surplus chunk has a blank last line that the file does not have there.
  datatype Block = Block(gap: seq<string>, anchor: Option<nat>, edits: seq<Edit>, atEnd: bool, surplus: bool, style: Style)

  // The lines of the file that the chunk takes away, and those it puts in their place.
  function OldLines(b: Block): seq<string> {
    var was := OldSide(b.edits);
    if b.surplus && was != [] then was[..|was| - 1] else was
  }

  function NewLines(b: Block): seq<string> {
    var put := NewSide(b.edits);
    if b.surplus && put != [] && put[|put| - 1] == "" then put[..|put| - 1] else put
  }

  function OldFile(blocks: seq<Block>, tail: seq<string>): seq<string> {
    if blocks == [] then tail else blocks[0].gap + OldLines(blocks[0]) + OldFile(blocks[1..], tail)
  }

  // A chunk that takes no lines away has its place at the end of the file, wherever it stands in the patch.
  predicate IsAddition(b: Block) {
    OldSide(b.edits) == []
  }

  function KeptFile(blocks: seq<Block>, tail: seq<string>): seq<string> {
    if blocks == [] then tail
    else blocks[0].gap + (if IsAddition(blocks[0]) then [] else NewLines(blocks[0])) + KeptFile(blocks[1..], tail)
  }

  function Additions(blocks: seq<Block>): seq<string> {
    if blocks == [] then [] else (if IsAddition(blocks[0]) then NewLines(blocks[0]) else []) + Additions(blocks[1..])
  }

  // In front of a blank last line.
  function WithAdded(tail: seq<string>, added: seq<string>): seq<string> {
    if tail != [] && tail[|tail| - 1] == "" then tail[..|tail| - 1] + added + [""] else tail + added
  }

  function NewFile(blocks: seq<Block>, tail: seq<string>): seq<string> {
    KeptFile(blocks, WithAdded(tail, Additions(blocks)))
  }

  predicate AnchorInGap(b: Block) {
    && (b.anchor.Some? ==> b.anchor.value < |b.gap| && b.gap[b.anchor.value] != "")
    && (b.surplus ==> OldSide(b.edits) != [] && OldSide(b.edits)[|OldSide(b.edits)| - 1] == "")
  }

  function ContextOf(b: Block): Option<string>
    requires AnchorInGap(b)
  {
    if b.anchor.Some? then Some(b.gap[b.anchor.value]) else None
  }

  predicate AnchorsInGaps(blocks: seq<Block>) {
    blocks != [] ==> AnchorInGap(blocks[0]) && AnchorsInGaps(blocks[1..])
  }

  function ChunkTextOf(b: Block): ChunkText
    requires AnchorInGap(b)
  {
    ChunkText(b.style, ContextOf(b), b.edits, b.atEnd)
  }

  function ChunkTexts(blocks: seq<Block>): (r: seq<ChunkText>)
    requires AnchorsInGaps(blocks)
    ensures |r| == |blocks|
  {
    if blocks == [] then [] else [ChunkTextOf(blocks[0])] + ChunkTexts(blocks[1..])
  }

  function SearchStart(pos: nat, anchor: Option<nat>): nat {
    if anchor.Some? then pos + anchor.value + 1 else pos
  }

  // Not even the loosest comparison finds the pattern.
  ghost predicate Nowhere(lines: seq<string>, pattern: seq<string>, from: nat, atEnd: bool) {
    forall j :: WindowStart(lines, pattern, from, atEnd) <= j ==> !MatchesAt(Loosely, lines, pattern, j)
  }

  // The lines taken away, which start at `start`, are where the search from `from` first finds them. A chunk
  // whose only old line is surplus adds where the search begins.
  ghost predicate FoundAt(lines: seq<string>, from: nat, was: seq<string>, atEnd: bool, start: nat) {
    if was == [] then start == from
    else if atEnd then start + |was| == |lines|
    else forall j :: from <= j < start ==> !CopyAt(lines, was, j)
  }

  ghost predicate FirstFoundAt(lines: seq<string>, pos: nat, b: Block, start: nat) {
    && AnchorInGap(b)
    && (b.anchor.Some? ==> b.gap[b.anchor.value] !in b.gap[..b.anchor.value])
    && FoundAt(lines, SearchStart(pos, b.anchor), OldLines(b), b.atEnd, start)
    && (b.surplus ==> Nowhere(lines, OldSide(b.edits), SearchStart(pos, b.anchor), b.atEnd))
  }

  ghost predicate Anchored(lines: seq<string>, pos: nat, blocks: seq<Block>)
    decreases |blocks|
  {
    blocks != [] ==>
      var start := pos + |blocks[0].gap|;
      && FirstFoundAt(lines, pos, blocks[0], start)
      && Anchored(lines, start + |OldLines(blocks[0])|, blocks[1..])
  }

  // What is added at the end gets into nobody's way: everything else starts in front of it, and a blank last line that
  // it is put in front of stays.
  ghost predicate AddsBehind(lines: seq<string>, blocks: seq<Block>, tail: seq<string>) {
    (exists b :: b in blocks && IsAddition(b)) ==>
      AllBefore(0, blocks, InsertionIndex(lines)) && (InsertionIndex(lines) == |lines| || tail != [])
  }

  predicate AllBefore(pos: nat, blocks: seq<Block>, at: nat)
    decreases |blocks|
  {
    blocks != [] ==>
      && (IsAddition(blocks[0]) || pos + |blocks[0].gap| < at)
      && AllBefore(pos + |blocks[0].gap| + |OldLines(blocks[0])|, blocks[1..], at)
  }

  // ----- the chunks of an edit are placed where the edit wants them

  lemma LaidOut(lines: seq<string>, pos: nat, gap: seq<string>, was: seq<string>, rest: seq<string>)
    requires pos <= |lines| && lines[pos..] == gap + was + rest
    ensures var start := pos + |gap|;
            && start + |was| <= |lines|
            && lines[pos..start] == gap && CopyAt(lines, was, start) && lines[start + |was|..] == rest
  {
    var start := pos + |gap|;
    var all := lines[pos..];
    assert all[..|gap|] == gap && all[|gap|..|gap| + |was|] == was && all[|gap| + |was|..] == rest;
    assert lines[pos..start] == all[..|gap|];
    assert lines[start..start + |was|] == all[|gap|..|gap| + |was|];
    assert lines[start + |was|..] == all[|gap| + |was|..];
  }

  lemma ContextFound(lines: seq<string>, pos: nat, gap: seq<string>, a: nat)
    requires pos + |gap| <= |lines| && lines[pos..pos + |gap|] == gap
    requires a < |gap| && gap[a] !in gap[..a]
    ensures Seek(lines, [gap[a]], pos, false) == Some(pos + a)
  {
    var pattern := [gap[a]];
    forall i | 0 <= i < |gap|
      ensures lines[pos + i] == gap[i]
    {
      assert lines[pos..pos + |gap|][i] == lines[pos + i];
    }
    assert lines[pos + a..pos + a + 1] == pattern;
    forall j | pos <= j < pos + a
      ensures !CopyAt(lines, pattern, j)
    {
      assert lines[j] == gap[j - pos] == gap[..a][j - pos];
      assert lines[j..j + 1][0] == lines[j];
    }
    SeekFindsFirstCopy(lines, pattern, pos, false, pos + a);
  }

  // The chunk belongs to a block that leaves the lines of `gap` alone.
  predicate Anchors(chunk: Chunk, gap: seq<string>, anchor: Option<nat>) {
    && chunk.context.Some? == anchor.Some?
    && (anchor.Some? ==> anchor.value < |gap| && chunk.context == Some(gap[anchor.value]))
    && (anchor.Some? ==> gap[anchor.value] != "" && gap[anchor.value] !in gap[..anchor.value])
  }

  lemma ContextPassed(lines: seq<string>, pos: nat, gap: seq<string>, anchor: Option<nat>, chunk: Chunk)
    requires pos + |gap| <= |lines| && lines[pos..pos + |gap|] == gap
    requires Anchors(chunk, gap, anchor)
    ensures AfterContext(lines, chunk, pos) == Some(SearchStart(pos, anchor))
  {
    if anchor.Some? {
      ContextFound(lines, pos, gap, anchor.value);
    }
  }

  // The replacement that puts lines where `was` is found to start.
  predicate Replaces(r: Replacement, was: seq<string>, put: seq<string>, start: nat) {
    r.start == start && r.oldLen == |was| && r.newLines == put
  }

  // What the chunk takes away and puts in: all its lines, or all but the blank ones at the end.
  predicate Means(chunk: Chunk, surplus: bool, was: seq<string>, put: seq<string>) {
    if surplus then
      && chunk.oldLines == was + [""]
      && (chunk.newLines == put + [""] || (chunk.newLines == put && (put == [] || put[|put| - 1] != "")))
    else chunk.oldLines == was && chunk.newLines == put
  }

  lemma FoundBySearch(lines: seq<string>, from: nat, was: seq<string>, eof: bool, start: nat)
    requires from <= start && CopyAt(lines, was, start) && FoundAt(lines, from, was, eof, start)
    ensures Seek(lines, was, from, eof) == Some(start)
  {
    if was != [] { SeekFindsFirstCopy(lines, was, from, eof, start); }
  }

  // The search is tried again without the blank last line.
  lemma LocatedWithout(lines: seq<string>, from: nat, chunk: Chunk, was: seq<string>, start: nat)
    requires from <= |lines| && chunk.oldLines == was + [""]
    requires Seek(lines, chunk.oldLines, from, chunk.isEndOfFile) == None
    requires Seek(lines, was, from, chunk.isEndOfFile) == Some(start)
    ensures Locate(lines, chunk, from) == Some(Replacement(start, |was|, WithoutBlankLast(chunk.newLines)))
  {
    assert chunk.oldLines[..|chunk.oldLines| - 1] == was;
  }

  lemma SurplusLocated(lines: seq<string>, from: nat, chunk: Chunk, r: Replacement, was: seq<string>, put: seq<string>)
    requires from <= r.start <= |lines| && Means(chunk, true, was, put) && Replaces(r, was, put, r.start)
    requires CopyAt(lines, was, r.start) && FoundAt(lines, from, was, chunk.isEndOfFile, r.start)
    requires Nowhere(lines, chunk.oldLines, from, chunk.isEndOfFile)
    ensures Locate(lines, chunk, from) == Some(r)
  {
    SeekIsComplete(lines, chunk.oldLines, from, chunk.isEndOfFile);
    FoundBySearch(lines, from, was, chunk.isEndOfFile, r.start);
    LocatedWithout(lines, from, chunk, was, r.start);
    assert (put + [""])[..|put|] == put;
  }

  lemma ChunkPlaced(lines: seq<string>, pos: nat, from: nat, chunk: Chunk, surplus: bool, r: Replacement,
                    was: seq<string>, put: seq<string>)
    requires pos <= |lines| && from <= r.start <= |lines| && AfterContext(lines, chunk, pos) == Some(from)
    requires chunk.oldLines != [] && Means(chunk, surplus, was, put) && Replaces(r, was, put, r.start)
    requires CopyAt(lines, was, r.start) && FoundAt(lines, from, was, chunk.isEndOfFile, r.start)
    requires surplus ==> Nowhere(lines, chunk.oldLines, from, chunk.isEndOfFile)
    ensures r.End() <= |lines| && PlaceOne(lines, chunk, pos) == Ok(Placed(r, r.End()))
  {
    if surplus {
      SurplusLocated(lines, from, chunk, r, was, put);
    } else {
      FoundBySearch(lines, from, was, chunk.isEndOfFile, r.start);
    }
  }

  lemma AdditionPlaced(lines: seq<string>, pos: nat, from: nat, chunk: Chunk, r: Replacement, p: Placed)
    requires pos <= |lines| && AfterContext(lines, chunk, pos) == Some(from)
    requires chunk.oldLines == [] && Replaces(r, [], chunk.newLines, InsertionIndex(lines)) && p == Placed(r, from)
    ensures PlaceOne(lines, chunk, pos) == Ok(p)
  {
  }

  lemma PlaceCons(lines: seq<string>, pos: nat, chunk: Chunk, p: Placed, chunks: seq<Chunk>, rs: seq<Replacement>)
    requires pos <= |lines| && p.cursor <= |lines|
    requires PlaceOne(lines, chunk, pos) == Ok(p) && Place(lines, chunks, p.cursor) == Ok(rs)
    ensures Place(lines, [chunk] + chunks, pos) == Ok([p.replacement] + rs)
  {
    assert ([chunk] + chunks)[1..] == chunks;
  }

  // The replacements do not overlap, and splicing them in reads as `result` from `pos` on.
  ghost predicate Gives(lines: seq<string>, rs: seq<Replacement>, pos: nat, result: seq<string>)
    requires pos <= |lines|
  {
    Disjoint(rs, pos, |lines|) && Forward(lines, rs, pos) == result
  }

  lemma GivesCons(lines: seq<string>, pos: nat, r: Replacement, rs: seq<Replacement>, result: seq<string>)
    requires pos <= r.start && r.End() <= |lines| && Gives(lines, rs, r.End(), result)
    ensures Gives(lines, [r] + rs, pos, lines[pos..r.start] + r.newLines + result)
  {
    assert ([r] + rs)[1..] == rs;
  }

  // Where the search goes on behind a block.
  function Behind(pos: nat, b: Block): nat {
    pos + |b.gap| + |OldLines(b)|
  }

  function ReplacementOf(pos: nat, b: Block, at: nat): Replacement {
    Replacement(if IsAddition(b) then at else pos + |b.gap|, |OldLines(b)|, NewLines(b))
  }

  function ReplacementsOf(pos: nat, blocks: seq<Block>, at: nat): seq<Replacement>
    decreases |blocks|
  {
    if blocks == [] then []
    else [ReplacementOf(pos, blocks[0], at)] + ReplacementsOf(Behind(pos, blocks[0]), blocks[1..], at)
  }

  lemma BlockEnds(lines: seq<string>, pos: nat, b: Block, next: nat, below: seq<string>)
    requires pos <= |lines| && lines[pos..] == b.gap + OldLines(b) + below && next == Behind(pos, b)
    ensures next <= |lines| && lines[pos..pos + |b.gap|] == b.gap && lines[next..] == below
  {
    LaidOut(lines, pos, b.gap, OldLines(b), below);
  }

  function ChunkFor(b: Block): (chunk: Chunk)
    requires AnchorInGap(b)
    ensures chunk.oldLines == OldSide(b.edits) && chunk.newLines == NewSide(b.edits) && chunk.isEndOfFile == b.atEnd
    ensures chunk.context == ContextOf(b)
  {
    ChunkOf(ChunkTextOf(b))
  }

  lemma BlockMeans(b: Block)
    requires AnchorInGap(b)
    ensures Means(ChunkFor(b), b.surplus, OldLines(b), NewLines(b))
  {
    if b.surplus {
      assert OldLines(b) + [""] == OldSide(b.edits);
      var put := NewSide(b.edits);
      assert put != [] && put[|put| - 1] == "" ==> put[..|put| - 1] + [""] == put;
    }
  }

  lemma LinesPlaced(lines: seq<string>, pos: nat, from: nat, b: Block, chunk: Chunk, r: Replacement, p: Placed)
    requires pos <= |lines| && AnchorInGap(b) && chunk == ChunkFor(b) && !IsAddition(b)
    requires from <= r.start <= |lines| && AfterContext(lines, chunk, pos) == Some(from)
    requires Replaces(r, OldLines(b), NewLines(b), r.start) && CopyAt(lines, OldLines(b), r.start)
    requires FoundAt(lines, from, OldLines(b), b.atEnd, r.start)
    requires b.surplus ==> Nowhere(lines, chunk.oldLines, from, b.atEnd)
    requires p == Placed(r, r.End())
    ensures PlaceOne(lines, chunk, pos) == Ok(p)
  {
    BlockMeans(b);
    ChunkPlaced(lines, pos, from, chunk, b.surplus, r, OldLines(b), NewLines(b));
  }

  lemma BlockAnchors(b: Block)
    requires AnchorInGap(b) && (b.anchor.Some? ==> b.gap[b.anchor.value] !in b.gap[..b.anchor.value])
    ensures Anchors(ChunkFor(b), b.gap, b.anchor)
  {
  }

  // Where the search for a block begins and what is there.
  lemma BlockStands(lines: seq<string>, pos: nat, gap: seq<string>, anchor: Option<nat>, chunk: Chunk, was: seq<string>,
                    start: nat, from: nat, below: seq<string>)
    requires pos <= |lines| && lines[pos..] == gap + was + below && start == pos + |gap|
    requires Anchors(chunk, gap, anchor) && from == SearchStart(pos, anchor)
    ensures from <= start && start + |was| <= |lines|
    ensures AfterContext(lines, chunk, pos) == Some(from) && CopyAt(lines, was, start)
  {
    LaidOut(lines, pos, gap, was, below);
    ContextPassed(lines, pos, gap, anchor, chunk);
  }

  lemma AdditionIsPlaced(lines: seq<string>, pos: nat, b: Block, start: nat, r: Replacement, below: seq<string>, p: Placed)
    requires pos <= |lines| && lines[pos..] == b.gap + OldLines(b) + below && start == pos + |b.gap|
    requires FirstFoundAt(lines, pos, b, start) && r == ReplacementOf(pos, b, InsertionIndex(lines)) && IsAddition(b)
    requires p == Placed(r, Behind(pos, b))
    ensures p.cursor <= |lines| && PlaceOne(lines, ChunkFor(b), pos) == Ok(p)
  {
    var from, chunk := SearchStart(pos, b.anchor), ChunkFor(b);
    BlockAnchors(b);
    BlockStands(lines, pos, b.gap, b.anchor, chunk, OldLines(b), start, from, below);
    AdditionPlaced(lines, pos, from, chunk, r, p);
  }

  lemma LinesArePlaced(lines: seq<string>, pos: nat, b: Block, start: nat, r: Replacement, below: seq<string>, p: Placed)
    requires pos <= |lines| && lines[pos..] == b.gap + OldLines(b) + below && start == pos + |b.gap|
    requires FirstFoundAt(lines, pos, b, start) && r == Replacement(start, |OldLines(b)|, NewLines(b)) && !IsAddition(b)
    requires p == Placed(r, Behind(pos, b))
    ensures p.cursor <= |lines| && PlaceOne(lines, ChunkFor(b), pos) == Ok(p)
  {
    var from, chunk := SearchStart(pos, b.anchor), ChunkFor(b);
    BlockAnchors(b);
    BlockStands(lines, pos, b.gap, b.anchor, chunk, OldLines(b), start, from, below);
    LinesPlaced(lines, pos, from, b, chunk, r, p);
  }

  lemma BlockIsPlaced(lines: seq<string>, pos: nat, b: Block, r: Replacement, below: seq<string>, p: Placed)
    requires pos <= |lines| && lines[pos..] == b.gap + OldLines(b) + below
    requires FirstFoundAt(lines, pos, b, pos + |b.gap|) && r == ReplacementOf(pos, b, InsertionIndex(lines))
    requires p == Placed(r, Behind(pos, b))
    ensures p.cursor <= |lines| && PlaceOne(lines, ChunkFor(b), pos) == Ok(p)
  {
    if IsAddition(b) {
      AdditionIsPlaced(lines, pos, b, pos + |b.gap|, r, below, p);
    } else {
      LinesArePlaced(lines, pos, b, pos + |b.gap|, r, below, p);
    }
  }

  // One block placed in front of the other chunks.
  lemma BlockInFront(lines: seq<string>, pos: nat, b: Block, r: Replacement, below: seq<string>, chunks: seq<Chunk>,
                     next: nat, rs: seq<Replacement>)
    requires pos <= |lines| && lines[pos..] == b.gap + OldLines(b) + below
    requires FirstFoundAt(lines, pos, b, pos + |b.gap|) && r == ReplacementOf(pos, b, InsertionIndex(lines))
    requires next == Behind(pos, b) <= |lines| && Place(lines, chunks, next) == Ok(rs)
    ensures Place(lines, [ChunkFor(b)] + chunks, pos) == Ok([r] + rs)
  {
    var p := Placed(r, next);
    BlockIsPlaced(lines, pos, b, r, below, p);
    PlaceCons(lines, pos, ChunkFor(b), p, chunks, rs);
  }

  // What is anchored in front, and what behind.
  lemma AnchoredInTurn(lines: seq<string>, pos: nat, blocks: seq<Block>, b: Block, rest: seq<Block>, next: nat)
    requires blocks == [b] + rest && AnchorsInGaps(blocks) && Anchored(lines, pos, blocks) && next == Behind(pos, b)
    ensures AnchorsInGaps(rest) && FirstFoundAt(lines, pos, b, pos + |b.gap|) && Anchored(lines, next, rest)
    ensures ChunksOf(ChunkTexts(blocks)) == [ChunkFor(b)] + ChunksOf(ChunkTexts(rest))
  {
    assert blocks[1..] == rest;
    ChunksOfCons(b, rest);
  }

  lemma {:induction false} BlocksPlaced(lines: seq<string>, pos: nat, blocks: seq<Block>, tail: seq<string>, at: nat,
                                        chunks: seq<Chunk>)
    requires pos <= |lines| && lines[pos..] == OldFile(blocks, tail) && at == InsertionIndex(lines)
    requires AnchorsInGaps(blocks) && Anchored(lines, pos, blocks) && chunks == ChunksOf(ChunkTexts(blocks))
    ensures Place(lines, chunks, pos) == Ok(ReplacementsOf(pos, blocks, at))
    decreases |blocks|
  {
    if blocks != [] {
      var b, rest, next := blocks[0], blocks[1..], Behind(pos, blocks[0]);
      BlockEnds(lines, pos, b, next, OldFile(rest, tail));
      AnchoredInTurn(lines, pos, blocks, b, rest, next);
      var more := ChunksOf(ChunkTexts(rest));
      BlocksPlaced(lines, next, rest, tail, at, more);
      BlockInFront(lines, pos, b, ReplacementOf(pos, b, at), OldFile(rest, tail), more, next, ReplacementsOf(next, rest, at));
    }
  }

  lemma ChunksOfCons(b: Block, rest: seq<Block>)
    requires AnchorInGap(b) && AnchorsInGaps(rest)
    ensures AnchorsInGaps([b] + rest)
    ensures ChunksOf(ChunkTexts([b] + rest)) == [ChunkOf(ChunkTextOf(b))] + ChunksOf(ChunkTexts(rest))
  {
    assert ([b] + rest)[1..] == rest;
    assert ChunkTexts([b] + rest)[1..] == ChunkTexts(rest);
  }

  // ----- what the replacements make of the file

  // Those that are not added at the end.
  function Movers(pos: nat, blocks: seq<Block>): seq<Replacement>
    decreases |blocks|
  {
    if blocks == [] then []
    else
      (if IsAddition(blocks[0]) then [] else [Replacement(pos + |blocks[0].gap|, |OldLines(blocks[0])|, NewLines(blocks[0]))])
      + Movers(Behind(pos, blocks[0]), blocks[1..])
  }

  function Adders(blocks: seq<Block>, at: nat): seq<Replacement> {
    if blocks == [] then []
    else (if IsAddition(blocks[0]) then [Replacement(at, 0, NewLines(blocks[0]))] else []) + Adders(blocks[1..], at)
  }

  lemma PartsOfBlock(r: Replacement, rs: seq<Replacement>, at: nat)
    requires r.start <= at && StartsUpTo(rs, at)
    ensures StartsUpTo([r] + rs, at)
    ensures StartingBefore([r] + rs, at) == (if r.start < at then [r] else []) + StartingBefore(rs, at)
    ensures StartingAt([r] + rs, at) == (if r.start == at then [r] else []) + StartingAt(rs, at)
  {
    assert ([r] + rs)[1..] == rs;
  }

  lemma PartsCons(pos: nat, blocks: seq<Block>, at: nat, b: Block, rest: seq<Block>, r: Replacement)
    requires blocks == [b] + rest && r == ReplacementOf(pos, b, at) && (IsAddition(b) || pos + |b.gap| < at)
    ensures r.start <= at && ReplacementsOf(pos, blocks, at) == [r] + ReplacementsOf(Behind(pos, b), rest, at)
    ensures Movers(pos, blocks) == (if r.start < at then [r] else []) + Movers(Behind(pos, b), rest)
    ensures Adders(blocks, at) == (if r.start == at then [r] else []) + Adders(rest, at)
  {
    assert blocks[1..] == rest;
    if IsAddition(b) { assert OldLines(b) == []; }
  }

  lemma {:induction false} PartsOfBlocks(pos: nat, blocks: seq<Block>, at: nat, rs: seq<Replacement>)
    requires AllBefore(pos, blocks, at) && rs == ReplacementsOf(pos, blocks, at)
    ensures StartsUpTo(rs, at) && StartingBefore(rs, at) == Movers(pos, blocks) && StartingAt(rs, at) == Adders(blocks, at)
    decreases |blocks|
  {
    if blocks != [] {
      var b, rest, next := blocks[0], blocks[1..], Behind(pos, blocks[0]);
      var r, more := ReplacementOf(pos, b, at), ReplacementsOf(next, rest, at);
      PartsOfBlocks(next, rest, at, more);
      PartsCons(pos, blocks, at, b, rest, r);
      PartsOfBlock(r, more, at);
    }
  }

  lemma {:induction false} NothingAdded(pos: nat, blocks: seq<Block>, at: nat)
    requires forall b :: b in blocks ==> !IsAddition(b)
    ensures ReplacementsOf(pos, blocks, at) == Movers(pos, blocks) && Adders(blocks, at) == [] && Additions(blocks) == []
    decreases |blocks|
  {
    if blocks != [] {
      assert forall b :: b in blocks[1..] ==> b in blocks;
      NothingAdded(Behind(pos, blocks[0]), blocks[1..], at);
    }
  }

  lemma GivesEarlier(lines: seq<string>, pos: nat, next: nat, rs: seq<Replacement>, result: seq<string>)
    requires pos <= next <= |lines| && Gives(lines, rs, next, result)
    ensures Gives(lines, rs, pos, lines[pos..next] + result)
  {
    if rs == [] {
      assert lines[pos..next] + lines[next..] == lines[pos..];
    } else {
      DisjointBounds(rs, next, |lines|);
      var start := rs[0].start;
      assert lines[pos..next] + lines[next..start] == lines[pos..start];
    }
  }

  lemma BlockGives(lines: seq<string>, pos: nat, b: Block, start: nat, next: nat, below: seq<string>,
                   rs: seq<Replacement>, result: seq<string>)
    requires pos <= |lines| && lines[pos..] == b.gap + OldLines(b) + below
    requires start == pos + |b.gap| && next == Behind(pos, b) <= |lines| && Gives(lines, rs, next, result)
    ensures IsAddition(b) ==> Gives(lines, rs, pos, b.gap + result)
    ensures Gives(lines, [Replacement(start, |OldLines(b)|, NewLines(b))] + rs, pos, b.gap + NewLines(b) + result)
  {
    BlockEnds(lines, pos, b, next, below);
    GivesCons(lines, pos, Replacement(start, |OldLines(b)|, NewLines(b)), rs, result);
    if IsAddition(b) { GivesEarlier(lines, pos, next, rs, result); }
  }

  lemma {:induction false} BlocksGive(lines: seq<string>, pos: nat, blocks: seq<Block>, tail: seq<string>, end: nat,
                                      adds: seq<Replacement>, result: seq<string>)
    requires pos <= |lines| && lines[pos..] == OldFile(blocks, tail)
    requires end + |tail| == |lines| && Gives(lines, adds, end, result)
    ensures Gives(lines, Movers(pos, blocks) + adds, pos, KeptFile(blocks, result))
    decreases |blocks|
  {
    if blocks == [] {
      assert [] + adds == adds;
    } else {
      var b, next, rs := blocks[0], Behind(pos, blocks[0]), Movers(Behind(pos, blocks[0]), blocks[1..]);
      BlockEnds(lines, pos, b, next, OldFile(blocks[1..], tail));
      BlocksGive(lines, next, blocks[1..], tail, end, adds, result);
      BlockGives(lines, pos, b, pos + |b.gap|, next, OldFile(blocks[1..], tail), rs + adds, KeptFile(blocks[1..], result));
      MoversCons(pos, b, blocks, rs, adds, KeptFile(blocks[1..], result), result);
    }
  }

  lemma MoversCons(pos: nat, b: Block, blocks: seq<Block>, rs: seq<Replacement>, adds: seq<Replacement>,
                   below: seq<string>, result: seq<string>)
    requires blocks != [] && b == blocks[0] && rs == Movers(Behind(pos, b), blocks[1..])
    requires below == KeptFile(blocks[1..], result)
    ensures Movers(pos, blocks) + adds ==
              if IsAddition(b) then rs + adds else [Replacement(pos + |b.gap|, |OldLines(b)|, NewLines(b))] + (rs + adds)
    ensures KeptFile(blocks, result) == if IsAddition(b) then b.gap + below else b.gap + NewLines(b) + below
  {
    if IsAddition(b) {
      assert [] + rs == rs && b.gap + [] == b.gap;
    }
  }

  lemma AdderGives(lines: seq<string>, pos: nat, at: nat, put: seq<string>, rs: seq<Replacement>, below: seq<string>)
    requires pos <= at <= |lines| && Gives(lines, rs, at, lines[at..at] + below)
    ensures Gives(lines, [Replacement(at, 0, put)] + rs, pos, lines[pos..at] + (put + below))
  {
    assert lines[at..at] + below == below;
    GivesCons(lines, pos, Replacement(at, 0, put), rs, below);
    assert lines[pos..at] + put + below == lines[pos..at] + (put + below);
  }

  lemma AddersCons(b: Block, blocks: seq<Block>, at: nat, rest: seq<string>)
    requires blocks != [] && b == blocks[0]
    ensures Adders(blocks, at) == if IsAddition(b) then [Replacement(at, 0, NewLines(b))] + Adders(blocks[1..], at)
                                  else Adders(blocks[1..], at)
    ensures Additions(blocks) + rest ==
              if IsAddition(b) then NewLines(b) + (Additions(blocks[1..]) + rest) else Additions(blocks[1..]) + rest
  {
    var adders, additions := Adders(blocks[1..], at), Additions(blocks[1..]);
    assert [] + adders == adders && [] + additions == additions;
  }

  lemma {:induction false} AddersGive(lines: seq<string>, pos: nat, blocks: seq<Block>, at: nat, rest: seq<string>)
    requires pos <= at <= |lines| && rest == lines[at..]
    ensures Gives(lines, Adders(blocks, at), pos, lines[pos..at] + (Additions(blocks) + rest))
    decreases |blocks|
  {
    if blocks == [] {
      assert lines[pos..at] + ([] + rest) == lines[pos..];
    } else {
      var b := blocks[0];
      AddersGive(lines, if IsAddition(b) then at else pos, blocks[1..], at, rest);
      AddersCons(b, blocks, at, rest);
      if IsAddition(b) {
        AdderGives(lines, pos, at, NewLines(b), Adders(blocks[1..], at), Additions(blocks[1..]) + rest);
      }
    }
  }

  lemma AddedIsMeant(lines: seq<string>, end: nat, tail: seq<string>, at: nat, added: seq<string>)
    requires end + |tail| == |lines| && lines[end..] == tail && at == InsertionIndex(lines)
    requires at == |lines| || tail != []
    ensures end <= at <= |lines| && lines[end..at] + (added + lines[at..]) == WithAdded(tail, added)
  {
    if tail != [] { assert lines[|lines| - 1] == tail[|tail| - 1]; }
    if at == |lines| {
      assert lines[end..at] == tail && added + lines[at..] == added;
    } else {
      assert lines[end..at] == tail[..|tail| - 1] && lines[at..] == [""];
    }
  }

  lemma {:induction false} TailEnds(lines: seq<string>, pos: nat, blocks: seq<Block>, tail: seq<string>, end: nat)
    requires pos <= |lines| && lines[pos..] == OldFile(blocks, tail)
    requires end + |tail| == |lines|
    ensures lines[end..] == tail
    decreases |blocks|
  {
    if blocks != [] {
      BlockEnds(lines, pos, blocks[0], Behind(pos, blocks[0]), OldFile(blocks[1..], tail));
      TailEnds(lines, Behind(pos, blocks[0]), blocks[1..], tail, end);
    }
  }

  lemma {:induction false} TailFits(blocks: seq<Block>, tail: seq<string>)
    ensures |tail| <= |OldFile(blocks, tail)|
  {
    if blocks != [] { TailFits(blocks[1..], tail); }
  }

  // Behind everything else, what is added at the end and the lines below the last chunk are left.
  lemma EndGives(lines: seq<string>, blocks: seq<Block>, tail: seq<string>, at: nat, end: nat)
    requires end + |tail| == |lines| && lines[end..] == tail && at == InsertionIndex(lines)
    requires AddsBehind(lines, blocks, tail)
    ensures Gives(lines, Adders(blocks, at), end, WithAdded(tail, Additions(blocks)))
  {
    if b :| b in blocks && IsAddition(b) {
      AddedIsMeant(lines, end, tail, at, Additions(blocks));
      AddersGive(lines, end, blocks, at, lines[at..]);
    } else {
      NothingAdded(0, blocks, at);
      assert tail + [] == tail && (tail != [] ==> tail == tail[..|tail| - 1] + [] + [tail[|tail| - 1]]);
    }
  }

  lemma AllGiven(lines: seq<string>, blocks: seq<Block>, tail: seq<string>, at: nat)
    requires lines == OldFile(blocks, tail) && at == InsertionIndex(lines)
    requires AddsBehind(lines, blocks, tail)
    ensures Gives(lines, Movers(0, blocks) + Adders(blocks, at), 0, NewFile(blocks, tail))
  {
    TailFits(blocks, tail);
    var end := |lines| - |tail|;
    assert lines[0..] == lines;
    TailEnds(lines, 0, blocks, tail, end);
    EndGives(lines, blocks, tail, at, end);
    BlocksGive(lines, 0, blocks, tail, end, Adders(blocks, at), WithAdded(tail, Additions(blocks)));
  }

  lemma {:induction false} FrontIsDisjoint(rs: seq<Replacement>, more: seq<Replacement>, from: nat, lineCount: nat)
    requires Disjoint(rs + more, from, lineCount)
    ensures Disjoint(rs, from, lineCount)
    decreases |rs|
  {
    DisjointBounds(rs + more, from, lineCount);
    if rs != [] {
      assert (rs + more)[1..] == rs[1..] + more;
      FrontIsDisjoint(rs[1..], more, rs[0].End(), lineCount);
    }
  }

  lemma BlocksSorted(lines: seq<string>, blocks: seq<Block>, tail: seq<string>, at: nat)
    requires at == InsertionIndex(lines) && AddsBehind(lines, blocks, tail)
    requires Disjoint(Movers(0, blocks) + Adders(blocks, at), 0, |lines|)
    ensures SortByStart(ReplacementsOf(0, blocks, at)) == Movers(0, blocks) + Adders(blocks, at)
  {
    var movers, rs := Movers(0, blocks), ReplacementsOf(0, blocks, at);
    FrontIsDisjoint(movers, Adders(blocks, at), 0, |lines|);
    SortKeepsDisjoint(movers, 0, |lines|);
    if b :| b in blocks && IsAddition(b) {
      PartsOfBlocks(0, blocks, at, rs);
      SortIsStable(movers, 0);
      SortMovesToEnd(rs, at);
    } else {
      NothingAdded(0, blocks, at);
      assert movers + [] == movers;
    }
  }

  // The chunks of an anchored edit turn a file that reads as the old lines into the new ones.
  lemma UpdatePerformsEdit(contents: string, blocks: seq<Block>, tail: seq<string>)
    requires FileLines(contents) == OldFile(blocks, tail)
    requires AnchorsInGaps(blocks) && Anchored(OldFile(blocks, tail), 0, blocks)
    requires AddsBehind(OldFile(blocks, tail), blocks, tail)
    ensures Updated(contents, ChunksOf(ChunkTexts(blocks))) == Ok(FileText(NewFile(blocks, tail)))
  {
    var lines := OldFile(blocks, tail);
    var at := InsertionIndex(lines);
    assert lines[0..] == lines;
    BlocksPlaced(lines, 0, blocks, tail, at, ChunksOf(ChunkTexts(blocks)));
    AllGiven(lines, blocks, tail, at);
    BlocksSorted(lines, blocks, tail, at);
    SplicingRefinesForward(lines, Movers(0, blocks) + Adders(blocks, at));
  }

  // ----- applying hunks to files

  type Files = map<string, string>

  datatype ApplyError =
    | BadPatch(reason: PatchError)
    | NoFilesModified
    | FileMissing(path: string)
    | UpdateFailed(path: string, error: UpdateError)

  datatype Summary = Summary(added: seq<string>, modified: seq<string>, deleted: seq<string>)

  // A failed patch leaves what the hunks before the failure did.
  datatype Outcome = Outcome(files: Files, result: Result<Summary, ApplyError>)

  // A path is listed once, where it first appears.
  function Record(paths: seq<string>, path: string): seq<string> {
    if path in paths then paths else paths + [path]
  }

  function Recorded(summary: Summary, hunk: Hunk): Summary {
    match hunk
    case AddFile(path, _) => summary.(added := Record(summary.added, path))
    case DeleteFile(path) => summary.(deleted := Record(summary.deleted, path))
    case UpdateFile(path, movePath, _) =>
      summary.(modified := Record(summary.modified, FinalPath(path, movePath)))
  }

  function FinalPath(path: string, movePath: Option<string>): string {
    if IsMove(movePath) then movePath.value else path
  }

  predicate IsMove(movePath: Option<string>) {
    movePath.Some? && movePath.value != ""
  }

  // A moved file is written to its new path first, and then its old path is removed.
  function WriteUpdated(files: Files, path: string, movePath: Option<string>, text: string): Files {
    if IsMove(movePath) then files[movePath.value := text] - {path} else files[path := text]
  }

  ghost function ApplyHunk(files: Files, hunk: Hunk): Result<Files, ApplyError> {
    match hunk
    case AddFile(path, contents) => Ok(files[path := contents])
    case DeleteFile(path) => if path in files then Ok(files - {path}) else Err(FileMissing(path))
    case UpdateFile(path, movePath, chunks) =>
      if path !in files then Err(FileMissing(path))
      else
        match Updated(files[path], chunks)
        case Err(e) => Err(UpdateFailed(path, e))
        case Ok(text) => Ok(WriteUpdated(files, path, movePath, text))
  }

  ghost function ApplyHunks(files: Files, hunks: seq<Hunk>, summary: Summary): Outcome
    decreases |hunks|
  {
    if hunks == [] then Outcome(files, Ok(summary))
    else
      match ApplyHunk(files, hunks[0])
      case Err(e) => Outcome(files, Err(e))
      case Ok(next) => ApplyHunks(next, hunks[1..], Recorded(summary, hunks[0]))
  }

  ghost function Applied(files: Files, input: string): Outcome {
    match ParsePatch(input)
    case Err(e) => Outcome(files, Err(BadPatch(e)))
    case Ok(hunks) =>
      if hunks == [] then Outcome(files, Err(NoFilesModified))
      else ApplyHunks(files, hunks, Summary([], [], []))
  }

  class Workspace {
    var files: Files

    method UpdateFileWith(path: string, movePath: Option<string>, chunks: seq<Chunk>) returns (error: Option<ApplyError>)
      modifies this
      ensures match ApplyHunk(old(files), UpdateFile(path, movePath, chunks))
              case Err(e) => error == Some(e) && files == old(files)
              case Ok(next) => error == None && files == next
    {
      if path !in files {
        return Some(FileMissing(path));
      }
      var applied := ApplyUpdateHunk(files[path], chunks);
      if applied.Err? {
        return Some(UpdateFailed(path, applied.error));
      }
      if movePath.Some? && movePath.value != "" {
        files := files[movePath.value := applied.value];
        files := files - {path};
      } else {
        files := files[path := applied.value];
      }
      return None;
    }

    method ApplyPatch(input: string) returns (result: Result<Summary, ApplyError>)
      modifies this
      ensures Outcome(files, result) == Applied(old(files), input)
    {
      var parsed := ParsePatchText(input);
      if parsed.Err? {
        return Err(BadPatch(parsed.error));
      }
      var hunks := parsed.value;
      if |hunks| == 0 {
        return Err(NoFilesModified);
      }
      var summary := Summary([], [], []);
      var k := 0;
      assert hunks[0..] == hunks;
      while k < |hunks|
        invariant 0 <= k <= |hunks|
        invariant ApplyHunks(old(files), hunks, Summary([], [], [])) == ApplyHunks(files, hunks[k..], summary)
      {
        var hunk := hunks[k];
        assert hunks[k..][1..] == hunks[k + 1..];
        match hunk {
          case AddFile(path, contents) =>
            files := files[path := contents];
          case DeleteFile(path) =>
            if path !in files {
              return Err(FileMissing(path));
            }
            files := files - {path};
          case UpdateFile(path, movePath, chunks) =>
            var error := UpdateFileWith(path, movePath, chunks);
            if error.Some? {
              return Err(error.value);
            }
        }
        summary := Recorded(summary, hunk);
        k := k + 1;
      }
      return Ok(summary);
    }
  }

  // ----- what a printed patch does

  // What the author of a patch wants done, each change on the files the ones before it left.
  datatype Change =
    | Create(path: string, lines: seq<string>)
    | Remove(path: string)
    | Rewrite(path: string, movePath: Option<string>, blocks: seq<Block>, tail: seq<string>)

  ghost predicate Possible(files: Files, change: Change) {
    match change
    case Create(_, _) => true
    case Remove(path) => path in files
    case Rewrite(path, _, blocks, tail) =>
      && path in files && FileLines(files[path]) == OldFile(blocks, tail)
      && AnchorsInGaps(blocks) && Anchored(OldFile(blocks, tail), 0, blocks)
      && AddsBehind(OldFile(blocks, tail), blocks, tail)
  }

  ghost function Done(files: Files, change: Change): Files {
    match change
    case Create(path, lines) => files[path := TextOf(lines)]
    case Remove(path) => files - {path}
    case Rewrite(path, movePath, blocks, tail) => WriteUpdated(files, path, movePath, FileText(NewFile(blocks, tail)))
  }

  predicate Expressible(change: Change) {
    change.Rewrite? ==> AnchorsInGaps(change.blocks)
  }

  function HunkTextOf(change: Change): HunkText
    requires Expressible(change)
  {
    match change
    case Create(path, lines) => AddText(path, lines)
    case Remove(path) => DeleteText(path)
    case Rewrite(path, movePath, blocks, _) => UpdateText(path, movePath, ChunkTexts(blocks))
  }

  predicate AllExpressible(changes: seq<Change>) {
    changes != [] ==> Expressible(changes[0]) && AllExpressible(changes[1..])
  }

  function HunkTexts(changes: seq<Change>): (r: seq<HunkText>)
    requires AllExpressible(changes)
    ensures |r| == |changes|
  {
    if changes == [] then [] else [HunkTextOf(changes[0])] + HunkTexts(changes[1..])
  }

  ghost predicate AllPossible(files: Files, changes: seq<Change>)
    decreases |changes|
  {
    changes != [] ==> Possible(files, changes[0]) && AllPossible(Done(files, changes[0]), changes[1..])
  }

  ghost function AllDone(files: Files, changes: seq<Change>): Files
    decreases |changes|
  {
    if changes == [] then files else AllDone(Done(files, changes[0]), changes[1..])
  }

  lemma HunkDoesChange(files: Files, change: Change)
    requires Expressible(change) && Possible(files, change)
    ensures ApplyHunk(files, HunkOf(HunkTextOf(change))) == Ok(Done(files, change))
  {
    if change.Rewrite? {
      UpdatePerformsEdit(files[change.path], change.blocks, change.tail);
    }
  }

  lemma {:induction false} HunksDoChanges(files: Files, changes: seq<Change>, summary: Summary)
    requires AllExpressible(changes) && AllPossible(files, changes)
    ensures var outcome := ApplyHunks(files, HunksOf(HunkTexts(changes)), summary);
            outcome.files == AllDone(files, changes) && outcome.result.Ok?
    decreases |changes|
  {
    if changes != [] {
      var hunk, rest := HunkOf(HunkTextOf(changes[0])), HunksOf(HunkTexts(changes[1..]));
      HunkDoesChange(files, changes[0]);
      HunksDoChanges(Done(files, changes[0]), changes[1..], Recorded(summary, hunk));
      HunksOfCons(changes);
      assert ([hunk] + rest)[1..] == rest;
    }
  }

  lemma HunksOfCons(changes: seq<Change>)
    requires changes != [] && AllExpressible(changes)
    ensures HunksOf(HunkTexts(changes)) == [HunkOf(HunkTextOf(changes[0]))] + HunksOf(HunkTexts(changes[1..]))
  {
    assert HunkTexts(changes)[1..] == HunkTexts(changes[1..]);
  }

  // Printing any list of possible changes, and applying the printed text, carries them all out.
  lemma {:induction false} PatchPerformsChanges(files: Files, changes: seq<Change>)
    requires changes != [] && AllExpressible(changes) && AllPossible(files, changes)
    requires Printable(HunkTexts(changes))
    ensures var outcome := Applied(files, PrintPatch(HunkTexts(changes)));
            outcome.files == AllDone(files, changes) && outcome.result.Ok?
  {
    ParsePrinted(HunkTexts(changes));
    HunksDoChanges(files, changes, Summary([], [], []));
    HunksOfCons(changes);
  }

  lemma OneChange(files: Files, change: Change)
    requires Expressible(change) && Possible(files, change) && Printable([HunkTextOf(change)])
    ensures Applied(files, PrintPatch([HunkTextOf(change)])).files == Done(files, change)
    ensures Applied(files, PrintPatch([HunkTextOf(change)])).result.Ok?
  {
    assert [change][1..] == [];
    assert HunkTexts([change]) == [HunkTextOf(change)];
    assert AllDone(Done(files, change), []) == Done(files, change);
    PatchPerformsChanges(files, [change]);
  }

  // The edited file ends up exactly as the edit says if and only if its new last line is not blank;
  // otherwise its last newline is lost.
  lemma EditIsExactIff(files: Files, path: string, blocks: seq<Block>, tail: seq<string>)
    requires Expressible(Rewrite(path, None, blocks, tail)) && Possible(files, Rewrite(path, None, blocks, tail))
    requires Printable([UpdateText(path, None, ChunkTexts(blocks))])
    ensures var after := NewFile(blocks, tail);
            Applied(files, PrintPatch([UpdateText(path, None, ChunkTexts(blocks))])).files == files[path := TextOf(after)]
            <==> after == [] || after[|after| - 1] != ""
  {
    var after := NewFile(blocks, tail);
    OneChange(files, Rewrite(path, None, blocks, tail));
    FileTextIsTextIff(after);
    assert files[path := FileText(after)][path] == FileText(after);
    assert files[path := TextOf(after)][path] == TextOf(after);
  }

  lemma MoveWrites(files: Files, after: Files, path: string, movePath: string, text: string)
    requires movePath != "" && after == WriteUpdated(files, path, Some(movePath), text)
    ensures path !in after
    ensures (movePath in after && after[movePath] == text) <==> movePath != path
    ensures forall p :: p != path && p != movePath ==> (p in after <==> p in files) && (p in files ==> after[p] == files[p])
  {
  }

  // A patch that edits and moves a file leaves the new text at the new path if and only if that is another path:
  // moved onto its own path, the file is gone. Nothing else changes.
  lemma MoveKeepsFileIff(files: Files, path: string, movePath: string, blocks: seq<Block>, tail: seq<string>)
    requires Expressible(Rewrite(path, Some(movePath), blocks, tail))
    requires Possible(files, Rewrite(path, Some(movePath), blocks, tail))
    requires Printable([UpdateText(path, Some(movePath), ChunkTexts(blocks))])
    ensures var after := Applied(files, PrintPatch([UpdateText(path, Some(movePath), ChunkTexts(blocks))])).files;
            && path !in after
            && ((movePath in after && after[movePath] == FileText(NewFile(blocks, tail))) <==> movePath != path)
            && forall p :: p != path && p != movePath ==> (p in after <==> p in files) && (p in files ==> after[p] == files[p])
  {
    var change := Rewrite(path, Some(movePath), blocks, tail);
    OneChange(files, change);
    MoveWrites(files, Done(files, change), path, movePath, FileText(NewFile(blocks, tail)));
  }

  // ----- the summary

  ghost predicate NoDuplicates(paths: seq<string>) {
    forall i, j :: 0 <= i < j < |paths| ==> paths[i] != paths[j]
  }

  ghost predicate Clean(summary: Summary) {
    NoDuplicates(summary.added) && NoDuplicates(summary.modified) && NoDuplicates(summary.deleted)
  }

  // Each hunk adds to the lists at their ends, so they are in the order in which the paths were first touched.
  lemma {:induction false} SummaryGrows(files: Files, hunks: seq<Hunk>, summary: Summary)
    requires ApplyHunks(files, hunks, summary).result.Ok?
    ensures var s := ApplyHunks(files, hunks, summary).result.value;
            summary.added <= s.added && summary.modified <= s.modified && summary.deleted <= s.deleted
    decreases |hunks|
  {
    if hunks != [] {
      SummaryGrows(ApplyHunk(files, hunks[0]).value, hunks[1..], Recorded(summary, hunks[0]));
    }
  }

  // An update writes the path it moves to, if there is one, and else its own.
  predicate Writes(h: Hunk, p: string) {
    h.UpdateFile? && if h.movePath.None? || h.movePath.value == "" then h.path == p else h.movePath.value == p
  }

  // An empty path to move to is none.
  lemma EmptyMoveIsNone(files: Files, path: string, chunks: seq<Chunk>)
    ensures ApplyHunk(files, UpdateFile(path, Some(""), chunks)) == ApplyHunk(files, UpdateFile(path, None, chunks))
  {
  }

  predicate SomeAdds(hunks: seq<Hunk>, p: string) {
    hunks != [] && ((hunks[0].AddFile? && hunks[0].path == p) || SomeAdds(hunks[1..], p))
  }

  predicate SomeDeletes(hunks: seq<Hunk>, p: string) {
    hunks != [] && ((hunks[0].DeleteFile? && hunks[0].path == p) || SomeDeletes(hunks[1..], p))
  }

  predicate SomeWrites(hunks: seq<Hunk>, p: string) {
    hunks != [] && (Writes(hunks[0], p) || SomeWrites(hunks[1..], p))
  }

  lemma HunkIsRecorded(summary: Summary, h: Hunk, p: string)
    ensures var s := Recorded(summary, h);
            && (Clean(summary) ==> Clean(s))
            && (p in s.added <==> p in summary.added || (h.AddFile? && h.path == p))
            && (p in s.deleted <==> p in summary.deleted || (h.DeleteFile? && h.path == p))
            && (p in s.modified <==> p in summary.modified || Writes(h, p))
  {
  }

  // A successful patch's summary lists every path once, and lists exactly what the hunks touched.
  lemma {:induction false} SummaryIsExact(files: Files, hunks: seq<Hunk>, summary: Summary, p: string)
    requires Clean(summary)
    requires ApplyHunks(files, hunks, summary).result.Ok?
    ensures var s := ApplyHunks(files, hunks, summary).result.value;
            && Clean(s)
            && (p in s.added <==> p in summary.added || SomeAdds(hunks, p))
            && (p in s.deleted <==> p in summary.deleted || SomeDeletes(hunks, p))
            && (p in s.modified <==> p in summary.modified || SomeWrites(hunks, p))
    decreases |hunks|
  {
    if hunks != [] {
      HunkIsRecorded(summary, hunks[0], p);
      SummaryIsExact(ApplyHunk(files, hunks[0]).value, hunks[1..], Recorded(summary, hunks[0]), p);
    }
  }
}
