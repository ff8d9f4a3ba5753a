/** What the parser says of a patch that goes wrong, wherever in it that is. */
module PatchErrors {
  import opened Text
  import opened ApplyPatchUpdate
  import opened PatchLines
  import opened PatchParser
  import opened PatchPrinter
  import opened PatchWrapping

  // What is parsed of the lines between the markers; WrappingIsTakenOff says that this is all that counts.
  function ParseLines(body: seq<string>): Result<seq<Hunk>, PatchError> {
    ParseHunks(ScanLines(body), 0, 2)
  }

  // ----- single lines

  lemma FirstLine(ls: seq<Line>, pos: nat, text: seq<string>)
    requires AllScanned(ls) && OccursAt(ls, pos, text) && text != []
    ensures pos < |ls| && ls[pos].text == text[0] && ls[pos] == ScanLine(text[0])
  {
    assert ls[pos + 0].text == text[0];
    ScannedAt(ls, pos);
  }

  // A line that begins neither a hunk nor a chunk, and is no line of one.
  predicate IsForeign(line: string) {
    && line != "" && line[0] != ' ' && line[0] != '+' && line[0] != '-' && !("***" <= line) && Trim(line) != ""
    && !HeaderOf(Trim(line)).Move?
  }

  lemma ForeignIsScanned(line: string)
    requires IsForeign(line)
    ensures var l := ScanLine(line); !l.isBlank && !l.hasStars && l.body == Other && !l.header.Move? && l.text == line
  {
    assert "***" <= END_OF_FILE;
  }

  lemma StarsAreScanned(line: string)
    requires "***" <= line && Trim(line) != "" && line != END_OF_FILE
    ensures var l := ScanLine(line);
            !l.isBlank && l.hasStars && l.body == Other && l.header == HeaderOf(Trim(line)) && l.text == line
  {
    assert line[0] == "***"[0] == '*';
  }

  // ----- an error behind hunks that are right

  lemma HunkThenError(ls: seq<Line>, pos: nat, h: HunkText, end: nat, lineNumber: nat, next: nat, e: PatchError)
    requires HunkAt(ls, pos, h) && PrintableHunk(h) && end == pos + HunkSize(h) && HunkEndsAt(ls, end)
    requires pos < end <= |ls| && next == lineNumber + (end - pos) && ParseHunks(ls, end, next) == Err(e)
    ensures ParseHunks(ls, pos, lineNumber) == Err(e)
  {
    HunkReadsBack(ls, pos, h, lineNumber, end);
  }

  lemma HunksHead(ls: seq<Line>, pos: nat, hs: seq<HunkText>, stop: nat, end: nat)
    requires hs != [] && HunksAt(ls, pos, hs, stop) && HunkEndsAt(ls, stop)
    requires end == pos + HunkSize(hs[0])
    ensures HunkEndsAt(ls, end) && pos < end <= stop
  {
    HunkTakesLines(hs[0]);
    HunksReach(ls, end, hs[1..], stop);
    NextHunkEnds(ls, end, hs[1..], stop);
  }

  lemma HunkTakesLines(h: HunkText)
    ensures HunkSize(h) > 0
  {
  }

  lemma {:induction false} HunksThenError(ls: seq<Line>, pos: nat, hs: seq<HunkText>, stop: nat, lineNumber: nat,
                                          at: nat, e: PatchError)
    requires HunksAt(ls, pos, hs, stop) && Printable(hs) && HunkEndsAt(ls, stop) && pos <= stop
    requires at == lineNumber + (stop - pos) && ParseHunks(ls, stop, at) == Err(e)
    ensures ParseHunks(ls, pos, lineNumber) == Err(e)
    decreases |hs|
  {
    if hs != [] {
      var end := pos + HunkSize(hs[0]);
      HunksHead(ls, pos, hs, stop, end);
      var next := lineNumber + (end - pos);
      HunksThenError(ls, end, hs[1..], stop, next, at, e);
      HunkThenError(ls, pos, hs[0], end, lineNumber, next, e);
    }
  }

  lemma {:induction false} HunksReach(ls: seq<Line>, pos: nat, hs: seq<HunkText>, stop: nat)
    requires HunksAt(ls, pos, hs, stop)
    ensures pos <= stop
    decreases |hs|
  {
    if hs != [] { HunksReach(ls, pos + HunkSize(hs[0]), hs[1..], stop); }
  }

  // The lines of a patch are counted from one, and the first is the one that begins it.
  lemma ErrorBehindHunks(hs: seq<HunkText>, rest: seq<string>, body: seq<string>, ls: seq<Line>, at: nat, line: nat,
                         e: PatchError)
    requires Printable(hs) && body == PrintHunks(hs) + rest && ls == ScanLines(body)
    requires at == |PrintHunks(hs)| && line == at + 2 && HunkEndsAt(ls, at) && ParseHunks(ls, at, line) == Err(e)
    ensures ParseLines(body) == Err(e)
  {
    ScanLinesScans(body);
    OccursSplit(ls, 0, PrintHunks(hs), rest);
    PrintsHunks(ls, 0, hs, PrintHunks(hs), at);
    HunksThenError(ls, 0, hs, at, 2, line, e);
  }

  lemma NoHeaderErrs(ls: seq<Line>, at: nat, line: string, lineNumber: nat)
    requires at < |ls| && ls[at].text == line && (ls[at].header.NoHeader? || ls[at].header.Move?)
    ensures ParseHunks(ls, at, lineNumber) == Err(NotAHunkHeader(lineNumber, line))
  {
  }

  // A line of stars that is no header of a hunk.
  lemma UnknownHeaderIsReported(hs: seq<HunkText>, line: string, more: seq<string>, body: seq<string>, number: nat)
    requires Printable(hs) && body == PrintHunks(hs) + ([line] + more) && number == |PrintHunks(hs)| + 2
    requires "***" <= line && Trim(line) != "" && line != END_OF_FILE
    requires HeaderOf(Trim(line)).NoHeader? || HeaderOf(Trim(line)).Move?
    ensures ParseLines(body) == Err(NotAHunkHeader(number, line))
  {
    var at, ls := |PrintHunks(hs)|, ScanLines(body);
    assert body[at] == line;
    StarsAreScanned(line);
    NoHeaderErrs(ls, at, line, number);
    ErrorBehindHunks(hs, [line] + more, body, ls, at, number, NotAHunkHeader(number, line));
  }

  // ----- an error in the chunks of an update

  lemma ChunkThenError(ls: seq<Line>, pos: nat, c: ChunkText, end: nat, lineNumber: nat, next: nat, first: bool, e: PatchError)
    requires ChunkAt(ls, pos, c) && c.edits != [] && (HasMark(c) || first) && end == pos + ChunkSize(c)
    requires c.atEnd || ChunkEndsAt(ls, end)
    requires end <= |ls| && next == lineNumber + (end - pos) && ParseChunks(ls, end, next, false) == Err(e)
    ensures ParseChunks(ls, pos, lineNumber, first) == Err(e)
  {
    var n := |c.style.above|;
    BlanksAreSkipped(ls, pos, n, lineNumber, first);
    ChunkReadsBack(ls, pos + n, c, lineNumber + n, first);
    InnerErrs(ls, pos + n, lineNumber + n, first, ChunkOf(c), end, next, e);
  }

  lemma InnerErrs(ls: seq<Line>, pos: nat, lineNumber: nat, first: bool, c: Chunk, end: nat, next: nat, e: PatchError)
    requires pos < |ls| && !ls[pos].isBlank && !ls[pos].hasStars && pos < end <= |ls| && next == lineNumber + (end - pos)
    requires ParseChunk(ls, pos, lineNumber, first) == Ok(ParsedChunk(c, end)) && ParseChunks(ls, end, next, false) == Err(e)
    ensures ParseChunks(ls, pos, lineNumber, first) == Err(e)
  {
  }

  lemma {:induction false} ChunksThenError(ls: seq<Line>, pos: nat, cs: seq<ChunkText>, lineNumber: nat, first: bool,
                                           ended: bool, stop: nat, at: nat, e: PatchError)
    requires ChunksAt(ls, pos, cs) && PrintableChunks(cs) && WellOpened(cs, first, ended)
    requires stop == pos + ChunksSize(cs) && stop <= |ls| && ChunkEndsAt(ls, stop)
    requires at == lineNumber + (stop - pos) && ParseChunks(ls, stop, at, first && cs == []) == Err(e)
    ensures pos <= |ls|
    ensures ParseChunks(ls, pos, lineNumber, first) == Err(e)
    decreases |cs|
  {
    if cs != [] {
      var end := pos + ChunkSize(cs[0]);
      var rest := cs[1..];
      assert end + ChunksSize(rest) == stop;
      ChunksThenError(ls, end, rest, lineNumber + (end - pos), false, cs[0].atEnd, stop, at, e);
      if !cs[0].atEnd {
        if rest == [] { assert end == stop; }
        NextEnds(ls, end, rest);
      }
      ChunkThenError(ls, pos, cs[0], end, lineNumber, lineNumber + (end - pos), first, e);
    }
  }

  lemma NextEnds(ls: seq<Line>, pos: nat, cs: seq<ChunkText>)
    requires ChunksAt(ls, pos, cs) && WellOpened(cs, false, false)
    requires cs == [] ==> ChunkEndsAt(ls, pos)
    ensures ChunkEndsAt(ls, pos)
  {
  }

  lemma UpdateThenError(ls: seq<Line>, pos: nat, path: string, lineNumber: nat, e: PatchError)
    requires HeaderAt(ls, pos, Header.Update(path)) && (pos + 1 < |ls| ==> !ls[pos + 1].header.Move?)
    requires ParseChunks(ls, pos + 1, lineNumber + 1, true) == Err(e)
    ensures ParseHunks(ls, pos, lineNumber) == Err(e)
  {
  }

  // An update hunk whose chunks are right up to its last lines.
  function Faulty(path: string, cs: seq<ChunkText>, bad: seq<string>): seq<string> {
    [UPDATE_FILE + path] + (PrintChunks(cs) + bad)
  }

  // Where the bad lines are.
  function BadLine(hs: seq<HunkText>, cs: seq<ChunkText>): nat {
    |PrintHunks(hs)| + 1 + |PrintChunks(cs)|
  }

  ghost predicate MayFail(hs: seq<HunkText>, path: string, cs: seq<ChunkText>) {
    Printable(hs) && IsPath(path) && PrintableChunks(cs) && WellOpened(cs, true, true)
  }

  lemma FaultyBegins(hs: seq<HunkText>, path: string, rest: seq<string>, more: seq<string>, body: seq<string>,
                     ls: seq<Line>, at: nat)
    requires body == PrintHunks(hs) + more && more == [UPDATE_FILE + path] + rest && ls == ScanLines(body)
    requires IsPath(path) && at == |PrintHunks(hs)|
    ensures AllScanned(ls) && HeaderAt(ls, at, Header.Update(path)) && OccursAt(ls, at + 1, rest)
    ensures |ls| == at + 1 + |rest|
  {
    ScanLinesScans(body);
    OccursSplit(ls, 0, PrintHunks(hs), more);
    OccursFirst(ls, at, UPDATE_FILE + path, rest);
    PrintsHeader(ls, at, UPDATE_FILE, path, Header.Update(path));
  }

  lemma FaultyIsLaidOut(hs: seq<HunkText>, path: string, cs: seq<ChunkText>, bad: seq<string>, body: seq<string>,
                        ls: seq<Line>, at: nat, stop: nat)
    requires body == PrintHunks(hs) + Faulty(path, cs, bad) && ls == ScanLines(body) && IsPath(path)
    requires at == |PrintHunks(hs)| && stop == BadLine(hs, cs) && PrintableChunks(cs) && WellOpened(cs, true, true)
    ensures AllScanned(ls) && HeaderAt(ls, at, Header.Update(path)) && ChunksAt(ls, at + 1, cs)
    ensures stop == at + 1 + ChunksSize(cs) && |ls| == stop + |bad| && OccursAt(ls, stop, bad)
  {
    FaultyBegins(hs, path, PrintChunks(cs) + bad, Faulty(path, cs, bad), body, ls, at);
    ChunksThenBad(ls, at + 1, cs, bad, stop);
  }

  lemma ChunksThenBad(ls: seq<Line>, pos: nat, cs: seq<ChunkText>, bad: seq<string>, stop: nat)
    requires AllScanned(ls) && OccursAt(ls, pos, PrintChunks(cs) + bad) && stop == pos + |PrintChunks(cs)|
    requires PrintableChunks(cs) && WellOpened(cs, true, true)
    ensures ChunksAt(ls, pos, cs) && |PrintChunks(cs)| == ChunksSize(cs) && OccursAt(ls, stop, bad)
  {
    OccursSplit(ls, pos, PrintChunks(cs), bad);
    PrintsChunks(ls, pos, cs, true, true, PrintChunks(cs));
  }

  lemma LaidOutErrs(ls: seq<Line>, at: nat, path: string, cs: seq<ChunkText>, stop: nat, line: nat, first: nat,
                    e: PatchError)
    requires HeaderAt(ls, at, Header.Update(path)) && ChunksAt(ls, at + 1, cs) && PrintableChunks(cs)
    requires WellOpened(cs, true, true) && stop == at + 1 + ChunksSize(cs) && stop <= |ls| && ChunkEndsAt(ls, stop)
    requires cs == [] && stop < |ls| ==> !ls[stop].header.Move?
    requires first == at + 2 && line == stop + 2 && ParseChunks(ls, stop, line, cs == []) == Err(e)
    ensures ParseHunks(ls, at, first) == Err(e) && HunkEndsAt(ls, at)
  {
    ChunksThenError(ls, at + 1, cs, first + 1, true, true, stop, line, e);
    if cs != [] { NoMoveAhead(ls, at + 1, cs[0]); } else { assert at + 1 == stop; }
    UpdateThenError(ls, at, path, first, e);
  }

  lemma ErrorBehindChunks(hs: seq<HunkText>, path: string, cs: seq<ChunkText>, bad: seq<string>, body: seq<string>,
                          ls: seq<Line>, at: nat, stop: nat, line: nat, e: PatchError)
    requires MayFail(hs, path, cs) && body == PrintHunks(hs) + Faulty(path, cs, bad) && ls == ScanLines(body)
    requires at == |PrintHunks(hs)| && stop == BadLine(hs, cs) && line == stop + 2
    requires stop <= |ls| && ChunkEndsAt(ls, stop) && (cs == [] && stop < |ls| ==> !ls[stop].header.Move?)
    requires ParseChunks(ls, stop, line, cs == []) == Err(e)
    ensures ParseLines(body) == Err(e)
  {
    FaultyIsLaidOut(hs, path, cs, bad, body, ls, at, stop);
    LaidOutErrs(ls, at, path, cs, stop, line, at + 2, e);
    ErrorBehindHunks(hs, Faulty(path, cs, bad), body, ls, at, at + 2, e);
  }

  lemma ForeignErrs(ls: seq<Line>, pos: nat, line: string, lineNumber: nat)
    requires pos < |ls| && !ls[pos].isBlank && !ls[pos].hasStars && ls[pos].body == Other && ls[pos].mark == NoMark
    requires ls[pos].text == line
    ensures ParseChunks(ls, pos, lineNumber, false) == Err(NoContextMarker(lineNumber, line))
    ensures ParseChunks(ls, pos, lineNumber, true) == Err(UnexpectedLine(lineNumber + 1, line))
  {
  }

  // Behind a chunk, only a line of at-signs begins another.
  lemma LaterChunkNeedsMark(hs: seq<HunkText>, path: string, cs: seq<ChunkText>, line: string, more: seq<string>,
                            body: seq<string>, number: nat)
    requires MayFail(hs, path, cs) && body == PrintHunks(hs) + Faulty(path, cs, [line] + more)
    requires number == BadLine(hs, cs) + 2 && cs != [] && IsForeign(line) && MarkOf(line) == NoMark
    ensures ParseLines(body) == Err(NoContextMarker(number, line))
  {
    var bad, at, stop, ls := [line] + more, |PrintHunks(hs)|, BadLine(hs, cs), ScanLines(body);
    FaultyIsLaidOut(hs, path, cs, bad, body, ls, at, stop);
    FirstLine(ls, stop, bad);
    ForeignIsScanned(line);
    ForeignErrs(ls, stop, line, number);
    ErrorBehindChunks(hs, path, cs, bad, body, ls, at, stop, number, NoContextMarker(number, line));
  }

  // The first chunk needs none, but its first line has to be one of a chunk.
  lemma FirstChunkNeedsLine(hs: seq<HunkText>, path: string, line: string, more: seq<string>, body: seq<string>,
                            number: nat)
    requires MayFail(hs, path, []) && body == PrintHunks(hs) + Faulty(path, [], [line] + more)
    requires number == BadLine(hs, []) + 2 && IsForeign(line) && MarkOf(line) == NoMark
    ensures ParseLines(body) == Err(UnexpectedLine(number + 1, line))
  {
    var bad, at, stop, ls := [line] + more, |PrintHunks(hs)|, BadLine(hs, []), ScanLines(body);
    FaultyIsLaidOut(hs, path, [], bad, body, ls, at, stop);
    FirstLine(ls, stop, bad);
    ForeignIsScanned(line);
    ForeignErrs(ls, stop, line, number);
    ErrorBehindChunks(hs, path, [], bad, body, ls, at, stop, number, UnexpectedLine(number + 1, line));
  }

  // What is wrong with a chunk that consists of its at-signs only.
  function BodyError(line: nat, more: seq<string>): PatchError {
    if more == [] || more[0] == END_OF_FILE then NoChunkLines(line) else UnexpectedLine(line, more[0])
  }

  predicate NoChunkLine(more: seq<string>) {
    more == [] || more[0] == END_OF_FILE || BodyOf(more[0]) == Other
  }

  lemma MarkErrs(ls: seq<Line>, pos: nat, context: Option<string>, more: seq<string>, lineNumber: nat, first: bool,
                 e: PatchError)
    requires MarkAt(ls, pos, context) && |ls| == pos + 1 + |more| && NoChunkLine(more)
    requires more == [] || (ls[pos + 1].text == more[0] && ls[pos + 1].body == BodyOf(more[0]))
    requires e == BodyError(lineNumber + 1, more)
    ensures ParseChunks(ls, pos, lineNumber, first) == Err(e)
  {
  }

  lemma MarkIsAlone(ls: seq<Line>, pos: nat, context: Option<string>, more: seq<string>, bad: seq<string>, lineNumber: nat,
                    first: bool, e: PatchError)
    requires AllScanned(ls) && bad == [PrintMark(context)] + more && OccursAt(ls, pos, bad) && |ls| == pos + |bad|
    requires NoChunkLine(more) && e == BodyError(lineNumber + 1, more)
    ensures MarkAt(ls, pos, context) && ParseChunks(ls, pos, lineNumber, first) == Err(e)
  {
    OccursFirst(ls, pos, PrintMark(context), more);
    PrintsMark(ls, pos, context);
    if more != [] { FirstLine(ls, pos + 1, more); }
    MarkErrs(ls, pos, context, more, lineNumber, first, e);
  }

  // Below the at-signs there have to be lines of the chunk.
  lemma MarkNeedsLines(hs: seq<HunkText>, path: string, cs: seq<ChunkText>, context: Option<string>, more: seq<string>,
                       body: seq<string>, number: nat, e: PatchError)
    requires MayFail(hs, path, cs) && body == PrintHunks(hs) + Faulty(path, cs, [PrintMark(context)] + more)
    requires number == BadLine(hs, cs) + 2 && NoChunkLine(more) && e == BodyError(number + 1, more)
    ensures ParseLines(body) == Err(e)
  {
    var bad, at, stop, ls := [PrintMark(context)] + more, |PrintHunks(hs)|, BadLine(hs, cs), ScanLines(body);
    FaultyIsLaidOut(hs, path, cs, bad, body, ls, at, stop);
    MarkIsAlone(ls, stop, context, more, bad, number, cs == [], e);
    ErrorBehindChunks(hs, path, cs, bad, body, ls, at, stop, number, e);
  }

  lemma EmptyUpdateErrs(ls: seq<Line>, at: nat, path: string, n: nat, lineNumber: nat)
    requires HeaderAt(ls, at, Header.Update(path)) && BlanksAt(ls, at + 1, n) && at + 1 + n <= |ls|
    requires at + 1 + n < |ls| ==> var l := ls[at + 1 + n]; !l.isBlank && l.hasStars && !l.header.Move?
    ensures ParseHunks(ls, at, lineNumber) == Err(EmptyUpdateHunk(lineNumber, path))
  {
    BlanksAreSkipped(ls, at + 1, n, lineNumber + 1, true);
  }

  lemma BlanksThenStars(ls: seq<Line>, pos: nat, blanks: seq<string>, more: seq<string>, end: nat)
    requires AllScanned(ls) && OccursAt(ls, pos, blanks + more) && AreBlank(blanks) && end == pos + |blanks|
    requires |ls| == end + |more| && (more == [] || ("***" <= more[0] && !HeaderOf(Trim(more[0])).Move?))
    ensures BlanksAt(ls, pos, |blanks|)
    ensures end < |ls| ==> !ls[end].isBlank && ls[end].hasStars && !ls[end].header.Move?
  {
    OccursSplit(ls, pos, blanks, more);
    PrintsBlanks(ls, pos, blanks);
    if more != [] {
      FirstLine(ls, end, more);
      TrimKeepsFirst(more[0]);
    }
  }

  // An update without chunks.
  lemma EmptyUpdateIsReported(hs: seq<HunkText>, path: string, blanks: seq<string>, more: seq<string>,
                              rest: seq<string>, body: seq<string>, number: nat)
    requires MayFail(hs, path, []) && AreBlank(blanks)
    requires more == [] || ("***" <= more[0] && !HeaderOf(Trim(more[0])).Move?)
    requires rest == [UPDATE_FILE + path] + (blanks + more) && body == PrintHunks(hs) + rest
    requires number == |PrintHunks(hs)| + 2
    ensures ParseLines(body) == Err(EmptyUpdateHunk(number, path))
  {
    var at, ls := |PrintHunks(hs)|, ScanLines(body);
    FaultyBegins(hs, path, blanks + more, rest, body, ls, at);
    BlanksThenStars(ls, at + 1, blanks, more, at + 1 + |blanks|);
    EmptyUpdateErrs(ls, at, path, |blanks|, number);
    ErrorBehindHunks(hs, rest, body, ls, at, number, EmptyUpdateHunk(number, path));
  }
}
