/**
 A printer for the patch format, and the round trip through the parser. The repository only parses;
 the printer says which text stands for which hunks.
 */
module PatchPrinter {
  import opened Text
  import opened PatchLines
  import opened PatchParser
  import opened ApplyPatchUpdate

  // One line of a chunk: kept as context, dropped from the file, or put into it. A kept blank line may be bare,
  // without the blank in front.
  datatype Edit = Keep(line: string, bare: bool) | Drop(line: string) | Put(line: string)

  // How a chunk is set: blank lines above it, and whether it has a line of at-signs though it names no context.
  datatype Style = Style(above: seq<string>, marked: bool)

  datatype ChunkText = ChunkText(style: Style, context: Option<string>, edits: seq<Edit>, atEnd: bool)

  datatype HunkText =
    | AddText(path: string, lines: seq<string>)
    | DeleteText(path: string)
    | UpdateText(path: string, movePath: Option<string>, chunks: seq<ChunkText>)

  // ----- what the text stands for

  function OldSide(edits: seq<Edit>): seq<string> {
    if edits == [] then []
    else (if edits[0].Put? then [] else [edits[0].line]) + OldSide(edits[1..])
  }

  function NewSide(edits: seq<Edit>): seq<string> {
    if edits == [] then []
    else (if edits[0].Drop? then [] else [edits[0].line]) + NewSide(edits[1..])
  }

  function ChunkOf(c: ChunkText): Chunk {
    Chunk(c.context, OldSide(c.edits), NewSide(c.edits), c.atEnd)
  }

  function ChunksOf(cs: seq<ChunkText>): (r: seq<Chunk>)
    ensures |r| == |cs|
  {
    if cs == [] then [] else [ChunkOf(cs[0])] + ChunksOf(cs[1..])
  }

  function HunkOf(h: HunkText): Hunk {
    match h
    case AddText(path, lines) => AddFile(path, TextOf(lines))
    case DeleteText(path) => DeleteFile(path)
    case UpdateText(path, movePath, chunks) => UpdateFile(path, movePath, ChunksOf(chunks))
  }

  function HunksOf(hs: seq<HunkText>): seq<Hunk> {
    if hs == [] then [] else [HunkOf(hs[0])] + HunksOf(hs[1..])
  }

  // ----- the printer

  function PrintEdit(e: Edit): string {
    match e
    case Keep(l, bare) => if bare && l == "" then "" else " " + l
    case Drop(l) => "-" + l
    case Put(l) => "+" + l
  }

  function PrintEdits(edits: seq<Edit>): seq<string> {
    if edits == [] then [] else [PrintEdit(edits[0])] + PrintEdits(edits[1..])
  }

  function PrintMark(context: Option<string>): string {
    if context.Some? then CONTEXT + context.value else EMPTY_CONTEXT
  }

  predicate HasMark(c: ChunkText) {
    c.style.marked || c.context.Some?
  }

  function MarkLines(c: ChunkText): seq<string> {
    if HasMark(c) then [PrintMark(c.context)] else []
  }

  function EndLines(c: ChunkText): seq<string> {
    if c.atEnd then [END_OF_FILE] else []
  }

  function PrintChunk(c: ChunkText): seq<string> {
    c.style.above + MarkLines(c) + PrintEdits(c.edits) + EndLines(c)
  }

  function PrintChunks(cs: seq<ChunkText>): seq<string> {
    if cs == [] then [] else PrintChunk(cs[0]) + PrintChunks(cs[1..])
  }

  function PrintAdded(lines: seq<string>): seq<string> {
    if lines == [] then [] else ["+" + lines[0]] + PrintAdded(lines[1..])
  }

  function PrintHunk(h: HunkText): seq<string> {
    match h
    case AddText(path, lines) => [ADD_FILE + path] + PrintAdded(lines)
    case DeleteText(path) => [DELETE_FILE + path]
    case UpdateText(path, movePath, chunks) =>
      [UPDATE_FILE + path] + (if movePath.Some? then [MOVE_TO + movePath.value] else []) + PrintChunks(chunks)
  }

  function PrintHunks(hs: seq<HunkText>): seq<string> {
    if hs == [] then [] else PrintHunk(hs[0]) + PrintHunks(hs[1..])
  }

  function PrintPatch(hs: seq<HunkText>): string {
    JoinLines([BEGIN_PATCH] + PrintHunks(hs) + [END_PATCH])
  }

  // ----- what can be printed

  // Splitting the patch into lines leaves the line as it is.
  predicate IsPlain(line: string) {
    '\n' !in line && (line != "" ==> line[|line| - 1] != '\r')
  }

  ghost predicate ArePlain(lines: seq<string>) {
    forall l :: l in lines ==> IsPlain(l)
  }

  // Trimming the header line leaves the path as it is.
  predicate IsPath(path: string) {
    path != "" && !IsSpace(path[|path| - 1]) && '\n' !in path
  }

  // A chunk without at-signs may not look blank at first, nor like the line that moves a file.
  predicate OpensByItself(c: ChunkText) {
    c.edits != [] && var first := Trim(PrintEdit(c.edits[0])); first != "" && !(MOVE_TO <= first)
  }

  predicate AreBlank(lines: seq<string>) {
    lines != [] ==> Trim(lines[0]) == "" && AreBlank(lines[1..])
  }

  ghost predicate PrintableChunk(c: ChunkText) {
    && c.edits != []
    && (c.context.Some? ==> IsPlain(c.context.value))
    && (forall e :: e in c.edits ==> IsPlain(e.line))
    && ArePlain(c.style.above) && AreBlank(c.style.above)
  }

  // Only the first chunk may lack its line of at-signs, and blank lines stand above the first chunk, or above one
  // behind an end of file, where they are not taken for lines of the chunk before.
  ghost predicate WellOpened(cs: seq<ChunkText>, first: bool, ended: bool) {
    cs != [] ==>
      && (HasMark(cs[0]) || (first && OpensByItself(cs[0])))
      && (cs[0].style.above == [] || ended)
      && WellOpened(cs[1..], false, cs[0].atEnd)
  }

  ghost predicate PrintableHunk(h: HunkText) {
    && IsPath(h.path)
    && match h
       case AddText(_, lines) => ArePlain(lines)
       case DeleteText(_) => true
       case UpdateText(_, movePath, chunks) =>
         && (movePath.Some? ==> IsPath(movePath.value))
         && chunks != []
         && PrintableChunks(chunks)
         && WellOpened(chunks, true, true)
  }

  ghost predicate PrintableChunks(cs: seq<ChunkText>) {
    cs != [] ==> PrintableChunk(cs[0]) && PrintableChunks(cs[1..])
  }

  ghost predicate Printable(hs: seq<HunkText>) {
    hs != [] ==> PrintableHunk(hs[0]) && Printable(hs[1..])
  }

  // ----- how the scanner sees printed lines

  lemma {:induction false} TrimKeepsFirst(s: string)
    requires s != "" && !IsSpace(s[0])
    ensures Trim(s) != "" && Trim(s)[0] == s[0]
  {
    TrimEndKeepsFirst(s);
  }

  lemma {:induction false} TrimEndKeepsFirst(s: string)
    requires s != "" && !IsSpace(s[0])
    ensures TrimEnd(s) != "" && TrimEnd(s)[0] == s[0]
  {
    if IsSpace(s[|s| - 1]) {
      TrimEndKeepsFirst(s[..|s| - 1]);
    }
  }

  lemma ScannedMark(context: Option<string>)
    ensures var l := ScanLine(PrintMark(context));
            && !l.isBlank && !l.hasStars && l.header == NoHeader && l.body == Other
            && l.mark == if context.Some? then Mark(context.value) else EmptyMark
  {
    var s := PrintMark(context);
    assert s[0] == '@' && s[1] == '@';
    TrimKeepsFirst(s);
    assert ADD_FILE[0] == DELETE_FILE[0] == UPDATE_FILE[0] == MOVE_TO[0] == "***"[0] == END_OF_FILE[0] == '*';
    if context.Some? {
      assert s[|CONTEXT|..] == context.value;
    }
  }

  lemma ScannedEdit(e: Edit)
    ensures ScanLine(PrintEdit(e)).body ==
            match e case Keep(l, _) => Both(l) case Drop(l) => Removed(l) case Put(l) => Added(l)
  {
    var s := PrintEdit(e);
    assert s != "" ==> s[1..] == e.line;
    assert END_OF_FILE[0] == '*';
  }

  lemma ScannedHeader(prefix: string, path: string)
    requires prefix == ADD_FILE || prefix == DELETE_FILE || prefix == UPDATE_FILE || prefix == MOVE_TO
    requires IsPath(path)
    ensures var l := ScanLine(prefix + path);
            && !l.isBlank && l.hasStars && l.body == Other
            && l.header == HeaderOf(prefix + path)
  {
    var s := prefix + path;
    assert s[0] == s[1] == s[2] == '*' && s[3] == ' ';
    assert s[|s| - 1] == path[|path| - 1];
    TrimKeepsSolid(s);
    assert s[4] == prefix[4] != END_OF_FILE[4];
  }

  lemma HeadersDiffer(path: string)
    ensures HeaderOf(ADD_FILE + path) == Add(path)
    ensures HeaderOf(DELETE_FILE + path) == Delete(path)
    ensures HeaderOf(UPDATE_FILE + path) == Update(path)
    ensures HeaderOf(MOVE_TO + path) == Move(path)
  {
    assert (ADD_FILE + path)[|ADD_FILE|..] == path;
    assert (DELETE_FILE + path)[|DELETE_FILE|..] == path;
    assert (UPDATE_FILE + path)[|UPDATE_FILE|..] == path;
    assert (MOVE_TO + path)[|MOVE_TO|..] == path;
    assert (DELETE_FILE + path)[4] == 'D' && (UPDATE_FILE + path)[4] == 'U' && (MOVE_TO + path)[4] == 'M';
    assert ADD_FILE[4] == 'A' && DELETE_FILE[4] == 'D' && UPDATE_FILE[4] == 'U';
  }

  // ----- lines that stand for edits, chunks and hunks, from a position on

  ghost predicate EditAt(l: Line, e: Edit) {
    l.body == match e case Keep(t, _) => Both(t) case Drop(t) => Removed(t) case Put(t) => Added(t)
  }

  ghost predicate EditsAt(ls: seq<Line>, pos: nat, edits: seq<Edit>)
    decreases |edits|
  {
    edits != [] ==> pos < |ls| && EditAt(ls[pos], edits[0]) && EditsAt(ls, pos + 1, edits[1..])
  }

  ghost predicate EndingAt(ls: seq<Line>, pos: nat, atEnd: bool) {
    atEnd ==> pos < |ls| && ls[pos].body == EofMark
  }

  ghost predicate MarkAt(ls: seq<Line>, pos: nat, context: Option<string>) {
    && pos < |ls|
    && var l := ls[pos];
       && !l.isBlank && !l.hasStars && l.header == NoHeader && l.body == Other
       && l.mark == if context.Some? then Mark(context.value) else EmptyMark
  }

  ghost predicate BlanksAt(ls: seq<Line>, pos: nat, n: nat)
    decreases n
  {
    n > 0 ==> pos < |ls| && ls[pos].isBlank && ls[pos].header == NoHeader && BlanksAt(ls, pos + 1, n - 1)
  }

  // A first line of edits that cannot be taken for anything else.
  ghost predicate BareAt(ls: seq<Line>, pos: nat) {
    && pos < |ls|
    && var l := ls[pos];
       !l.isBlank && !l.hasStars && l.mark == NoMark && !l.header.Move?
  }

  function MarkSize(c: ChunkText): nat {
    if HasMark(c) then 1 else 0
  }

  // Behind the blank lines above.
  function InnerSize(c: ChunkText): nat {
    MarkSize(c) + |c.edits| + if c.atEnd then 1 else 0
  }

  function ChunkSize(c: ChunkText): nat {
    |c.style.above| + InnerSize(c)
  }

  ghost predicate InnerAt(ls: seq<Line>, pos: nat, c: ChunkText) {
    && (if HasMark(c) then MarkAt(ls, pos, c.context) else BareAt(ls, pos))
    && EditsAt(ls, pos + MarkSize(c), c.edits)
    && EndingAt(ls, pos + MarkSize(c) + |c.edits|, c.atEnd)
  }

  ghost predicate ChunkAt(ls: seq<Line>, pos: nat, c: ChunkText) {
    BlanksAt(ls, pos, |c.style.above|) && InnerAt(ls, pos + |c.style.above|, c)
  }

  ghost predicate ChunksAt(ls: seq<Line>, pos: nat, cs: seq<ChunkText>)
    decreases |cs|
  {
    cs != [] ==> ChunkAt(ls, pos, cs[0]) && ChunksAt(ls, pos + ChunkSize(cs[0]), cs[1..])
  }

  function ChunksSize(cs: seq<ChunkText>): nat {
    if cs == [] then 0 else ChunkSize(cs[0]) + ChunksSize(cs[1..])
  }

  ghost predicate AddedAt(ls: seq<Line>, pos: nat, lines: seq<string>)
    decreases |lines|
  {
    lines != [] ==> pos < |ls| && ls[pos].body == Added(lines[0]) && AddedAt(ls, pos + 1, lines[1..])
  }

  ghost predicate HeaderAt(ls: seq<Line>, pos: nat, header: Header) {
    pos < |ls| && ls[pos].header == header && !ls[pos].isBlank && ls[pos].hasStars && ls[pos].body == Other
  }

  ghost predicate HunkAt(ls: seq<Line>, pos: nat, h: HunkText) {
    match h
    case AddText(path, lines) => HeaderAt(ls, pos, Header.Add(path)) && AddedAt(ls, pos + 1, lines)
    case DeleteText(path) => HeaderAt(ls, pos, Header.Delete(path))
    case UpdateText(path, movePath, chunks) =>
      && HeaderAt(ls, pos, Header.Update(path))
      && (movePath.Some? ==> HeaderAt(ls, pos + 1, Move(movePath.value)))
      && ChunksAt(ls, pos + (if movePath.Some? then 2 else 1), chunks)
  }

  function HunkSize(h: HunkText): nat {
    match h
    case AddText(_, lines) => 1 + |lines|
    case DeleteText(_) => 1
    case UpdateText(_, movePath, chunks) => (if movePath.Some? then 2 else 1) + ChunksSize(chunks)
  }

  ghost predicate HunksAt(ls: seq<Line>, pos: nat, hs: seq<HunkText>, stop: nat)
    decreases |hs|
  {
    if hs == [] then pos == stop
    else HunkAt(ls, pos, hs[0]) && HunksAt(ls, pos + HunkSize(hs[0]), hs[1..], stop)
  }

  // ----- parsing such lines

  // What may follow a chunk: nothing, or a line no chunk can contain.
  predicate ChunkEndsAt(ls: seq<Line>, pos: nat) {
    pos <= |ls| && (pos < |ls| ==> ls[pos].body == Other)
  }

  // What may follow a hunk: nothing, or the header of the next one.
  predicate HunkEndsAt(ls: seq<Line>, pos: nat) {
    pos <= |ls| && (pos < |ls| ==> ls[pos].body == Other && ls[pos].hasStars && !ls[pos].isBlank)
  }

  lemma ConsEdit(ls: seq<Line>, pos: nat, edits: seq<Edit>, atEnd: bool, end: nat, parsed: nat, lineNumber: nat)
    requires edits != [] && pos < |ls| && EditAt(ls[pos], edits[0])
    requires ParseBody(ls, pos + 1, parsed + 1, lineNumber) ==
             Ok(Body(OldSide(edits[1..]), NewSide(edits[1..]), atEnd, end))
    ensures ParseBody(ls, pos, parsed, lineNumber) == Ok(Body(OldSide(edits), NewSide(edits), atEnd, end))
  {
  }

  lemma {:induction false} BodyReadsBack(ls: seq<Line>, pos: nat, edits: seq<Edit>, atEnd: bool, parsed: nat, lineNumber: nat)
    requires EditsAt(ls, pos, edits) && EndingAt(ls, pos + |edits|, atEnd)
    requires edits != [] || parsed > 0
    requires atEnd || ChunkEndsAt(ls, pos + |edits|)
    ensures ParseBody(ls, pos, parsed, lineNumber) ==
            Ok(Body(OldSide(edits), NewSide(edits), atEnd, pos + |edits| + if atEnd then 1 else 0))
    decreases |edits|
  {
    if edits != [] {
      BodyReadsBack(ls, pos + 1, edits[1..], atEnd, parsed + 1, lineNumber);
      ConsEdit(ls, pos, edits, atEnd, pos + |edits| + if atEnd then 1 else 0, parsed, lineNumber);
    }
  }

  lemma ChunkReadsBack(ls: seq<Line>, pos: nat, c: ChunkText, lineNumber: nat, first: bool)
    requires InnerAt(ls, pos, c) && c.edits != [] && (HasMark(c) || first)
    requires c.atEnd || ChunkEndsAt(ls, pos + InnerSize(c))
    ensures ParseChunk(ls, pos, lineNumber, first) == Ok(ParsedChunk(ChunkOf(c), pos + InnerSize(c)))
  {
    BodyReadsBack(ls, pos + MarkSize(c), c.edits, c.atEnd, 0, lineNumber);
  }

  lemma {:induction false} BlanksAreSkipped(ls: seq<Line>, pos: nat, n: nat, lineNumber: nat, first: bool)
    requires BlanksAt(ls, pos, n) && pos + n <= |ls|
    ensures ParseChunks(ls, pos, lineNumber, first) == ParseChunks(ls, pos + n, lineNumber + n, first)
    decreases n
  {
    if n > 0 { BlanksAreSkipped(ls, pos + 1, n - 1, lineNumber + 1, first); }
  }

  lemma ConsChunk(ls: seq<Line>, pos: nat, lineNumber: nat, first: bool, c: Chunk, end: nat, rest: ParsedChunks)
    requires pos < |ls| && !ls[pos].isBlank && !ls[pos].hasStars
    requires ParseChunk(ls, pos, lineNumber, first) == Ok(ParsedChunk(c, end))
    requires pos < end <= |ls| && ParseChunks(ls, end, lineNumber + (end - pos), false) == Ok(rest)
    ensures ParseChunks(ls, pos, lineNumber, first) == Ok(ParsedChunks([c] + rest.chunks, rest.end))
  {
  }

  // What follows the first of the chunks cannot be taken for one of its lines.
  lemma NextChunkEnds(ls: seq<Line>, pos: nat, cs: seq<ChunkText>, ended: bool)
    requires ChunksAt(ls, pos, cs) && WellOpened(cs, false, ended) && !ended
    requires cs == [] ==> HunkEndsAt(ls, pos)
    ensures ChunkEndsAt(ls, pos)
  {
  }

  lemma FirstChunkReadsBack(ls: seq<Line>, pos: nat, c: ChunkText, end: nat, rest: ParsedChunks, lineNumber: nat,
                            first: bool)
    requires InnerAt(ls, pos, c) && c.edits != [] && (HasMark(c) || first) && end == pos + InnerSize(c)
    requires c.atEnd || ChunkEndsAt(ls, end)
    requires end <= |ls| && ParseChunks(ls, end, lineNumber + (end - pos), false) == Ok(rest)
    ensures ParseChunks(ls, pos, lineNumber, first) == Ok(ParsedChunks([ChunkOf(c)] + rest.chunks, rest.end))
  {
    ChunkReadsBack(ls, pos, c, lineNumber, first);
    ConsChunk(ls, pos, lineNumber, first, ChunkOf(c), end, rest);
  }

  // One chunk in front of chunks that read back.
  lemma ChunkThenChunks(ls: seq<Line>, pos: nat, c: ChunkText, end: nat, chunks: seq<Chunk>, stop: nat, lineNumber: nat,
                        next: nat, first: bool)
    requires ChunkAt(ls, pos, c) && c.edits != [] && (HasMark(c) || first) && end == pos + ChunkSize(c)
    requires c.atEnd || ChunkEndsAt(ls, end)
    requires end <= |ls| && next == lineNumber + (end - pos)
    requires ParseChunks(ls, end, next, false) == Ok(ParsedChunks(chunks, stop))
    ensures ParseChunks(ls, pos, lineNumber, first) == Ok(ParsedChunks([ChunkOf(c)] + chunks, stop))
  {
    var n := |c.style.above|;
    FirstChunkReadsBack(ls, pos + n, c, end, ParsedChunks(chunks, stop), lineNumber + n, first);
    BlanksAreSkipped(ls, pos, n, lineNumber, first);
  }

  lemma ChunksHead(ls: seq<Line>, pos: nat, cs: seq<ChunkText>, first: bool, ended: bool, end: nat, stop: nat)
    requires cs != [] && ChunksAt(ls, pos, cs) && WellOpened(cs, first, ended) && end == pos + ChunkSize(cs[0])
    requires stop == pos + ChunksSize(cs) && HunkEndsAt(ls, stop)
    ensures cs[0].atEnd || ChunkEndsAt(ls, end)
  {
    var rest := cs[1..];
    if !cs[0].atEnd {
      assert rest == [] ==> end == stop;
      NextChunkEnds(ls, end, rest, false);
    }
  }

  lemma {:induction false} ChunksReadBack(ls: seq<Line>, pos: nat, cs: seq<ChunkText>, lineNumber: nat, first: bool,
                                          ended: bool, stop: nat)
    requires ChunksAt(ls, pos, cs) && PrintableChunks(cs) && WellOpened(cs, first, ended)
    requires stop == pos + ChunksSize(cs) && HunkEndsAt(ls, stop)
    ensures pos <= |ls|
    ensures ParseChunks(ls, pos, lineNumber, first) == Ok(ParsedChunks(ChunksOf(cs), stop))
    decreases |cs|
  {
    if cs != [] {
      var end := pos + ChunkSize(cs[0]);
      var next := lineNumber + (end - pos);
      ChunksHead(ls, pos, cs, first, ended, end, stop);
      ChunksReadBack(ls, end, cs[1..], next, false, cs[0].atEnd, stop);
      ChunkThenChunks(ls, pos, cs[0], end, ChunksOf(cs[1..]), stop, lineNumber, next, first);
    }
  }

  lemma {:induction false} AddedReadBack(ls: seq<Line>, pos: nat, lines: seq<string>)
    requires AddedAt(ls, pos, lines)
    requires HunkEndsAt(ls, pos + |lines|)
    ensures AddedLines(ls, pos) == lines
    decreases |lines|
  {
    if lines != [] {
      AddedReadBack(ls, pos + 1, lines[1..]);
    }
  }

  lemma NoMoveAhead(ls: seq<Line>, pos: nat, c: ChunkText)
    requires ChunkAt(ls, pos, c)
    ensures pos < |ls| && !ls[pos].header.Move?
  {
  }

  lemma UpdateParses(ls: seq<Line>, pos: nat, path: string, movePath: Option<string>, headers: nat, chunks: seq<Chunk>,
                     stop: nat, lineNumber: nat)
    requires pos + headers < |ls| && headers == if movePath.Some? then 2 else 1
    requires movePath.Some? ==> ls[pos + 1].header == Move(movePath.value)
    requires movePath.None? ==> !ls[pos + 1].header.Move?
    requires ParseChunks(ls, pos + headers, lineNumber + headers, true) == Ok(ParsedChunks(chunks, stop)) && chunks != []
    ensures ParseUpdate(path, ls, pos, lineNumber) == Ok(ParsedHunk(UpdateFile(path, movePath, chunks), stop))
  {
  }

  // Where the lines of an update's chunks are.
  lemma UpdateLiesAt(ls: seq<Line>, pos: nat, h: HunkText, headers: nat, stop: nat)
    requires h.UpdateText? && HunkAt(ls, pos, h) && PrintableHunk(h)
    requires headers == (if h.movePath.Some? then 2 else 1) && stop == pos + HunkSize(h)
    ensures h.chunks != [] && ChunksAt(ls, pos + headers, h.chunks) && PrintableChunks(h.chunks)
    ensures WellOpened(h.chunks, true, true) && stop == pos + headers + ChunksSize(h.chunks)
    ensures pos + headers < |ls| && ChunkAt(ls, pos + headers, h.chunks[0])
    ensures h.movePath.Some? ==> ls[pos + 1].header == Move(h.movePath.value)
  {
    NoMoveAhead(ls, pos + headers, h.chunks[0]);
  }

  lemma UpdateReadsBack(ls: seq<Line>, pos: nat, h: HunkText, lineNumber: nat, stop: nat)
    requires h.UpdateText? && HunkAt(ls, pos, h) && PrintableHunk(h)
    requires stop == pos + HunkSize(h) && HunkEndsAt(ls, stop)
    ensures ParseUpdate(h.path, ls, pos, lineNumber) == Ok(ParsedHunk(HunkOf(h), stop))
  {
    var headers := if h.movePath.Some? then 2 else 1;
    UpdateLiesAt(ls, pos, h, headers, stop);
    ChunksReadBack(ls, pos + headers, h.chunks, lineNumber + headers, true, true, stop);
    NoMoveAhead(ls, pos + headers, h.chunks[0]);
    UpdateParses(ls, pos, h.path, h.movePath, headers, ChunksOf(h.chunks), stop, lineNumber);
  }

  lemma AddReadsBack(ls: seq<Line>, pos: nat, path: string, lines: seq<string>, lineNumber: nat, stop: nat)
    requires HeaderAt(ls, pos, Header.Add(path)) && AddedAt(ls, pos + 1, lines)
    requires stop == pos + 1 + |lines| && HunkEndsAt(ls, stop)
    ensures ParseHunk(ls, pos, lineNumber) == Ok(ParsedHunk(AddFile(path, TextOf(lines)), stop))
  {
    AddedReadBack(ls, pos + 1, lines);
  }

  lemma DeleteReadsBack(ls: seq<Line>, pos: nat, path: string, lineNumber: nat)
    requires HeaderAt(ls, pos, Header.Delete(path))
    ensures ParseHunk(ls, pos, lineNumber) == Ok(ParsedHunk(DeleteFile(path), pos + 1))
  {
  }

  lemma UpdateIsParsed(ls: seq<Line>, pos: nat, path: string, lineNumber: nat, p: ParsedHunk)
    requires HeaderAt(ls, pos, Header.Update(path)) && ParseUpdate(path, ls, pos, lineNumber) == Ok(p)
    ensures ParseHunk(ls, pos, lineNumber) == Ok(p)
  {
  }

  lemma HunkReadsBack(ls: seq<Line>, pos: nat, h: HunkText, lineNumber: nat, stop: nat)
    requires HunkAt(ls, pos, h) && PrintableHunk(h)
    requires stop == pos + HunkSize(h) && HunkEndsAt(ls, stop)
    ensures ParseHunk(ls, pos, lineNumber) == Ok(ParsedHunk(HunkOf(h), stop))
  {
    match h {
      case AddText(path, lines) => AddReadsBack(ls, pos, path, lines, lineNumber, stop);
      case DeleteText(path) => DeleteReadsBack(ls, pos, path, lineNumber);
      case UpdateText(path, _, _) =>
        UpdateReadsBack(ls, pos, h, lineNumber, stop);
        UpdateIsParsed(ls, pos, path, lineNumber, ParsedHunk(HunkOf(h), stop));
    }
  }

  lemma ConsHunk(ls: seq<Line>, pos: nat, lineNumber: nat, h: Hunk, end: nat, hs: seq<Hunk>)
    requires pos < end <= |ls|
    requires ParseHunk(ls, pos, lineNumber) == Ok(ParsedHunk(h, end))
    requires ParseHunks(ls, end, lineNumber + (end - pos)) == Ok(hs)
    ensures ParseHunks(ls, pos, lineNumber) == Ok([h] + hs)
  {
  }

  lemma NextHunkEnds(ls: seq<Line>, pos: nat, hs: seq<HunkText>, stop: nat)
    requires HunksAt(ls, pos, hs, stop) && HunkEndsAt(ls, stop)
    ensures HunkEndsAt(ls, pos)
  {
  }

  lemma FirstHunkReadsBack(ls: seq<Line>, pos: nat, h: HunkText, end: nat, hs: seq<Hunk>, lineNumber: nat, next: nat)
    requires HunkAt(ls, pos, h) && PrintableHunk(h) && end == pos + HunkSize(h) && HunkEndsAt(ls, end)
    requires pos < end <= |ls| && next == lineNumber + (end - pos) && ParseHunks(ls, end, next) == Ok(hs)
    ensures ParseHunks(ls, pos, lineNumber) == Ok([HunkOf(h)] + hs)
  {
    HunkReadsBack(ls, pos, h, lineNumber, end);
    ConsHunk(ls, pos, lineNumber, HunkOf(h), end, hs);
  }

  lemma {:induction false} HunksReadBack(ls: seq<Line>, pos: nat, hs: seq<HunkText>, lineNumber: nat)
    requires HunksAt(ls, pos, hs, |ls|) && Printable(hs)
    ensures pos <= |ls|
    ensures ParseHunks(ls, pos, lineNumber) == Ok(HunksOf(hs))
    decreases |hs|
  {
    if hs != [] {
      var end := pos + HunkSize(hs[0]);
      var next := lineNumber + (end - pos);
      HunksReadBack(ls, end, hs[1..], next);
      NextHunkEnds(ls, end, hs[1..], |ls|);
      FirstHunkReadsBack(ls, pos, hs[0], end, HunksOf(hs[1..]), lineNumber, next);
    }
  }

  // ----- the printer prints such lines

  predicate IsScanned(l: Line) {
    l == ScanLine(l.text)
  }

  // Every line is what scanning its text gives.
  ghost predicate AllScanned(ls: seq<Line>) {
    forall i {:trigger IsScanned(ls[i])} :: 0 <= i < |ls| ==> IsScanned(ls[i])
  }

  lemma ScannedAt(ls: seq<Line>, i: nat)
    requires AllScanned(ls) && i < |ls|
    ensures ls[i] == ScanLine(ls[i].text)
  {
    assert IsScanned(ls[i]);
  }

  lemma ScanLinesScans(text: seq<string>)
    ensures AllScanned(ScanLines(text))
  {
  }

  // The text occurs from `pos` on.
  ghost predicate OccursAt(ls: seq<Line>, pos: nat, text: seq<string>) {
    && pos + |text| <= |ls|
    && forall i :: 0 <= i < |text| ==> ls[pos + i].text == text[i]
  }

  lemma OccursSplit(ls: seq<Line>, pos: nat, a: seq<string>, b: seq<string>)
    requires OccursAt(ls, pos, a + b)
    ensures OccursAt(ls, pos, a) && OccursAt(ls, pos + |a|, b)
  {
    assert forall i :: 0 <= i < |a| ==> (a + b)[i] == a[i];
    forall i | 0 <= i < |b|
      ensures ls[pos + |a| + i].text == b[i]
    {
      assert (a + b)[|a| + i] == b[i];
    }
  }

  lemma OccursFirst(ls: seq<Line>, pos: nat, l: string, rest: seq<string>)
    requires OccursAt(ls, pos, [l] + rest)
    ensures pos < |ls| && ls[pos].text == l
    ensures OccursAt(ls, pos + 1, rest)
  {
    OccursSplit(ls, pos, [l], rest);
    assert ls[pos + 0].text == [l][0];
  }

  lemma {:induction false} PrintsEdit(ls: seq<Line>, pos: nat, e: Edit)
    requires AllScanned(ls) && pos < |ls| && ls[pos].text == PrintEdit(e)
    ensures EditAt(ls[pos], e)
  {
    ScannedAt(ls, pos);
    ScannedEdit(e);
  }

  lemma {:induction false} PrintsMark(ls: seq<Line>, pos: nat, context: Option<string>)
    requires AllScanned(ls) && pos < |ls| && ls[pos].text == PrintMark(context)
    ensures MarkAt(ls, pos, context)
  {
    ScannedAt(ls, pos);
    ScannedMark(context);
  }

  lemma {:induction false} PrintsEnding(ls: seq<Line>, pos: nat)
    requires AllScanned(ls) && pos < |ls| && ls[pos].text == END_OF_FILE
    ensures EndingAt(ls, pos, true)
  {
    ScannedAt(ls, pos);
  }

  lemma {:induction false} PrintsHeader(ls: seq<Line>, pos: nat, prefix: string, path: string, header: Header)
    requires (prefix == ADD_FILE && header == Header.Add(path)) || (prefix == DELETE_FILE && header == Header.Delete(path))
             || (prefix == UPDATE_FILE && header == Header.Update(path)) || (prefix == MOVE_TO && header == Move(path))
    requires IsPath(path)
    requires AllScanned(ls) && pos < |ls| && ls[pos].text == prefix + path
    ensures HeaderAt(ls, pos, header)
  {
    ScannedAt(ls, pos);
    ScannedHeader(prefix, path);
    HeadersDiffer(path);
  }

  lemma {:induction false} PrintsEdits(ls: seq<Line>, pos: nat, edits: seq<Edit>)
    requires AllScanned(ls) && OccursAt(ls, pos, PrintEdits(edits))
    ensures EditsAt(ls, pos, edits) && |PrintEdits(edits)| == |edits|
    decreases |edits|
  {
    if edits != [] {
      OccursFirst(ls, pos, PrintEdit(edits[0]), PrintEdits(edits[1..]));
      PrintsEdit(ls, pos, edits[0]);
      PrintsEdits(ls, pos + 1, edits[1..]);
    }
  }

  lemma {:induction false} PrintsBlanks(ls: seq<Line>, pos: nat, above: seq<string>)
    requires AllScanned(ls) && OccursAt(ls, pos, above) && AreBlank(above)
    ensures BlanksAt(ls, pos, |above|)
    decreases |above|
  {
    if above != [] {
      assert above == [above[0]] + above[1..];
      OccursFirst(ls, pos, above[0], above[1..]);
      ScannedAt(ls, pos);
      PrintsBlanks(ls, pos + 1, above[1..]);
    }
  }

  lemma OccursOnly(ls: seq<Line>, pos: nat, l: string)
    requires OccursAt(ls, pos, [l])
    ensures pos < |ls| && ls[pos].text == l
  {
    assert ls[pos + 0].text == [l][0];
  }

  lemma PrintsBare(ls: seq<Line>, pos: nat, c: ChunkText, more: seq<string>)
    requires AllScanned(ls) && OccursAt(ls, pos, PrintEdits(c.edits) + more) && OpensByItself(c)
    ensures BareAt(ls, pos)
  {
    Associates([PrintEdit(c.edits[0])], PrintEdits(c.edits[1..]), more);
    OccursFirst(ls, pos, PrintEdit(c.edits[0]), PrintEdits(c.edits[1..]) + more);
    ScannedAt(ls, pos);
  }

  lemma PrintsMarkLines(ls: seq<Line>, pos: nat, c: ChunkText)
    requires AllScanned(ls) && OccursAt(ls, pos, MarkLines(c) + (PrintEdits(c.edits) + EndLines(c)))
    requires HasMark(c) || OpensByItself(c)
    ensures if HasMark(c) then MarkAt(ls, pos, c.context) else BareAt(ls, pos)
    ensures OccursAt(ls, pos + MarkSize(c), PrintEdits(c.edits) + EndLines(c))
  {
    OccursSplit(ls, pos, MarkLines(c), PrintEdits(c.edits) + EndLines(c));
    if HasMark(c) {
      OccursOnly(ls, pos, PrintMark(c.context));
      PrintsMark(ls, pos, c.context);
    } else {
      PrintsBare(ls, pos, c, EndLines(c));
    }
  }

  lemma PrintsRest(ls: seq<Line>, pos: nat, c: ChunkText)
    requires AllScanned(ls) && OccursAt(ls, pos, PrintEdits(c.edits) + EndLines(c))
    ensures EditsAt(ls, pos, c.edits) && EndingAt(ls, pos + |c.edits|, c.atEnd) && |PrintEdits(c.edits)| == |c.edits|
  {
    OccursSplit(ls, pos, PrintEdits(c.edits), EndLines(c));
    PrintsEdits(ls, pos, c.edits);
    if c.atEnd {
      OccursOnly(ls, pos + |c.edits|, END_OF_FILE);
      PrintsEnding(ls, pos + |c.edits|);
    }
  }

  lemma PrintsInner(ls: seq<Line>, pos: nat, c: ChunkText)
    requires AllScanned(ls) && OccursAt(ls, pos, MarkLines(c) + (PrintEdits(c.edits) + EndLines(c)))
    requires HasMark(c) || OpensByItself(c)
    ensures InnerAt(ls, pos, c) && |MarkLines(c) + (PrintEdits(c.edits) + EndLines(c))| == InnerSize(c)
  {
    PrintsMarkLines(ls, pos, c);
    PrintsRest(ls, pos + MarkSize(c), c);
  }

  lemma PrintsChunk(ls: seq<Line>, pos: nat, c: ChunkText)
    requires AllScanned(ls) && OccursAt(ls, pos, PrintChunk(c)) && AreBlank(c.style.above) && (HasMark(c) || OpensByItself(c))
    ensures ChunkAt(ls, pos, c) && |PrintChunk(c)| == ChunkSize(c)
  {
    var above, inner := c.style.above, MarkLines(c) + (PrintEdits(c.edits) + EndLines(c));
    ChunkLines(above, MarkLines(c), PrintEdits(c.edits), EndLines(c));
    OccursSplit(ls, pos, above, inner);
    PrintsBlanks(ls, pos, above);
    PrintsInner(ls, pos + |above|, c);
  }

  lemma ChunkLines(above: seq<string>, opening: seq<string>, edits: seq<string>, ending: seq<string>)
    ensures above + opening + edits + ending == above + (opening + (edits + ending))
  {
  }

  lemma PrintsHead(ls: seq<Line>, pos: nat, c: ChunkText, rest: seq<string>, end: nat)
    requires AllScanned(ls) && OccursAt(ls, pos, PrintChunk(c) + rest) && end == pos + ChunkSize(c)
    requires AreBlank(c.style.above) && (HasMark(c) || OpensByItself(c))
    ensures ChunkAt(ls, pos, c) && OccursAt(ls, end, rest) && |PrintChunk(c) + rest| == ChunkSize(c) + |rest|
  {
    OccursSplit(ls, pos, PrintChunk(c), rest);
    PrintsChunk(ls, pos, c);
  }

  // What is asked of the first chunk, and of the others.
  lemma OpenedInTurn(cs: seq<ChunkText>, first: bool, ended: bool, c: ChunkText, rest: seq<ChunkText>)
    requires cs == [c] + rest && PrintableChunks(cs) && WellOpened(cs, first, ended)
    ensures AreBlank(c.style.above) && (HasMark(c) || OpensByItself(c))
    ensures PrintableChunks(rest) && WellOpened(rest, false, c.atEnd)
    ensures PrintChunks(cs) == PrintChunk(c) + PrintChunks(rest)
  {
    assert cs[1..] == rest;
  }

  lemma ChunksInTurn(ls: seq<Line>, pos: nat, cs: seq<ChunkText>, c: ChunkText, rest: seq<ChunkText>, end: nat)
    requires cs == [c] + rest && end == pos + ChunkSize(c) && ChunkAt(ls, pos, c) && ChunksAt(ls, end, rest)
    ensures ChunksAt(ls, pos, cs) && ChunksSize(cs) == ChunkSize(c) + ChunksSize(rest)
  {
    assert cs[1..] == rest;
  }

  lemma {:induction false} PrintsChunks(ls: seq<Line>, pos: nat, cs: seq<ChunkText>, first: bool, ended: bool,
                                        lines: seq<string>)
    requires lines == PrintChunks(cs) && AllScanned(ls) && OccursAt(ls, pos, lines)
    requires PrintableChunks(cs) && WellOpened(cs, first, ended)
    ensures ChunksAt(ls, pos, cs) && |lines| == ChunksSize(cs)
    decreases |cs|
  {
    if cs != [] {
      var c, rest, end := cs[0], cs[1..], pos + ChunkSize(cs[0]);
      OpenedInTurn(cs, first, ended, c, rest);
      PrintsHead(ls, pos, c, PrintChunks(rest), end);
      PrintsChunks(ls, end, rest, false, c.atEnd, PrintChunks(rest));
      ChunksInTurn(ls, pos, cs, c, rest, end);
    }
  }

  lemma {:induction false} PrintsAdded(ls: seq<Line>, pos: nat, lines: seq<string>)
    requires AllScanned(ls) && OccursAt(ls, pos, PrintAdded(lines))
    ensures AddedAt(ls, pos, lines) && |PrintAdded(lines)| == |lines|
    decreases |lines|
  {
    if lines != [] {
      OccursFirst(ls, pos, "+" + lines[0], PrintAdded(lines[1..]));
      PrintsEdit(ls, pos, Put(lines[0]));
      PrintsAdded(ls, pos + 1, lines[1..]);
    }
  }

  // The header of an update, the line of its move, and what is below them.
  lemma PrintsHeaders(ls: seq<Line>, pos: nat, path: string, movePath: Option<string>, headers: nat, below: seq<string>)
    requires IsPath(path) && (movePath.Some? ==> IsPath(movePath.value)) && headers == if movePath.Some? then 2 else 1
    requires AllScanned(ls)
    requires OccursAt(ls, pos, [UPDATE_FILE + path] + (if movePath.Some? then [MOVE_TO + movePath.value] else []) + below)
    ensures HeaderAt(ls, pos, Header.Update(path)) && OccursAt(ls, pos + headers, below)
    ensures movePath.Some? ==> HeaderAt(ls, pos + 1, Move(movePath.value))
  {
    var moves := if movePath.Some? then [MOVE_TO + movePath.value] else [];
    Associates([UPDATE_FILE + path], moves, below);
    OccursFirst(ls, pos, UPDATE_FILE + path, moves + below);
    PrintsHeader(ls, pos, UPDATE_FILE, path, Header.Update(path));
    if movePath.Some? {
      OccursFirst(ls, pos + 1, MOVE_TO + movePath.value, below);
      PrintsHeader(ls, pos + 1, MOVE_TO, movePath.value, Move(movePath.value));
    } else {
      assert [] + below == below;
    }
  }

  lemma UpdateIsAt(ls: seq<Line>, pos: nat, path: string, movePath: Option<string>, chunks: seq<ChunkText>, headers: nat)
    requires headers == if movePath.Some? then 2 else 1
    requires HeaderAt(ls, pos, Header.Update(path)) && ChunksAt(ls, pos + headers, chunks)
    requires movePath.Some? ==> HeaderAt(ls, pos + 1, Move(movePath.value))
    requires |PrintChunks(chunks)| == ChunksSize(chunks)
    ensures HunkAt(ls, pos, UpdateText(path, movePath, chunks))
    ensures |PrintHunk(UpdateText(path, movePath, chunks))| == HunkSize(UpdateText(path, movePath, chunks))
  {
  }

  lemma {:induction false} PrintsUpdate(ls: seq<Line>, pos: nat, path: string, movePath: Option<string>, chunks: seq<ChunkText>)
    requires IsPath(path) && (movePath.Some? ==> IsPath(movePath.value))
    requires PrintableChunks(chunks) && WellOpened(chunks, true, true)
    requires AllScanned(ls) && OccursAt(ls, pos, PrintHunk(UpdateText(path, movePath, chunks)))
    ensures HunkAt(ls, pos, UpdateText(path, movePath, chunks))
    ensures |PrintHunk(UpdateText(path, movePath, chunks))| == HunkSize(UpdateText(path, movePath, chunks))
  {
    var headers := if movePath.Some? then 2 else 1;
    PrintsHeaders(ls, pos, path, movePath, headers, PrintChunks(chunks));
    PrintsChunks(ls, pos + headers, chunks, true, true, PrintChunks(chunks));
    UpdateIsAt(ls, pos, path, movePath, chunks, headers);
  }

  lemma {:induction false} PrintsHunk(ls: seq<Line>, pos: nat, h: HunkText)
    requires PrintableHunk(h)
    requires AllScanned(ls) && OccursAt(ls, pos, PrintHunk(h))
    ensures HunkAt(ls, pos, h) && |PrintHunk(h)| == HunkSize(h)
  {
    match h {
      case AddText(path, lines) =>
        OccursFirst(ls, pos, ADD_FILE + path, PrintAdded(lines));
        PrintsHeader(ls, pos, ADD_FILE, path, Header.Add(path));
        PrintsAdded(ls, pos + 1, lines);
      case DeleteText(path) =>
        OccursFirst(ls, pos, DELETE_FILE + path, []);
        PrintsHeader(ls, pos, DELETE_FILE, path, Header.Delete(path));
      case UpdateText(path, movePath, chunks) =>
        PrintsUpdate(ls, pos, path, movePath, chunks);
    }
  }

  lemma PrintsFirstHunk(ls: seq<Line>, pos: nat, h: HunkText, lines: seq<string>, more: seq<string>, next: nat)
    requires PrintableHunk(h) && AllScanned(ls) && lines == PrintHunk(h) + more && OccursAt(ls, pos, lines)
    requires next == pos + HunkSize(h)
    ensures HunkAt(ls, pos, h) && OccursAt(ls, next, more) && next + |more| == pos + |lines|
  {
    OccursSplit(ls, pos, PrintHunk(h), more);
    PrintsHunk(ls, pos, h);
  }

  lemma HunksInTurn(ls: seq<Line>, pos: nat, hs: seq<HunkText>, next: nat, stop: nat)
    requires hs != [] && HunkAt(ls, pos, hs[0]) && next == pos + HunkSize(hs[0]) && HunksAt(ls, next, hs[1..], stop)
    ensures HunksAt(ls, pos, hs, stop)
  {
  }

  lemma {:induction false} PrintsHunks(ls: seq<Line>, pos: nat, hs: seq<HunkText>, lines: seq<string>, stop: nat)
    requires Printable(hs) && lines == PrintHunks(hs) && stop == pos + |lines|
    requires AllScanned(ls) && OccursAt(ls, pos, lines)
    ensures HunksAt(ls, pos, hs, stop)
    decreases |hs|
  {
    if hs != [] {
      var next, more := pos + HunkSize(hs[0]), PrintHunks(hs[1..]);
      PrintsFirstHunk(ls, pos, hs[0], lines, more, next);
      PrintsHunks(ls, next, hs[1..], more, stop);
      HunksInTurn(ls, pos, hs, next, stop);
    }
  }

  // ----- from text to lines

  lemma {:induction false} EditsArePlain(edits: seq<Edit>)
    requires forall e :: e in edits ==> IsPlain(e.line)
    ensures ArePlain(PrintEdits(edits))
  {
    if edits != [] {
      assert edits[0] in edits && forall e :: e in edits[1..] ==> e in edits;
      EditsArePlain(edits[1..]);
    }
  }

  lemma ChunkIsPlain(c: ChunkText)
    requires PrintableChunk(c)
    ensures ArePlain(PrintChunk(c))
  {
    EditsArePlain(c.edits);
    assert IsPlain(PrintMark(c.context)) && IsPlain(END_OF_FILE);
    assert ArePlain(MarkLines(c)) && ArePlain(EndLines(c));
  }

  lemma {:induction false} ChunksArePlain(cs: seq<ChunkText>)
    requires PrintableChunks(cs)
    ensures ArePlain(PrintChunks(cs))
  {
    if cs != [] {
      ChunkIsPlain(cs[0]);
      ChunksArePlain(cs[1..]);
    }
  }

  lemma {:induction false} AddedArePlain(lines: seq<string>)
    requires ArePlain(lines)
    ensures ArePlain(PrintAdded(lines))
  {
    if lines != [] {
      assert lines[0] in lines && forall l :: l in lines[1..] ==> l in lines;
      AddedArePlain(lines[1..]);
    }
  }

  lemma HeaderIsPlain(prefix: string, path: string)
    requires IsPlain(prefix) && IsPath(path)
    ensures IsPlain(prefix + path)
  {
    var s := prefix + path;
    assert s[|s| - 1] == path[|path| - 1];
  }

  lemma HunkIsPlain(h: HunkText)
    requires PrintableHunk(h)
    ensures ArePlain(PrintHunk(h))
  {
    HeaderIsPlain(ADD_FILE, h.path);
    HeaderIsPlain(DELETE_FILE, h.path);
    HeaderIsPlain(UPDATE_FILE, h.path);
    match h {
      case AddText(path, lines) => AddedArePlain(lines);
      case DeleteText(path) =>
      case UpdateText(path, movePath, chunks) =>
        ChunksArePlain(chunks);
        if movePath.Some? {
          HeaderIsPlain(MOVE_TO, movePath.value);
        }
    }
  }

  lemma {:induction false} HunksArePlain(hs: seq<HunkText>)
    requires Printable(hs)
    ensures ArePlain(PrintHunks(hs))
  {
    if hs != [] {
      HunkIsPlain(hs[0]);
      HunksArePlain(hs[1..]);
    }
  }

  lemma {:induction false} PlainLinesSurvive(ls: seq<string>)
    requires ArePlain(ls)
    ensures DropReturns(ls) == ls
  {
    if |ls| > 1 {
      assert ls[0] in ls && forall l :: l in ls[1..] ==> l in ls;
      PlainLinesSurvive(ls[1..]);
    }
  }

  lemma {:induction false} JoinEnds(ls: seq<string>)
    requires ls != [] && ls[0] != "" && ls[|ls| - 1] != ""
    ensures var s := JoinLines(ls);
            && s != "" && s[0] == ls[0][0]
            && s[|s| - 1] == ls[|ls| - 1][|ls[|ls| - 1]| - 1]
  {
    if |ls| > 1 {
      JoinEndsLast(ls);
    }
  }

  lemma {:induction false} JoinEndsLast(ls: seq<string>)
    requires ls != [] && ls[|ls| - 1] != ""
    ensures var s := JoinLines(ls); s != "" && s[|s| - 1] == ls[|ls| - 1][|ls[|ls| - 1]| - 1]
  {
    if |ls| > 1 {
      JoinEndsLast(ls[1..]);
      var rest := JoinLines(ls[1..]);
      assert (ls[0] + "\n" + rest)[|ls[0] + "\n" + rest| - 1] == rest[|rest| - 1];
    }
  }

  lemma MarkersTrim()
    ensures Trim(BEGIN_PATCH) == BEGIN_PATCH && Trim(END_PATCH) == END_PATCH
    ensures IsPlain(BEGIN_PATCH) && IsPlain(END_PATCH)
  {
    TrimKeepsSolid(BEGIN_PATCH);
    TrimKeepsSolid(END_PATCH);
  }

  // The text of a printable patch splits into the printed lines.
  lemma PatchSplits(ls: seq<string>)
    requires ArePlain(ls)
    ensures var all := [BEGIN_PATCH] + ls + [END_PATCH];
            && Trim(JoinLines(all)) == JoinLines(all) != ""
            && SplitLines(JoinLines(all)) == all
  {
    var all := [BEGIN_PATCH] + ls + [END_PATCH];
    MarkersTrim();
    JoinEnds(all);
    TrimKeepsSolid(JoinLines(all));
    LinesOfJoin(all);
    PlainLinesSurvive(all);
  }

  // Parsing the printed form gives back the same paths, moves, contexts, end-of-file flags and both
  // sides of every chunk.
  lemma ParsePrinted(hs: seq<HunkText>)
    requires Printable(hs)
    ensures ParsePatch(PrintPatch(hs)) == Ok(HunksOf(hs))
  {
    var ls := PrintHunks(hs);
    var all := [BEGIN_PATCH] + ls + [END_PATCH];
    HunksArePlain(hs);
    PatchSplits(ls);
    MarkersTrim();
    assert all[0] == BEGIN_PATCH && all[|all| - 1] == END_PATCH;
    assert CheckBoundaries(all) == Ok(all);
    assert all[1..|all| - 1] == ls;
    ScanLinesScans(ls);
    PrintsHunks(ScanLines(ls), 0, hs, ls, |ls|);
    HunksReadBack(ScanLines(ls), 0, hs, 2);
  }
}
