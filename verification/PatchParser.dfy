/**
 The parser of the patch format. The rest of the lines still to be read is a position in the list of
 lines, and every step returns the position after what it has read.
 */
module PatchParser {
  import opened Text
  import opened PatchLines
  import opened ApplyPatchUpdate

  datatype Hunk =
    | AddFile(path: string, contents: string)
    | DeleteFile(path: string)
    | UpdateFile(path: string, movePath: Option<string>, chunks: seq<Chunk>)

  datatype PatchError =
    | EmptyInput
    | NoBeginMarker
    | NoEndMarker
    | EmptyHunk(lineNumber: nat)
    | NotAHunkHeader(lineNumber: nat, text: string)
    | EmptyUpdateHunk(lineNumber: nat, path: string)
    | NoContextMarker(lineNumber: nat, text: string)
    | NoChunkLines(lineNumber: nat)
    | UnexpectedLine(lineNumber: nat, text: string)

  // ----- chunks

  datatype Body = Body(oldLines: seq<string>, newLines: seq<string>, isEndOfFile: bool, end: nat)

  function OldOf(kind: BodyLine): seq<string> {
    if kind.Both? || kind.Removed? then [kind.text] else []
  }

  function NewOf(kind: BodyLine): seq<string> {
    if kind.Both? || kind.Added? then [kind.text] else []
  }

  function Extend(oldLines: seq<string>, newLines: seq<string>, rest: Result<Body, PatchError>): Result<Body, PatchError> {
    if rest.Err? then rest
    else Ok(rest.value.(oldLines := oldLines + rest.value.oldLines, newLines := newLines + rest.value.newLines))
  }

  // The lines of a chunk below its header; `parsed` of them have been read already.
  function ParseBody(lines: seq<Line>, pos: nat, parsed: nat, lineNumber: nat): (r: Result<Body, PatchError>)
    requires pos <= |lines|
    ensures r.Ok? ==> pos <= r.value.end <= |lines|
    ensures r.Ok? && parsed == 0 && pos < |lines| ==> pos < r.value.end
    decreases |lines| - pos
  {
    if pos == |lines| then Ok(Body([], [], false, pos))
    else
      match lines[pos].body
      case EofMark => if parsed == 0 then Err(NoChunkLines(lineNumber + 1)) else Ok(Body([], [], true, pos + 1))
      case Other =>
        if parsed == 0 then Err(UnexpectedLine(lineNumber + 1, lines[pos].text)) else Ok(Body([], [], false, pos))
      case kind => Extend(OldOf(kind), NewOf(kind), ParseBody(lines, pos + 1, parsed + 1, lineNumber))
  }

  datatype ParsedChunk = ParsedChunk(chunk: Chunk, end: nat)

  function ParseChunk(lines: seq<Line>, pos: nat, lineNumber: nat, allowMissingContext: bool)
    : (r: Result<ParsedChunk, PatchError>)
    requires pos <= |lines|
    ensures r.Ok? ==> pos < r.value.end <= |lines|
  {
    if pos == |lines| then Err(NoChunkLines(lineNumber))
    else
      var mark := lines[pos].mark;
      var context := if mark.Mark? then Some(mark.context) else None;
      var start := if mark.NoMark? then pos else pos + 1;
      if mark.NoMark? && !allowMissingContext then Err(NoContextMarker(lineNumber, lines[pos].text))
      else if start == |lines| then Err(NoChunkLines(lineNumber + 1))
      else
        match ParseBody(lines, start, 0, lineNumber)
        case Err(e) => Err(e)
        case Ok(b) => Ok(ParsedChunk(Chunk(context, b.oldLines, b.newLines, b.isEndOfFile), b.end))
  }

  // ----- hunks

  datatype ParsedChunks = ParsedChunks(chunks: seq<Chunk>, end: nat)

  // Up to the next line that starts with ***, chunk after chunk; blank lines between chunks are skipped.
  function ParseChunks(lines: seq<Line>, pos: nat, lineNumber: nat, first: bool): (r: Result<ParsedChunks, PatchError>)
    requires pos <= |lines|
    ensures r.Ok? ==> pos <= r.value.end <= |lines|
    decreases |lines| - pos
  {
    if pos == |lines| then Ok(ParsedChunks([], pos))
    else if lines[pos].isBlank then ParseChunks(lines, pos + 1, lineNumber + 1, first)
    else if lines[pos].hasStars then Ok(ParsedChunks([], pos))
    else
      match ParseChunk(lines, pos, lineNumber, first)
      case Err(e) => Err(e)
      case Ok(p) => PrependChunks([p.chunk], ParseChunks(lines, p.end, lineNumber + (p.end - pos), false))
  }

  function PrependChunks(chunks: seq<Chunk>, rest: Result<ParsedChunks, PatchError>): Result<ParsedChunks, PatchError> {
    if rest.Ok? then Ok(rest.value.(chunks := chunks + rest.value.chunks)) else rest
  }

  // The lines an add hunk takes over, without their marker.
  function AddedLines(lines: seq<Line>, pos: nat): (r: seq<string>)
    requires pos <= |lines|
    ensures pos + |r| <= |lines|
    decreases |lines| - pos
  {
    if pos < |lines| && lines[pos].body.Added? then [lines[pos].body.text] + AddedLines(lines, pos + 1) else []
  }

  datatype ParsedHunk = ParsedHunk(hunk: Hunk, end: nat)

  function ParseHunk(lines: seq<Line>, pos: nat, lineNumber: nat): (r: Result<ParsedHunk, PatchError>)
    requires pos <= |lines|
    ensures r.Ok? ==> pos < r.value.end <= |lines|
  {
    if pos == |lines| then Err(EmptyHunk(lineNumber))
    else
      match lines[pos].header
      case Add(path) =>
        var added := AddedLines(lines, pos + 1);
        Ok(ParsedHunk(AddFile(path, TextOf(added)), pos + 1 + |added|))
      case Delete(path) => Ok(ParsedHunk(DeleteFile(path), pos + 1))
      case Update(path) => ParseUpdate(path, lines, pos, lineNumber)
      case _ => Err(NotAHunkHeader(lineNumber, lines[pos].text))
  }

  function ParseUpdate(path: string, lines: seq<Line>, pos: nat, lineNumber: nat): (r: Result<ParsedHunk, PatchError>)
    requires pos < |lines|
    ensures r.Ok? ==> pos < r.value.end <= |lines|
  {
    var moves := pos + 1 < |lines| && lines[pos + 1].header.Move?;
    var movePath := if moves then Some(lines[pos + 1].header.path) else None;
    var headers := if moves then 2 else 1;
    match ParseChunks(lines, pos + headers, lineNumber + headers, true)
    case Err(e) => Err(e)
    case Ok(p) =>
      if p.chunks == [] then Err(EmptyUpdateHunk(lineNumber, path))
      else Ok(ParsedHunk(UpdateFile(path, movePath, p.chunks), p.end))
  }

  // Hunk after hunk, until every line has been read.
  function ParseHunks(lines: seq<Line>, pos: nat, lineNumber: nat): Result<seq<Hunk>, PatchError>
    requires pos <= |lines|
    decreases |lines| - pos
  {
    if pos == |lines| then Ok([])
    else
      match ParseHunk(lines, pos, lineNumber)
      case Err(e) => Err(e)
      case Ok(p) => PrependHunks([p.hunk], ParseHunks(lines, p.end, lineNumber + (p.end - pos)))
  }

  function PrependHunks(hunks: seq<Hunk>, rest: Result<seq<Hunk>, PatchError>): Result<seq<Hunk>, PatchError> {
    if rest.Ok? then Ok(hunks + rest.value) else rest
  }

  // ----- the whole patch

  // Splitting on /\r?\n/: a carriage return in front of a newline goes with it.
  function SplitLines(text: string): (r: seq<string>)
    ensures |r| > 0
  {
    DropReturns(Lines(text))
  }

  function DropReturns(pieces: seq<string>): (r: seq<string>)
    ensures |r| == |pieces|
  {
    if |pieces| <= 1 then pieces else [WithoutReturn(pieces[0])] + DropReturns(pieces[1..])
  }

  function WithoutReturn(s: string): string {
    if s != "" && s[|s| - 1] == '\r' then s[..|s| - 1] else s
  }

  function StrictError(lines: seq<string>): (r: Option<PatchError>)
    requires lines != []
    ensures r.None? ==> |lines| >= 2
  {
    var firstLine, lastLine := Trim(lines[0]), Trim(lines[|lines| - 1]);
    if firstLine == BEGIN_PATCH && lastLine == END_PATCH then
      assert firstLine != lastLine;
      None
    else if firstLine != BEGIN_PATCH then Some(NoBeginMarker)
    else Some(NoEndMarker)
  }

  predicate IsHeredoc(lines: seq<string>)
    requires lines != []
  {
    && (lines[0] == "<<EOF" || lines[0] == "<<'EOF'" || lines[0] == "<<\"EOF\"")
    && EndsWith(lines[|lines| - 1], "EOF")
  }

  // The patch's lines, out of a shell here-document if they are wrapped in one.
  function CheckBoundaries(lines: seq<string>): (r: Result<seq<string>, PatchError>)
    requires lines != []
    ensures r.Ok? ==> |r.value| >= 2
  {
    var error := StrictError(lines);
    if error.None? then Ok(lines)
    else if |lines| < 4 || !IsHeredoc(lines) then Err(error.value)
    else
      var inner := lines[1..|lines| - 1];
      var innerError := StrictError(inner);
      if innerError.None? then Ok(inner) else Err(innerError.value)
  }

  function ParsePatch(input: string): Result<seq<Hunk>, PatchError> {
    var trimmed := Trim(input);
    if trimmed == "" then Err(EmptyInput)
    else
      match CheckBoundaries(SplitLines(trimmed))
      case Err(e) => Err(e)
      case Ok(validated) => ParseHunks(ScanLines(validated[1..|validated| - 1]), 0, 2)
  }

  // How many lines each hunk takes.
  function Consumed(lines: seq<Line>, pos: nat, lineNumber: nat): seq<nat>
    requires pos <= |lines|
    decreases |lines| - pos
  {
    if pos == |lines| then []
    else
      match ParseHunk(lines, pos, lineNumber)
      case Err(e) => []
      case Ok(p) => [p.end - pos] + Consumed(lines, p.end, lineNumber + (p.end - pos))
  }

  function Sum(ns: seq<nat>): nat {
    if ns == [] then 0 else ns[0] + Sum(ns[1..])
  }

  lemma {:induction false} ConsumesLines(lines: seq<Line>, pos: nat, lineNumber: nat)
    requires pos <= |lines|
    ensures 0 !in Consumed(lines, pos, lineNumber)
    decreases |lines| - pos
  {
    if pos < |lines| {
      match ParseHunk(lines, pos, lineNumber)
      case Err(e) => assert Consumed(lines, pos, lineNumber) == [];
      case Ok(p) =>
        ConsumesLines(lines, p.end, lineNumber + (p.end - pos));
    }
  }

  // The body is parsed into hunks only whole: every hunk takes at least a line, and together they take them all.
  lemma {:induction false} HunksPartition(lines: seq<Line>, pos: nat, lineNumber: nat)
    requires pos <= |lines|
    ensures 0 !in Consumed(lines, pos, lineNumber)
    ensures var parsed, consumed := ParseHunks(lines, pos, lineNumber), Consumed(lines, pos, lineNumber);
            (parsed.Ok? <==> Sum(consumed) == |lines| - pos) && (parsed.Ok? ==> |consumed| == |parsed.value|)
    decreases |lines| - pos
  {
    ConsumesLines(lines, pos, lineNumber);
    if pos == |lines| || ParseHunk(lines, pos, lineNumber).Err? {
    } else {
      var p := ParseHunk(lines, pos, lineNumber).value;
      HunksPartition(lines, p.end, lineNumber + (p.end - pos));
    }
  }

  // ----- the program

  lemma ExtendTwice(o: seq<string>, n: seq<string>, o': seq<string>, n': seq<string>, rest: Result<Body, PatchError>)
    ensures Extend(o, n, Extend(o', n', rest)) == Extend(o + o', n + n', rest)
    ensures Extend([], [], rest) == rest
  {
    if rest.Ok? {
      var b := rest.value;
      assert o + (o' + b.oldLines) == (o + o') + b.oldLines && n + (n' + b.newLines) == (n + n') + b.newLines;
      assert [] + b.oldLines == b.oldLines && [] + b.newLines == b.newLines;
    }
  }

  method ParseBodyLines(lines: seq<Line>, start: nat, lineNumber: nat) returns (result: Result<Body, PatchError>)
    requires start <= |lines|
    ensures result == ParseBody(lines, start, 0, lineNumber)
  {
    var oldLines: seq<string>, newLines: seq<string> := [], [];
    var parsedLines: nat := 0;
    var pos := start;
    ExtendTwice([], [], [], [], ParseBody(lines, start, 0, lineNumber));
    while pos < |lines|
      invariant pos == start + parsedLines <= |lines|
      invariant ParseBody(lines, start, 0, lineNumber) ==
                Extend(oldLines, newLines, ParseBody(lines, pos, parsedLines, lineNumber))
      decreases |lines| - pos
    {
      var kind := lines[pos].body;
      assert oldLines + [] == oldLines && newLines + [] == newLines;
      if kind == EofMark {
        if parsedLines == 0 {
          return Err(NoChunkLines(lineNumber + 1));
        }
        return Ok(Body(oldLines, newLines, true, pos + 1));
      }
      if kind == Other {
        if parsedLines == 0 {
          return Err(UnexpectedLine(lineNumber + 1, lines[pos].text));
        }
        return Ok(Body(oldLines, newLines, false, pos));
      }
      ExtendTwice(oldLines, newLines, OldOf(kind), NewOf(kind), ParseBody(lines, pos + 1, parsedLines + 1, lineNumber));
      oldLines := oldLines + OldOf(kind);
      newLines := newLines + NewOf(kind);
      parsedLines := parsedLines + 1;
      pos := pos + 1;
    }
    assert oldLines + [] == oldLines && newLines + [] == newLines;
    return Ok(Body(oldLines, newLines, false, pos));
  }

  method ParseUpdateFileChunk(lines: seq<Line>, pos: nat, lineNumber: nat, allowMissingContext: bool)
    returns (result: Result<ParsedChunk, PatchError>)
    requires pos <= |lines|
    ensures result == ParseChunk(lines, pos, lineNumber, allowMissingContext)
  {
    if pos == |lines| {
      return Err(NoChunkLines(lineNumber));
    }
    var changeContext: Option<string> := None;
    var start := pos;
    if lines[pos].mark == EmptyMark {
      start := pos + 1;
    } else if lines[pos].mark.Mark? {
      changeContext := Some(lines[pos].mark.context);
      start := pos + 1;
    } else if !allowMissingContext {
      return Err(NoContextMarker(lineNumber, lines[pos].text));
    }
    if start == |lines| {
      return Err(NoChunkLines(lineNumber + 1));
    }
    var body := ParseBodyLines(lines, start, lineNumber);
    if body.Err? {
      return Err(body.error);
    }
    var b := body.value;
    return Ok(ParsedChunk(Chunk(changeContext, b.oldLines, b.newLines, b.isEndOfFile), b.end));
  }

  lemma PrependChunksTwice(cs: seq<Chunk>, ds: seq<Chunk>, rest: Result<ParsedChunks, PatchError>)
    ensures PrependChunks(cs, PrependChunks(ds, rest)) == PrependChunks(cs + ds, rest)
    ensures PrependChunks([], rest) == rest
  {
    if rest.Ok? {
      assert cs + (ds + rest.value.chunks) == (cs + ds) + rest.value.chunks;
      assert [] + rest.value.chunks == rest.value.chunks;
    }
  }

  // How the loop over chunks takes its next step, with `chunks` already read.
  lemma ChunkStep(chunks: seq<Chunk>, lines: seq<Line>, pos: nat, line: nat, first: bool)
    requires pos < |lines| && !lines[pos].isBlank && !lines[pos].hasStars
    ensures match ParseChunk(lines, pos, line, first)
            case Err(e) => ParseChunks(lines, pos, line, first) == Err(e)
            case Ok(p) =>
              PrependChunks(chunks, ParseChunks(lines, pos, line, first)) ==
              PrependChunks(chunks + [p.chunk], ParseChunks(lines, p.end, line + (p.end - pos), false))
  {
    if ParseChunk(lines, pos, line, first).Ok? {
      var p := ParseChunk(lines, pos, line, first).value;
      PrependChunksTwice(chunks, [p.chunk], ParseChunks(lines, p.end, line + (p.end - pos), false));
    }
  }

  lemma LastStep(chunks: seq<Chunk>, lines: seq<Line>, pos: nat, line: nat, first: bool)
    requires pos <= |lines|
    requires pos < |lines| ==> !lines[pos].isBlank && lines[pos].hasStars
    ensures PrependChunks(chunks, ParseChunks(lines, pos, line, first)) == Ok(ParsedChunks(chunks, pos))
  {
    assert chunks + [] == chunks;
  }

  method ParseChunkLoop(lines: seq<Line>, start: nat, lineNumber: nat) returns (result: Result<ParsedChunks, PatchError>)
    requires start <= |lines|
    ensures result == ParseChunks(lines, start, lineNumber, true)
  {
    var chunks: seq<Chunk> := [];
    var pos, line: nat := start, lineNumber;
    ghost var first := true;
    PrependChunksTwice([], [], ParseChunks(lines, start, lineNumber, true));
    while pos < |lines|
      invariant start <= pos <= |lines| && first == (|chunks| == 0)
      invariant ParseChunks(lines, start, lineNumber, true) ==
                PrependChunks(chunks, ParseChunks(lines, pos, line, first))
      decreases |lines| - pos
    {
      if lines[pos].isBlank {
        pos := pos + 1;
        line := line + 1;
        continue;
      }
      if lines[pos].hasStars {
        break;
      }
      ChunkStep(chunks, lines, pos, line, first);
      var parsed := ParseUpdateFileChunk(lines, pos, line, |chunks| == 0);
      if parsed.Err? {
        return Err(parsed.error);
      }
      chunks := chunks + [parsed.value.chunk];
      line := line + (parsed.value.end - pos);
      pos := parsed.value.end;
      first := false;
    }
    LastStep(chunks, lines, pos, line, first);
    return Ok(ParsedChunks(chunks, pos));
  }

  method ReadAddedLines(lines: seq<Line>, start: nat) returns (contents: string, pos: nat)
    requires start <= |lines|
    ensures pos == start + |AddedLines(lines, start)|
    ensures contents == TextOf(AddedLines(lines, start))
  {
    contents, pos := "", start;
    while pos < |lines|
      invariant start <= pos <= |lines|
      invariant start + |AddedLines(lines, start)| == pos + |AddedLines(lines, pos)|
      invariant TextOf(AddedLines(lines, start)) == contents + TextOf(AddedLines(lines, pos))
    {
      var addLine := lines[pos].body;
      if addLine.Added? {
        contents := contents + addLine.text + "\n";
        pos := pos + 1;
      } else {
        break;
      }
    }
  }

  method ParseOneHunk(lines: seq<Line>, pos: nat, lineNumber: nat) returns (result: Result<ParsedHunk, PatchError>)
    requires pos <= |lines|
    ensures result == ParseHunk(lines, pos, lineNumber)
  {
    if pos == |lines| {
      return Err(EmptyHunk(lineNumber));
    }
    var header := lines[pos].header;
    if header.Add? {
      var contents, end := ReadAddedLines(lines, pos + 1);
      return Ok(ParsedHunk(AddFile(header.path, contents), end));
    }
    if header.Delete? {
      return Ok(ParsedHunk(DeleteFile(header.path), pos + 1));
    }
    if header.Update? {
      var consumed := 1;
      var movePath: Option<string> := None;
      if pos + 1 < |lines| && lines[pos + 1].header.Move? {
        movePath := Some(lines[pos + 1].header.path);
        consumed := 2;
      }
      var chunks := ParseChunkLoop(lines, pos + consumed, lineNumber + consumed);
      if chunks.Err? {
        return Err(chunks.error);
      }
      if |chunks.value.chunks| == 0 {
        return Err(EmptyUpdateHunk(lineNumber, header.path));
      }
      return Ok(ParsedHunk(UpdateFile(header.path, movePath, chunks.value.chunks), chunks.value.end));
    }
    return Err(NotAHunkHeader(lineNumber, lines[pos].text));
  }

  lemma PrependHunksTwice(hs: seq<Hunk>, more: seq<Hunk>, rest: Result<seq<Hunk>, PatchError>)
    ensures PrependHunks(hs, PrependHunks(more, rest)) == PrependHunks(hs + more, rest)
    ensures PrependHunks([], rest) == rest
  {
    if rest.Ok? {
      assert hs + (more + rest.value) == (hs + more) + rest.value;
      assert [] + rest.value == rest.value;
    }
  }

  method ParseHunkLoop(lines: seq<Line>) returns (result: Result<seq<Hunk>, PatchError>)
    ensures result == ParseHunks(lines, 0, 2)
  {
    var hunks: seq<Hunk> := [];
    var pos: nat, lineNumber: nat := 0, 2;
    PrependHunksTwice([], [], ParseHunks(lines, 0, 2));
    while pos < |lines|
      invariant pos <= |lines|
      invariant ParseHunks(lines, 0, 2) == PrependHunks(hunks, ParseHunks(lines, pos, lineNumber))
      decreases |lines| - pos
    {
      var parsed := ParseOneHunk(lines, pos, lineNumber);
      if parsed.Err? {
        return Err(parsed.error);
      }
      var ParsedHunk(hunk, end) := parsed.value;
      PrependHunksTwice(hunks, [hunk], ParseHunks(lines, end, lineNumber + (end - pos)));
      hunks := hunks + [hunk];
      lineNumber := lineNumber + (end - pos);
      pos := end;
    }
    assert hunks + [] == hunks;
    return Ok(hunks);
  }

  method ParsePatchText(input: string) returns (result: Result<seq<Hunk>, PatchError>)
    ensures result == ParsePatch(input)
  {
    var trimmed := Trim(input);
    if trimmed == "" {
      return Err(EmptyInput);
    }
    var validated := CheckBoundaries(SplitLines(trimmed));
    if validated.Err? {
      return Err(validated.error);
    }
    result := ParseHunkLoop(ScanLines(validated.value[1..|validated.value| - 1]));
  }
}
