/**
 The lines of a patch, with every test the parser makes of a line. Each test reads that one line only,
 so it is made once, when the line is scanned.
 */
module PatchLines {
  import opened Text

  const BEGIN_PATCH := "*** Begin Patch"
  const END_PATCH := "*** End Patch"
  const ADD_FILE := "*** Add File: "
  const DELETE_FILE := "*** Delete File: "
  const UPDATE_FILE := "*** Update File: "
  const MOVE_TO := "*** Move to: "
  const END_OF_FILE := "*** End of File"
  const CONTEXT := "@@ "
  const EMPTY_CONTEXT := "@@"

  // What the trimmed line says as the header of a hunk.
  datatype Header = Add(path: string) | Delete(path: string) | Update(path: string) | Move(path: string) | NoHeader

  // What the line says in front of a chunk.
  datatype ContextMark = EmptyMark | Mark(context: string) | NoMark

  // What the line says inside a chunk.
  datatype BodyLine = EofMark | Both(text: string) | Added(text: string) | Removed(text: string) | Other

  datatype Line = Line(text: string, isBlank: bool, hasStars: bool, header: Header, mark: ContextMark, body: BodyLine)

  function HeaderOf(trimmed: string): Header {
    if ADD_FILE <= trimmed then Add(trimmed[|ADD_FILE|..])
    else if DELETE_FILE <= trimmed then Delete(trimmed[|DELETE_FILE|..])
    else if UPDATE_FILE <= trimmed then Update(trimmed[|UPDATE_FILE|..])
    else if MOVE_TO <= trimmed then Move(trimmed[|MOVE_TO|..])
    else NoHeader
  }

  function MarkOf(line: string): ContextMark {
    if line == EMPTY_CONTEXT then EmptyMark
    else if CONTEXT <= line then Mark(line[|CONTEXT|..])
    else NoMark
  }

  function BodyOf(line: string): BodyLine {
    if line == END_OF_FILE then EofMark
    else if line == "" then Both("")
    else if line[0] == ' ' then Both(line[1..])
    else if line[0] == '+' then Added(line[1..])
    else if line[0] == '-' then Removed(line[1..])
    else Other
  }

  function ScanLine(line: string): Line {
    Line(line, Trim(line) == "", "***" <= line, HeaderOf(Trim(line)), MarkOf(line), BodyOf(line))
  }

  function ScanLines(lines: seq<string>): (r: seq<Line>)
    ensures |r| == |lines|
  {
    seq(|lines|, i requires 0 <= i < |lines| => ScanLine(lines[i]))
  }
}
