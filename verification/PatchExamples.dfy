/**
 Two patches that succeed and do not do what they say.
 */
module PatchExamples {
  import opened Text
  import opened PatchLines
  import opened ApplyPatchUpdate
  import opened PatchPrinter
  import opened PatchApply

  // One chunk for a file of one line.
  function OnlyBlock(edits: seq<Edit>): Block {
    Block([], None, edits, false, false, Style([], true))
  }

  lemma OnlyBlockGives(b: Block, put: seq<string>)
    requires b.gap == [] && !IsAddition(b) && NewLines(b) == put
    ensures !exists x :: x in [b] && IsAddition(x)
    ensures NewFile([b], []) == put
  {
    var none: seq<string> := [];
    assert [b][1..] == [] && [b][0] == b;
    assert Additions([]) == none;
    assert Additions([b]) == none + none == none;
    assert WithAdded(none, none) == none + none == none;
    assert KeptFile([], none) == none;
    assert KeptFile([b], none) == b.gap + put + none == put;
    forall x | x in [b] ensures !IsAddition(x) { assert x == b; }
  }

  lemma OnlyBlockIsPossible(files: Files, movePath: Option<string>, edits: seq<Edit>)
    requires files == map["a" := "x\n"] && OldSide(edits) == ["x"]
    ensures Expressible(Rewrite("a", movePath, [OnlyBlock(edits)], []))
    ensures Possible(files, Rewrite("a", movePath, [OnlyBlock(edits)], []))
    ensures NewFile([OnlyBlock(edits)], []) == NewSide(edits)
  {
    var b := OnlyBlock(edits);
    assert [b][1..] == [];
    assert OldFile([b], []) == ["x"];
    assert ["x"][1..] == [];
    assert TextOf(["x"]) == "x" + "\n" + "";
    FileLinesOfText(["x"]);
    OnlyBlockGives(b, NewSide(edits));
  }

  lemma OnlyChunk(edits: seq<Edit>)
    requires AnchorsInGaps([OnlyBlock(edits)])
    ensures ChunkTexts([OnlyBlock(edits)]) == [ChunkText(Style([], true), None, edits, false)]
    ensures PrintChunks([ChunkText(Style([], true), None, edits, false)]) == ["@@"] + PrintEdits(edits)
  {
    var c := ChunkText(Style([], true), None, edits, false);
    assert [OnlyBlock(edits)][1..] == [] && [c][1..] == [];
    assert PrintChunks([c]) == PrintChunk(c) + [];
  }

  lemma HeaderTexts()
    ensures UPDATE_FILE + "a" == "*** Update File: a"
    ensures MOVE_TO + "a" == "*** Move to: a"
  {
  }

  lemma EditTexts()
    ensures PrintEdit(Drop("x")) == "-x" && PrintEdit(Put("y")) == "+y"
    ensures PrintEdit(Keep("x", false)) == " x" && PrintEdit(Put("")) == "+"
  {
  }

  lemma TwoEdits(a: Edit, b: Edit)
    ensures OldSide([a, b]) == (if a.Put? then [] else [a.line]) + (if b.Put? then [] else [b.line])
    ensures NewSide([a, b]) == (if a.Drop? then [] else [a.line]) + (if b.Drop? then [] else [b.line])
    ensures PrintEdits([a, b]) == [PrintEdit(a), PrintEdit(b)]
  {
    assert [a, b][1..] == [b] && [b][1..] == [];
    assert PrintEdits([b]) == [PrintEdit(b)];
    assert OldSide([b]) == (if b.Put? then [] else [b.line]);
    assert NewSide([b]) == (if b.Drop? then [] else [b.line]);
  }

  // The lines of hunks as they stand in a patch.
  lemma HunksAreSpelled(path: string, line: string)
    ensures PrintHunk(AddText(path, [line])) == ["*** Add File: " + path, "+" + line]
    ensures PrintHunk(DeleteText(path)) == ["*** Delete File: " + path]
    ensures PrintChunk(ChunkText(Style([], true), Some(line), [Drop(path)], true)) ==
              ["@@ " + line, "-" + path, "*** End of File"]
  {
    assert [line][1..] == [] && [Drop(path)][1..] == [];
    assert PrintAdded([line]) == ["+" + line];
    assert PrintEdits([Drop(path)]) == [PrintEdit(Drop(path))];
  }

  lemma SixLines(b: string, u: string, c: string, d: string, e: string, f: string)
    ensures [b] + ([u] + [] + ([c] + [d, e])) + [f] == [b, u, c, d, e, f]
  {
  }

  lemma SevenLines(b: string, u: string, m: string, c: string, d: string, e: string, f: string)
    ensures [b] + ([u] + [m] + ([c] + [d, e])) + [f] == [b, u, m, c, d, e, f]
  {
  }

  // The lines of a patch that makes two edits.
  lemma OnlyHunk(movePath: Option<string>, a: Edit, b: Edit)
    requires AnchorsInGaps([OnlyBlock([a, b])])
    ensures PrintHunks([UpdateText("a", movePath, ChunkTexts([OnlyBlock([a, b])]))])
         == [UPDATE_FILE + "a"] + (if movePath.Some? then [MOVE_TO + movePath.value] else [])
            + ([EMPTY_CONTEXT] + [PrintEdit(a), PrintEdit(b)])
  {
    var h := UpdateText("a", movePath, ChunkTexts([OnlyBlock([a, b])]));
    OnlyChunk([a, b]);
    TwoEdits(a, b);
    assert [h][1..] == [];
    assert PrintHunks([h]) == PrintHunk(h) + [] == PrintHunk(h);
  }

  lemma OnlyHunkIsPrintable(movePath: Option<string>, a: Edit, b: Edit)
    requires AnchorsInGaps([OnlyBlock([a, b])])
    requires (movePath.Some? ==> movePath.value == "a") && IsPlain(a.line) && IsPlain(b.line)
    ensures Printable([UpdateText("a", movePath, ChunkTexts([OnlyBlock([a, b])]))])
  {
    var c := ChunkText(Style([], true), None, [a, b], false);
    var h := UpdateText("a", movePath, [c]);
    OnlyChunk([a, b]);
    assert [h][1..] == [] && [c][1..] == [];
    assert PrintableChunk(c);
    assert IsPath("a");
  }

  // The patch that makes the two edits succeeds, and leaves this behind.
  lemma TwoEditsApplied(files: Files, movePath: Option<string>, a: Edit, b: Edit)
    requires files == map["a" := "x\n"] && (movePath.Some? ==> movePath.value == "a")
    requires OldSide([a, b]) == ["x"] && IsPlain(a.line) && IsPlain(b.line)
    ensures AnchorsInGaps([OnlyBlock([a, b])])
    ensures var after := Applied(files, PrintPatch([UpdateText("a", movePath, ChunkTexts([OnlyBlock([a, b])]))]));
            after.files == WriteUpdated(files, "a", movePath, FileText(NewSide([a, b]))) && after.result.Ok?
  {
    OnlyBlockIsPossible(files, movePath, [a, b]);
    OnlyHunkIsPrintable(movePath, a, b);
    OneChange(files, Rewrite("a", movePath, [OnlyBlock([a, b])], []));
  }

  // The chunk replaces x by y and the file is moved onto itself: the patch succeeds and there is no file any more.
  lemma MoveOntoItselfDeletes(files: Files, patch: seq<string>)
    requires files == map["a" := "x\n"]
    requires patch == ["*** Begin Patch", "*** Update File: a", "*** Move to: a", "@@", "-x", "+y", "*** End Patch"]
    ensures Applied(files, JoinLines(patch)).files == map[] && Applied(files, JoinLines(patch)).result.Ok?
  {
    TwoEdits(Drop("x"), Put("y"));
    TwoEditsApplied(files, Some("a"), Drop("x"), Put("y"));
    OnlyHunk(Some("a"), Drop("x"), Put("y"));
    HeaderTexts();
    EditTexts();
    SevenLines(BEGIN_PATCH, UPDATE_FILE + "a", MOVE_TO + "a", EMPTY_CONTEXT, "-x", "+y", END_PATCH);
    MoveWrites(files, WriteUpdated(files, "a", Some("a"), FileText(["y"])), "a", "a", FileText(["y"]));
  }

  lemma BlankIsNotWritten(files: Files)
    requires files == map["a" := "x\n"]
    ensures WriteUpdated(files, "a", None, FileText(["x"] + [""])) == files
  {
    var lines := ["x"] + [""];
    assert lines[1] == "" && lines[1..] == [""];
    assert JoinLines(lines) == "x" + "\n" + "" == "x\n";
  }

  // The chunk adds a blank line at the end of the file: the patch succeeds and the file is what it was.
  lemma BlankLastLineIsLost(files: Files, patch: seq<string>)
    requires files == map["a" := "x\n"]
    requires patch == ["*** Begin Patch", "*** Update File: a", "@@", " x", "+", "*** End Patch"]
    ensures Applied(files, JoinLines(patch)).files == files && Applied(files, JoinLines(patch)).result.Ok?
  {
    TwoEdits(Keep("x", false), Put(""));
    TwoEditsApplied(files, None, Keep("x", false), Put(""));
    OnlyHunk(None, Keep("x", false), Put(""));
    HeaderTexts();
    EditTexts();
    SixLines(BEGIN_PATCH, UPDATE_FILE + "a", EMPTY_CONTEXT, " x", "+", END_PATCH);
    BlankIsNotWritten(files);
  }
}
