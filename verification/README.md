# Verified model of the patch engine, the ACP bridge, the frame codec and the document translator

This project models six parts of the repository in Dafny and proves what they promise, or exactly when they keep it.

* **The patch engine** (`TieredSearch`, `LineSearch`, `Replacements`, `ApplyPatchUpdate`, `PatchLines`, `PatchParser`,
  `PatchPrinter`, `PatchWrapping`, `PatchErrors`, `PatchApply`, `PatchFailures`, `PatchExamples`): parsing a patch, locating its chunks through four ever looser
  comparisons, splicing the file back to front, and carrying out whole patches over several files. The printer, and
  the wrapping and the faults it may add, are part of the specification only; the repository has the parser.
* **The ACP bridge** (`SessionStore`, `SessionHistory`, `AcpBridge`, `AcpPrompts`, `AcpSettlement`, `AcpRuns`,
  `AcpOutcomes`, `AcpLostPrompts`, `AcpGatewayAgent`): the bounded session store with its run index, and the agent as a step system whose handlers are
  cut at each `await`.
* **WebSocket framing** (`WebSocketFrames`): the encoder, and the decoder fed with arbitrary pieces.
* **The document translator** (`WorkerPool`, `WorkerPoolRuns`, `WorkerPoolCancel`, `WorkerPoolReturns`,
  `WorkerPoolProducer`; `Placeholders`, `MaskTokens`, `Masking`, `MaskPasses`, `MaskLedger`, `MaskedMatches`, `Masker`,
  `TranslateMasked`, `TranslateText`, `OneStretch`, `CorruptedTexts`; `TaggedDocument`, `FrontMarkers`, `FrontMatter`; `GoText`): the worker pool over two
  channels under every interleaving, masking and unmasking, the tagged form of a document and its front matter.
* **Process output** (`OutputBuffer`): chunk lists cut in place behave as the last characters of a stream.
* **UTF-16 slicing** (`Utf16`).

Code that loops or updates is modelled by methods and classes, each proved equal to a specification function; the
properties are lemmas about those functions. What the branches of a function lead to, its errors, limits and constants
included, is said by lemmas of their own, in terms of inputs and results. `Text` holds the string functions of ECMAScript that several parts share.

## What turned out to be false

Each of these is a lemma with a concrete input or an exact condition.

* A chunk flagged end-of-file may be placed inside lines an earlier chunk replaced, and an insertion before a blank
  last line inside lines another chunk replaces; a line is then lost (`ReplacementsFitIff`, `EofJumpLosesALine`,
  `InsertionBeforeBlankIsLost`).
* A new file whose last line is blank loses its last newline (`EditIsExactIff`, `BlankLastLineIsLost`); a file moved
  onto its own path is deleted (`MoveKeepsFileIff`, `MoveOntoItselfDeletes`).
* A full store with an idle session named by the empty string cannot make room if that one is the oldest
  (`CreateFailsIff`, `NamelessIsNotEvicted`).
* A prompt can be left with nothing that will ever settle it, in four ways: a second prompt on its session, or the
  late `chat.send` failure or late cancel of an older one, when its own `chat.send` is back; or its own `chat.send`
  coming back after one of those (`AcpLostPrompts.NoPromptLostIff`, `CanSettleIff`, with the runs
  `SecondPromptLosesFirst`, `LateFailureLosesSecond` and `LateCancelLosesSecond`). A late cancel can also leave a run in
  progress through a disconnect (`StepStrandsIff`, `RunCanBeStranded`).
* What continuation frames carry is dropped (`AllIsWrittenIff`, `OnlyFirstFragmentArrives`, `SecondFragmentIsLost`).
* Workers that fail to start can hang the pool (`AlwaysReturnsIff`), and an error can leave the producer waiting for
  ever (`ProducerIsLeftIff`, `LeftForEver`, `OneFailureLeavesProducer`).
* Masked text that validation accepts need not come back as it was. It does for every text in which no number drawn for
  it follows `OC_I18N_` (`MaskingIsLosslessOrRejected`), and, if one stretch is taken out, for exactly the texts that
  hold the name given out at no other place, the underscores of the placeholder included (`OneStretchIff`). It fails in
  three ways: a whole name in the text that the pattern overlooks because it shares underscores with another
  (`FindsAllIff`, `SharedUnderscoresAreMissed`, `SharedIsCorrupted`), the tail of a name behind a placeholder
  (`TailIsCorrupted`), and the head of one in front of a placeholder (`HeadIsCorrupted`).
* White space that Go's `TrimSpace` removes and the caller's own trimming does not is lost (`EchoTextIff`,
  `NoBreakSpaceIsLost`).
* Text between the closing front-matter tag and the opening body tag is ignored without an error (`GapIsDroppedIff`,
  `StrayTextIsDropped`).
* A front-matter value is cut at its own closing marker (`ValuesComeBackIff`), and one that holds the markers of a later
  field is read as that field (`SummaryForgesTitle`).

## Model

| member | source | states |
|---|---|---|
| TieredSearch.SearchIsBest | openclaw/src/agents/apply-patch-update.ts:126-145 | A search over passes returns an index if and only if it is the leftmost hit of the first pass that has any hit in the window. |
| TieredSearch.SearchHitsBest | openclaw/src/agents/apply-patch-update.ts:126-147 | Whatever is found is such a best hit, and nothing is found only if no pass hits anywhere in the window. |
| LineSearch.TiersLoosen | openclaw/src/agents/apply-patch-update.ts:126-145 | The four comparisons loosen: an exact match is a match up to trailing space, that one up to surrounding space, that one up to punctuation. |
| LineSearch.SeekIsTiered | openclaw/src/agents/apply-patch-update.ts:107-148 | For a non-empty pattern the search returns the leftmost match of the strictest tier that matches anywhere in the scanned window, the window being a single position at the end of the file when the end is asked for. |
| LineSearch.SeekIsComplete | openclaw/src/agents/apply-patch-update.ts:107-148 | It fails exactly if the loosest comparison matches nowhere in the window; what it returns lies in the window and matches loosely. |
| LineSearch.SeekFindsFirstCopy | openclaw/src/agents/apply-patch-update.ts:126-130 | A literal copy of the pattern is found where it first occurs in the window, whatever looser matches lie before it. |
| LineSearch.SeekStrictest | openclaw/src/agents/apply-patch-update.ts:126-145 | Whichever of the four comparisons it is: if it matches in the window and no stricter one does anywhere in it, its leftmost match is what is found. |
| LineSearch.TrailingIff | openclaw/src/agents/apply-patch-update.ts:131-135 | Two lines agree under the second comparison if and only if they are one text, each with white space behind it or none. |
| LineSearch.SurroundingIff | openclaw/src/agents/apply-patch-update.ts:136-140 | Two lines agree under the third if and only if they are one text, each with white space around it or none. |
| LineSearch.LooselyIff | openclaw/src/agents/apply-patch-update.ts:164-205 | Two lines agree under the fourth if and only if, without white space around them, they are equally long and agree place by place up to the kind of hyphen, single or double quotation mark, or blank; the characters of each kind are listed. |
| LineSearch.LinesMatch | openclaw/src/agents/apply-patch-update.ts:150-162 | The comparing loop answers whether all lines agree after normalization. |
| LineSearch.Scan | openclaw/src/agents/apply-patch-update.ts:126-130 | One scanning loop finds the leftmost match in the window, or nothing. |
| LineSearch.SeekSequence | openclaw/src/agents/apply-patch-update.ts:107-148 | The whole search, with its guards for empty and overlong patterns, equals the specified one. |
| Replacements.SortIsStable | openclaw/src/agents/apply-patch-update.ts:85 | The sort orders by start line, keeps the order of equal starts, and keeps exactly the given replacements. |
| Replacements.SortedIsDisjointIff | openclaw/src/agents/apply-patch-update.ts:85-86 | For in-range replacements, the sorted list is free of overlaps if and only if every pair, in list order, is compatible. |
| Replacements.SortMovesToEnd | openclaw/src/agents/apply-patch-update.ts:85 | If everything before one index is in order already, sorting only moves what starts at that index behind the rest, in its old order. |
| Replacements.SortKeepsDisjoint | openclaw/src/agents/apply-patch-update.ts:85 | A list already in order and free of overlaps is left as it is. |
| Replacements.BackwardIsForward | openclaw/src/agents/apply-patch-update.ts:89-105 | Splicing back to front leaves the lines before the first replacement alone and makes the rest the untouched gaps interleaved with the new slices. |
| Replacements.SplicingRefinesForward | openclaw/src/agents/apply-patch-update.ts:89-105 | For every ordered, in-range, non-overlapping list, several insertions at one index included, splicing in place gives gaps and new slices in list order, and the length is the old length less the deleted plus the inserted lines. |
| Replacements.DeleteLines | openclaw/src/agents/apply-patch-update.ts:95-99 | The deleting loop removes the given stretch, cut off at the end of the list by its guard. |
| Replacements.InsertLines | openclaw/src/agents/apply-patch-update.ts:100-102 | The inserting loop puts the new lines, in order, at the given index. |
| Replacements.ApplyReplacements | openclaw/src/agents/apply-patch-update.ts:89-105 | The back-to-front loop computes the specified splicing, hence the forward meaning for lists without overlaps. |
| ApplyPatchUpdate.ReplacementsFitIff | openclaw/src/agents/apply-patch-update.ts:37-87 | Every computed list is in range; it is ordered and free of overlaps if and only if each chunk passes a check against what is known when it is placed: where the replaced lines reach to and whether a line was inserted before the end. |
| ApplyPatchUpdate.PlacedFitIff | openclaw/src/agents/apply-patch-update.ts:45-83 | The same for any state the chunk loop can be in. |
| ApplyPatchUpdate.EofAheadFits | openclaw/src/agents/apply-patch-update.ts:54-61 | That check holds whenever no search flagged end-of-file starts behind the cursor and nothing is inserted before a blank last line. |
| ApplyPatchUpdate.CursorMovesForward | openclaw/src/agents/apply-patch-update.ts:45-83 | In that case no replacement starts before the cursor, and those before the end of the file come in increasing order. |
| ApplyPatchUpdate.OrdinaryChunksFit | openclaw/src/agents/apply-patch-update.ts:37-87 | In that case the result is free of overlaps and is the chunk order with only the insertions at the end of the file moved behind the rest. |
| ApplyPatchUpdate.EofJumpLosesALine | openclaw/src/agents/apply-patch-update.ts:121 | Concrete chunks whose end-of-file search jumps back into replaced lines: the second chunk's new line is lost. |
| ApplyPatchUpdate.InsertionBeforeBlankIsLost | openclaw/src/agents/apply-patch-update.ts:54-61 | Concrete chunks that insert in front of a blank last line another chunk replaces: the inserted line is lost. |
| ApplyPatchUpdate.LocateOldLines | openclaw/src/agents/apply-patch-update.ts:63-81 | Old lines are located, on failure once more without a blank last line, and then the new lines lose a blank last line too; `PatchApply.UpdatePerformsEdit` states what either way does to the file. |
| ApplyPatchUpdate.SkipContext | openclaw/src/agents/apply-patch-update.ts:46-52 | A context line moves the cursor behind its first match; an empty context is none. |
| ApplyPatchUpdate.PlaceChunk | openclaw/src/agents/apply-patch-update.ts:45-82 | One turn of the chunk loop gives the specified replacement, new cursor or error. |
| ApplyPatchUpdate.ComputeReplacements | openclaw/src/agents/apply-patch-update.ts:37-87 | The chunk loop followed by the sort gives the specified list or the first error. |
| ApplyPatchUpdate.ApplyUpdateHunk | openclaw/src/agents/apply-patch-update.ts:14-35 | Reading, replacing and writing back give the specified file text or error. |
| ApplyPatchUpdate.FileLinesOfText | openclaw/src/agents/apply-patch-update.ts:24-27 | A text of newline-ended lines is read as exactly those lines. |
| ApplyPatchUpdate.FileLinesOfContents | openclaw/src/agents/apply-patch-update.ts:24-27 | Ending every line read of a file with a newline gives the file, or the file and a newline if its last line had none. |
| ApplyPatchUpdate.FileTextIsTextIff | openclaw/src/agents/apply-patch-update.ts:31-34 | The lines are written back each with its newline if and only if there are none or the last is not blank. |
| PatchParser.HunksPartition | openclaw/src/agents/apply-patch.ts:365-370 | The body parses if and only if the line counts the hunks consume, each at least one, add up to the whole body; there is one count per hunk. |
| PatchParser.ParseBodyLines | openclaw/src/agents/apply-patch.ts:534-579 | The loop over chunk lines collects both sides, a bare blank line on both, stops at the end-of-file mark or a foreign line, and fails on the first line only; `PatchPrinter.ChunkReadsBack` states what it reads off each kind of line. |
| PatchParser.ParseUpdateFileChunk | openclaw/src/agents/apply-patch.ts:497-582 | A chunk is parsed as specified: its context mark, its lines, its three kinds of error. |
| PatchParser.ParseChunkLoop | openclaw/src/agents/apply-patch.ts:455-473 | Chunks are read up to a line of stars, blank lines between them skipped. |
| PatchParser.ReadAddedLines | openclaw/src/agents/apply-patch.ts:420-427 | An added file's contents are its lines, each with a newline, up to the first line without a plus. |
| PatchParser.ParseOneHunk | openclaw/src/agents/apply-patch.ts:411-495 | Header, optional move, chunks or contents, or the specified error. |
| PatchParser.ParseHunkLoop | openclaw/src/agents/apply-patch.ts:365-370 | Hunks are read one after another until no line remains. |
| PatchParser.ParsePatchText | openclaw/src/agents/apply-patch.ts:351-373 | Trimming, line splitting, boundary checks (strict and here-document) and the hunk loop together equal the specified parser. |
| PatchPrinter.ChunkReadsBack | openclaw/src/agents/apply-patch.ts:497-582 | The printed lines of a chunk, kept blank lines with or without their leading space, followed by anything that ends a chunk, parse to its context, both sides and its end-of-file flag, and to exactly those lines. |
| PatchPrinter.HunkReadsBack | openclaw/src/agents/apply-patch.ts:411-495 | The printed lines of a hunk parse to that hunk and to exactly those lines. |
| PatchPrinter.HunksReadBack | openclaw/src/agents/apply-patch.ts:365-370 | Printed hunks, one after another, parse to those hunks. |
| PatchPrinter.ParsePrinted | openclaw/src/agents/apply-patch.ts:351-582 | Parsing the printed text of any printable list of hunks gives back the same paths, moves, contexts, flags, and old and new sides: whether kept blank lines are printed bare, whether a first chunk has its at-signs, and however many blank lines stand above a chunk. |
| PatchWrapping.ParseWrapped | openclaw/src/agents/apply-patch.ts:351-394 | The same out of any wrapping: white space around the patch, its first and last line indented, each line ended by a newline with or without a carriage return, and all of it in a shell here-document or not. |
| PatchWrapping.WrappingIsTakenOff | openclaw/src/agents/apply-patch.ts:351-394 | Whatever such wrapping is around it and whatever the lines inside are, what is parsed is the lines between the first and the last line of the patch. |
| PatchWrapping.SplitsInto | openclaw/src/agents/apply-patch.ts:352-357 | Trimming and splitting give the lines of a text, whatever white space is around it and however each line is ended. |
| PatchWrapping.EmptyIsRefused | openclaw/src/agents/apply-patch.ts:353-355 | Nothing but white space is refused as empty. |
| PatchWrapping.UnmarkedIsRefused | openclaw/src/agents/apply-patch.ts:396-409 | Without the line that begins a patch, or with it and without the one that ends it, that is reported. |
| PatchWrapping.BadHeredocIsRefused | openclaw/src/agents/apply-patch.ts:375-394 | A here-document around anything but a patch is refused with what its inner lines lack. |
| PatchErrors.UnknownHeaderIsReported | openclaw/src/agents/apply-patch.ts:492-494 | Behind any printable hunks, a line of stars that heads no hunk is reported with its line number. |
| PatchErrors.LaterChunkNeedsMark | openclaw/src/agents/apply-patch.ts:515-519 | Behind any hunks and at least one chunk of an update, a foreign line is reported as lacking the at-signs, with its line number. |
| PatchErrors.FirstChunkNeedsLine | openclaw/src/agents/apply-patch.ts:573-577 | In front of the first chunk of an update, which needs no at-signs, a foreign line is reported as unexpected, with the number of the next line. |
| PatchErrors.MarkNeedsLines | openclaw/src/agents/apply-patch.ts:521-577 | At-signs with no line of a chunk below them: the end, an end-of-file mark or a foreign line is reported with its own kind of error and the number of the line below the at-signs. |
| PatchErrors.EmptyUpdateIsReported | openclaw/src/agents/apply-patch.ts:475-479 | An update with no chunk, blank lines aside, is reported with its path and the line number of its header. |
| PatchApply.UpdatePerformsEdit | openclaw/src/agents/apply-patch-update.ts:14-87 | The chunks of an edit turn any file that reads as the old lines, whether or not its last line is ended by a newline, into the text of the new one. Each chunk is first found from the cursor at its own place, behind its context line if it has one. A chunk may have a blank last line that the file does not have there, which then is dropped on both sides; chunks without old lines may stand anywhere between the others, and what they add comes, in their order, at the end of the file, in front of a blank last line. |
| PatchApply.BlocksPlaced | openclaw/src/agents/apply-patch-update.ts:45-83 | Each chunk of such an edit is placed where the edit has it, and those without old lines at the end. |
| PatchApply.LocatedWithout | openclaw/src/agents/apply-patch-update.ts:67-74 | Old lines that end in a blank one and are found only without it are replaced by the new lines without theirs. |
| PatchApply.AllGiven | openclaw/src/agents/apply-patch-update.ts:54-105 | Spliced in, the replacements of an edit give its new file: the chunks in their places, then what is added at the end. |
| PatchApply.PatchPerformsChanges | openclaw/src/agents/apply-patch.ts:125-189 | Printing any list of possible changes (add, delete, rewrite, move; a rewritten file may lack the newline at its end) and applying the printed text succeeds and carries them all out, in order. |
| PatchApply.EditIsExactIff | openclaw/src/agents/apply-patch-update.ts:31-34 | The edited file is exactly the edit's new file if and only if that file's last line is not blank; otherwise its last newline is lost. |
| PatchApply.MoveKeepsFileIff | openclaw/src/agents/apply-patch.ts:173-181 | Applying the printed patch of any possible edit with a move leaves the new text at the target if and only if the target is another path; moved onto itself the file is gone, and nothing else changes. |
| PatchExamples.MoveOntoItselfDeletes | openclaw/src/agents/apply-patch.ts:173-181 | A concrete patch text that moves a file onto itself succeeds and leaves no file. |
| PatchExamples.BlankLastLineIsLost | openclaw/src/agents/apply-patch-update.ts:31-34 | A concrete patch text that adds a blank line at the end of a file succeeds and leaves the file as it was. |
| PatchExamples.HunksAreSpelled | openclaw/src/agents/apply-patch.ts:14-22 | The lines of an added file, a deleted one, and a chunk with a context line and an end-of-file mark, spelled out. |
| PatchApply.SummaryIsExact | openclaw/src/agents/apply-patch.ts:153-206 | The summary of a successful patch names each touched path once, and no other: what was added, what was deleted, and what was written, which is the path moved to if there is one. |
| PatchApply.EmptyMoveIsNone | openclaw/src/agents/apply-patch.ts:173-182 | An empty path to move to counts as none. |
| PatchApply.SummaryGrows | openclaw/src/agents/apply-patch.ts:191-206 | What the hunks so far have put into the summary's lists stays at their beginning: paths are in the order in which they were first touched. |
| PatchFailures.PatchStopsAt | openclaw/src/agents/apply-patch.ts:146-183 | A patch with a failing hunk behind changes that can be carried out carries those out, reports that hunk's error, and does not touch what is behind it. |
| PatchFailures.MissingFileIsReported | openclaw/src/agents/apply-patch.ts:161-182 | Deleting or updating a file that is not there makes the patch fail like that. |
| PatchFailures.NothingToDoIsReported | openclaw/src/agents/apply-patch.ts:129-132 | A text that does not parse is refused with the parser's error, a patch without hunks as one that does nothing, and neither changes a file. |
| PatchFailures.ContextIsMissing | openclaw/src/agents/apply-patch-update.ts:46-52 | A context line that matches no line from the cursor on, not even loosely, is the error. |
| PatchFailures.LinesAreMissing | openclaw/src/agents/apply-patch-update.ts:46-80 | So are old lines that match nowhere behind the context line, with or without a blank last line. |
| PatchFailures.UnfoundChunkIsReported | openclaw/src/agents/apply-patch.ts:168-182 | Behind changes that are carried out and chunks that are found, a chunk that is not makes the patch fail with that error, and its file stays as it was. |
| PatchApply.Workspace.UpdateFileWith | openclaw/src/agents/apply-patch.ts:168-182 | An update hunk changes the files as specified, or changes none and reports why. |
| PatchApply.Workspace.ApplyPatch | openclaw/src/agents/apply-patch.ts:125-189 | The hunk loop leaves the specified files, a failing patch keeping what came before the failing hunk, and returns the specified summary. |
| SessionStore.ReapFacts | openclaw/src/acp/session.ts:48-59 | Reaping removes exactly the sessions that are idle and were last touched before the limit, and leaves the run index alone. |
| SessionStore.EvictionChoice | openclaw/src/acp/session.ts:61-77 | The session chosen for eviction is the first of the idle ones touched least recently; there is none exactly if all are active. |
| SessionStore.TouchedIsNotEvicted | openclaw/src/acp/session.ts:111-117 | Looking a session up protects it: it is not the one evicted while another idle session was touched earlier. |
| SessionStore.MakeRoomFacts | openclaw/src/acp/session.ts:91-95 | Room cannot be made exactly if the store is full and all sessions are active or the one chosen has the empty name; otherwise a full store loses the chosen session and nothing else. |
| SessionStore.CreateFailsIff | openclaw/src/acp/session.ts:80-95 | Creating a session fails exactly if it is new and, after reaping, there is no room and none can be made. |
| SessionStore.CreateSparesActive | openclaw/src/acp/session.ts:80-107 | A session with a run in progress is neither reaped, evicted nor changed by creating another. |
| SessionStore.CreateEvictsOldest | openclaw/src/acp/session.ts:61-78 | A session that survives reaping and is removed by creating another was the one touched least recently among the idle ones, in a full store. |
| SessionStore.CreateKeepsBound | openclaw/src/acp/session.ts:80-107 | Creating a session keeps the store within its bound. |
| SessionStore.CreateFrame | openclaw/src/acp/session.ts:80-107 | Creating a session changes no run and nothing of the other sessions but which idle ones are stored. |
| SessionStore.CreateKeepsIndex | openclaw/src/acp/session.ts:80-107 | Creating a session keeps the run index exact. |
| SessionStore.SetActiveRunKeepsIndexIff | openclaw/src/acp/session.ts:131-140 | Starting a run keeps the index the exact inverse of the active runs if and only if the session has no other run in progress and the run belongs to no other session. |
| SessionStore.ClearActiveRunKeepsIndex | openclaw/src/acp/session.ts:142-153 | Clearing a run keeps the index exact and leaves the session without a run. |
| SessionStore.CancelActiveRunIsClear | openclaw/src/acp/session.ts:155-168 | So does cancelling, which has the same effect on the index. |
| SessionStore.PerformKeepsBound | openclaw/src/acp/session.ts:24-168 | Every operation keeps the store well formed and within its bound. |
| SessionStore.RunsSpareActive | openclaw/src/acp/session.ts:35-107 | Over any sequence of operations from an empty store, a session that disappears had no run in progress. |
| SessionStore.InMemorySessionStore.constructor | openclaw/src/acp/session.ts:21-26 | The store begins empty and is bounded by what is given, at least one session and a second, or by 5000 sessions and a day if nothing is. |
| SessionStore.NamelessIsNotEvicted | openclaw/src/acp/session.ts:74-77 | In a store for one session, after a run that created one, an idle session not yet old enough to be reaped makes room for another if and only if its name is not empty. |
| SessionHistory.CreationIsRemembered | openclaw/src/acp/session.ts:80-107 | Over any sequence of operations: a stored session has the time of the operation that created it, before which it was not stored and since when it has always been. |
| SessionHistory.KeyIsRemembered | openclaw/src/acp/session.ts:82-107 | Its key and directory are those of the last operation that created it or created it again. |
| SessionHistory.TouchIsRemembered | openclaw/src/acp/session.ts:80-168 | Its time of touch is that of the last operation on it, cancels that found nothing to cancel left out. |
| SessionHistory.RunIsRememberedIff | openclaw/src/acp/session.ts:131-168 | It is stored with a run and a controller if and only if these were set while it was stored and since then no run was set, cleared or cancelled; it has a run exactly if it has a controller. |
| SessionHistory.ReapedIff | openclaw/src/acp/session.ts:48-59 | Reaping takes a session if and only if it has neither run nor controller and its last touch is at least the time to live ago. |
| SessionHistory.EvictedIsOldest | openclaw/src/acp/session.ts:61-95 | What else creating a session takes had neither run nor controller, was touched no later than any other such session, and was alone; the store was full. |
| SessionHistory.CreatedIsAdded | openclaw/src/acp/session.ts:87-107 | Where there is room, creating a session takes only what is reaped and adds the session at the end, with its key, directory and time and without a run. |
| SessionStore.InMemorySessionStore.ReapIdleSessions | openclaw/src/acp/session.ts:48-59 | The reaping loop gives the specified store. |
| SessionStore.InMemorySessionStore.EvictOldestIdleSession | openclaw/src/acp/session.ts:61-78 | The scanning loop removes the specified session, or reports that there is none. |
| SessionStore.InMemorySessionStore.EnsureRoom | openclaw/src/acp/session.ts:91-95 | The limit check and eviction give the specified store or failure. |
| SessionStore.InMemorySessionStore.CreateSession | openclaw/src/acp/session.ts:80-107 | Creating gives the specified store and result. |
| SessionStore.InMemorySessionStore.RemoveSession | openclaw/src/acp/session.ts:35-46 | Removing a session drops it and its run from the index. |
| SessionStore.InMemorySessionStore.GetSession | openclaw/src/acp/session.ts:111-117 | Looking a session up touches it. |
| SessionStore.InMemorySessionStore.GetSessionByRunId | openclaw/src/acp/session.ts:119-129 | With an exact index, looking up a run finds the session it is active in, and no other. |
| SessionStore.InMemorySessionStore.StartRun | openclaw/src/acp/session.ts:131-140 | Starting a run sets the session's run, its controller, the index entry and the time of touch. |
| SessionStore.InMemorySessionStore.ClearRun | openclaw/src/acp/session.ts:142-153 | Clearing resets them. |
| SessionStore.InMemorySessionStore.CancelRun | openclaw/src/acp/session.ts:155-168 | Cancelling resets them if there is a controller, and says whether there was. |
| AcpBridge.StepKeepsInv | openclaw/src/acp/translator.ts:369-863 | Every step of the agent (prompt, refused prompt, chat event, resumed finish, failed send, cancel before and after its abort, disconnect, new session) keeps the index exact, run and controller set together, and each pending prompt's session without a run or with that prompt's. |
| AcpBridge.StartPromptKeepsInv | openclaw/src/acp/translator.ts:559-629 | So does starting a prompt, because it cancels the old run first. |
| AcpRuns.EveryRunAgrees | openclaw/src/acp/session.ts:131-168 | Over every run of the agent with fresh run ids: run id to session is exactly the inverse of session to active run, a run is set exactly if a controller is, and a pending prompt's session has no run or that prompt's. |
| AcpPrompts.StepDropsIff | openclaw/src/acp/translator.ts:598-659 | A step lets a prompt leave the pending map unsettled, neither being finished nor held by a cancel, exactly if it is a prompt on a session with a pending one, or the late failure or cancel of an older prompt of the session. |
| AcpPrompts.PromptDropsIff | openclaw/src/acp/translator.ts:598-605 | Starting a prompt drops the one it displaces from the map unsettled unless a cancel still holds that one. |
| AcpPrompts.SendFailedDropsIff | openclaw/src/acp/translator.ts:623-627 | A failed chat.send drops a prompt from the map unsettled exactly if the session has moved on to another. |
| AcpPrompts.CancelDropsIff | openclaw/src/acp/translator.ts:655-658 | So does a cancel coming back. |
| AcpPrompts.ChatDropsNothing | openclaw/src/acp/translator.ts:775-816 | Chat events drop no prompt. |
| AcpPrompts.DisconnectClearsIff | openclaw/src/acp/translator.ts:369-376 | After a disconnect nothing is pending and every prompt that was is rejected; no run is in progress exactly if each had its prompt pending before. |
| AcpPrompts.StepStrandsIff | openclaw/src/acp/translator.ts:631-659 | A run in progress loses its pending prompt exactly when a cancel that holds an older prompt comes back. |
| AcpPrompts.ExclusiveIsSafe | openclaw/src/acp/translator.ts:559-659 | If whatever waits for a session waits for its pending prompt, and prompts are started only on quiet sessions, no step drops a prompt or strands a run. |
| AcpPrompts.QuietKeepsExclusive | openclaw/src/acp/translator.ts:559-659 | Such steps keep that condition. |
| AcpRuns.NoPromptDroppedIff | openclaw/src/acp/translator.ts:369-863 | Over every run, every prompt is at all times pending, being finished, held by a cancel or settled if and only if no step of the run is one of the three. |
| AcpRuns.QuietRunsAreSafe | openclaw/src/acp/translator.ts:559-659 | In runs where prompts start only on quiet sessions, no prompt is dropped and each run in progress has its prompt pending. |
| AcpRuns.QuietDisconnect | openclaw/src/acp/translator.ts:369-376 | A disconnect at the end of such a run empties the pending map, settles all that was in it, and leaves no run in progress. |
| AcpRuns.OutcomeIsDecidedOnce | openclaw/src/acp/translator.ts:598-659 | Once a prompt is settled, every longer run ends with the same outcome. |
| AcpRuns.EventReachesItsRunOnly | openclaw/src/acp/translator.ts:789-876 | An event that carries a run id changes no other prompt and clears no other run, even if sessions share the session key. |
| AcpRuns.DeltaIsExactIff | openclaw/src/acp/translator.ts:818-845 | A longer snapshot makes the stream equal to it exactly if what was streamed is a prefix of it. |
| AcpRuns.StepStreams | openclaw/src/acp/translator.ts:818-845 | A step keeps every pending prompt's stream the longest snapshot seen. |
| AcpRuns.EveryRunStreams | openclaw/src/acp/translator.ts:818-845 | If all snapshots of a run are prefixes of one text, then in any order and under repetition the emitted chunks add up to the longest snapshot seen. |
| AcpSettlement.StepSettles | openclaw/src/acp/translator.ts:598-659 | A prompt can be settled after a step (it is pending, being finished, held by a cancel or settled, or its own chat.send is outstanding) exactly if it could be before and the step is none of four: the three above with its chat.send already back, or its chat.send coming back after it was dropped. |
| AcpLostPrompts.CanSettleIff | openclaw/src/acp/translator.ts:369-863 | That notion is exact: after any run a prompt can be settled if and only if some way to go on ends with it settled. |
| AcpLostPrompts.StaysLost | openclaw/src/acp/translator.ts:369-863 | A prompt that cannot be settled is not settled in any longer run. |
| AcpLostPrompts.StepLosesIff | openclaw/src/acp/translator.ts:598-659 | After a step every prompt can be settled exactly if every one could be before and the step loses none in one of the four ways. |
| AcpLostPrompts.NoPromptLostIff | openclaw/src/acp/translator.ts:369-863 | After a run every prompt it started can still be settled if and only if no step of the run was one of the four. |
| AcpLostPrompts.QuietRunsLoseNothing | openclaw/src/acp/translator.ts:559-659 | Runs where prompts start only on quiet sessions lose no prompt. |
| AcpLostPrompts.SecondPromptLosesFirst | openclaw/src/acp/translator.ts:599-605 | A concrete run: a second prompt, then the first chat.send comes back; no way to go on settles the first prompt. |
| AcpLostPrompts.LateFailureLosesSecond | openclaw/src/acp/translator.ts:623-627 | A concrete run: prompt, cancel, second prompt, the first chat.send fails, the second comes back; no way to go on settles the second prompt. |
| AcpLostPrompts.LateCancelLosesSecond | openclaw/src/acp/translator.ts:655-658 | A concrete run in which the cancel of the first prompt comes back instead, to the same effect. |
| AcpRuns.RunCanBeStranded | openclaw/src/acp/translator.ts:655-658 | A concrete run after which a disconnect leaves a run in progress. |
| AcpOutcomes.EventEndsPrompt | openclaw/src/acp/translator.ts:789-863 | Over every run of the agent: a final, aborted or error event with the session key and run of a pending prompt takes it out of the map and leaves its session without a run; the prompt is then resolved with max_tokens or end_turn, cancelled, and end_turn in turn. |
| AcpOutcomes.CancelEndsPrompt | openclaw/src/acp/translator.ts:631-659 | Over every run: cancelling a session with a pending prompt ends its run at once and resolves the prompt as cancelled when the abort request is back. |
| AcpOutcomes.NamedIsMeant | openclaw/src/acp/translator.ts:789 | An event that names the run of a pending prompt is meant for that prompt. |
| AcpOutcomes.EndIsBegun | openclaw/src/acp/translator.ts:799-853 | An event that ends a run, with or without a run id, takes the first pending prompt it fits out of the map, ends its session's run and no other, and leaves it to be settled with the event's reason. |
| AcpOutcomes.EndIsSettled | openclaw/src/acp/translator.ts:862 | Then it is resolved with that reason. |
| AcpOutcomes.DeltaIsEmitted | openclaw/src/acp/translator.ts:829-845 | A snapshot for the first pending prompt it fits is emitted from the length sent so far on if it is longer, and changes nothing for the client otherwise. |
| AcpOutcomes.OtherEventsAreIgnored | openclaw/src/acp/translator.ts:785-797 | An event without a session key, of no known kind, or fitting no pending prompt changes nothing. |
| AcpOutcomes.PromptIsBegun | openclaw/src/acp/translator.ts:559-629 | A prompt on a stored session is pending under its key with nothing sent, its run and controller are the session's, and the run before it leads to no session any more. |
| AcpOutcomes.PromptIsRefused | openclaw/src/acp/translator.ts:560-592 | A prompt on no session changes nothing; one too large has ended the run before it and nothing else. |
| AcpOutcomes.OrderIsKept | openclaw/src/acp/translator.ts:598-605 | Over every step the pending prompts stay in the order in which their sessions came to have one, which is the order in which events are matched. |
| AcpOutcomes.FailureRejects | openclaw/src/acp/translator.ts:623-627 | A failed chat.send leaves its session with no pending prompt and no run, and its own prompt rejected unless it was settled before. |
| AcpOutcomes.SendIsDone | openclaw/src/acp/translator.ts:607-622 | One that returns changes nothing else. |
| AcpOutcomes.CancelIsBegun | openclaw/src/acp/translator.ts:631-650 | A cancel ends the session's run, and waits, holding the pending prompt, exactly if there was a run or a pending prompt. |
| AcpOutcomes.CancelIsSettled | openclaw/src/acp/translator.ts:655-658 | Coming back, it removes what is pending on the session and resolves the prompt it holds as cancelled unless that was settled before; without one it changes nothing. |
| AcpGatewayAgent.GatewayAgent.StartPrompt | openclaw/src/acp/translator.ts:559-629 | The synchronous part of prompt gives the specified agent state, over the session store object. |
| AcpGatewayAgent.GatewayAgent.OnSendFailed | openclaw/src/acp/translator.ts:623-627 | So does the failure handler of chat.send. |
| AcpGatewayAgent.GatewayAgent.FindPendingBySessionKey | openclaw/src/acp/translator.ts:865-876 | The scan finds the first pending prompt with the key and, if given, the run id. |
| AcpGatewayAgent.GatewayAgent.HandleDeltaEvent | openclaw/src/acp/translator.ts:818-845 | A delta emits the text behind what was sent and records the new length. |
| AcpGatewayAgent.GatewayAgent.FinishPrompt | openclaw/src/acp/translator.ts:847-854 | Finishing removes the prompt and clears the run before waiting for the snapshot. |
| AcpGatewayAgent.GatewayAgent.HandleChatEvent | openclaw/src/acp/translator.ts:775-816 | Each event state leads to the specified step, an unknown state or an empty session key to none; `AcpOutcomes.EventEndsPrompt`, `DeltaIsEmitted` and `OtherEventsAreIgnored` state what the steps lead to. |
| AcpBridge.HandleChatKeepsInv | openclaw/src/acp/translator.ts:775-816 | Chat events of every kind keep index, controllers and pending prompts in agreement. |
| AcpGatewayAgent.GatewayAgent.ResumeFinish | openclaw/src/acp/translator.ts:855-863 | After the snapshot the prompt is resolved with its stop reason. |
| AcpGatewayAgent.GatewayAgent.BeginCancel | openclaw/src/acp/translator.ts:631-650 | Cancel captures the run before clearing it, and waits only if there is a run to abort. |
| AcpGatewayAgent.GatewayAgent.ResumeCancel | openclaw/src/acp/translator.ts:655-659 | After the abort the captured prompt is removed by session and resolved as cancelled. |
| AcpGatewayAgent.GatewayAgent.HandleGatewayDisconnect | openclaw/src/acp/translator.ts:369-376 | The loop rejects every pending prompt, clears its session's run, and empties the map. |
| WebSocketFrames.XorByteTwice | packages/ui/vite.config.ts:2980 | Combining an octet with a key octet twice gives it back. |
| WebSocketFrames.MaskTwice | packages/ui/vite.config.ts:2980 | Masking is its own inverse (section 5.3 of RFC 6455). |
| WebSocketFrames.Unmask | packages/ui/vite.config.ts:2980 | The in-place loop masks the array as specified. |
| WebSocketFrames.BigEndianRoundTrip | packages/ui/vite.config.ts:2945-2948 | A length that fits its field is read back from it. |
| WebSocketFrames.BigEndianIsInjective | packages/ui/vite.config.ts:2974-2975 | Different length fields of one size hold different lengths. |
| WebSocketFrames.NextFrameStable | packages/ui/vite.config.ts:2970-2980 | A frame that has arrived completely is read the same whatever follows it. |
| WebSocketFrames.FrameSize | packages/ui/vite.config.ts:2969-2977 | A frame takes at least two bytes and no more than have arrived. |
| WebSocketFrames.DecodeInTwo | packages/ui/vite.config.ts:2966-2985 | Decoding may stop anywhere and go on with what it left over: same frames, same rest. |
| WebSocketFrames.ChunkingIsInvisible | packages/ui/vite.config.ts:2966-2985 | However the stream is cut into data events, the frames and the leftover are those of decoding it at once. |
| WebSocketFrames.NothingLeft | packages/ui/vite.config.ts:2969-2984 | What is left over holds no complete frame. |
| WebSocketFrames.RoundTrip | packages/ui/vite.config.ts:2938-2950 | A frame with any first byte, unmasked or masked under any key, decodes to its opcode and payload and to exactly its own bytes, whatever follows. |
| WebSocketFrames.EncodingIsMinimal | packages/ui/vite.config.ts:2938-2949 | No frame that carries the payload is shorter than the encoder's. |
| WebSocketFrames.EncodingIsCanonical | packages/ui/vite.config.ts:2938-2949 | A final binary frame with that payload and of that size is the encoder's, byte for byte. |
| WebSocketFrames.ConversationArrives | packages/ui/vite.config.ts:2938-2985 | Encoded frames followed by an incomplete one, cut up in any way, arrive as exactly those frames. |
| WebSocketFrames.AllIsWrittenIff | packages/ui/vite.config.ts:2981-2982 | The terminal is written all that the messages say (what frames of opcodes 0, 1 and 2 carry; section 5.4 of RFC 6455) if and only if every continuation frame is empty. |
| WebSocketFrames.OnlyFirstFragmentArrives | packages/ui/vite.config.ts:2966-2985 | Of any message sent in fragments, masked or not and cut up in any way, the terminal is written the first fragment and nothing else. |
| WebSocketFrames.SecondFragmentIsLost | packages/ui/vite.config.ts:2981-2982 | The concrete two frames 0x01 and 0x80 under any key decode to both fragments, of which the first is written. |
| WebSocketFrames.FrameIsTold | packages/ui/vite.config.ts:2963-2984 | For any frames and any chunking: each text or binary frame writes its payload, each close frame closes, any other frame says nothing, each behind what the frames before it say. |
| WebSocketFrames.ClosesAreCounted | packages/ui/vite.config.ts:2982 | The terminal is told to close exactly as often as close frames were sent. |
| WebSocketFrames.XorByteOfBits | packages/ui/vite.config.ts:2980 | A bit of an unmasked octet is set if and only if it is set in one of octet and key. |
| WebSocketFrames.FirstOctetCountsMost | packages/ui/vite.config.ts:2972-2973 | In a length field the first octet counts most. |
| WebSocketFrames.MaskByFours | packages/ui/vite.config.ts:2980 | Four octets are combined with the four of the key in turn, and what follows as if it were the beginning. |
| WebSocketFrames.EncodingIsSpelled | packages/ui/vite.config.ts:2938-2949 | The encoder's frame octet by octet, for each of the three forms of its length. |
| WebSocketFrames.TakeFrame | packages/ui/vite.config.ts:2970-2980 | One turn of the decoding loop reads the first frame, or finds it incomplete. |
| WebSocketFrames.TerminalSocket.OnData | packages/ui/vite.config.ts:2966-2985 | The loop leaves the specified rest in the buffer and tells the terminal what the decoded frames say; `FrameIsTold` states what that is for each frame. |
| WebSocketFrames.WriteBigEndian | packages/ui/vite.config.ts:2945-2948 | The length is written in network byte order and the other bytes stay. |
| WebSocketFrames.OnPtyData | packages/ui/vite.config.ts:2936-2950 | The encoder's header buffer and payload are the shortest frame. |
| WorkerPool.KeepsConserved | openclaw/scripts/docs-i18n/main.go:159-223 | Every step keeps account of the messages: failed starts and runs sent or still owed, jobs run, held or dropped. |
| WorkerPool.KeepsCaused | openclaw/scripts/docs-i18n/main.go:186-196 | Every step keeps: nothing is cancelled, dropped or ended early before a failed result is in the channel. |
| WorkerPool.KeepsOwned | openclaw/scripts/docs-i18n/main.go:159-223 | Every step keeps: each job handed out is with one worker, or was run once, or was dropped. |
| WorkerPool.KeepsGenuine | openclaw/scripts/docs-i18n/main.go:186-196 | Every step keeps: once a file has failed because it was cut short, some file failed by itself before. |
| WorkerPool.KeepsCounted | openclaw/scripts/docs-i18n/main.go:206-221 | Every step keeps the collector's counts equal to the kinds of results received, an error being the last one. |
| WorkerPool.ReachableInv | openclaw/scripts/docs-i18n/main.go:159-223 | All of that holds in every state of every interleaving. |
| WorkerPoolRuns.NilErrorMeansAllOnce | openclaw/scripts/docs-i18n/main.go:159-223 | Returning nil means that each file was processed by exactly one worker in one call, none failed or was dropped, and processed plus skipped is the number of files. |
| WorkerPoolRuns.FailureIsReported | openclaw/scripts/docs-i18n/main.go:186-213 | If a job failed or was dropped, or the context was cancelled, the call returns an error. |
| WorkerPoolRuns.ErrorIff | openclaw/scripts/docs-i18n/main.go:159-223 | With all workers started, the call returns an error if and only if some file fails by itself, whatever the cancellation cuts short. |
| WorkerPoolRuns.AgreesWithSequential | openclaw/scripts/docs-i18n/main.go:137-157 | A nil return gives the two counts that processing the files one after another gives. |
| WorkerPoolRuns.RunDocSequential | openclaw/scripts/docs-i18n/main.go:137-157 | The sequential loop counts up to the first failure and reports whether there was one. |
| WorkerPoolRuns.StepDecreases | openclaw/scripts/docs-i18n/main.go:159-223 | Every step makes a measure smaller. |
| WorkerPoolRuns.RunsAreBounded | openclaw/scripts/docs-i18n/main.go:159-223 | No run has more than 2·workers + 6·files + 3 steps. |
| WorkerPoolReturns.AlwaysReturnsIff | openclaw/scripts/docs-i18n/main.go:159-223 | However the files come out, every run that cannot go on has returned, if and only if no worker fails to start (and there is a worker, or no file), or there is a file and either just one worker fails or all fail and they are at most one more than the files. |
| WorkerPoolReturns.CanAlwaysMove | openclaw/scripts/docs-i18n/main.go:159-223 | Under that condition some step is possible in every reachable state before the return. |
| WorkerPoolReturns.TwoFailOneWorks | openclaw/scripts/docs-i18n/main.go:169-173 | Two failed starts and a working one can fill the results channel so that the wait never ends. |
| WorkerPoolReturns.TooManyFail | openclaw/scripts/docs-i18n/main.go:169-173 | So can failed starts alone, if there are more than one per slot and one. |
| WorkerPoolReturns.NoSlotAtAll | openclaw/scripts/docs-i18n/main.go:160-173 | With no file the channel has no slot, and one failed start hangs the call. |
| WorkerPoolProducer.ProducerIsLeftIff | openclaw/scripts/docs-i18n/main.go:159-223 | Some run returns while jobs are still to be handed out if and only if, with a worker that starts, a file fails, neither it nor one file per such worker reaches the end of the list, and the failed starts are no more than the files; or, with none, there is a file, a worker, and at most one worker more than files. |
| WorkerPoolProducer.LeftForEver | openclaw/scripts/docs-i18n/main.go:198-203 | Then nothing can move any more: the producer waits for ever. |
| WorkerPoolProducer.OneFailureLeavesProducer | openclaw/scripts/docs-i18n/main.go:118-223 | A concrete run of eleven steps with three files, the first failing, and two workers that ends so: the third file is never handed out. |
| WorkerPoolProducer.KeepsPaid | openclaw/scripts/docs-i18n/main.go:169-197 | Every step keeps the account of workers that ended early: each has a failed start, a failed file or a dropped job to show for it. |
| WorkerPoolCancel.FailureCancels | openclaw/scripts/docs-i18n/main.go:182-193 | In every reachable state: a worker that failed a file has run no other after it, and has cancelled the pool by the time it has ended. |
| WorkerPoolCancel.FailureCancelsByReturn | openclaw/scripts/docs-i18n/main.go:190-213 | When the call returns, any failed file has cancelled the pool. |
| WorkerPoolCancel.NothingStartsAfterCancel | openclaw/scripts/docs-i18n/main.go:176-179 | Once the pool is cancelled it stays so, and whatever run follows, the only files still run are those a worker was at work on, each by that worker. |
| WorkerPoolCancel.FailureCutsAnother | openclaw/scripts/docs-i18n/main.go:176-193 | A concrete run of two workers: the first file fails while the second is worked on, and the second, with which nothing is wrong, fails too because it is cut short. |
| Placeholders.NameIsPrefixFree | openclaw/scripts/docs-i18n/placeholders.go:22 | No placeholder is the beginning of another, whatever follows it. |
| Placeholders.DrawIsFresh | openclaw/scripts/docs-i18n/placeholders.go:20-30 | However many names are drawn, they are pairwise distinct and none is among the used ones. |
| Placeholders.Passes | openclaw/scripts/docs-i18n/placeholders.go:21-26 | Passing a used name makes the number of used names ahead of the counter smaller and does not change what comes next. |
| Placeholders.PlaceholderState.Next | openclaw/scripts/docs-i18n/placeholders.go:20-30 | The loop ends, returns the first name from the counter on that is not used, and records it. |
| Placeholders.PlaceholderState.constructor | openclaw/scripts/docs-i18n/placeholders.go:12-18 | The used names are the matches the pattern finds in the text, each search going on behind the last match. |
| Placeholders.FindsAllIff | openclaw/scripts/docs-i18n/placeholders.go:14-16 | The pattern finds every placeholder of the text if and only if no two of them share underscores. |
| Placeholders.OccurrenceIsNoticed | openclaw/scripts/docs-i18n/placeholders.go:14-16 | In such a text every name that occurs anywhere is among the used ones. |
| Placeholders.SharedUnderscoresAreMissed | openclaw/scripts/docs-i18n/placeholders.go:14-16 | Two names sharing underscores: the second is not noticed, and is given out although it is in the text. |
| Placeholders.HitIff | openclaw/scripts/docs-i18n/placeholders.go:14 | A placeholder is noticed at a place if and only if some of the ten digits, at least one, stand there between __OC_I18N_ and two underscores. |
| Placeholders.NextFreeIsFirst | openclaw/scripts/docs-i18n/placeholders.go:20-30 | Only used names are passed over: every number from the counter up to the one given out has a used name. |
| MaskTokens.OnlyAtHole | openclaw/scripts/docs-i18n/masking.go:73-80 | Where nothing between the placeholders spells the start of a name, a name occurs only where its placeholder was put. |
| MaskTokens.ReplaceIsFill | openclaw/scripts/docs-i18n/masking.go:77 | Replacing all occurrences of a name in such text fills exactly its placeholders. |
| MaskTokens.ContainsIffHole | openclaw/scripts/docs-i18n/masking.go:84 | A name is contained in such text exactly if its placeholder is there. |
| Masking.TakeOut | openclaw/scripts/docs-i18n/masking.go:23-71 | Taking a stretch out behind a new placeholder keeps what the text stands for, and keeps each placeholder at one place. |
| Masking.UnmaskExpands | openclaw/scripts/docs-i18n/masking.go:73-80 | For any translation of the masked text, with placeholders moved, repeated or left out, unmasking puts each stretch back where its placeholder is, if none was taken out again and nothing mentions a number given out. |
| Masking.MissingIsLost | openclaw/scripts/docs-i18n/masking.go:73-89 | If a placeholder was taken out again, unmasking leaves its name in the text. |
| MaskPasses.PassStandsFor | openclaw/scripts/docs-i18n/masking.go:23-71 | One pass over any ordered, disjoint, fenced matches keeps what the text stands for and records exactly the stretches taken out. |
| MaskPasses.AcceptedIffLossless | openclaw/scripts/docs-i18n/masking.go:73-89 | If the text mentions no number given out: every name is in the masked text if and only if unmasking gives the text back, and if and only if no stretch taken out holds a name given out. |
| MaskLedger.GiveSplit | openclaw/scripts/docs-i18n/placeholders.go:20-30 | Names drawn in several goes are the names drawn in one. |
| MaskLedger.MaskingRepresents | openclaw/scripts/docs-i18n/masking.go:16-21 | For every text and all regular expressions with such matches, the three passes keep what the text stands for, the names being those drawn past the ones the text already has. |
| MaskLedger.UnmaskFromIsUnmask | openclaw/scripts/docs-i18n/masking.go:73-80 | Over the list and the mapping the passes leave, unmasking is the replacement of the names drawn by their stretches, in that order. |
| MaskLedger.MaskingIsLosslessOrRejected | openclaw/scripts/docs-i18n/masking.go:16-89 | For every text in which no number drawn for it follows OC_I18N_, other placeholders in it or not: validation accepts the masked text if and only if unmasking gives the text back, and if and only if no stretch taken out holds a name given out. |
| MaskLedger.NoMarkerIsUnmentioned | openclaw/scripts/docs-i18n/masking.go:16-89 | Texts without OC_I18N_ are among those. |
| MaskedMatches.EveryMatchIsTakenOut | openclaw/scripts/docs-i18n/masking.go:16-71 | For every text and all regular expressions with such matches: the list has as many names as the three searches find matches, those for code in the text, those for angle brackets in the text with the code replaced, those for links in the text with both replaced, in this order; no two names are the same, each is mapped to its match, and each masked text is the one before with every match replaced by its name. |
| MaskedMatches.LinkIsTakenOut | openclaw/scripts/docs-i18n/masking.go:46-71 | The text [docs](https://x.y/z), with the link found and nothing else, is masked as [docs](__OC_I18N_900000__), and the name is mapped to the URL. |
| OneStretch.ReplacedIffAlone | openclaw/scripts/docs-i18n/masking.go:73-80 | Between any two texts, replacing a name given out for a stretch gives the text back if and only if the name is not in the text behind, and not in the text in front with the two underscores the placeholder begins with. |
| OneStretch.OneStretchIff | openclaw/scripts/docs-i18n/masking.go:16-89 | For every text of which exactly one stretch is taken out: the masked text is accepted, and unmasking gives the text back if and only if the name given out is at no such place. |
| CorruptedTexts.SharedIsCorrupted | openclaw/scripts/docs-i18n/masking.go:73-89 | A whole name in the text, unnoticed: a family of texts with two placeholders sharing underscores and a stretch of code passes validation and comes back with the code in two places. |
| CorruptedTexts.HeadIsCorrupted | openclaw/scripts/docs-i18n/masking.go:73-89 | A head of a name in front of a stretch: a text with no placeholder in it passes validation and comes back changed, its placeholder broken. |
| CorruptedTexts.TailIsCorrupted | openclaw/scripts/docs-i18n/masking.go:73-89 | A tail of a name behind a stretch: for every link, a text with no placeholder in it passes validation and comes back without the link, a broken placeholder in its place. |
| Masker.Book.Enter | openclaw/scripts/docs-i18n/masking.go:35-38 | A fresh name is drawn, mapped to its stretch and appended to the list. |
| Masker.Book.MaskMatches | openclaw/scripts/docs-i18n/masking.go:23-44 | The loop copies and replaces as specified, with the names the supply gives, records them, and never skips a match. |
| Masker.Book.MaskLinkUrls | openclaw/scripts/docs-i18n/masking.go:46-71 | The same for URLs inside link matches. |
| Masker.Book.MaskMarkdown | openclaw/scripts/docs-i18n/masking.go:16-21 | For any text and whatever names are used: the three passes give the specified text, list, mapping and state of the supply; `MaskedMatches.EveryMatchIsTakenOut` states what these are for the matches found. |
| Masker.UnmaskMarkdown | openclaw/scripts/docs-i18n/masking.go:73-80 | The replacing loop, in the order of the list. |
| Masker.ValidatePlaceholders | openclaw/scripts/docs-i18n/masking.go:82-89 | The loop reports the first placeholder that is missing, and none exactly if all are there. |
| TranslateMasked.Translate | openclaw/scripts/docs-i18n/translator.go:89-106 | For every text the call gives what masking, prompting, trimming, validating and unmasking specify, or the specified error. |
| TranslateMasked.Restore | openclaw/scripts/docs-i18n/translator.go:102-105 | Validation and unmasking give the text or the first missing placeholder. |
| TranslateMasked.AnswerIsMeant | openclaw/scripts/docs-i18n/translator.go:96-105 | What comes back counts without the white space around it: nothing else is the error of an empty translation; with every name of the list in it, it is unmasked; otherwise the first name of the list that it lacks is reported. |
| TranslateMasked.EchoIff | openclaw/scripts/docs-i18n/translator.go:89-106 | For every core that mentions no number drawn for it: a translator that repeats its prompt gives the core back if and only if no stretch taken out holds a name given out and neither end of the core is Unicode white space. |
| TranslateText.SplitWhitespace | openclaw/scripts/docs-i18n/util.go:51-64 | The two loops cut the text into white space, a core with none at its ends, and white space; a text of nothing else is all prefix. |
| TranslateText.SplitIsUnique | openclaw/scripts/docs-i18n/util.go:51-73 | There is exactly one way to cut a text like that. |
| TranslateText.SplitIsMeant | openclaw/scripts/docs-i18n/util.go:51-73 | Blanks, tabs, carriage returns and newlines at the ends of a text are set aside, and no other characters. |
| TranslateText.TranslateWithRetry | openclaw/scripts/docs-i18n/translator.go:68-87 | The attempts end with the first translation or failure not to be tried again, or with the third outcome. |
| TranslateText.ThreeAttempts | openclaw/scripts/docs-i18n/translator.go:68-131 | There are three attempts, and the first translation, or failure of the prompt that its message does not mark as worth another attempt, is the answer; without one it is the third attempt's. An empty translation and a missing placeholder are tried again. |
| TranslateText.SpokenIsMeant | openclaw/scripts/docs-i18n/translator.go:51-66 | White space alone comes back as it is whatever the translator says; around anything else it is put back around the translation, and an error stays one. |
| TranslateText.TranslateText | openclaw/scripts/docs-i18n/translator.go:51-66 | The translation of the core is put back between the white space; without a core the text is returned as it is. |
| TranslateText.EchoTextIff | openclaw/scripts/docs-i18n/translator.go:51-106 | For every text whose core mentions no number drawn for it: a translator that repeats its prompts gives the text back if and only if there is no core, or no stretch taken out holds a name given out and the core has no other white space at an end. |
| TranslateText.NoBreakSpaceIsLost | openclaw/scripts/docs-i18n/translator.go:51-106 | The concrete text of a no-break space and a letter comes back without the space. |
| TaggedDocument.RoundTripIff | openclaw/scripts/docs-i18n/doc_mode.go:82-117 | Parsing the tagged form gives the two parts back if and only if the front matter has no closing front-matter tag and the body no closing body tag. |
| TaggedDocument.ParsesIff | openclaw/scripts/docs-i18n/doc_mode.go:86-117 | A text parses to two parts if and only if it is sections between the four tags, none holding the tag that ends it, with only white space outside; what stands between the two parts is passed over. |
| TaggedDocument.CutAssembled | openclaw/scripts/docs-i18n/doc_mode.go:86-109 | Sections put together with their tags are cut where they were put together. |
| TaggedDocument.CutMeans | openclaw/scripts/docs-i18n/doc_mode.go:86-109 | What is cut puts together to the text again. |
| TaggedDocument.TrimLines | openclaw/scripts/docs-i18n/doc_mode.go:119-124 | The line ends that printing adds are the ones that parsing takes off. |
| TaggedDocument.GapIsDroppedIff | openclaw/scripts/docs-i18n/doc_mode.go:86-117 | Text put between two parts without closing tags of their own is dropped without an error if and only if no body begins in it. |
| TaggedDocument.StrayTextIsDropped | openclaw/scripts/docs-i18n/doc_mode.go:95-99 | A concrete text with a line between the two parts parses as if the line were not there. |
| TaggedDocument.FormatIsMeant | openclaw/scripts/docs-i18n/doc_mode.go:82-84 | The tagged form, with its tags spelled out. |
| TaggedDocument.FrontTagIsReported | openclaw/scripts/docs-i18n/doc_mode.go:86-94 | Without an opening front-matter tag that is reported; with one, and no closing tag behind it, the closing tag is. |
| TaggedDocument.BodyTagIsReported | openclaw/scripts/docs-i18n/doc_mode.go:96-99 | With both, and no opening body tag behind them, that is reported. |
| TaggedDocument.BodyEndIsReported | openclaw/scripts/docs-i18n/doc_mode.go:100-104 | With the three, and no closing body tag behind them, that is reported. |
| TaggedDocument.OutsideIsReportedIff | openclaw/scripts/docs-i18n/doc_mode.go:107-111 | With all four tags, text outside them is reported if and only if not all in front of the first and behind the last is white space. |
| GoText.SpacesDiffer | openclaw/scripts/docs-i18n/translator.go:97 | The white space that Go's strings.TrimSpace removes is Unicode's, listed character by character; ECMAScript's trim removes the same but for the next-line character, and the byte order mark. |
| GoText.TrimSpaceIsMiddle | openclaw/scripts/docs-i18n/translator.go:97 | Trimming takes off exactly the white space at both ends. |
| FrontMarkers.MarksDiffer | openclaw/scripts/docs-i18n/doc_mode.go:169-171 | Different fields or indexes have different opening markers, and none is a closing one. |
| FrontMarkers.OccursAround | openclaw/scripts/docs-i18n/doc_mode.go:195-207 | Around a marker, another occurs only in front of it or behind it; they never overlap. |
| FrontMarkers.ExtractHere | openclaw/scripts/docs-i18n/doc_mode.go:195-207 | Between the first opening marker and the first closing one behind it is the value up to its own closing marker. |
| FrontMarkers.CutIsNoticedIff | openclaw/scripts/docs-i18n/doc_mode.go:178-182 | What is cut off a value at a closing marker is never white space only: the trimmed values agree if and only if the value has no such marker. |
| FrontMatter.TranslationsAreFiled | openclaw/scripts/docs-i18n/doc_mode.go:133-218 | Whatever values stand between the markers that come back, with no opening marker in front of its own place: each is put into its field, up to its own closing marker and trimmed, and items that are not strings stay. |
| FrontMatter.ValuesComeBackIff | openclaw/scripts/docs-i18n/doc_mode.go:133-218 | In that case every value, trimmed, comes back if and only if none holds its own closing marker. |
| FrontMatter.SummaryForgesTitle | openclaw/scripts/docs-i18n/doc_mode.go:195-207 | A summary that holds the markers of the title around any text is read as that title, whatever the title is. |
| FrontMatter.TemplateIsMeant | openclaw/scripts/docs-i18n/doc_mode.go:133-171 | The lines of a template with summary, title and a list of an item that is no string and one that is, with their markers spelled out. |
| FrontMatter.MarkerIsReported | openclaw/scripts/docs-i18n/doc_mode.go:195-207 | Without its opening marker, or without its closing one behind that, a value is not read and that marker is reported. |
| FrontMatter.FirstMissingStops | openclaw/scripts/docs-i18n/doc_mode.go:173-193 | The first marker missing is reported, and exactly the values of the markers before it have been put in place. |
| FrontMatter.SetIsMeant | openclaw/scripts/docs-i18n/doc_mode.go:209-218 | An item set behind the end of the list becomes its last, with empty strings up to it; every other item stays; a missing list counts as empty. |
| FrontMatter.FrontmatterData.BuildFrontmatterTemplate | openclaw/scripts/docs-i18n/doc_mode.go:133-167 | The template and the list of markers are the specified ones, fields first and items in order. |
| FrontMatter.FrontmatterData.ApplyFrontmatterTranslations | openclaw/scripts/docs-i18n/doc_mode.go:173-193 | The loop puts the values in place up to the first marker that is missing, and reports that one. |
| FrontMatter.SetReadWhen | openclaw/scripts/docs-i18n/doc_mode.go:209-218 | A missing list is begun, a short one filled up with empty strings, and the value put at its index. |
| OutputBuffer.CapPendingBuffer | openclaw/src/agents/bash-process-registry.ts:230-250 | Cutting the chunk list in place leaves the last characters up to the cap, and the count is their number, an empty last chunk and a zero cap included. |
| OutputBuffer.TrimWithCap | openclaw/src/agents/bash-process-registry.ts:252-257 | What is kept ends the text and is as long as the text and the cap allow. |
| OutputBuffer.ProcessSession.AppendPending | openclaw/src/agents/bash-process-registry.ts:104-126 | The stream's pending text becomes the last characters of itself and the chunk, with its counter right; the flag is set exactly if it overflowed. |
| OutputBuffer.ProcessSession.AppendAggregated | openclaw/src/agents/bash-process-registry.ts:127-132 | Total, aggregated text, tail and flag follow. |
| OutputBuffer.ProcessSession.AppendOutput | openclaw/src/agents/bash-process-registry.ts:104-133 | An append changes the session as specified. |
| OutputBuffer.ProcessSession.DrainSession | openclaw/src/agents/bash-process-registry.ts:135-144 | A drain returns both pending texts and leaves none. |
| OutputBuffer.PendingIsLast | openclaw/src/agents/bash-process-registry.ts:104-144 | After any sequence of appends and drains a stream's pending text is the last min(cap, n) characters since its last drain. |
| OutputBuffer.AggregatedIsLast | openclaw/src/agents/bash-process-registry.ts:127-132 | The aggregated text is the last min(max, total) characters of all output, the tail the last of those, and the total their number. |
| OutputBuffer.PendingIsMeant | openclaw/src/agents/bash-process-registry.ts:110-120 | The same with the cap spelled out: what is asked for, or 30000 if nothing is, and never more than the maximum. |
| OutputBuffer.AggregatedIsMeant | openclaw/src/agents/bash-process-registry.ts:127-132 | The aggregated text ends all output and is as long as it and the maximum allow; the tail ends the aggregated text and is as long as it and 2000 allow. |
| OutputBuffer.TruncatedIffLost | openclaw/src/agents/bash-process-registry.ts:117-131 | The session is not marked truncated if and only if the aggregated text is all the output and, for each stream, what was drained and what is pending make up all of it. |
| OutputBuffer.LastOfWellFormedIff | openclaw/src/agents/bash-process-registry.ts:252-257 | Keeping the last characters of well-formed text leaves well-formed text if and only if no surrogate pair is cut. |
| Utf16.DecodableIffWellFormed | openclaw/src/utils.ts:240-246 | Text decodes (section 2.2 of RFC 2781) if and only if no surrogate stands alone. |
| Utf16.SurrogatesIff | openclaw/src/utils.ts:240-246 | Two units are a high and a low surrogate if and only if they are the two units of a character above 0xFFFF, as section 2.1 of RFC 2781 gives them. |
| Utf16.SliceUtf16Safe | openclaw/src/utils.ts:248-275 | The slice is the specified one; the lemmas below say what that is. |
| Utf16.ClampIsNearest | openclaw/src/utils.ts:251-252 | A position, counted from the end if negative, stands for the nearest place in the text. |
| Utf16.SlicedEitherWay | openclaw/src/utils.ts:251-258 | The order of the two positions does not matter, an end past the text is the end of the text, an end in front of it its beginning, and between its two ends a text is its own slice. |
| Utf16.SlicedAt | openclaw/src/utils.ts:248-275 | Between positions that split no pair the slice is the plain one, and so it is with both counted from the end. |
| Utf16.SliceBetween | openclaw/src/utils.ts:260-274 | Each position is moved inwards exactly if it splits a pair. |
| Utf16.InnerIsGreatest | openclaw/src/utils.ts:260-274 | That part begins and ends at no split pair and contains every other such part between the positions. |
| Utf16.SliceKeepsLone | openclaw/src/utils.ts:260-274 | For any text, the slice is well formed exactly if the text had no lone surrogate between the cuts. |
| Utf16.TruncateUtf16Safe | openclaw/src/utils.ts:277-283 | Truncation at any real limit gives the specified prefix. |
| Utf16.NegativeCountsFromEnd | openclaw/src/utils.ts:251-252 | A negative position counts from the end: where it splits no pair, the slices on its two sides put together to the text. |
| Utf16.TruncatedIsLongest | openclaw/src/utils.ts:277-283 | Of any text it is the longest prefix that splits no pair and is no longer than the limit, which may be fractional or negative. |
| Utf16.TruncatedIsWellFormed | openclaw/src/utils.ts:277-283 | Of well-formed text it is the longest well-formed prefix within the limit. |

## Left out

- Files are a map from paths to texts: the sandbox bridge, boundary reads, path aliases and directories of `apply-patch.ts` are not modelled, two paths are the same file exactly if they are the same string, and every read, write and removal of an existing path succeeds.
- The abort signal of `applyPatch`, and the wording of its summary text and error messages beyond their kind and line number.
- Patch text and files are sequences of Unicode scalar values, so lone surrogates do not occur in them; `Utf16` and `OutputBuffer` work on code units.
- The parser's shrinking slice of remaining lines is a position in the list, and the questions asked of a line (`trim`, `startsWith`) are made once per line before parsing.
- PatchApply.UpdatePerformsEdit: asks that each chunk is first found at its own place and that what is added at the end is not in the way of another chunk; `ReplacementsFitIff` is exact about chunks in each other's way, for any chunks.
- `Array.prototype.sort` is the stable sort the language prescribes, not an algorithm.
- Sessions are values in a map: code that keeps a session object after it was removed or replaced is not modelled, nor the effect of aborting a controller.
- The handlers read the clock once per step; the rate limiter, session presentation, transcript replay, snapshot contents and tool-call events of `translator.ts` are not modelled, and every awaited request returns or fails.
- Frame lengths are exact: the rounding of `Number()` above 2^53 is not modelled, so lemmas about encoded frames ask for payloads below it.
- The decoder's payload is kept as bytes, not turned into a string; closing the terminal does not stop later writes, which the source swallows.
- WorkerPoolReturns.AlwaysReturnsIff: does not model a translator call that never ends; processing a file always comes out, as the file itself does or, once the pool is cancelled, possibly as a failure.
- Regular expressions are any functions whose matches are ordered, disjoint and fenced by the characters the patterns name; which stretches they match is not modelled. The pattern for placeholders is modelled exactly.
- MaskLedger.MaskingIsLosslessOrRejected: says nothing for texts in which OC_I18N_ is followed by digits that begin with a number drawn for them; some come back whole and some do not. `OneStretchIff` is exact for one stretch; for several, with names of one placeholder arising inside or across the stretches put back for another, no exact condition is stated.
- The delays between attempts, and a context that ends during one.
- FrontMatter.ValuesComeBackIff: asks that no opening marker stands in front of its own place; `SummaryForgesTitle` shows why; where one does, what is read instead may still happen to be the value.
- Entries of the front matter other than the summary, the title and the list, how YAML reads and writes them, and hashes; a value that is not a string is the text it is shown as.
- Fields of a process session that are filled in when undefined, process exit, the registries and the sweeper.
- `truncateUtf16Safe` and `sliceUtf16Safe` for positions that are not numbers, and fractional positions of the latter.
