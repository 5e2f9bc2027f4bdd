# Whisper transcription app — a Dafny model of its core

The app is a Streamlit front end to OpenAI's Whisper service. It takes an audio upload and runs these steps:

1. **Preparation.** It optionally removes silence and cuts the track into windows of at most 25 minutes. For each window it decides whether to send a WAV export, an OGG compression or size-split pieces.
2. **Transcription.** It sends the pieces to the service one by one, in order, and checks a cancellation flag before and after each.
3. **Stitching.** SubRip (SRT) replies are stitched into one subtitle stream: renumbered, and shifted in time by a running offset. Plain-text replies are joined by a space.
4. **Improvement.** It optionally improves a plain-text transcript with a language model, in one or two passes. A long transcript is first grouped greedily into sentence groups of under 8000 characters.
5. **History.** The result is saved in a session-state history that can be searched, deleted from and paged through, five items per page.

The model keeps the structure of the program: one Dafny module per source file.

| module | file | what it holds |
|---|---|---|
| `Text`, `Seqs`, `Arith`, `Options` | — | Python string operations (`strip`, `split`, `join`, `lower`, `str(n)`, zero padding), sequence helpers, division facts, an `Option` type |
| `Transcription` | `audio/transcription.py` | timestamps, SRT parsing and stitching, the chunk loop |
| `AudioUtils` | `audio/utils.py` | duration and size splitting |
| `Preprocessing` | `audio/preprocessing.py` | silence removal, the per-window compression decision, the whole preprocessing run |
| `FileUtils` | `utils/file_utils.py` | file-name sanitising and upload validation |
| `Models` | `database/models.py` | the session-state history store |
| `Improvement` | `audio/improvement.py` | the transcript improver |
| `Pages` | `ui/pages.py` | history pagination and the transcription pipeline |

How the model represents the program:

- **Classes.** Where the source updates state in place, the model uses a class with methods proved against specification functions:
  - the session history (`Models.TranscriptionDB` over `Models.SessionState`);
  - the pager's two session keys (`Pages.Pager`);
  - the upload's read position (`Preprocessing.Upload`).
- **Loops.** The source's loops are `while`/`for` loops with invariants: block parsing, the stitcher, the chunk loop, the splitters, the window loop and the sentence loop.
- **Oracles.** Everything outside the program is a function parameter:
  - the transcription service and the language model;
  - the decoder, the silence splitter, the WAV exporter and ffmpeg;
  - the cancellation probes and the progress callbacks.
- **Audio.** A track is a sequence of frames, one per millisecond, which is how pydub indexes it.

## Model

| member | source | states |
|---|---|---|
| Transcription.FormatOfParse | transcription_app/audio/transcription.py:141-154 | formatting the parsed value of a well-formed `HH:MM:SS,mmm` (minutes and seconds below 60) gives back the same text |
| Transcription.ParseOfFormat | transcription_app/audio/transcription.py:141-154 | every time below 100 hours formats to a well-formed timestamp that parses back to the same number of milliseconds |
| Transcription.TimeSplit | transcription_app/audio/transcription.py:149-153 | the hour, minute, second and millisecond fields the formatter prints are in range and add back up to the time |
| Transcription.Assembled | transcription_app/audio/transcription.py:141-147 | four digit fields of widths 2/2/2/3 joined by `:`, `:`, `,` form a timestamp whose parsed value is hours·3600000 + minutes·60000 + seconds·1000 + milliseconds |
| Transcription.SeparatorEnd | transcription_app/audio/transcription.py:118 | a match of `\n\s*\n` starts and ends with a line break and has only whitespace between them |
| Transcription.BlocksHaveNoBlankLine | transcription_app/audio/transcription.py:118 | no block produced by the block split contains a blank line |
| Transcription.SingleBlockWithoutBlankLine | transcription_app/audio/transcription.py:118 | text without a blank line stays a single block |
| Transcription.MatchTiming | transcription_app/audio/transcription.py:127 | a matched timing line yields two well-formed timestamps |
| Transcription.ParseSrtEntries | transcription_app/audio/transcription.py:113-139 | the loop returns exactly `SrtEntries`: in block order, one entry per non-blank block of at least three lines whose second line starts with the timing pattern; the text is lines 3 onwards joined by `\n` |
| Transcription.Rendered | transcription_app/audio/transcription.py:100-104 | the rendered list has one string per entry, entry `i` carrying the number `i + 1` |
| Transcription.CombineSrtTranscriptions | transcription_app/audio/transcription.py:81-111 | the stitcher returns the rendered stitched entries of all non-blank chunks joined by `\n` |
| Transcription.AppendShifted | transcription_app/audio/transcription.py:94-105 | the inner loop appends one chunk's entries, shifted by the offset, numbered on from the counter, and the counter stays one past the entries written |
| Transcription.ChunkStep | transcription_app/audio/transcription.py:87-109 | a blank chunk adds nothing and keeps the offset; any other chunk adds its shifted entries, and the offset grows by its last entry's end time when it has entries |
| Transcription.StitchedEntry | transcription_app/audio/transcription.py:83-105 | entry `j` of chunk `k` becomes output entry `EntryCount(k) + j + 1`, so numbering runs 1..N over all parsed entries without gaps; it is shifted by the offset reached at its chunk and its text is unchanged |
| Transcription.OffsetGrows | transcription_app/audio/transcription.py:85-109 | the offset never shrinks, and passing a chunk with entries adds that chunk's last end time to it |
| Transcription.LaterChunkStartsAfter | transcription_app/audio/transcription.py:96-109 | every shifted entry of a later chunk starts no earlier than the shifted end of an earlier non-empty chunk's last entry |
| Transcription.ValidateApiKey | transcription_app/audio/transcription.py:156-158 | a key is accepted exactly when it is present and not only whitespace |
| Transcription.LanguageParam | transcription_app/audio/transcription.py:15 | no language is sent exactly for "Auto-detect" (or none chosen); any other choice is sent as given |
| Transcription.ChunkNameParts | transcription_app/audio/transcription.py:34 | a single chunk keeps the upload's name; with several, chunk `i` is named the upload's name, `_chunk_`, then the decimal digits of `i + 1` |
| Transcription.ChunkNamesDistinct | transcription_app/audio/transcription.py:34 | the chunks of a multi-chunk upload get pairwise different names |
| Transcription.SendChunks | transcription_app/audio/transcription.py:23-59 | the chunk loop does what `LoopFrom` specifies, and when it runs to the end it has one reply per chunk |
| Transcription.TranscribeAudioChunks | transcription_app/audio/transcription.py:9-79 | the method returns, and sends, exactly what `Transcribe` specifies |
| Transcription.LoopStep | transcription_app/audio/transcription.py:23-59 | each chunk, case by case: a stop before the chunk sends nothing; a failing call or a stop after it sends only that request; otherwise the reply is kept and the loop goes on |
| Transcription.TranscribeSendsInOrder | transcription_app/audio/transcription.py:23-59 | the requests sent are a prefix of the chunk requests, so each chunk is sent at most once, in list order |
| Transcription.TranscribeCancelled | transcription_app/audio/transcription.py:25-59 | a stop at any poll makes the result None, and no chunk is sent after that poll |
| Transcription.TranscribeFailed | transcription_app/audio/transcription.py:37-79 | a failing service call makes the result None, never a partial one, and no later chunk is sent |
| Transcription.TranscribeUnbroken | transcription_app/audio/transcription.py:23-75 | without a stop or a failure, every chunk is sent once, in order; the result is the single reply, the stitched SRT for several SRT replies, or the replies joined by a space |
| Transcription.TranscribeSomeIff | transcription_app/audio/transcription.py:9-79 | a transcript comes back exactly when there is at least one chunk, no poll asks to stop and every call returns |
| AudioUtils.Slice | transcription_app/audio/utils.py:82-121 | pydub slicing clamps both ends to the track |
| AudioUtils.SplitByDuration | transcription_app/audio/utils.py:63-86 | the loop returns exactly `DurationWindows` |
| AudioUtils.DurationWindowsTile | transcription_app/audio/utils.py:69-86 | the windows rebuild the track exactly; a track of at most the maximum (inclusive) is one window; otherwise there are ceil(length/max) windows, all but the last exactly max long, the last non-empty and no longer |
| AudioUtils.WindowsFromTile | transcription_app/audio/utils.py:76-86 | the windows from any start rebuild the rest of the track, with ceil(rest/max) windows of the stated lengths |
| AudioUtils.PiecesNeeded | transcription_app/audio/utils.py:107 | the planned piece count is at least 2 |
| AudioUtils.PieceDuration | transcription_app/audio/utils.py:107-113 | the planned piece duration is at least 30 000 ms |
| AudioUtils.ShrinkBounds | transcription_app/audio/utils.py:131-137 | under the exporter's rate bound, a corrective shrink keeps at least 1 ms and less than the planned duration, so the loop advances |
| AudioUtils.PieceLength | transcription_app/audio/utils.py:119-137 | a piece is shortened exactly when its planned export exceeds 110% of the limit, and its length is between 1 ms and the planned duration |
| AudioUtils.SizeSplitTiles | transcription_app/audio/utils.py:99-145 | the size-split pieces rebuild the track in order, and a track whose export fits comes back alone |
| AudioUtils.SizeSplitPieceAt | transcription_app/audio/utils.py:106-140 | piece `k` starts where the first `k` end, and is the planned duration long, or that duration shrunk once when its export exceeded 110%, clamped to the track; the piece is not measured again |
| AudioUtils.CutStep | transcription_app/audio/utils.py:119-140 | one turn of the loop cuts exactly the next piece of the specification |
| AudioUtils.SplitBySize | transcription_app/audio/utils.py:88-145 | the loop returns exactly `SizeSplit` |
| AudioUtils.CombinedSplitTiles | transcription_app/audio/utils.py:162-177 | the combined split rebuilds the track in order |
| AudioUtils.SplitCombined | transcription_app/audio/utils.py:162-177 | the loop returns the duration windows, each size-split, flattened in order, which rebuild the track |
| AudioUtils.ValidateAudioDuration | transcription_app/audio/utils.py:47-52 | true with no message exactly when the track lasts at least 0.1 s; otherwise false with the too-short message |
| Preprocessing.RemoveSilence | transcription_app/audio/preprocessing.py:10-36 | the method returns `SilenceRemoved`: the track itself when the splitter raises or finds no spans, otherwise the spans joined in order |
| Preprocessing.SilenceRemovedSpans | transcription_app/audio/preprocessing.py:25-33 | with nothing to join the track is unchanged; otherwise each span appears intact and in order in the result |
| Preprocessing.Upload.Read | transcription_app/audio/preprocessing.py:94 | `read()` returns the rest of the stream and leaves the position at its end |
| Preprocessing.Upload.Rewind | transcription_app/audio/preprocessing.py:297 | `seek(0)` puts the position back at the start |
| Preprocessing.WindowsTile | transcription_app/audio/preprocessing.py:143-159 | the track is cut only when time splitting is on and it is longer than 25 minutes; then no window is longer than 25 minutes; the windows always rebuild the track |
| Preprocessing.WindowEncodes | transcription_app/audio/preprocessing.py:185-272 | a window's payloads carry, one each and in order, stretches that rebuild the window, each its WAV or (only with compression on) its OGG; a window whose WAV fits is sent as that WAV whatever the compression flag |
| Preprocessing.WindowOutputCases | transcription_app/audio/preprocessing.py:186-272 | a fitting WAV is sent as is; with compression on, an OGG that fits is sent instead and a failed ffmpeg run sends the oversized WAV; an OGG still too big, or compression off, gives one payload per size-split piece in order |
| Preprocessing.PieceOutputsEncode | transcription_app/audio/preprocessing.py:228-272 | each size-split piece becomes one payload carrying that piece |
| Preprocessing.EmitPieces | transcription_app/audio/preprocessing.py:228-272 | the sub-piece loops append one payload per piece in order (OGG when compression is on and ffmpeg succeeds, WAV otherwise) and keep both counters in step |
| Preprocessing.ProcessWindows | transcription_app/audio/preprocessing.py:171-298 | the window loop returns the payloads of every window in window order, with the number compressed and the number kept as WAV; it reports failure exactly when some window's export raises |
| Preprocessing.EmitWindow | transcription_app/audio/preprocessing.py:171-272 | one turn of the window loop appends exactly that window's payloads and keeps both counters in step |
| Preprocessing.AllEncode | transcription_app/audio/preprocessing.py:171-272 | over all windows, the payloads carry in order stretches that rebuild the windows put together |
| Preprocessing.CountsAddUp | transcription_app/audio/preprocessing.py:171-275 | every payload is counted exactly once, as compressed or kept, so the output length is the sum of the counters; each counter is positive exactly when a payload of its kind exists |
| Preprocessing.LabelMeaning | transcription_app/audio/preprocessing.py:279-287 | the label is "mixed" exactly when both formats occur, "audio.ogg" exactly when only OGG does, and "audio.wav" exactly when no OGG does |
| Preprocessing.PreprocessAudio | transcription_app/audio/preprocessing.py:70-302 | the method returns the payloads and label, and leaves the read position, exactly as `Preprocess` specifies, including the rewind and whole-upload fallback when the temporary copy or a window's export raises |
| Preprocessing.CompletedRunCoversTrack | transcription_app/audio/preprocessing.py:70-292 | a run with no stop, no failing temporary copy or export, and a decodable track of at least 0.1 s returns payloads that rebuild the processed track in order, under the label of the formats used |
| Preprocessing.IncompleteRuns | transcription_app/audio/preprocessing.py:93-298 | a stop before the temporary copy returns the rest of the upload; a stop at any later progress step the run checks (30, 55, 60, 90 and 100, with 35 and 45 when silence is removed and 50 when the track is cut into windows) returns one empty payload; a failing temporary copy, an undecodable or too-short track, or a window export that raises rewinds and returns the whole upload; all of them return the upload's name |
| FileUtils.ReplaceInvalid | transcription_app/utils/file_utils.py:10 | each of the nine characters less-than, greater-than, colon, double quote, slash, backslash, vertical bar, question mark and asterisk becomes `_` and every other character is kept |
| FileUtils.SplitExt | transcription_app/utils/file_utils.py:13 | stem and extension concatenate back to the name |
| FileUtils.SanitizeFilename | transcription_app/utils/file_utils.py:7-15 | a name of at most 100 characters is only cleaned; a longer one keeps 90 characters of its stem and its extension |
| FileUtils.SanitizeReplacesInvalid | transcription_app/utils/file_utils.py:10 | a name of at most 100 characters keeps its length, with exactly the invalid characters replaced |
| FileUtils.SanitizeKeepsCleanShortName | transcription_app/utils/file_utils.py:10-12 | a clean name of at most 100 characters comes back unchanged |
| FileUtils.SanitizeShortensLongName | transcription_app/utils/file_utils.py:12-14 | a long name ends with its extension, keeps at most 90 characters before it, and is at most 100 long when the extension has at most 10 |
| FileUtils.SplitExtOfStemAndSuffix | transcription_app/utils/file_utils.py:13 | the extension of `stem.suffix` (neither with a dot or slash) is `.suffix` |
| FileUtils.SanitizeLongTestName | transcription_app/tests/test_utils.py:21-24 | `"a"*200 + ".mp3"` becomes 90 `a`s and `.mp3`, at most 100 characters |
| FileUtils.SanitizeInvalidTestName | transcription_app/tests/test_utils.py:18 | the unit-test name with `<`, `>`, a vertical bar and `?` in it becomes `file__with_invalid_.mp3` |
| FileUtils.ExtensionIsAfterLastDot | transcription_app/utils/file_utils.py:23 | the extension is the lower-cased text after the last dot, or the whole lower-cased name without a dot |
| FileUtils.ValidateAudioFile | transcription_app/utils/file_utils.py:17-34 | acceptance exactly for a present file with an allowed extension and a non-zero size; the no-file, unsupported-format (checked first) and empty-file messages otherwise |
| FileUtils.GetFileInfo | transcription_app/utils/file_utils.py:36-49 | nothing exactly for no file; otherwise the name, the size and the same extension rule |
| FileUtils.InfoAgreesWithValidation | transcription_app/utils/file_utils.py:23-42 | a file that validates reports an allowed extension |
| Models.TranscriptionDB.constructor | transcription_app/database/models.py:20-22 | the history is created empty only if absent, otherwise left as it was |
| Models.TranscriptionDB.AddTranscription | transcription_app/database/models.py:41-43 | the record goes in front of the unchanged history, and the call reports success |
| Models.TranscriptionDB.GetAllTranscriptions | transcription_app/database/models.py:54-55 | the history as it is |
| Models.TranscriptionDB.DeleteTranscription | transcription_app/database/models.py:66-71 | the history filtered to the records not carrying the id, and success |
| Models.TranscriptionDB.ClearAllTranscriptions | transcription_app/database/models.py:83-85 | an empty history, and success |
| Models.TranscriptionDB.SearchTranscriptions | transcription_app/database/models.py:87-98 | the result of `Search` on the history |
| Models.DeleteRemovesExactly | transcription_app/database/models.py:66-71 | after a delete no record carries the id, every other record is kept as often as before, and the survivors keep their order |
| Models.DeleteUnknownIdChangesNothing | transcription_app/database/models.py:66-71 | deleting an id nobody carries leaves the history unchanged |
| Models.DeleteUndoesAdd | transcription_app/database/models.py:42-71 | deleting a freshly added record's id gives the old history back |
| Models.SearchEmptyQuery | transcription_app/database/models.py:89-91 | an empty query returns everything, in order |
| Models.SearchFindsExactlyMatches | transcription_app/database/models.py:93-98 | a non-empty query returns exactly the records whose lower-cased name or text contains it, each as often as before, as an order-preserving subsequence |
| Models.SearchIgnoresCase | transcription_app/database/models.py:93-97 | the case of the query makes no difference |
| Improvement.TokenBudget | transcription_app/audio/improvement.py:190 | the budget is at least 50, and is 50 plus the whitespace-split word count times 2.5, rounded down |
| Improvement.Refined | transcription_app/audio/improvement.py:199-210 | what a call makes of a non-empty chunk is never empty |
| Improvement.ImproveChunk | transcription_app/audio/improvement.py:168-210 | a call polls the cancellation probe once or twice and reports no progress |
| Improvement.ImproveChunkResult | transcription_app/audio/improvement.py:168-210 | None exactly when a cancellation is seen before the call, or after a call that returned; otherwise the chunk itself or a stripped reply longer than 10 characters |
| Improvement.ChunkUninterrupted | transcription_app/audio/improvement.py:168-206 | without cancellation a call yields what the pass makes of the chunk |
| Improvement.GroupsPartition | transcription_app/audio/improvement.py:102-126 | the greedy groups together give back the sentences in order; each group closed only because the next sentence would have reached 8000 characters; a sentence of 8000 or more characters is a group by itself |
| Improvement.GroupTextLength | transcription_app/audio/improvement.py:112 | a group's text holds each of its sentences plus two characters per sentence |
| Improvement.ImproveTranscript | transcription_app/audio/improvement.py:46-166 | the method returns exactly `Improve` |
| Improvement.ImproveLongTranscript | transcription_app/audio/improvement.py:98-160 | the long path returns exactly `LongPath`: the first progress report, the sentence loop, then the joining and punctuation step |
| Improvement.GroupSentences | transcription_app/audio/improvement.py:102-137 | the sentence loop and the closing of the last group end exactly where `LongFrom` does: `ok` is false exactly when the run has returned nothing, and otherwise the improved groups and the clock are `LongFrom`'s |
| Improvement.FlushGroup | transcription_app/audio/improvement.py:113-137 | closing a group drops a blank one, stops when the progress report says so, and otherwise keeps the improved text when truthy and the stripped group text otherwise |
| Improvement.LongStep | transcription_app/audio/improvement.py:106-126 | each sentence: a cancellation ends the run with None; a sentence that fits joins the open group; otherwise the group is closed and the sentence opens the next |
| Improvement.FlushUninterrupted | transcription_app/audio/improvement.py:115-124 | uninterrupted, closing a group adds its improved text unless it is blank |
| Improvement.BlankTranscript | transcription_app/audio/improvement.py:49-50 | a blank transcript gives None whatever the model would say |
| Improvement.ImproveIsShortPath | transcription_app/audio/improvement.py:49-76 | a non-blank transcript of at most 8000 characters takes the two-pass path |
| Improvement.ShortTranscriptTwoPasses | transcription_app/audio/improvement.py:70-89 | uninterrupted, a short transcript comes back with both passes applied |
| Improvement.CancelledSecondPassKeepsFirst | transcription_app/audio/improvement.py:78-95 | once the content pass has given text with no cancellation after it, a punctuation pass that gives nothing truthy, or a cancellation before its call, after its call or at the check after it, falls back to the content pass's text; that text is returned when the last progress report lets the run finish, nothing otherwise |
| Improvement.LongFromGroups | transcription_app/audio/improvement.py:102-137 | uninterrupted, the sentence loop improves exactly the non-blank greedy groups, in order |
| Improvement.FinishUninterrupted | transcription_app/audio/improvement.py:139-160 | uninterrupted, the improved groups are joined by a space and given the punctuation pass only when the joined text has at most 8000 characters |
| Improvement.LongTranscriptGroups | transcription_app/audio/improvement.py:98-160 | uninterrupted, a long transcript comes back as its improved non-blank groups joined by a space, with a punctuation pass when at most 8000 characters; None when no group is non-blank |
| Pages.TotalPages | transcription_app/ui/pages.py:371-373 | at least one page, and just enough pages of five to hold every match |
| Pages.Clamp | transcription_app/ui/pages.py:388 | the page lands in [1, total pages], and an in-range page is kept |
| Pages.SyncedPage | transcription_app/ui/pages.py:375-388 | the synced page is in range; it is 1 when the query changed or the page was never set, and the old page when the query is the same and the page is in range |
| Pages.PageItems | transcription_app/ui/pages.py:409-411 | at most five items, each the match at its position on the page; a full page before the last and a non-empty page within range |
| Pages.EveryItemOnOnePage | transcription_app/ui/pages.py:371-411 | match `i` is shown on page `i/5 + 1`, in slot `i mod 5` |
| Pages.ItemId | transcription_app/ui/pages.py:415 | an item is deleted by its own id, or by the decimal digits of its position among the matches |
| Pages.DeletingOnlyItemKeepsPageInRange | transcription_app/ui/pages.py:420-422 | when the only item of a later page goes, the previous page is the last page of the remaining matches |
| Pages.RenderKeepsPageInRange | transcription_app/ui/pages.py:345-423 | whatever the click, the page stays within the current pages; a changed query starts at page 1; Previous and Next move by exactly one when enabled; an undisturbed run shows the page's at most five matches |
| Pages.DeleteMovesBackFromEmptiedPage | transcription_app/ui/pages.py:413-423 | a delete removes the item's id from the history; deleting the only item of a later page moves back one page, which is then the last page; otherwise the page is kept |
| Pages.DeleteOnPage | transcription_app/ui/pages.py:413-423 | the same, for a run already synced to its page |
| Pages.Pager.constructor | transcription_app/ui/pages.py:376-381 | neither session key is set |
| Pages.Pager.Sync | transcription_app/ui/pages.py:375-388 | the last query becomes the current query and the page becomes `SyncedPage`, in range |
| Pages.Pager.Previous | transcription_app/ui/pages.py:395-397 | moves back one page unless on the first, staying in range |
| Pages.Pager.Next | transcription_app/ui/pages.py:404-406 | moves on one page unless on the last, staying in range |
| Pages.Pager.RenderHistorySection | transcription_app/ui/pages.py:345-426 | the history, session keys and shown items after one run are exactly `Render` |
| Pages.Pager.ShowPage | transcription_app/ui/pages.py:390-423 | after syncing, the session, history and shown items are exactly `RenderPage` |
| Pages.Pager.ShowItems | transcription_app/ui/pages.py:413-423 | a delete click on item `i` shows items up to `i`, removes that item's id from the history and moves back from an emptied later page; otherwise all the page's items are shown and nothing changes |
| Pages.Pager.DeleteShownItem | transcription_app/ui/pages.py:415-423 | the record with the item's id leaves the history, and the page decreases when the item was alone on a later page |
| Pages.RawUploadIsOneChunk | transcription_app/ui/pages.py:192-227 | without silence removal or compression the whole upload is the single payload under its own name, whatever the time-splitting switch |
| Pages.NewRecord | transcription_app/ui/pages.py:298-308 | the saved record holds the id, the transcript, the custom name or else the upload's name, the file name, the format, and the improved text exactly when there is one |
| Pages.HandledFromMeaning | transcription_app/ui/pages.py:234-315 | after preparation, each request sent carries the prepared payload at its position, in order; an improvement exists only for a non-empty plain-text transcript with improvement on, never for SRT; a saved record holds the non-empty transcript |
| Pages.HandledMeaning | transcription_app/ui/pages.py:152-343 | the same properties over a whole run, with the payloads chosen by the preprocessing dispatch |
| Pages.TranscribeAndSave | transcription_app/ui/pages.py:234-315 | the transcription, improvement and saving steps do exactly `HandledFrom`, and the history gains the saved record in front, if any |
| Pages.HandleTranscription | transcription_app/ui/pages.py:152-343 | one run does exactly `Handled`, and the history gains the saved record in front, if any |
| Text.StripEmptyIffBlank | transcription_app/audio/transcription.py:88 | `s.strip()` is empty exactly when `s` is blank |
| Text.JoinSplit | transcription_app/audio/improvement.py:103 | splitting on a separator and joining with it gives the text back |
| Text.WordsPartition | transcription_app/audio/improvement.py:190 | `split()` gives non-empty whitespace-free words that hold exactly the non-whitespace characters, in order |
| Text.DigitsValueOfNatToString | transcription_app/ui/pages.py:415 | `str(n)` reads back as `n` |

## Left out

- The Streamlit UI is not modelled: widgets, messages, progress bars, `display_*` calls and result rendering. Each widget event a run reacts to is an input instead: the clicks of the history section, and the cancellation and progress answers of the pipeline.
- The OpenAI client, pydub, `split_on_silence`, ffmpeg, temporary files and Supabase are outside the model. They are oracle parameters, or left out where only the session-state branch matters.
- `get_audio_info`, `duration_seconds`, `size_mb`, `estimate_improvement_cost` and the progress percentages are left out because they are floating point.
- Times are integer milliseconds, where the source uses float seconds. The 1.1 and 0.9 factors of the size splitter are exact rationals, so floating-point rounding is not modelled.
- Python's `lower()` and `\d` are modelled on ASCII only. Whitespace is the `str.isspace` set.
- AudioUtils.SplitBySize: requires the WAV exporter to stay within 0.9 × the limit per millisecond (`ExportRateBounded`). Without this bound the source's loop can fail to advance and never ends. Preprocessing.PreprocessAudio, Preprocessing.Preprocess and Pages.HandleTranscription inherit the requirement.
- Preprocessing.Preprocess: a failing WAV export or temporary file is one answer per window (`exportFails`), plus one for the temporary copy of the upload (`copyFails`). Which export inside a window raises, including the exports `split_audio_by_size` makes to measure pieces, is not modelled, because every such exception ends the run with the same rewind-and-return-whole-upload fallback and no progress check lies between them. PreprocessAudio checks a window's answer before exporting anything from it.
- Transcription.ParseOfFormat: requires times below 100 hours. At 100 hours and above the formatter prints more than two hour digits, and the parser's pattern would not match.
- Transcription.TranscribeAudioChunks: a failing service call is the oracle returning None. Exceptions thrown by the cancellation probe or by client construction are not modelled.
- Improvement.Improve: the model's reply is an oracle keyed by the pass and the chunk. The token budget is a function of the chunk (`Improvement.TokenBudget`), so it is not passed separately. Exceptions from the progress callback or client construction are not modelled.
- Improvement.ImproveChunk: cancellation and progress answers are indexed by how many checks and reports came before, not by the reported percentage, since percentages repeat in the long path.
- Pages.Handled: each pipeline stage gets its own cancellation oracle. The single session flag of the source, and its reset on being read, are not modelled as shared state.
  - Pipeline cancellation checks are keyed by the percentage they precede.
  - The cancel button is folded into the check before 10 percent.
  - The final check after saving has no effect on the result, so it is not modelled.
- Pages.NewRecord: the uuid and the date are inputs.
- Pages.Render: "Clear All History" with its confirmation box is one click carrying the box's state. The "no file uploaded" branch of the pipeline is handled by the form before it is called, so it is not modelled.
- The history store is modelled only in its session-state branch. Supabase reads and writes and their error messages are not modelled.
- Several source loops are split into helper methods so that each proof stays small: `SendChunks`, `AppendShifted`, `ProcessWindows`, `EmitWindow`, `EmitPieces`, `FlushGroup`, `ShowPage`, `ShowItems`, `DeleteShownItem` and `TranscribeAndSave`. Their behaviour is the source's.
