# mineru-k8s batch orchestration, modelled in Dafny

This project models the control logic of a resumable, batched PDF-to-Markdown
run:

- `process_paper.py` walks the subfolders of an input root. It ranks them
  newest first by the first `YYYY-MM-DD` in the folder name, or by the fallback
  date 1900-01-01. In each folder it skips the PDFs that an earlier run already
  converted, hands the rest to `parse_doc`, and keeps four run-wide counters.
- `mineru_vlm.py` implements `parse_doc`. It cuts the path list into batches of
  `batch_size`, loads each batch, and passes the loaded files to `do_parse`.
- `do_parse` converts each file on its own and writes the artifacts the six dump
  switches ask for. A failure abandons that file only.

The conversion itself is done by the `mineru` library. Here each library call is
a parameter that either answers or fails. The same holds for the file system:

- the folders found, the PDFs found, and the output tree as it stood before the
  run are inputs;
- what a run writes is a list of effects (`<stem>/vlm` prepared, or a named file
  written with its content);
- each pause is an event with its length.

Modules, by source:

| module | file | models |
|---|---|---|
| `PyOps` | `pyops.dfy` | Python's `//`, list slicing with out-of-range and negative bounds, and `PurePath.stem` / `.suffix` |
| `Seqs` | `seqs.dfy` | subsequences and concatenation of sequences (shared helpers) |
| `FolderDates` | `dates.dfy` | `extract_date_from_folder_name` |
| `FolderOrder` | `folder_order.dfy` | `sort_folders_by_date_desc` |
| `Resume` | `resume.dfy` | the completion check and the filtering loop of `process_folder_structure` |
| `FolderRun` | `folder_run.dfy` | the folder loop of `process_folder_structure`: counters, `parse_doc` calls and pauses |
| `Conversion` | `conversion.dfy` | `do_parse`: the per-file loop, the six artifacts, the model output layout |
| `Batching` | `batching.dfy` | `parse_doc`: batch arithmetic, batch loading, the batch loop |

Each loop of the source is a Dafny `method` with a `while` loop. Each such method
is proved equal to a specification function. These are `Pending` and
`ParsedCount`, `Tally` and `RunEvents` for the folder loop, `Writes` and
`FileRun` for one file, `AllEffects` and `Outcomes` for a batch, and
`BatchEvents` over a `Plan` for `parse_doc`. What the source promises is then
proved as lemmas about those functions.

The model follows the code as written in these places:

- `parse_doc` catches every exception raised in its body (mineru_vlm.py:205,
  294-295).
  - So `total_processed` counts every file handed to `parse_doc`, including files
    whose conversion failed.
  - A `batch_size` of 0 makes the division at mineru_vlm.py:226 raise
    `ZeroDivisionError` inside the `try` body. The handler at 294-295 catches
    it, and nothing happens.
  - A negative `batch_size` makes Python's slicing yield only empty batches, so
    nothing happens either.
  - The statement calling `parse_doc` (process_paper.py:183-188) can still raise
    before the body runs, for example on an unknown keyword in `parsing_config`.
    That is the `parseDocRaises` input of `FolderRun.Env`.
- The fallback date 1900-01-01 is meant to sort after every dated folder, as
  the comment at process_paper.py:34 says. The code only delivers that for
  dates after 1900-01-01.
  - A folder dated before 1900 (a valid `strptime` date) sorts after the undated
    folders (`FolderDates.FallbackNotMinimal`).
  - A folder dated exactly 1900-01-01 ties with them.
  - The model keeps the code's behaviour, and `FolderOrder.DatedBeforeFallback`
    states the ordering that does hold.
- `Stem` and `Suffix` follow `PurePath` up to Python 3.13:
  - the suffix starts at the last dot when that dot is neither the first nor the
    last character;
  - so `".md"` has no suffix and does not count as a result file.

## Model

| member | source | states |
|---|---|---|
| PyOps.FloorDiv | mineru_vlm.py:226 | the quotient is rounded toward negative infinity, for either sign of the divisor |
| PyOps.ClampIndex | mineru_vlm.py:232 | a slice bound resolves into `0..n` and is unchanged when already in range |
| PyOps.Slice | mineru_vlm.py:232 | `s[lo:hi]` is the ordinary subsequence when the bounds are in order and in range, and never longer than `s` |
| PyOps.LastDot | process_paper.py:141 | `rfind('.')`: the index of a dot with no dot after it, or -1 when there is none |
| PyOps.NameShape | process_paper.py:154 | `Suffix`: empty, or a non-leading dot with at least one character and no other dot after it, ending the name; `Stem`: a prefix of the name, followed by a dot when shorter |
| PyOps.StemSuffixSplit | process_paper.py:141 | stem followed by suffix gives back the file name; a suffix is never a lone dot |
| PyOps.SuffixOfAppended | process_paper.py:154 | a non-empty base followed by an extension such as `.md` has that extension as suffix and the base as stem |
| PyOps.StemNonEmpty | mineru_vlm.py:242 | the stem of a non-empty name is non-empty |
| FolderDates.AtOrBeforeTotalOrder | process_paper.py:56 | date comparison is reflexive, total, antisymmetric and transitive |
| FolderDates.FirstMatchFrom | process_paper.py:26-27 | the result is a match at or after the start with no match between, or none at all |
| FolderDates.FirstMatch | process_paper.py:26-30 | there is a first match exactly when the pattern matches somewhere, and it is the leftmost one |
| FolderDates.ExtractDate | process_paper.py:18-40 | the key is always a calendar date: the fallback or the date read at some match |
| FolderDates.NoMatchGivesFallback | process_paper.py:34-36 | a name without the pattern gets 1900-01-01 |
| FolderDates.LeftmostValidMatchIsKey | process_paper.py:29-32 | when the leftmost match is a calendar date, that date is the key |
| FolderDates.InvalidLeftmostMatchGivesFallback | process_paper.py:27-40 | when the leftmost match is not a calendar date the key is the fallback, whatever follows |
| FolderDates.ExampleTwoDates | process_paper.py:21-22 | "2015-01-01_2015-03-31_MNSC" is keyed 2015-01-01 |
| FolderDates.ExampleOutOfRangeMonth | process_paper.py:31-40 | "2099-13-40_bad" gets the fallback |
| FolderDates.ExampleLaterValidDateIgnored | process_paper.py:27-40 | "2023-02-29_2024-02-29" gets the fallback although its second match is a leap day |
| FolderDates.ExampleNoDate | process_paper.py:34-36 | "no-date-here" gets the fallback |
| FolderDates.FallbackNotMinimal | process_paper.py:34-36 | a valid date before 1900 is strictly earlier than the fallback, so that folder ranks after undated ones |
| FolderOrder.InsertDescPermutes | process_paper.py:56 | inserting an element adds exactly that element |
| FolderOrder.InsertDescSorted | process_paper.py:56 | inserting into a newest-first list keeps it newest first |
| FolderOrder.InsertDescStable | process_paper.py:56 | the inserted element goes to the front of its key class, and the other key classes keep their order |
| FolderOrder.SortDescCorrect | process_paper.py:56 | the sort gives a permutation, keys never increase, and equal keys keep input order |
| FolderOrder.DatedBeforeFallback | process_paper.py:34-56 | after sorting, a folder keyed after 1900-01-01 comes before every folder with the fallback key |
| FolderOrder.SortKeyed | process_paper.py:49-59 | sorting the (folder, key) pairs by key and keeping the folders is sorting the folders by key |
| FolderOrder.SortFoldersByDateDesc | process_paper.py:43-70 | the result is a permutation of the folders, newest first, stable within equal keys |
| Resume.HasResultFile | process_paper.py:151-156 | the early-exit scan finds a result file exactly when some entry is a file with suffix `.md`, `.json` or `.txt` |
| Resume.PendingCount | process_paper.py:136-168 | every PDF is either skipped or kept: skipped plus kept is the number of PDFs |
| Resume.PendingIsSubsequence | process_paper.py:139-168 | the kept PDFs are a subsequence of the discovered ones, in discovery order |
| Resume.PendingMembers | process_paper.py:139-168 | a PDF is kept exactly when it was discovered and its stem has no result (directory, `vlm` directory, result file) |
| Resume.FilterPdfs | process_paper.py:136-168 | the loop returns the pending PDFs and the parsed count, which add up to all PDFs |
| Resume.MarkdownMarksParsed | process_paper.py:146-156 | a `<stem>.md` file in `<stem>/vlm` marks the PDF as converted |
| Resume.NonResultEntries | process_paper.py:154 | `.md` alone, a directory, and `_layout.pdf` are not results; `_model_output.txt` is |
| FolderRun.FolderDeltaCases | process_paper.py:127-194 | no PDFs: no counter moves; all converted: all skipped and one skipped folder; otherwise processed grows by the pending count exactly when `parse_doc` returned |
| FolderRun.Conservation | process_paper.py:131-194 | total PDFs = skipped + processed + the pending PDFs of folders whose `parse_doc` call raised |
| FolderRun.RunEventsMatchFolders | process_paper.py:182-189 | each `parse_doc` call names the folder at its position and exactly that folder's non-empty pending PDFs |
| FolderRun.RunEventsCallsEveryPendingFolder | process_paper.py:182-194 | every folder with unparsed PDFs gets its `parse_doc` call with exactly those PDFs, even when calls for earlier folders raised |
| FolderRun.RunEventsInOrder | process_paper.py:117 | calls come in increasing folder position, so no folder is handed over twice |
| FolderRun.RunEventsPausesFollowCalls | process_paper.py:196-200 | a 3-second pause only follows a call that returned, for a folder that is not the last |
| FolderRun.RunEventsCallsPaused | process_paper.py:196-200 | every call that returned, for a folder that is not the last, is followed by a pause |
| FolderRun.RunEventsWellPaced | process_paper.py:117-200 | the events of a whole run satisfy all five properties above |
| FolderRun.VisitFolder | process_paper.py:117-200 | one pass of the folder loop adds exactly that folder's counter change and events |
| FolderRun.ProcessFolderStructure | process_paper.py:73-211 | a missing input root or no subfolders ends early; otherwise the folders are visited sorted, and the final counters and events are the tallies; every folder with unparsed PDFs is called exactly once, in order, pauses are well placed, and PDFs are conserved |
| Conversion.SelectFromMembers | mineru_vlm.py:105-148 | an artifact is selected exactly when it is listed and its switch is on |
| Conversion.SelectFromOrdered | mineru_vlm.py:105-148 | selecting keeps the writing order |
| Conversion.SelectedArtifactsCorrect | mineru_vlm.py:105-148 | the selection is exactly the switched-on artifacts, each once, in the order the blocks appear |
| Conversion.ArtifactFileName | mineru_vlm.py:107-148 | every artifact file name starts with the stem and is longer than it |
| Conversion.ArtifactFileNamesDistinct | mineru_vlm.py:105-148 | two different artifacts of one stem never share a file name |
| Conversion.JoinLength | mineru_vlm.py:147 | a joined text is the parts plus one separator between each pair of neighbours |
| Conversion.JoinAppend | mineru_vlm.py:147 | joining two non-empty lists is joining each, with one separator between |
| Conversion.ModelOutputLayout | mineru_vlm.py:145-148 | the separator is 52 characters; the model output of n pages is 52·(n−1) longer than the pages; longer page lists extend the output |
| Conversion.WritesPrefix | mineru_vlm.py:104-155 | the writes are a prefix of the selected artifacts, each with its name and content; they stop at the first failure, and the run completes exactly when none fails |
| Conversion.FileRunCompletes | mineru_vlm.py:77-155 | a file completes exactly when cropping, preparation and analysis succeed, `pdf_info` is present, and every switched-on artifact can be produced and written |
| Conversion.FileRunStaysInStem | mineru_vlm.py:84-148 | a file's effects are its own directory prepared, then only files named after its stem for switched-on artifacts |
| Conversion.CompletedRunShape | mineru_vlm.py:79-101 | a completed file got through cropping, preparation and analysis, and its effects are the preparation followed by completed writes |
| Conversion.CompletedWritesInclude | mineru_vlm.py:104-148 | completed writes include every listed artifact with its content |
| Conversion.CompletedRunWroteArtifact | mineru_vlm.py:104-151 | a completed file has every switched-on artifact on disk with the content the library produced |
| Conversion.ModelOutputContent | mineru_vlm.py:145-148 | `<stem>_model_output.txt` holds the model's pages joined by the separator |
| Conversion.OriginPdfContent | mineru_vlm.py:79-113 | `<stem>_origin.pdf` is the input PDF, cut to the page range exactly when one was asked for |
| Conversion.ParseOneFile | mineru_vlm.py:77-155 | the statements of the `try` block have exactly the effects and outcome of `FileRun` |
| Conversion.WritesFromSelection | mineru_vlm.py:104-149 | going through the six `if` blocks from any point writes exactly the selected artifacts from there, up to the first failure |
| Conversion.WriteArtifacts | mineru_vlm.py:104-149 | the six `if` blocks write the selected artifacts in order and stop at the first failure |
| Conversion.WriteLastThree | mineru_vlm.py:124-149 | the last three blocks append their writes to those of the first three |
| Conversion.WriteIfEnabled | mineru_vlm.py:110-114 | one `if` block: passed over when its switch is off, one write when the artifact succeeds, the end of the writes when it fails |
| Conversion.WriteArtifact | mineru_vlm.py:111-113 | succeeds exactly when the artifact can be produced and written, and then appends exactly that write |
| Conversion.OutcomesPerRun | mineru_vlm.py:73-155 | one outcome per file, each its own run's |
| Conversion.AllEffectsMembers | mineru_vlm.py:73-155 | an effect of a batch is an effect of one of its files, and no file's effect is lost |
| Conversion.DoParse | mineru_vlm.py:40-158 | any backend but `vlm-transformers` does nothing; otherwise the files run one after the other, each to its own end |
| Conversion.BatchOutcomes | mineru_vlm.py:73-155 | file `i` of a batch completes exactly when its own run completes, whatever the other files did |
| Conversion.BatchEffectsStems | mineru_vlm.py:73-84 | everything a batch does is under the directory of one of its files |
| Conversion.CompletedFilesWritten | mineru_vlm.py:73-151 | every completed file of a batch wrote each of its switched-on artifacts, under its stem's name and with the library's content, at some point during the batch |
| Batching.NumBatchesIsCeiling | mineru_vlm.py:226 | with a positive batch size the batch count is the ceiling of N/B |
| Batching.BatchPathsWindow | mineru_vlm.py:230-232 | batch i is `paths[i·B .. min(i·B+B, N)]`, at most B long, non-empty below the count, and full except for the last |
| Batching.BatchesPrefix | mineru_vlm.py:229-232 | the first k batches, concatenated, are the first min(k·B, N) paths |
| Batching.BatchesCoverPaths | mineru_vlm.py:226-232 | concatenating all batches gives back the path list |
| Batching.NegativeBatchSizeBatchesEmpty | mineru_vlm.py:226-232 | with a negative batch size every batch the loop visits is empty |
| Batching.NegativeWindowEmpty | mineru_vlm.py:230-232 | the slice taken with a negative batch size is empty when there is at most one path and the start is 0 or at most the batch size, which is every case the loop reaches |
| Batching.Readable | mineru_vlm.py:241-253 | only paths whose read succeeded are loaded |
| Batching.ReadableMembers | mineru_vlm.py:241-253 | a path is loaded exactly when it is in the batch and reading it succeeds |
| Batching.ReadableAppend | mineru_vlm.py:241-253 | loading works path by path, so loading two lists is loading each |
| Batching.PrepareBatch | mineru_vlm.py:236-253 | the three lists are the stems and bytes of the readable paths, in batch order, with one language each |
| Batching.NegativeBatchSizeNothingLoaded | mineru_vlm.py:226-257 | with a negative batch size no batch has anything to hand over |
| Batching.DispatchedNamesPlanned | mineru_vlm.py:229-280 | the stems handed to `do_parse` are the planned batches' stems, in batch order |
| Batching.DispatchedNamesAreReadableStems | mineru_vlm.py:226-280 | `do_parse` sees the stem of every readable path exactly once, in path order, and nothing else |
| Batching.BatchEventsPaced | mineru_vlm.py:286-290 | a 2-second pause only follows a `do_parse` call for a batch that is not the last |
| Batching.BatchEventsCallsPaused | mineru_vlm.py:286-290 | every `do_parse` call for a batch that is not the last is followed right away by a 2-second pause |
| Batching.BatchEventsOrdered | mineru_vlm.py:255-280 | calls go in increasing batch order, each batch at most once, and only batches with loaded files |
| Batching.ParseDoc | mineru_vlm.py:161-295 | a non-positive batch size does nothing; otherwise the events are those of the batches in order |
| Batching.RunBatches | mineru_vlm.py:229-290 | the batch loop produces the planned events of every batch, and none for a negative batch size |
| Batching.RunBatch | mineru_vlm.py:230-290 | one pass gives that batch's events: none when nothing loaded, else the call and a pause unless last |
| Batching.LoadBatch | mineru_vlm.py:230-253 | slicing and loading batch i gives the planned stems and bytes of that batch |

## Left out

- Conversion.CompletedFilesWritten: states that each artifact was written during the batch, not that it is still on disk afterwards; `parse_doc` accepts any path list and names files by stem (mineru_vlm.py:242), so a later file of the same batch with the same stem (`d1/a.pdf`, `d2/a.pdf`) overwrites the earlier file's artifacts. Within one folder the stems are distinct.
- Logging, `setup_logging` and every `logger` call: they do not affect control.
- `main` and its hard-coded paths and settings.
- `mkdir` of the output root and of each output subfolder: these are not modelled as effects. An output folder that is missing simply has no stems.
- `FolderRun.ProcessFolderStructure` assumes that the file-system calls outside any `try` never raise: `output_path.mkdir` (process_paper.py:96), `input_path.iterdir()` (99), `output_subfolder.mkdir` (122), `subfolder.glob` (125) and `vlm_dir.iterdir()` (153). In the source, any of them raising ends the whole run with an exception. The model has no such outcome and always reaches `Finished`.
- File-system traversal order: the subfolders, the PDFs of each folder, and the output tree before the run are inputs. Each input folder's outputs live under its own name, which no other subfolder shares. So the tree before the run is also the tree each folder's check sees.
- The `mineru` library calls are parameters that either answer or fail: page cropping, `prepare_env`, `vlm_doc_analyze`, `draw_layout_bbox`, `vlm_union_make`, `read_fn` and the data writer. Their results are opaque.
- `json.dumps` of the content list and the middle JSON: these are opaque renderers that may fail.
- The images `vlm_doc_analyze` writes through `image_writer`: not modelled.
- `formula_enable`, `table_enable`, `server_url`, `f_make_md_mode` and `p_lang_list`: they do not change control. `Batching.PrepareBatch` builds the language list as the source does, and `do_parse` never reads it.
- `time.sleep`: it is only a pause event with its length.
- The regular expression's `\d` matches ASCII digits only. Python also accepts other Unicode decimal digits.
- `Stem` / `Suffix` use the `PurePath` rules up to Python 3.13. Python 3.14 treats a trailing dot differently.
- `Batching.RunBatch` runs `Conversion.DoParse` on the loaded batch but records only the call and its inputs. What the call writes is stated by `Conversion.DoParse` and its lemmas.
- `FolderRun.ProcessFolderStructure` records each `parse_doc` call with its inputs. The call's batching is given by `Batching.ParseDoc`, and the folder run does not link the two.
- `Conversion.DoParse` requires at least as many names as byte strings. In the source, a shorter name list raises `IndexError` outside the per-file `try`. `parse_doc` always builds the two lists in lockstep, so this cannot happen.
- `FolderOrder.SortFoldersByDateDesc` is specified by a stable insertion sort on values, not by the in-place Timsort of `list.sort`. The two agree on every input, since a stable sort is unique.
