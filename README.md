# Endoshare de-identification core, modelled in Dafny

Endoshare takes endoscopic videos and does two things with them. It cuts
out the frames that show the patient outside the body. It also strips
identifying metadata and gives the files new names. This project models
the sequential decision and bookkeeping code behind that:

- **Segments** (`endoshare/processing/mutils.py`).
  - `delete_isolated_non_sensitive` smooths the classifier's 0/1 labels in place.
  - `find_segments` turns the labels into `(label, start, end)` runs, using a `-1` sentinel.
  - `pipeline` composes the two on the labels the classifier gives.
- **VideoUtils** (`Resources/processing/vutils.py`): the ffmpeg argument vectors of `kf_cut`, `non_kf_cut`, `mk_black_video`, `extract_frames` and the concat run. It also covers:
  - the concat list that `merge` writes;
  - the four-way choice `cut` makes from `t1` and the keyframe list;
  - the actions of the split case (re-encode, stream copy, concatenate, delete).
- **Deid** (`endoshare/processing/deid.py`): `process_video`.
  - A first pass counts segments in a scratch directory. A ZeroDivisionError counts as no segments, and the total is at least 1.
  - A second pass extracts frames and segments each video. It then turns every segment into a stream-copied clip or a black clip, named `<stem>.pNNNN<suffix>` under `segments<i>`.
  - Each clip emits one progress event.
  - All clips are concatenated in order.
- **Anonymizer** (`endoshare/gui/video_threads.py`):
  - the name generators: the counter closure and the uuid slice;
  - `seq_width`;
  - the `shuffle` generator;
  - `randomize_paths` and `transpose_paths`;
  - the CSV name-translation file;
  - `strip_metadata`;
  - `anonymize`, which appends one log row per video.
- **Advanced** (`endoshare/gui/video_threads.py`): the buffer and counter logic of `run_advanced_inference`.
  - Frames are buffered in a fixed-size array.
  - A full batch has its sensitive frames zero-filled in place before it is written. Those writes pass through the fps-thinning test.
  - The tail is copied, its sensitive frames are replaced by their mean colour, and it is written in full.
  - The model also covers the chunk total, the processed-unit counter and the progress events.
- **Merger** (`endoshare/gui/video_merger.py`):
  - the progress percentage and its clamp;
  - the ETA timer reset;
  - the resolution-consistency check and the guards of `copy_selected_videos`;
  - the start guards of `merge_files`;
  - patient removal.
- **Browser** (`endoshare/gui/video_browser.py`):
  - the eligibility rule (extension in `VIDEO_EXTENSIONS`, basename not starting with `._`);
  - adding one file from the tree without duplicating a name;
  - adding every eligible file under the root, sorted by path;
  - removing the selected rows.
- **Settings** (`endoshare/gui/settings.py`):
  - the Archive Mode checkbox and `purge_after`;
  - the rule that enables "Save Settings";
  - what `save_settings` stores and pushes;
  - `load_settings`;
  - how the constructor initialises the box.

Effects are modelled by `HostModel.Host`, a class with two fields:

- `trace`, the ordered list of actions: ffmpeg runs, writes, appends, deletions, directory creation and removal, and progress events;
- `files`, a map from paths to contents (CSV rows, or an opaque media file).

Several things become parameters of the model:

- the classifier's labels;
- the exit status of each command;
- `os.path.isfile` and `os.path.isdir`;
- OpenCV's resolution probe;
- the random draws of `secrets.randbelow` and `uuid4`.

Where the documented behaviour and the code differ, the model follows the code:

- A full batch in advanced mode is zero-filled, and only the tail uses the mean colour.
- `find_segments` on an empty label list raises IndexError at `arr[0]`; it does not return an empty list.
- The CSV log of `anonymize` never contains "FAILED". It records the new name whether or not stripping succeeded.
- The constructor of the settings panel sets the box to `not purge_after`, while `load_settings` sets it to `purge_after`.
- `processed_units` in advanced mode counts one more unit per video than `total_chunks` when a video's frame count is a multiple of the buffer size (`Advanced.UnitsAgainstTotal`). The bar is clamped, so nothing visible breaks.
- `process_video` never calls the keyframe-aware `cut`; each clear segment is a plain `kf_cut`.

## Model

| member | source | states |
|---|---|---|
| Segments.DeleteIsolatedNonSensitive | endoshare/processing/mutils.py:59-72 | the in-place left-to-right loop leaves the array equal to the pointwise smoothing rule applied to the original labels |
| Segments.SmoothShort | endoshare/processing/mutils.py:60-63 | label lists shorter than 2 are left unchanged |
| Segments.SmoothOnlyRaises | endoshare/processing/mutils.py:65-72 | smoothing keeps the length, only turns 0 into 1, and keeps every 1 |
| Segments.SmoothBoundary | endoshare/processing/mutils.py:65-68 | a leading 0 becomes 1 iff the second label is 1; a trailing 0 becomes 1 iff the second-to-last label is 1 |
| Segments.SmoothInterior | endoshare/processing/mutils.py:70-72 | an interior 0 becomes 1 iff both its neighbours are 1 in the original labels |
| Segments.RaisedNeighbour | endoshare/processing/mutils.py:65-72 | a position still 0 after smoothing was 0 before, and its neighbours were raised only if they were already 1 |
| Segments.SmoothIdempotent | endoshare/processing/mutils.py:59-72 | smoothing twice is the same as smoothing once |
| Segments.FindSegments | endoshare/processing/mutils.py:74-86 | the method smooths its argument in place and returns the run list of the smoothed labels, or IndexError on empty input |
| Segments.Pipeline | endoshare/processing/mutils.py:88-89 | a classifier error is passed through; no labels give IndexError; otherwise the runs tile [0, n) and the first run carries the first smoothed label |
| Segments.ScanShape | endoshare/processing/mutils.py:79-85 | from any scan position, the emitted runs are non-empty, contiguous, alternate in label, end at n and carry only input labels |
| Segments.RunsShape | endoshare/processing/mutils.py:76-86 | the runs of a non-empty list start at 0, end at its length, are contiguous with start < end, alternate in label, and start with its first label |
| Segments.TilesDuration | endoshare/processing/mutils.py:80-85 | the durations of a tiling of [lo, hi) sum to hi - lo |
| Segments.SegmentationIdempotent | endoshare/processing/mutils.py:74-75 | segmenting already smoothed labels gives the same runs |
| Segments.SingleFrame | endoshare/processing/mutils.py:74-86 | a one-frame input yields exactly one run (x, 0, 1) |
| Segments.ScenarioA | endoshare/processing/mutils.py:79-85 | on `0 0 1 0 0 1 1 0 0` the lone 1 at frame 2 is emitted late as (1, 2, 3) because the skipped emission keeps its label, and the run at frames 5-6 is emitted as (1, 5, 6) |
| Segments.ScenarioB | endoshare/processing/mutils.py:65-72 | an isolated 0 between two 1s is absorbed into one sensitive run |
| Segments.ShiftedClearRun | endoshare/processing/mutils.py:81-85 | on `1 1 0 0 1 1` the sensitive run ends one frame early, (1, 0, 1), and the clear run (0, 1, 4) starts on a sensitive frame |
| Digits.ParseZeroPad | endoshare/gui/video_threads.py:554 | a zero-padded number reads back as the number |
| Digits.ZeroPadLength | endoshare/processing/deid.py:178 | a zero-padded number has the width, or more digits when it needs them |
| Digits.ZeroPadInjective | endoshare/processing/deid.py:178 | different indices give different padded strings |
| Digits.ZeroPadIntInjective | endoshare/gui/video_threads.py:554 | the padded rendering of any integer (a minus sign included) is injective |
| Digits.DigitCountBounds | endoshare/gui/video_threads.py:569-574 | a number n >= 1 with d digits lies in [10^(d-1), 10^d) |
| Digits.DigitCountMonotone | endoshare/gui/video_threads.py:569-574 | a larger number never has fewer digits |
| VideoUtils.KfCutReading | Resources/processing/vutils.py:61-78 | the stream-copy cut passes -ss t1 before -i, -c copy, duration t2 - t1 and the timescale, with the output last |
| VideoUtils.NonKfCutReading | Resources/processing/vutils.py:80-99 | the re-encoding cut has the same -ss, -i, duration and timescale, encodes with libx264 profile main, and has no -c copy |
| VideoUtils.BlackVideoReading | Resources/processing/vutils.py:177-184 | the black clip has the given duration and a lavfi `color=c=black:s=WxH` source, and is encoded with libx264 |
| VideoUtils.BlackVideoEncoding | Resources/processing/vutils.py:185-196 | the black clip uses the given timescale, tune stillimage and yuv420p |
| VideoUtils.ConcatReading | Resources/processing/vutils.py:161-171 | the concat run reads the list file with -f concat -safe 0, copies streams, and writes the output |
| VideoUtils.ConcatListRoundTrip | Resources/processing/vutils.py:158-160 | the list has one `file '<v>'` line per input, in order, and each line reads back as its input when the path has no quote |
| VideoUtils.QuotedPathNotReadBack | Resources/processing/vutils.py:158 | a path containing a single quote is not read back from its concat line |
| VideoUtils.FirstAfter | Resources/processing/vutils.py:141 | the first listed keyframe strictly after t1; it exists when t1 is before the last listed keyframe |
| VideoUtils.ChooseCut | Resources/processing/vutils.py:132-141 | exactly one of: no keyframes; t1 is a keyframe (tested first); t1 after the last listed keyframe; otherwise split at the first listed keyframe after t1 |
| VideoUtils.SplitPaths | Resources/processing/vutils.py:142-144 | the left and right helper clips are `<stem>.left`/`<stem>.right` with the output's suffix in the temporary directory, distinct from each other and from the output |
| VideoUtils.DefaultTmpDirRaises | Resources/processing/vutils.py:132-143 | with the default string tmp_dir the split case raises TypeError; with a Path it yields the helper paths |
| VideoUtils.CutCommands | Resources/processing/vutils.py:132-149 | a cut issues exactly one command for the first three choices (re-encode, copy, re-encode) and the re-encode/copy/concat triple when it splits |
| VideoUtils.SplitOpsCommands | Resources/processing/vutils.py:140-149 | the split runs re-encode [t1, tkf) into left, copy [tkf, t2) into right, then concatenates left and right into the output |
| VideoUtils.MergeCommands | Resources/processing/vutils.py:151-175 | merge runs exactly one command, the concat over its list file (the given one or `tmp_concat.txt` beside the output) |
| VideoUtils.VideoWorker.constructor | Resources/processing/vutils.py:33-34 | a worker keeps its optional log file |
| VideoUtils.VideoWorker.Log | Resources/processing/vutils.py:36-39 | with a log file, appends a 40-underscore rule, a blank line and the text; without one, does nothing |
| VideoUtils.VideoWorker.ExtractFrames | Resources/processing/vutils.py:41-59 | logs and runs the 1 fps, 64x64 frame extraction into the directory |
| VideoUtils.VideoWorker.KfCut | Resources/processing/vutils.py:61-78 | logs and runs the stream-copy cut command |
| VideoUtils.VideoWorker.NonKfCut | Resources/processing/vutils.py:80-99 | logs and runs the re-encoding cut command |
| VideoUtils.VideoWorker.MkBlackVideo | Resources/processing/vutils.py:177-198 | logs and runs the black-clip command |
| VideoUtils.VideoWorker.Merge | Resources/processing/vutils.py:151-175 | writes the concat list, logs and runs the concat, and removes the list only when the concat succeeded; a failed concat raises CalledProcessError |
| VideoUtils.VideoWorker.SplitCut | Resources/processing/vutils.py:140-149 | the split case's actions in order; both helper clips are deleted only after a successful concat |
| VideoUtils.VideoWorker.Cut | Resources/processing/vutils.py:132-149 | performs the actions of the chosen case and raises only when the split's concat fails |
| Deid.EstimateOne | endoshare/processing/deid.py:69-74 | a video's estimate is its segment count; ZeroDivisionError counts as 0; any other error aborts |
| Deid.EstimateCount | endoshare/processing/deid.py:64-77 | the estimate succeeds iff every video's does, is then the sum of the counts, and never fails with ZeroDivisionError |
| Deid.TotalSegments | endoshare/processing/deid.py:79 | the total is at least 1, at least the count, and equal to it when the count is positive |
| Deid.Estimate | endoshare/processing/deid.py:60-77 | counts segments over all videos; the scratch directory is created first and removed last, even when a video aborts the count |
| Deid.EstimateVideo | endoshare/processing/deid.py:65-75 | per video: a frame directory, extraction without a log, the count, and removal of the directory when the count succeeded |
| Deid.EstimateFailure | endoshare/processing/deid.py:64-77 | the first failing video decides the failure of the whole estimate |
| Deid.EstimateSuccess | endoshare/processing/deid.py:64-79 | when every video succeeds, the accumulated count is the estimate |
| Deid.VideoClips | endoshare/processing/deid.py:176-179 | one clip path per segment of a video |
| Deid.CutSegments | endoshare/processing/deid.py:176-192 | one clip per segment, in order; `processed` rises by one per segment and the clip paths are appended in segment order |
| Deid.CutOne | endoshare/processing/deid.py:176-192 | the clip for one segment is named `<stem>.pNNNN<suffix>` in `segments<i>`, made, then reported as a progress event |
| Deid.MakeClip | endoshare/processing/deid.py:180-183 | a clear segment becomes `kf_cut` with timescale 10000; a sensitive one becomes a black clip of duration end - start at the source's size |
| Deid.Prelude | endoshare/processing/deid.py:95-170 | empties the frame directory, extracts frames, runs the pipeline (a ZeroDivisionError gives no segments), logs the segment list and creates the clip directory |
| Deid.ProcessOne | endoshare/processing/deid.py:93-197 | one video of the second pass, ending with the frame directory emptied again |
| Deid.ProcessAll | endoshare/processing/deid.py:92-197 | processed equals the number of segments, and the clip list holds every clip in video order and then segment order |
| Deid.ProcessVideo | endoshare/processing/deid.py:60-226 | an estimate failure aborts after removing the scratch directory; otherwise the work directory is created, all videos are processed, exactly the clip list is merged, and the work directory is removed |
| Deid.WorkPhase | endoshare/processing/deid.py:80-226 | the work directory and its frame directory are created, every video is processed, exactly the clip list is merged, and the work directory is removed; processed counts every segment of the run |
| Deid.SegmentDirInjective | endoshare/processing/deid.py:169 | different videos get different clip directories |
| Deid.ClipPathInjective | endoshare/processing/deid.py:169-179 | a clip path determines its video and segment index |
| Deid.VideoClipsDistinct | endoshare/processing/deid.py:176-179 | the clip paths of one video are pairwise distinct |
| Deid.ClipsFromDistinct | endoshare/processing/deid.py:169-185 | all clip paths of the run are pairwise distinct |
| Deid.ClipsFromLength | endoshare/processing/deid.py:185-186 | the merge list has exactly one path per processed segment |
| Deid.ProgressSegOps | endoshare/processing/deid.py:186-192 | each segment emits (curr + processed, curr + total) with processed counting up by one |
| Deid.ProgressWorkOps | endoshare/processing/deid.py:186-192 | the second pass emits one event per segment of the run, with consecutive processed counts |
| Deid.ProgressWithinTotal | endoshare/processing/deid.py:79-192 | the number of clips never exceeds the announced total, and equals it when there is at least one clip |
| Anonymizer.SeqNameInjective | endoshare/gui/video_threads.py:551-554 | different counter values give different names |
| Anonymizer.SeqNameExample | endoshare/gui/video_threads.py:544-554 | prefix "video", counter 7, width 3 gives "video007" |
| Anonymizer.IncrementingName.constructor | endoshare/gui/video_threads.py:563-566 | the counter starts at start - 1 |
| Anonymizer.IncrementingName.Next | endoshare/gui/video_threads.py:551-554 | each call raises the counter by one and returns the prefix plus the padded counter |
| Anonymizer.GeneratorCallsDistinct | endoshare/gui/video_threads.py:551-566 | the k-th and l-th calls of one generator return different names when k != l |
| Anonymizer.UuidName | endoshare/gui/video_threads.py:556-558 | the name is the hex string without its last 25 characters |
| Anonymizer.UuidNameLength | endoshare/gui/video_threads.py:558 | for a 32-digit uuid hex the name is its first 7 digits |
| Anonymizer.SeqWidth | endoshare/gui/video_threads.py:569-574 | for num >= 1 the number of decimal digits, i.e. 10^(w-1) <= num < 10^w; num <= 0 raises ValueError |
| Anonymizer.SeqWidthExample | endoshare/gui/video_threads.py:572-573 | seq_width(103) is 3 |
| Anonymizer.RemoveAt | endoshare/gui/video_threads.py:583 | `pop(i)` removes one element and keeps the rest |
| Anonymizer.Shuffled | endoshare/gui/video_threads.py:577-583 | the shuffled order has as many elements as the input |
| Anonymizer.ShuffledPermutation | endoshare/gui/video_threads.py:577-583 | every element of the input is yielded exactly once |
| Anonymizer.ShuffledDistinct | endoshare/gui/video_threads.py:577-583 | a list without duplicates shuffles to a list without duplicates |
| Anonymizer.Shuffle | endoshare/gui/video_threads.py:577-583 | the popping loop over a copy yields the shuffled order, a permutation of the caller's list, which is left unchanged |
| Anonymizer.PutKeys | endoshare/gui/video_threads.py:599 | a dict assignment adds its key |
| Anonymizer.PutDistinct | endoshare/gui/video_threads.py:599 | a dict assignment keeps keys unique |
| Anonymizer.LookupPut | endoshare/gui/video_threads.py:599 | after an assignment the key maps to the new value and other keys are unchanged |
| Anonymizer.PutFresh | endoshare/gui/video_threads.py:599 | assigning a new key appends it at the end, in insertion order |
| Anonymizer.AssignShape | endoshare/gui/video_threads.py:594-601 | the mapping has unique keys, exactly the input paths, and every new path is in outdir with the original suffix |
| Anonymizer.AssignDistinct | endoshare/gui/video_threads.py:594-601 | on distinct paths, entry k maps path k to outdir / (name k + suffix) |
| Anonymizer.RandomizedFailure | endoshare/gui/video_threads.py:586-591 | randomize_paths fails iff it is sequential with no paths (seq_width(0) raises ValueError) |
| Anonymizer.RandomizedShape | endoshare/gui/video_threads.py:586-601 | every input path maps to outdir / (generated name + its suffix), keys are exactly the inputs |
| Anonymizer.SequentialNamesDistinct | endoshare/gui/video_threads.py:586-601 | in sequential mode all new paths are distinct |
| Anonymizer.RandomizePaths | endoshare/gui/video_threads.py:586-601 | the generator choice, shuffle and assignment loop compute the randomized mapping |
| Anonymizer.NamePaths | endoshare/gui/video_threads.py:594-601 | the loop assigns the k-th generated name to the k-th shuffled path |
| Anonymizer.TransposeShape | endoshare/gui/video_threads.py:604-607 | each path maps to outdir / its own name, keys are exactly the inputs |
| Anonymizer.AssignStems | endoshare/gui/video_threads.py:604-607 | assigning each path its own stem maps it to outdir / p.name |
| Anonymizer.VideoPathsMembers | endoshare/gui/video_threads.py:610-618 | the video paths are exactly the found paths that are files with a video extension, without new duplicates |
| Anonymizer.SetupFiles | endoshare/gui/video_threads.py:524-541 | an existing file is untouched; otherwise it is created with exactly the header row `original,anonymized` |
| Anonymizer.SetupIdempotent | endoshare/gui/video_threads.py:533-534 | setting up twice is the same as setting up once |
| Anonymizer.SetupNameTranslationFile | endoshare/gui/video_threads.py:524-541 | returns the path and changes the file system as `SetupFiles` says |
| Anonymizer.StripReading | endoshare/gui/video_threads.py:625-656 | the strip command reads the input, maps video and optional audio, copies streams and writes the output |
| Anonymizer.StripDropsMetadata | endoshare/gui/video_threads.py:641-654 | the strip command drops global, stream and chapter metadata and dispositions |
| Anonymizer.StripContract | endoshare/gui/video_threads.py:658-674 | FAILED iff ffmpeg failed, and then no output is left; otherwise the output path if the file exists, else None; no other file changes |
| Anonymizer.StripMetadata | endoshare/gui/video_threads.py:621-674 | runs the strip command and returns and leaves what `StripContract` describes |
| Anonymizer.Anonymize | endoshare/gui/video_threads.py:676-704 | creates outdir, sets up the log, strips every video in the shuffled uuid order and appends its log row after each strip, and returns the last strip result |
| Anonymizer.LogRows | endoshare/gui/video_threads.py:695-701 | one `[orig.stem, new.stem]` row per entry, in order |
| Anonymizer.AnonStepLog | endoshare/gui/video_threads.py:692-701 | one video appends exactly its row to the log, whatever the strip result |
| Anonymizer.AnonRows | endoshare/gui/video_threads.py:689-701 | the log ends as its old rows followed by one row per video, never a FAILED row |
| Anonymizer.FreshLog | endoshare/gui/video_threads.py:684-701 | a new log holds the header followed by one row per video |
| Anonymizer.FinalIsLast | endoshare/gui/video_threads.py:687-704 | with at least one video the result does not depend on the initial None |
| Anonymizer.FinalIsStripResult | endoshare/gui/video_threads.py:687-704 | the result is None, FAILED or one of the new paths |
| Advanced.Inference.constructor | endoshare/gui/video_threads.py:277-279 | the buffer holds exactly `buffer_size` black frames; counters and output start empty |
| Advanced.Inference.Push | endoshare/gui/video_threads.py:354-357 | the frame is stored at `image_count`, which rises by one |
| Advanced.Inference.FlushFull | endoshare/gui/video_threads.py:358-383 | the buffer is zero-filled in place, written through the fps test, the frame index advances, the counter rises by one and one event is emitted |
| Advanced.Inference.MaskBatch | endoshare/gui/video_threads.py:363 | in place, every buffered frame predicted sensitive becomes black and every other frame keeps its value |
| Advanced.Inference.PassBatch | endoshare/gui/video_threads.py:365-371 | the frames written are the buffer passed through the fps test from the current frame index; the index advances by the batch size only when thinning |
| Advanced.Inference.FlushRead | endoshare/gui/video_threads.py:354-383 | when a frame fills the buffer, the flush keeps the reading invariant with the next batch starting after that frame and one more batch counted |
| Advanced.Inference.FinishVideo | endoshare/gui/video_threads.py:384-491 | at the end of a video the tail flush completes exactly that video's output, and one more unit and the two end-of-video events are counted |
| Advanced.CountChunks | endoshare/gui/video_threads.py:242-247 | the chunk total is the sum over the videos of their frame counts divided by the buffer size, rounded up |
| Advanced.Inference.FlushTail | endoshare/gui/video_threads.py:388-406 | a copy of the first `image_count` frames is mean-filled and written in full; the buffer is untouched |
| Advanced.Inference.ReadFrame | endoshare/gui/video_threads.py:349-383 | reading one frame keeps the output a prefix of the video's output and the counters in step |
| Advanced.Inference.ProcessVideo | endoshare/gui/video_threads.py:329-504 | a video writes exactly its output, adds its units to the counter, and emits its events |
| Advanced.RunAdvancedInference | endoshare/gui/video_threads.py:238-520 | no videos raises UnboundLocalError whatever the buffer size; otherwise buffer size 0 raises ZeroDivisionError; otherwise the output, events, chunk total and unit count of the run |
| Advanced.PassedSnoc | endoshare/gui/video_threads.py:365-371 | the fps test decides frame by frame |
| Advanced.FullStep | endoshare/gui/video_threads.py:358-383 | one full batch contributes its zero-filled, thinned frames and one batch |
| Advanced.FlushKeeps | endoshare/gui/video_threads.py:358-383 | after a full flush the output written so far plus the rest is still the video's output |
| Advanced.TicksSnoc | endoshare/gui/video_threads.py:379-383 | one more flush adds one more event |
| Advanced.BatchesDiv | endoshare/gui/video_threads.py:358-375 | a video of n frames has n / buffer_size full batches |
| Advanced.UnthinnedLength | endoshare/gui/video_threads.py:438-442 | without fps dropping every frame is written |
| Advanced.UnthinnedOutputAt | endoshare/gui/video_threads.py:430-474 | without fps dropping, output frame i is the input frame if clear, black if sensitive and in a full batch, its mean colour if in the tail |
| Advanced.PassedFrom | endoshare/gui/video_threads.py:369-370 | the fps test only drops frames |
| Advanced.OutputFrom | endoshare/gui/video_threads.py:363-406 | every written frame is black, a mean colour, or a clear input frame |
| Advanced.NoSensitiveFrameWritten | endoshare/gui/video_threads.py:363-406 | a frame predicted sensitive is never written as itself |
| Advanced.VideoUnitsCeil | endoshare/gui/video_threads.py:247-491 | a video's units are ceil(n / bs), plus one when n is a multiple of bs |
| Advanced.UnitsAgainstTotal | endoshare/gui/video_threads.py:242-491 | the processed units equal the chunk total plus the number of videos whose frame count is a multiple of the buffer size, so they never fall short |
| Merger.TruncDiv | endoshare/gui/video_merger.py:483 | `int()` truncates toward zero |
| Merger.Clamp | endoshare/gui/video_merger.py:488 | the value is clamped to [0, 100] |
| Merger.Percent | endoshare/gui/video_merger.py:480-488 | pct is in [0, 100]; 0 when total <= 0 or current <= 0; 100 when current >= total; otherwise the exact floor of 100 * current / total, read for the float quotient (see Left out) |
| Merger.TruncDivMonotone | endoshare/gui/video_merger.py:483 | truncating division is monotone |
| Merger.PercentMonotone | endoshare/gui/video_merger.py:480-488 | more progress never shows a smaller percentage |
| Merger.GatherResolutions | endoshare/gui/video_merger.py:316-331 | one entry per path, holding the probe's result (None when unreadable) |
| Merger.MismatchMeans | endoshare/gui/video_merger.py:352-354 | no mismatch iff every file is readable and all resolutions are equal (vacuously for no files) |
| Merger.StartCheck | endoshare/gui/video_merger.py:420-431 | processing starts iff there are videos and both folders are set; no videos is reported first |
| Merger.VideoMerger.constructor | endoshare/gui/video_merger.py:88-207 | empty selection, dictionary and patient list; the fresh bar holds the reset value |
| Merger.VideoMerger.UpdateProgress | endoshare/gui/video_merger.py:480-514 | the bar shows the clamped percentage; the ETA timer starts on the first processing update and is cleared once current >= total |
| Merger.VideoMerger.CopySelectedVideos | endoshare/gui/video_merger.py:334-405 | no folder, no name, a resolution mismatch and no videos are rejected in that order; a rejection leaves the selection, dictionary and patient list alone, and changes the patient name only once a folder is chosen (the name is read before the other checks); only the no-videos refusal resets the bar; otherwise the videos are appended and the patient is registered |
| Merger.VideoMerger.MergeFiles | endoshare/gui/video_merger.py:416-450 | starts the processing with the dictionary and folders and starts the timer exactly when `StartCheck` allows it; a refusal resets the bar |
| Merger.VideoMerger.RemovePatient | endoshare/gui/video_merger.py:610-628 | on confirmation with a selected row, that row and its dictionary entry are removed; otherwise the list and dictionary stay; every confirmation resets the bar, a cancel leaves it |
| Browser.Basename | endoshare/gui/video_browser.py:143-145 | the part after the last separator |
| Browser.Ext | endoshare/gui/video_browser.py:142 | the extension is empty or starts with a dot |
| Browser.ExtJoin | endoshare/gui/video_browser.py:142 | `dir/stem.ext` has extension `.ext` |
| Browser.HiddenHasNoExt | endoshare/gui/video_browser.py:142 | a dot file such as `.mp4` has no extension |
| Browser.EligibleExample | endoshare/gui/video_browser.py:24-144 | an upper-case `.MP4` file is eligible |
| Browser.AppleDoubleExample | endoshare/gui/video_browser.py:143 | a `._` file is not eligible |
| Browser.HiddenExample | endoshare/gui/video_browser.py:142 | a file named `.mp4` is not eligible |
| Browser.Sort | endoshare/gui/video_browser.py:168 | sorted by path, and a permutation of its input |
| Browser.Unselected | endoshare/gui/video_browser.py:176-178 | only unselected rows remain |
| Browser.TakeSelected | endoshare/gui/video_browser.py:177-178 | taking one selected row keeps the unselected rows in order |
| Browser.FirstNameCell | endoshare/gui/video_browser.py:153-156 | the first selected index in column 0 |
| Browser.EligibleOfMembers | endoshare/gui/video_browser.py:161-167 | the collected files are exactly the eligible walked files |
| Browser.VideoBrowser.constructor | endoshare/gui/video_browser.py:26-28 | the list starts empty |
| Browser.VideoBrowser.AddVideoFromTree | endoshare/gui/video_browser.py:139-149 | appends an eligible file only when no row has its name; names stay distinct |
| Browser.VideoBrowser.AddSingleVideo | endoshare/gui/video_browser.py:151-156 | acts only on the first selected column-0 index |
| Browser.VideoBrowser.AddAllVideos | endoshare/gui/video_browser.py:158-174 | the list is replaced by all eligible walked files, sorted by path |
| Browser.VideoBrowser.RemoveSelectedVideos | endoshare/gui/video_browser.py:176-178 | exactly the selected rows are removed, the rest keep their order |
| Browser.CollectEligible | endoshare/gui/video_browser.py:159-167 | the walk loop collects the eligible files in walk order |
| Browser.MakeRows | endoshare/gui/video_browser.py:170-174 | the refill loop makes one row per sorted path |
| Browser.AddAllContents | endoshare/gui/video_browser.py:158-174 | the new rows are sorted by path, hold exactly the eligible files (duplicate names allowed) and show their basenames |
| Settings.SaveRule | endoshare/gui/settings.py:261-265 | saving always needs a valid export folder; the archive folder matters only in Archive Mode, where an invalid one disables saving; whatever may be saved in Archive Mode may also be saved with it off |
| Settings.SettingsPanel.constructor | endoshare/gui/settings.py:215-220 | the box ends as not `purge_after`; unchecking it runs the toggle handler, which mirrors the export folder |
| Settings.SettingsPanel.SetChecked | endoshare/gui/settings.py:57 | the toggle handler runs only when the state changes |
| Settings.SettingsPanel.OnArchiveModeToggled | endoshare/gui/settings.py:223-238 | `purge_after` becomes the negation of the box; with Archive Mode off the archive field mirrors the export field |
| Settings.SettingsPanel.ArchiveEntryChanged | endoshare/gui/settings.py:241-270 | the save button follows `SaveEnabled` |
| Settings.SettingsPanel.SetLocalFolder | endoshare/gui/settings.py:272-275 | a chosen folder replaces the archive field and save is re-derived |
| Settings.SettingsPanel.SetSharedFolder | endoshare/gui/settings.py:277-280 | a chosen folder replaces the export field and save is re-derived |
| Settings.SettingsPanel.SaveSettings | endoshare/gui/settings.py:282-301 | stores `purge_after` = not checked; with Archive Mode off both folders are the export folder; runtime settings, file and merger get the same values |
| Settings.SettingsPanel.LoadSettings | endoshare/gui/settings.py:305-313 | an unreadable file reads as empty; the fields take the file's values and the box is set to `purge_after` itself; when that flips the box, `purge_after` becomes the negated box and with Archive Mode off the archive field mirrors the export field; the save button follows the archive rule afterwards |
| Settings.SaveThenRestore | endoshare/gui/settings.py:219-313 | starting from saved settings restores the box; loading them inverts it |
| Settings.InitialisationsDisagree | endoshare/gui/settings.py:219-313 | construction and `load_settings` never agree on the box |

## Left out

- The classifier (TensorFlow model, preprocessing, `find_sensitive`) is a parameter that gives labels or predictions.
- ffmpeg, ffprobe and OpenCV are not executed. Commands are recorded in the trace, and their exit status and the files they make are parameters. `list_kf`, `reencode`, `resource_path` and the awk pipe are not part of this model.
- Floating point is not modelled: the fps-drop test `frame_index % frame_interval < 1` (an abstract `keep` predicate), the mean-colour values, bitrate, resize, ETA text and speed logging.
- Threads, the fake progress loops with `random`/`sleep`, interruption and termination are not modelled. Deid records only the per-segment progress events, not the extraction, segmentation and merge animations.
- The file system walk order and `rglob` order are inputs.
- Message strings and Qt widget enabling, visibility and colours are left out, except the save button and the progress bar.
- `run()`'s pre-flight decode and per-patient folder handling are not part of this model.
- Deid.ProcessVideo: the merge runs in a thread whose exception is lost; the model records the merge actions but not whether it raised.
- Advanced.RunAdvancedInference: frames are abstract values; the interruption returns are not modelled, and neither is how `frame_interval` is computed (from the fps read at the end of the previous video); each video carries a `thin` flag and a `keep` predicate instead. A failing run returns only the error: the "Processing started" event sent before the failure is not part of the failure result.
- Deid.Estimate, Deid.WorkPhase, Deid.ProcessOne, Anonymizer.Anonymize, Advanced.RunAdvancedInference: every directory creation is assumed to succeed, so the `FileExistsError` of `mkdir()` on an existing directory (endoshare/processing/deid.py:62, 67, 83, 87, 170) and the `FileNotFoundError` of `outdir.mkdir(exist_ok=True)` without a parent (endoshare/gui/video_threads.py:682) are not modelled; neither are a video that cannot be opened (the `assert video_in.isOpened()` at endoshare/gui/video_threads.py:265) and the `ZeroDivisionError` of a zero frame rate (endoshare/gui/video_threads.py:268).
- Merger.VideoMerger.CopySelectedVideos: the copy thread is not modelled; the patient's dictionary entry is the selected video list rather than the copy thread's own dictionary, and `not video_list` is read as an empty list.
- Merger.Percent: the source computes `int((current / total) * 100)` in floating point; the model reads the quotient as exact, so its value can be one higher than the program's, for example 29 where the program shows 28 at current 29, total 100 (also at (57,100), (58,100), (29,50), (87,150)).
- Merger.VideoMerger.UpdateProgress: the label text and ETA are left out; only the bar value and the timer are modelled, and the bar value inherits Merger.Percent's exact reading of the float quotient.
- Anonymizer.SeqWidth: the source computes `math.floor(math.log10(num)) + 1` in floating point; the model counts decimal digits exactly, which differs from the float result near powers of ten with fifteen or more digits (num = 10^15 - 1 gives 16 in the program, 15 in the model).
- Deid.ProgressWithinTotal: the classifier is assumed to give the same labels in the estimate pass (deid.py:66-74) and in the work pass (deid.py:127-136), which run it on two separate frame extractions; each source video carries one label sequence read by both, and the bound on the clip count holds only under that assumption.
- Deid.ProcessVideo: because both passes read the same labels, a work-pass pipeline error other than ZeroDivisionError (which gives no segments and no log line) cannot follow a successful estimate in the model.
- Browser.Lower: only ASCII case folding is modelled; Python's Unicode `str.lower()` also folds other letters (the Kelvin sign becomes `k`, so `a.m\u212Av` is eligible in the program) and can change the length (`İ`).
- Anonymizer.UuidName: the uuid hex string is a parameter, so its randomness is not modelled.

## Findings

| source | as written | input that shows it | evidently intended | confidence | as-written member | corrected member |
|---|---|---|---|---|---|---|
| Resources/processing/vutils.py:132-144 | `cut` defaults `tmp_dir` to the string ".", and the split case computes `tmp_dir / name`, which raises TypeError for two strings | `cut(v, out, 5, 20, [0, 10])` with the default `tmp_dir` | the helper clips `<stem>.left`/`<stem>.right` in the temporary directory, for example with a `Path(".")` default | not executed | VideoUtils.DefaultTmpDirRaises | VideoUtils.SplitPaths |
