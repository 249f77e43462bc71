/** The cut/merge engine: the ffmpeg command lines the video worker builds,
    the concat list it writes, the keyframe-aware choice of how to cut a
    span, and the worker's methods as actions on the host. */
module VideoUtils {
  import opened Wrappers
  import opened Digits
  import opened Paths
  import opened HostModel

  /** Timebase shared by every clip so that concatenation is frame-accurate. */
  const DefaultTimescale: int := 10000

  // ---------------------------------------------------------------------------
  // Reading a command line the way ffmpeg does
  // ---------------------------------------------------------------------------

  /** Index of the first option named `flag` at or after position i, reading
      `argv` as ffmpeg does: the program, then option/value pairs, then the
      output file as the last word. */
  function OptionIndex(argv: seq<string>, flag: string, i: nat): (k: Option<nat>)
    ensures k.Some? ==> i <= k.value && k.value + 1 < |argv| - 1 && argv[k.value] == flag
    decreases |argv| - i
  {
    if i + 1 >= |argv| - 1 then None
    else if argv[i] == flag then Some(i)
    else OptionIndex(argv, flag, i + 2)
  }

  /** The search from `i` stops at `j` when `j` holds `flag` and no pair in
      between does. */
  lemma {:induction false} OptionIndexAt(argv: seq<string>, flag: string, i: nat, j: nat)
    requires i <= j && (j - i) % 2 == 0 && j + 1 < |argv| - 1 && argv[j] == flag
    requires forall m :: i <= m < j && (m - i) % 2 == 0 ==> argv[m] != flag
    ensures OptionIndex(argv, flag, i) == Some(j)
    decreases j - i
  {
    if i < j {
      OptionIndexAt(argv, flag, i + 2, j);
    }
  }

  /** The value given to option `flag`. */
  function OptionValue(argv: seq<string>, flag: string): Option<string>
  {
    match OptionIndex(argv, flag, 1)
    case None => None
    case Some(k) => Some(argv[k + 1])
  }

  /** The output file: the last word. */
  function OutputOf(argv: seq<string>): Option<string>
  {
    if |argv| == 0 then None else Some(argv[|argv| - 1])
  }

  /** Option `a` is given before option `b` (e.g. a seek before the input,
      which makes ffmpeg seek in the input rather than decode up to t1). */
  predicate Before(argv: seq<string>, a: string, b: string)
  {
    OptionIndex(argv, a, 1).Some? && OptionIndex(argv, b, 1).Some? &&
    OptionIndex(argv, a, 1).value < OptionIndex(argv, b, 1).value
  }

  // ---------------------------------------------------------------------------
  // Command lines
  // ---------------------------------------------------------------------------

  /** `extract_frames`: resample to `fps` frames per second at the given size
      into numbered PNG files. */
  function ExtractFramesArgs(bin: string, videoIn: string, dirOut: string,
                             frameW: int, frameH: int, fps: int): seq<string>
  {
    [bin, "-i", videoIn,
     "-filter:v", "fps=" + IntToString(fps) + ",scale=" + IntToString(frameW) + ":" + IntToString(frameH),
     dirOut + "/%05d.png"]
  }

  /** `kf_cut`: stream copy from t1 for t2 - t1 seconds. */
  function KfCutArgs(bin: string, videoIn: string, videoOut: string, t1: int, t2: int, tbn: int): seq<string>
  {
    [bin, "-ss", IntToString(t1), "-i", videoIn, "-c", "copy",
     "-t", IntToString(t2 - t1), "-video_track_timescale", IntToString(tbn), videoOut]
  }

  /** `non_kf_cut`: the same span re-encoded with libx264, profile main. */
  function NonKfCutArgs(bin: string, videoIn: string, videoOut: string, t1: int, t2: int, tbn: int): seq<string>
  {
    [bin, "-ss", IntToString(t1), "-i", videoIn, "-c:v", "libx264", "-profile:v", "main",
     "-t", IntToString(t2 - t1), "-video_track_timescale", IntToString(tbn), videoOut]
  }

  /** The lavfi source of a solid black picture of the given size. */
  function BlackSource(width: int, height: int): string
  {
    "color=c=black:s=" + IntToString(width) + "x" + IntToString(height)
  }

  /** `mk_black_video`: a black clip of `duration` seconds. */
  function BlackVideoArgs(bin: string, duration: int, videoOut: string, width: int, height: int, ts: int): seq<string>
  {
    [bin, "-t", IntToString(duration), "-f", "lavfi", "-i", BlackSource(width, height),
     "-c:v", "libx264", "-profile:v", "main", "-video_track_timescale", IntToString(ts),
     "-tune", "stillimage", "-pix_fmt", "yuv420p", videoOut]
  }

  /** `merge`: lossless concatenation of the clips listed in `listFile`. */
  function ConcatArgs(bin: string, listFile: string, videoOut: string): seq<string>
  {
    [bin, "-f", "concat", "-safe", "0", "-i", listFile, "-c", "copy", videoOut]
  }

  lemma KfCutReading(bin: string, videoIn: string, videoOut: string, t1: int, t2: int, tbn: int)
    ensures var a := KfCutArgs(bin, videoIn, videoOut, t1, t2, tbn);
      Before(a, "-ss", "-i") &&
      OptionValue(a, "-ss") == Some(IntToString(t1)) &&
      OptionValue(a, "-i") == Some(videoIn) &&
      OptionValue(a, "-c") == Some("copy") &&
      OptionValue(a, "-t") == Some(IntToString(t2 - t1)) &&
      OptionValue(a, "-video_track_timescale") == Some(IntToString(tbn)) &&
      OutputOf(a) == Some(videoOut)
  {
    KfCutInput(bin, videoIn, videoOut, t1, t2, tbn);
    KfCutTiming(bin, videoIn, videoOut, t1, t2, tbn);
  }

  lemma KfCutInput(bin: string, videoIn: string, videoOut: string, t1: int, t2: int, tbn: int)
    ensures var a := KfCutArgs(bin, videoIn, videoOut, t1, t2, tbn);
      Before(a, "-ss", "-i") &&
      OptionValue(a, "-ss") == Some(IntToString(t1)) &&
      OptionValue(a, "-i") == Some(videoIn) &&
      OptionValue(a, "-c") == Some("copy")
  {
    var a := KfCutArgs(bin, videoIn, videoOut, t1, t2, tbn);
    assert OptionIndex(a, "-ss", 1) == Some(1);
    assert OptionIndex(a, "-i", 1) == OptionIndex(a, "-i", 3);
    assert OptionIndex(a, "-c", 1) == OptionIndex(a, "-c", 3) == OptionIndex(a, "-c", 5);
  }

  lemma KfCutTiming(bin: string, videoIn: string, videoOut: string, t1: int, t2: int, tbn: int)
    ensures var a := KfCutArgs(bin, videoIn, videoOut, t1, t2, tbn);
      OptionValue(a, "-t") == Some(IntToString(t2 - t1)) &&
      OptionValue(a, "-video_track_timescale") == Some(IntToString(tbn)) &&
      OutputOf(a) == Some(videoOut)
  {
    var a := KfCutArgs(bin, videoIn, videoOut, t1, t2, tbn);
    assert OptionIndex(a, "-t", 1) == OptionIndex(a, "-t", 3) == OptionIndex(a, "-t", 5) == OptionIndex(a, "-t", 7);
    assert OptionIndex(a, "-video_track_timescale", 1) == OptionIndex(a, "-video_track_timescale", 3) == OptionIndex(a, "-video_track_timescale", 5) == OptionIndex(a, "-video_track_timescale", 7) == OptionIndex(a, "-video_track_timescale", 9);
  }

  lemma NonKfCutReading(bin: string, videoIn: string, videoOut: string, t1: int, t2: int, tbn: int)
    ensures var a := NonKfCutArgs(bin, videoIn, videoOut, t1, t2, tbn);
      Before(a, "-ss", "-i") &&
      OptionValue(a, "-ss") == Some(IntToString(t1)) &&
      OptionValue(a, "-i") == Some(videoIn) &&
      OptionValue(a, "-c") == None &&
      OptionValue(a, "-c:v") == Some("libx264") &&
      OptionValue(a, "-profile:v") == Some("main") &&
      OptionValue(a, "-t") == Some(IntToString(t2 - t1)) &&
      OptionValue(a, "-video_track_timescale") == Some(IntToString(tbn)) &&
      OutputOf(a) == Some(videoOut)
  {
    NonKfCutInput(bin, videoIn, videoOut, t1, t2, tbn);
    NonKfCutCodec(bin, videoIn, videoOut, t1, t2, tbn);
    NonKfCutTiming(bin, videoIn, videoOut, t1, t2, tbn);
  }

  lemma NonKfCutInput(bin: string, videoIn: string, videoOut: string, t1: int, t2: int, tbn: int)
    ensures var a := NonKfCutArgs(bin, videoIn, videoOut, t1, t2, tbn);
      Before(a, "-ss", "-i") &&
      OptionValue(a, "-ss") == Some(IntToString(t1)) &&
      OptionValue(a, "-i") == Some(videoIn)
  {
    var a := NonKfCutArgs(bin, videoIn, videoOut, t1, t2, tbn);
    assert OptionIndex(a, "-ss", 1) == Some(1);
    assert OptionIndex(a, "-i", 1) == OptionIndex(a, "-i", 3);
  }

  lemma NonKfCutCodec(bin: string, videoIn: string, videoOut: string, t1: int, t2: int, tbn: int)
    ensures var a := NonKfCutArgs(bin, videoIn, videoOut, t1, t2, tbn);
      OptionValue(a, "-c") == None &&
      OptionValue(a, "-c:v") == Some("libx264") &&
      OptionValue(a, "-profile:v") == Some("main")
  {
    var a := NonKfCutArgs(bin, videoIn, videoOut, t1, t2, tbn);
    assert OptionIndex(a, "-c", 1) == OptionIndex(a, "-c", 3) == OptionIndex(a, "-c", 5) == OptionIndex(a, "-c", 7) == OptionIndex(a, "-c", 9) == OptionIndex(a, "-c", 11) == OptionIndex(a, "-c", 13);
    assert OptionIndex(a, "-c:v", 1) == OptionIndex(a, "-c:v", 3) == OptionIndex(a, "-c:v", 5);
    assert OptionIndex(a, "-profile:v", 1) == OptionIndex(a, "-profile:v", 3) == OptionIndex(a, "-profile:v", 5) == OptionIndex(a, "-profile:v", 7);
  }

  lemma NonKfCutTiming(bin: string, videoIn: string, videoOut: string, t1: int, t2: int, tbn: int)
    ensures var a := NonKfCutArgs(bin, videoIn, videoOut, t1, t2, tbn);
      OptionValue(a, "-t") == Some(IntToString(t2 - t1)) &&
      OptionValue(a, "-video_track_timescale") == Some(IntToString(tbn)) &&
      OutputOf(a) == Some(videoOut)
  {
    var a := NonKfCutArgs(bin, videoIn, videoOut, t1, t2, tbn);
    assert OptionIndex(a, "-t", 1) == OptionIndex(a, "-t", 3) == OptionIndex(a, "-t", 5) == OptionIndex(a, "-t", 7) == OptionIndex(a, "-t", 9);
    assert OptionIndex(a, "-video_track_timescale", 1) == OptionIndex(a, "-video_track_timescale", 3) == OptionIndex(a, "-video_track_timescale", 5) == OptionIndex(a, "-video_track_timescale", 7) == OptionIndex(a, "-video_track_timescale", 9) == OptionIndex(a, "-video_track_timescale", 11);
  }

  lemma BlackVideoReading(bin: string, duration: int, videoOut: string, width: int, height: int, ts: int)
    ensures var a := BlackVideoArgs(bin, duration, videoOut, width, height, ts);
      OptionValue(a, "-t") == Some(IntToString(duration)) &&
      OptionValue(a, "-f") == Some("lavfi") &&
      OptionValue(a, "-i") == Some(BlackSource(width, height)) &&
      OptionValue(a, "-c:v") == Some("libx264") &&
      OutputOf(a) == Some(videoOut)
  {
    BlackVideoSource(bin, duration, videoOut, width, height, ts);
    BlackVideoCodec(bin, duration, videoOut, width, height, ts);
  }

  lemma BlackVideoCodec(bin: string, duration: int, videoOut: string, width: int, height: int, ts: int)
    ensures OptionValue(BlackVideoArgs(bin, duration, videoOut, width, height, ts), "-c:v") == Some("libx264")
  {
    var a := BlackVideoArgs(bin, duration, videoOut, width, height, ts);
    assert OptionIndex(a, "-c:v", 1) == OptionIndex(a, "-c:v", 3) == OptionIndex(a, "-c:v", 5) == OptionIndex(a, "-c:v", 7);
  }

  lemma BlackVideoSource(bin: string, duration: int, videoOut: string, width: int, height: int, ts: int)
    ensures var a := BlackVideoArgs(bin, duration, videoOut, width, height, ts);
      OptionValue(a, "-t") == Some(IntToString(duration)) &&
      OptionValue(a, "-f") == Some("lavfi") &&
      OptionValue(a, "-i") == Some(BlackSource(width, height))
  {
    var a := BlackVideoArgs(bin, duration, videoOut, width, height, ts);
    assert OptionIndex(a, "-t", 1) == Some(1);
    assert OptionIndex(a, "-f", 1) == OptionIndex(a, "-f", 3);
    assert OptionIndex(a, "-i", 1) == OptionIndex(a, "-i", 3) == OptionIndex(a, "-i", 5);
  }

  /** The black clip shares the timebase and is encoded for still content in yuv420p. */
  lemma BlackVideoEncoding(bin: string, duration: int, videoOut: string, width: int, height: int, ts: int)
    ensures var a := BlackVideoArgs(bin, duration, videoOut, width, height, ts);
      OptionValue(a, "-video_track_timescale") == Some(IntToString(ts)) &&
      OptionValue(a, "-tune") == Some("stillimage") &&
      OptionValue(a, "-pix_fmt") == Some("yuv420p")
  {
    BlackVideoTimescale(bin, duration, videoOut, width, height, ts);
    var a := BlackVideoArgs(bin, duration, videoOut, width, height, ts);
    assert OptionIndex(a, "-tune", 1) == OptionIndex(a, "-tune", 3) == OptionIndex(a, "-tune", 5) ==
           OptionIndex(a, "-tune", 7) == OptionIndex(a, "-tune", 9) == OptionIndex(a, "-tune", 11) ==
           OptionIndex(a, "-tune", 13);
    BlackVideoPixels(bin, duration, videoOut, width, height, ts);
  }

  lemma BlackVideoTimescale(bin: string, duration: int, videoOut: string, width: int, height: int, ts: int)
    ensures OptionValue(BlackVideoArgs(bin, duration, videoOut, width, height, ts), "-video_track_timescale") == Some(IntToString(ts))
  {
    var a := BlackVideoArgs(bin, duration, videoOut, width, height, ts);
    assert OptionIndex(a, "-video_track_timescale", 1) == OptionIndex(a, "-video_track_timescale", 3) ==
           OptionIndex(a, "-video_track_timescale", 5) == OptionIndex(a, "-video_track_timescale", 7) ==
           OptionIndex(a, "-video_track_timescale", 9) == OptionIndex(a, "-video_track_timescale", 11);
  }

  lemma BlackVideoPixels(bin: string, duration: int, videoOut: string, width: int, height: int, ts: int)
    ensures OptionValue(BlackVideoArgs(bin, duration, videoOut, width, height, ts), "-pix_fmt") == Some("yuv420p")
  {
    var a := BlackVideoArgs(bin, duration, videoOut, width, height, ts);
    assert OptionIndex(a, "-pix_fmt", 1) == OptionIndex(a, "-pix_fmt", 3) == OptionIndex(a, "-pix_fmt", 5) ==
           OptionIndex(a, "-pix_fmt", 7) == OptionIndex(a, "-pix_fmt", 9) == OptionIndex(a, "-pix_fmt", 11) ==
           OptionIndex(a, "-pix_fmt", 13) == OptionIndex(a, "-pix_fmt", 15);
  }

  lemma ConcatReading(bin: string, listFile: string, videoOut: string)
    ensures var a := ConcatArgs(bin, listFile, videoOut);
      OptionValue(a, "-f") == Some("concat") &&
      OptionValue(a, "-safe") == Some("0") &&
      OptionValue(a, "-i") == Some(listFile) &&
      OptionValue(a, "-c") == Some("copy") &&
      OutputOf(a) == Some(videoOut)
  {
    var a := ConcatArgs(bin, listFile, videoOut);
    assert OptionIndex(a, "-f", 1) == Some(1);
    assert OptionIndex(a, "-safe", 1) == OptionIndex(a, "-safe", 3);
    assert OptionIndex(a, "-i", 1) == OptionIndex(a, "-i", 3) == OptionIndex(a, "-i", 5);
    assert OptionIndex(a, "-c", 1) == OptionIndex(a, "-c", 3) == OptionIndex(a, "-c", 5) == OptionIndex(a, "-c", 7);
  }

  // ---------------------------------------------------------------------------
  // The concat list
  // ---------------------------------------------------------------------------

  const EntryPrefix: string := "file '"
  const EntrySuffix: string := "'\n"

  /** One line of the concat list. */
  function ConcatLine(v: string): string
  {
    EntryPrefix + v + EntrySuffix
  }

  /** The concat list written by `merge`, one line per clip in input order. */
  function ConcatLines(videos: seq<string>): (lines: seq<string>)
    ensures |lines| == |videos|
  {
    seq(|videos|, i requires 0 <= i < |videos| => ConcatLine(videos[i]))
  }

  /** How the concat demuxer reads a `file '...'` line: the quoted text,
      which cannot itself contain a single quote. */
  function EntryOf(line: string): Option<string>
  {
    if |line| >= |EntryPrefix| + |EntrySuffix| &&
       line[..|EntryPrefix|] == EntryPrefix &&
       line[|line| - |EntrySuffix|..] == EntrySuffix &&
       '\'' !in line[|EntryPrefix|..|line| - |EntrySuffix|]
    then Some(line[|EntryPrefix|..|line| - |EntrySuffix|])
    else None
  }

  /** Reading the concat list gives back the clips, in order, as long as no
      path contains a single quote. */
  lemma ConcatListRoundTrip(videos: seq<string>)
    requires forall i :: 0 <= i < |videos| ==> '\'' !in videos[i]
    ensures |ConcatLines(videos)| == |videos|
    ensures forall i :: 0 <= i < |videos| ==> EntryOf(ConcatLines(videos)[i]) == Some(videos[i])
  {
    forall i | 0 <= i < |videos|
      ensures EntryOf(ConcatLines(videos)[i]) == Some(videos[i])
    {
      var line := ConcatLine(videos[i]);
      assert line[..|EntryPrefix|] == EntryPrefix;
      assert line[|line| - |EntrySuffix|..] == EntrySuffix;
      assert line[|EntryPrefix|..|line| - |EntrySuffix|] == videos[i];
    }
  }

  /** A path with a single quote is not read back. */
  lemma QuotedPathNotReadBack()
    ensures EntryOf(ConcatLine("a'b")) != Some("a'b")
  {
    var line := ConcatLine("a'b");
    assert line == "file 'a'b'\n";
    assert line[6..9] == "a'b";
    assert '\'' in line[6..9];
  }

  // ---------------------------------------------------------------------------
  // Choosing how to cut
  // ---------------------------------------------------------------------------

  datatype CutChoice =
    | WholeReencode      // no keyframe information: re-encode the whole span
    | AtKeyframe         // t1 is a keyframe: stream copy
    | PastLastKeyframe   // t1 after the last listed keyframe: re-encode
    | SplitAt(tkf: int)  // re-encode [t1, tkf), stream copy [tkf, t2), concatenate

  /** Position of the first listed keyframe after t1. */
  function FirstAfter(keyframes: seq<int>, t1: int): (i: nat)
    requires |keyframes| > 0 && t1 < keyframes[|keyframes| - 1]
    ensures i < |keyframes| && keyframes[i] > t1
    ensures forall k :: 0 <= k < i ==> keyframes[k] <= t1
  {
    if keyframes[0] > t1 then 0 else 1 + FirstAfter(keyframes[1..], t1)
  }

  /** The choice `cut` makes. The keyframe test comes before the test against
      the last listed keyframe; the list is not assumed to be sorted. */
  function ChooseCut(t1: int, keyframes: seq<int>): (c: CutChoice)
    ensures c == WholeReencode <==> |keyframes| == 0
    ensures c == AtKeyframe <==> |keyframes| > 0 && t1 in keyframes
    ensures c == PastLastKeyframe <==>
              |keyframes| > 0 && t1 !in keyframes && t1 > keyframes[|keyframes| - 1]
    ensures c.SplitAt? <==>
              |keyframes| > 0 && t1 !in keyframes && t1 < keyframes[|keyframes| - 1]
    ensures c.SplitAt? ==>
              (t1 < c.tkf &&
               exists i :: 0 <= i < |keyframes| && keyframes[i] == c.tkf &&
                           forall k :: 0 <= k < i ==> keyframes[k] <= t1)
  {
    if |keyframes| == 0 then WholeReencode
    else if t1 in keyframes then AtKeyframe
    else if t1 > keyframes[|keyframes| - 1] then PastLastKeyframe
    else
      assert t1 != keyframes[|keyframes| - 1];
      var i := FirstAfter(keyframes, t1);
      SplitAt(keyframes[i])
  }

  /** The two helper clips of the split case: `<stem>.left<suffix>` and
      `<stem>.right<suffix>` in the temporary directory. */
  function SplitPaths(videoOut: FilePath, tmpDir: string): (p: (FilePath, FilePath))
    ensures p.0 != p.1 && p.0 != videoOut && p.1 != videoOut
    ensures p.0.dir == tmpDir && p.1.dir == tmpDir
    ensures p.0.suffix == videoOut.suffix && p.1.suffix == videoOut.suffix
  {
    var left := videoOut.WithStem(videoOut.stem + ".left");
    var right := videoOut.WithStem(videoOut.stem + ".right");
    assert |left.stem| != |videoOut.stem| && |right.stem| != |videoOut.stem|;
    assert left.stem[|videoOut.stem| + 1] == 'l' && right.stem[|videoOut.stem| + 1] == 'r';
    (FilePath(tmpDir, left.stem, left.suffix), FilePath(tmpDir, right.stem, right.suffix))
  }

  /** The `tmp_dir` argument of `cut` as Python sees it: the default is the
      string ".", a caller may pass a `Path`. */
  datatype TmpDirArg = StrDir(s: string) | PathDir(p: string)

  const DefaultTmpDir: TmpDirArg := StrDir(".")

  /** `tmp_dir / name` as written: `/` is not defined between two strings. */
  function SplitPathsAsWritten(videoOut: FilePath, tmpDir: TmpDirArg): Result<(FilePath, FilePath)>
  {
    match tmpDir
    case StrDir(_) => Failure(TypeError)
    case PathDir(d) => Success(SplitPaths(videoOut, d))
  }

  /** With the default `tmp_dir` the split case raises before any command runs. */
  lemma DefaultTmpDirRaises(videoOut: FilePath)
    ensures SplitPathsAsWritten(videoOut, DefaultTmpDir) == Failure(TypeError)
    ensures forall d :: SplitPathsAsWritten(videoOut, PathDir(d)) == Success(SplitPaths(videoOut, d))
  {
  }

  // ---------------------------------------------------------------------------
  // The worker
  // ---------------------------------------------------------------------------

  /** "_" * 40 */
  function Rule(): (r: string)
    ensures |r| == 40 && forall i :: 0 <= i < 40 ==> r[i] == '_'
  {
    seq(40, _ => '_')
  }

  /** `" ".join(words)` */
  function JoinWords(words: seq<string>): string
  {
    if |words| == 0 then ""
    else if |words| == 1 then words[0]
    else words[0] + " " + JoinWords(words[1..])
  }

  /** What `log` appends: a rule, a blank line, then the text. */
  function LogOps(logfile: Option<FilePath>, s: string): seq<Op>
  {
    if logfile.Some? then [AppendText(logfile.value, Rule() + "\n\n" + s)] else []
  }

  /** Logging the command line, then running it. */
  function InvokeOps(logfile: Option<FilePath>, cmd: seq<string>): seq<Op>
  {
    LogOps(logfile, JoinWords(cmd)) + [Run(cmd)]
  }

  /** Where `merge` puts its list: the given file, or `tmp_concat.txt` next to the output. */
  function ListFile(videoOut: FilePath, tmpfile: Option<FilePath>): FilePath
  {
    if tmpfile.Some? then tmpfile.value else FilePath(videoOut.dir, "tmp_concat", ".txt")
  }

  /** The actions of `merge` and whether it raised: the list is written, the
      concat runs with check=True, and the list is removed only on success. */
  function MergeOps(bin: string, logfile: Option<FilePath>, status: seq<string> -> RunStatus,
                    videos: seq<string>, videoOut: FilePath, tmpfile: Option<FilePath>): seq<Op>
  {
    var tmp := ListFile(videoOut, tmpfile);
    var cmd := ConcatArgs(bin, tmp.ToString(), videoOut.ToString());
    [WriteText(tmp, ConcatLines(videos))] + InvokeOps(logfile, cmd) +
    (if status(cmd).exitOk then [Unlink(tmp)] else [])
  }

  function MergeResult(bin: string, status: seq<string> -> RunStatus,
                       videoOut: FilePath, tmpfile: Option<FilePath>): Result<()>
  {
    var cmd := ConcatArgs(bin, ListFile(videoOut, tmpfile).ToString(), videoOut.ToString());
    if status(cmd).exitOk then Success(()) else Failure(CalledProcessError)
  }

  /** The split case of `cut`: re-encode up to the next keyframe into the
      left clip, stream-copy from it into the right clip, concatenate the two
      into the output, then delete both; a failed concat raises first. */
  function SplitOps(bin: string, logfile: Option<FilePath>, status: seq<string> -> RunStatus,
                    videoIn: string, videoOut: FilePath, t1: int, t2: int, tkf: int, tmpDir: string): seq<Op>
  {
    var (left, right) := SplitPaths(videoOut, tmpDir);
    InvokeOps(logfile, NonKfCutArgs(bin, videoIn, left.ToString(), t1, tkf, DefaultTimescale)) +
    InvokeOps(logfile, KfCutArgs(bin, videoIn, right.ToString(), tkf, t2, DefaultTimescale)) +
    MergeOps(bin, logfile, status, [left.ToString(), right.ToString()], videoOut, None) +
    (if MergeResult(bin, status, videoOut, None).Success? then [Unlink(left), Unlink(right)] else [])
  }

  /** The actions of `cut` for each choice. */
  function CutOps(bin: string, logfile: Option<FilePath>, status: seq<string> -> RunStatus,
                  videoIn: string, videoOut: FilePath, t1: int, t2: int,
                  keyframes: seq<int>, tmpDir: string): seq<Op>
  {
    var out := videoOut.ToString();
    match ChooseCut(t1, keyframes)
    case WholeReencode => InvokeOps(logfile, NonKfCutArgs(bin, videoIn, out, t1, t2, DefaultTimescale))
    case AtKeyframe => InvokeOps(logfile, KfCutArgs(bin, videoIn, out, t1, t2, DefaultTimescale))
    case PastLastKeyframe => InvokeOps(logfile, NonKfCutArgs(bin, videoIn, out, t1, t2, DefaultTimescale))
    case SplitAt(tkf) => SplitOps(bin, logfile, status, videoIn, videoOut, t1, t2, tkf, tmpDir)
  }

  function CutResult(bin: string, status: seq<string> -> RunStatus,
                     videoOut: FilePath, t1: int, keyframes: seq<int>): Result<()>
  {
    if ChooseCut(t1, keyframes).SplitAt? then MergeResult(bin, status, videoOut, None) else Success(())
  }

  /** A cut issues exactly one ffmpeg run unless it splits; a split issues
      three, in the order re-encode, stream copy, concatenate. */
  lemma CutCommands(bin: string, logfile: Option<FilePath>, status: seq<string> -> RunStatus,
                    videoIn: string, videoOut: FilePath, t1: int, t2: int, keyframes: seq<int>, tmpDir: string)
    ensures var cmds := CommandsOf(CutOps(bin, logfile, status, videoIn, videoOut, t1, t2, keyframes, tmpDir));
      match ChooseCut(t1, keyframes)
      case WholeReencode => cmds == [NonKfCutArgs(bin, videoIn, videoOut.ToString(), t1, t2, DefaultTimescale)]
      case AtKeyframe => cmds == [KfCutArgs(bin, videoIn, videoOut.ToString(), t1, t2, DefaultTimescale)]
      case PastLastKeyframe => cmds == [NonKfCutArgs(bin, videoIn, videoOut.ToString(), t1, t2, DefaultTimescale)]
      case SplitAt(tkf) => cmds == SplitCommands(bin, videoIn, videoOut, t1, t2, tkf, tmpDir)
  {
    var out := videoOut.ToString();
    match ChooseCut(t1, keyframes)
    case WholeReencode =>
      CommandsOfInvoke(logfile, NonKfCutArgs(bin, videoIn, out, t1, t2, DefaultTimescale));
    case AtKeyframe =>
      CommandsOfInvoke(logfile, KfCutArgs(bin, videoIn, out, t1, t2, DefaultTimescale));
    case PastLastKeyframe =>
      CommandsOfInvoke(logfile, NonKfCutArgs(bin, videoIn, out, t1, t2, DefaultTimescale));
    case SplitAt(tkf) =>
      SplitOpsCommands(bin, logfile, status, videoIn, videoOut, t1, t2, tkf, tmpDir);
  }

  /** The three command lines of a split, in order. */
  function SplitCommands(bin: string, videoIn: string, videoOut: FilePath, t1: int, t2: int, tkf: int, tmpDir: string)
    : seq<seq<string>>
  {
    var (left, right) := SplitPaths(videoOut, tmpDir);
    [NonKfCutArgs(bin, videoIn, left.ToString(), t1, tkf, DefaultTimescale),
     KfCutArgs(bin, videoIn, right.ToString(), tkf, t2, DefaultTimescale),
     ConcatArgs(bin, ListFile(videoOut, None).ToString(), videoOut.ToString())]
  }

  /** Four steps appended one after the other. */
  lemma Concat4(t0: seq<Op>, t1: seq<Op>, t2: seq<Op>, t3: seq<Op>, t4: seq<Op>,
                a: seq<Op>, b: seq<Op>, c: seq<Op>, d: seq<Op>)
    requires t1 == t0 + a && t2 == t1 + b && t3 == t2 + c && t4 == t3 + d
    ensures t4 == t0 + (a + b + c + d)
  {
    assert t0 + (a + b + c + d) == t0 + a + b + c + d;
  }

  lemma SplitOpsCommands(bin: string, logfile: Option<FilePath>, status: seq<string> -> RunStatus,
                         videoIn: string, videoOut: FilePath, t1: int, t2: int, tkf: int, tmpDir: string)
    ensures CommandsOf(SplitOps(bin, logfile, status, videoIn, videoOut, t1, t2, tkf, tmpDir)) ==
            SplitCommands(bin, videoIn, videoOut, t1, t2, tkf, tmpDir)
  {
    var (left, right) := SplitPaths(videoOut, tmpDir);
    var c1 := NonKfCutArgs(bin, videoIn, left.ToString(), t1, tkf, DefaultTimescale);
    var c2 := KfCutArgs(bin, videoIn, right.ToString(), tkf, t2, DefaultTimescale);
    var c3 := ConcatArgs(bin, ListFile(videoOut, None).ToString(), videoOut.ToString());
    var tail := if MergeResult(bin, status, videoOut, None).Success? then [Unlink(left), Unlink(right)] else [];
    var i1 := InvokeOps(logfile, c1);
    var i2 := InvokeOps(logfile, c2);
    var m := MergeOps(bin, logfile, status, [left.ToString(), right.ToString()], videoOut, None);
    assert SplitOps(bin, logfile, status, videoIn, videoOut, t1, t2, tkf, tmpDir) == i1 + i2 + m + tail;
    CommandsOfInvoke(logfile, c1);
    CommandsOfInvoke(logfile, c2);
    MergeCommands(bin, logfile, status, [left.ToString(), right.ToString()], videoOut, None);
    assert CommandsOf(tail) == [] by {
      if tail != [] {
        assert tail[1..] == [Unlink(right)];
        assert tail[1..][1..] == [];
        assert CommandsOf(tail[1..]) == CommandsOf(tail[1..][1..]);
      }
    }
    CommandsAppend(i1, i2);
    CommandsAppend(i1 + i2, m);
    CommandsAppend(i1 + i2 + m, tail);
  }

  /** `merge` runs exactly one command, the concat. */
  lemma MergeCommands(bin: string, logfile: Option<FilePath>, status: seq<string> -> RunStatus,
                      videos: seq<string>, videoOut: FilePath, tmpfile: Option<FilePath>)
    ensures CommandsOf(MergeOps(bin, logfile, status, videos, videoOut, tmpfile)) ==
            [ConcatArgs(bin, ListFile(videoOut, tmpfile).ToString(), videoOut.ToString())]
  {
    var tmp := ListFile(videoOut, tmpfile);
    var cmd := ConcatArgs(bin, tmp.ToString(), videoOut.ToString());
    var w := [WriteText(tmp, ConcatLines(videos))];
    var unl := if status(cmd).exitOk then [Unlink(tmp)] else [];
    assert CommandsOf(w) == [] by { assert w[1..] == []; }
    assert CommandsOf(unl) == [] by { if status(cmd).exitOk { assert unl[1..] == []; } }
    CommandsOfInvoke(logfile, cmd);
    CommandsAppend(w, InvokeOps(logfile, cmd));
    CommandsAppend(w + InvokeOps(logfile, cmd), unl);
  }

  /** The command lines run by a sequence of actions, in order. */
  function CommandsOf(ops: seq<Op>): seq<seq<string>>
  {
    if |ops| == 0 then []
    else (if ops[0].Run? then [ops[0].argv] else []) + CommandsOf(ops[1..])
  }

  lemma {:induction false} CommandsAppend(a: seq<Op>, b: seq<Op>)
    ensures CommandsOf(a + b) == CommandsOf(a) + CommandsOf(b)
    decreases |a|
  {
    if |a| == 0 {
      assert a + b == b;
    } else {
      assert (a + b)[1..] == a[1..] + b;
      CommandsAppend(a[1..], b);
    }
  }

  lemma CommandsOfInvoke(logfile: Option<FilePath>, cmd: seq<string>)
    ensures CommandsOf(InvokeOps(logfile, cmd)) == [cmd]
  {
    var ops := InvokeOps(logfile, cmd);
    if logfile.Some? {
      assert ops[1..] == [Run(cmd)];
      assert CommandsOf(ops[1..]) == [cmd] by {
        assert ops[1..][1..] == [];
      }
    } else {
      assert ops[1..] == [];
    }
  }

  class VideoWorker {
    /** The report log, if any; every command line is appended to it. */
    const logfile: Option<FilePath>
    const host: Host

    constructor (logfile: Option<FilePath>, host: Host)
      ensures this.logfile == logfile && this.host == host
    {
      this.logfile := logfile;
      this.host := host;
    }

    method Log(s: string)
      modifies host
      ensures host.trace == old(host.trace) + LogOps(logfile, s)
      ensures host.files == old(host.files)
    {
      if logfile.Some? {
        host.trace := host.trace + [AppendText(logfile.value, Rule() + "\n\n" + s)];
      }
    }

    /** Logs and runs a command whose exit status is not checked. */
    method Invoke(cmd: seq<string>)
      modifies host
      ensures host.trace == old(host.trace) + InvokeOps(logfile, cmd)
      ensures host.files == old(host.files)
    {
      Log(JoinWords(cmd));
      host.trace := host.trace + [Run(cmd)];
    }

    /** One PNG of 64x64 pixels per second of video. */
    method ExtractFrames(videoIn: string, dirOut: string)
      modifies host
      ensures host.trace == old(host.trace) + InvokeOps(logfile, ExtractFramesArgs(host.ffmpegBin, videoIn, dirOut, 64, 64, 1))
      ensures host.files == old(host.files)
    {
      Invoke(ExtractFramesArgs(host.ffmpegBin, videoIn, dirOut, 64, 64, 1));
    }

    method KfCut(videoIn: string, videoOut: string, t1: int, t2: int, tbn: int)
      modifies host
      ensures host.trace == old(host.trace) + InvokeOps(logfile, KfCutArgs(host.ffmpegBin, videoIn, videoOut, t1, t2, tbn))
      ensures host.files == old(host.files)
    {
      Invoke(KfCutArgs(host.ffmpegBin, videoIn, videoOut, t1, t2, tbn));
    }

    method NonKfCut(videoIn: string, videoOut: string, t1: int, t2: int, tbn: int)
      modifies host
      ensures host.trace == old(host.trace) + InvokeOps(logfile, NonKfCutArgs(host.ffmpegBin, videoIn, videoOut, t1, t2, tbn))
      ensures host.files == old(host.files)
    {
      Invoke(NonKfCutArgs(host.ffmpegBin, videoIn, videoOut, t1, t2, tbn));
    }

    method MkBlackVideo(duration: int, videoOut: string, width: int, height: int, ts: int)
      modifies host
      ensures host.trace == old(host.trace) + InvokeOps(logfile, BlackVideoArgs(host.ffmpegBin, duration, videoOut, width, height, ts))
      ensures host.files == old(host.files)
    {
      Invoke(BlackVideoArgs(host.ffmpegBin, duration, videoOut, width, height, ts));
    }

    /** Writes the concat list, concatenates, and removes the list; a failed
        concat raises and leaves the list behind. */
    method Merge(videos: seq<string>, videoOut: FilePath, tmpfile: Option<FilePath>) returns (r: Result<()>)
      modifies host
      ensures host.trace == old(host.trace) + MergeOps(host.ffmpegBin, logfile, host.status, videos, videoOut, tmpfile)
      ensures r == MergeResult(host.ffmpegBin, host.status, videoOut, tmpfile)
      ensures host.files == old(host.files)
    {
      var tmp := ListFile(videoOut, tmpfile);
      host.trace := host.trace + [WriteText(tmp, ConcatLines(videos))];
      var cmd := ConcatArgs(host.ffmpegBin, tmp.ToString(), videoOut.ToString());
      Invoke(cmd);
      if !host.status(cmd).exitOk {
        return Failure(CalledProcessError);
      }
      host.trace := host.trace + [Unlink(tmp)];
      return Success(());
    }

    /** The split case of `cut`. */
    method SplitCut(videoIn: string, videoOut: FilePath, t1: int, t2: int, tkf: int, tmpDir: string)
      returns (r: Result<()>)
      modifies host
      ensures host.trace == old(host.trace) +
                SplitOps(host.ffmpegBin, logfile, host.status, videoIn, videoOut, t1, t2, tkf, tmpDir)
      ensures r == MergeResult(host.ffmpegBin, host.status, videoOut, None)
      ensures host.files == old(host.files)
    {
      var (left, right) := SplitPaths(videoOut, tmpDir);
      ghost var t0 := host.trace;
      NonKfCut(videoIn, left.ToString(), t1, tkf, DefaultTimescale);
      ghost var t1' := host.trace;
      KfCut(videoIn, right.ToString(), tkf, t2, DefaultTimescale);
      ghost var t2' := host.trace;
      r := Merge([left.ToString(), right.ToString()], videoOut, None);
      ghost var t3 := host.trace;
      if r.Failure? {
        Concat4(t0, t1', t2', t3, t3, t1'[|t0|..], t2'[|t1'|..], t3[|t2'|..], []);
        return;
      }
      host.trace := host.trace + [Unlink(left), Unlink(right)];
      Concat4(t0, t1', t2', t3, host.trace, t1'[|t0|..], t2'[|t1'|..], t3[|t2'|..], [Unlink(left), Unlink(right)]);
    }

    /** The keyframe-aware cut of [t1, t2] (with a `Path` as `tmp_dir`). */
    method Cut(videoIn: string, videoOut: FilePath, t1: int, t2: int, keyframes: seq<int>, tmpDir: string)
      returns (r: Result<()>)
      modifies host
      ensures host.trace == old(host.trace) +
                CutOps(host.ffmpegBin, logfile, host.status, videoIn, videoOut, t1, t2, keyframes, tmpDir)
      ensures r == CutResult(host.ffmpegBin, host.status, videoOut, t1, keyframes)
      ensures host.files == old(host.files)
    {
      var out := videoOut.ToString();
      if |keyframes| == 0 {
        NonKfCut(videoIn, out, t1, t2, DefaultTimescale);
        return Success(());
      }
      if t1 in keyframes {
        KfCut(videoIn, out, t1, t2, DefaultTimescale);
      } else if t1 > keyframes[|keyframes| - 1] {
        NonKfCut(videoIn, out, t1, t2, DefaultTimescale);
      } else {
        var tkf := keyframes[FirstAfter(keyframes, t1)];
        r := SplitCut(videoIn, videoOut, t1, t2, tkf, tmpDir);
        return r;
      }
      return Success(());
    }
  }
}
