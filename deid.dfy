/** The fast-mode de-identification driver (`process_video`): a first pass
    that counts segments, a second pass that extracts frames, segments each
    video and turns every segment into a stream-copied or black clip, and a
    final concatenation of all clips.

    The plans below are stated over each video's pipeline outcome
    (`Outcomes(videos)`) rather than over the classifier labels, so that a
    property about the actions does not have to look inside the segmenter. */
module Deid {
  import opened Wrappers
  import opened Digits
  import opened Paths
  import opened HostModel
  import opened Segments
  import opened VideoUtils

  /** An input video: its path, its frame size (OpenCV's reading, truncated
      to integers), and what the classifier says about its 1 fps frames. */
  datatype SourceVideo = SourceVideo(path: FilePath, width: int, height: int, labels: Result<seq<int>>)

  /** What `pipeline` gives for one video: its segments, or the exception it raised. */
  type Outcome = Result<seq<Segment>>

  /** The fixed parameters of one run: the ffmpeg binary, the output, the
      working directory, and the progress offset and total. */
  datatype Work = Work(bin: string, videoOut: FilePath, tmpDir: string, curr: int, total: nat)
  {
    function Logfile(): FilePath { FilePath(tmpDir, "report", ".log") }
    function FrameDir(): string { JoinDir(tmpDir, "frames") }
  }

  /** What the model reports about a completed run. */
  datatype DeidRun = DeidRun(total: nat, processed: nat, segmentPaths: seq<FilePath>)

  /** The pipeline outcome of every video, in order. */
  function Outcomes(videos: seq<SourceVideo>): (o: seq<Outcome>)
    ensures |o| == |videos| && forall i :: 0 <= i < |videos| ==> o[i] == Pipeline(videos[i].labels)
  {
    seq(|videos|, i requires 0 <= i < |videos| => Pipeline(videos[i].labels))
  }

  // ---------------------------------------------------------------------------
  // Phase 1: estimating the number of segments
  // ---------------------------------------------------------------------------

  /** Segments counted for one video: a ZeroDivisionError counts as none, any
      other failure aborts the run. */
  function EstimateOne(out: Outcome): (r: Result<nat>)
    ensures r.Failure? <==> out.Failure? && out.error != ZeroDivisionError
    ensures r.Failure? ==> r.error == out.error
    ensures r.Success? ==> r.value == |PhaseTwoSegments(out)|
  {
    match out
    case Success(s) => Success(|s|)
    case Failure(e) => if e == ZeroDivisionError then Success(0) else Failure(e)
  }

  /** The sum of the per-video counts, or the first failure. */
  function EstimateCount(outs: seq<Outcome>): (r: Result<nat>)
    ensures r.Success? <==> forall i :: 0 <= i < |outs| ==> EstimateOne(outs[i]).Success?
    ensures r.Failure? ==> r.error != ZeroDivisionError
    ensures r.Success? ==> r.value == SegCountFrom(outs, 0)
  {
    if |outs| == 0 then Success(0)
    else match EstimateOne(outs[0])
      case Failure(e) => Failure(e)
      case Success(k) =>
        assert forall i :: 1 <= i < |outs| ==> outs[1..][i - 1] == outs[i];
        SegCountShift(outs);
        match EstimateCount(outs[1..])
        case Failure(e) => Failure(e)
        case Success(c) => Success(k + c)
  }

  /** `max(1, total)` */
  function TotalSegments(count: nat): (t: nat)
    ensures t >= 1 && t >= count && (count >= 1 ==> t == count)
  {
    if count < 1 then 1 else count
  }

  function EstimateDir(videoOut: FilePath, stamp: string): string
  {
    JoinDir(videoOut.dir, "estimate_" + stamp)
  }

  function EstimateFrameDir(estDir: string, v: SourceVideo): string
  {
    JoinDir(estDir, "frames_" + v.path.stem)
  }

  /** The actions of the estimate for one video: a frame directory, frame
      extraction without a log, and its removal when the count succeeded. */
  function EstimateStep(bin: string, estDir: string, v: SourceVideo, out: Outcome): seq<Op>
  {
    var tmp := EstimateFrameDir(estDir, v);
    [MakeDir(tmp)] + InvokeOps(None, ExtractFramesArgs(bin, v.path.ToString(), tmp, 64, 64, 1)) +
    (if EstimateOne(out).Success? then [RemoveTree(tmp)] else [])
  }

  /** The estimate's actions for videos i.., stopping after the first failure. */
  function EstimateOps(bin: string, estDir: string, videos: seq<SourceVideo>, outs: seq<Outcome>, i: nat): seq<Op>
    requires i <= |videos| == |outs|
    decreases |videos| - i
  {
    if i == |videos| then []
    else EstimateStep(bin, estDir, videos[i], outs[i]) +
         (if EstimateOne(outs[i]).Success? then EstimateOps(bin, estDir, videos, outs, i + 1) else [])
  }

  /** The whole first phase: the scratch directory, the estimates, its removal. */
  function EstimatePhaseOps(bin: string, videos: seq<SourceVideo>, outs: seq<Outcome>, videoOut: FilePath, stamp: string): seq<Op>
    requires |videos| == |outs|
  {
    var estDir := EstimateDir(videoOut, stamp);
    [MakeDir(estDir)] + EstimateOps(bin, estDir, videos, outs, 0) + [RemoveTree(estDir)]
  }

  // ---------------------------------------------------------------------------
  // Phase 2: clips
  // ---------------------------------------------------------------------------

  /** The segments the second pass works on: a failing pipeline leaves none. */
  function PhaseTwoSegments(out: Outcome): seq<Segment>
  {
    match out
    case Success(s) => s
    case Failure(_) => []
  }

  /** Number of clips made for videos i.. */
  function SegCountFrom(outs: seq<Outcome>, i: nat): nat
    requires i <= |outs|
    decreases |outs| - i
  {
    if i == |outs| then 0 else |PhaseTwoSegments(outs[i])| + SegCountFrom(outs, i + 1)
  }

  lemma {:induction false} SegCountShift(outs: seq<Outcome>)
    requires |outs| >= 1
    ensures SegCountFrom(outs, 0) == |PhaseTwoSegments(outs[0])| + SegCountFrom(outs[1..], 0)
  {
    SegCountSuffix(outs, 1);
  }

  lemma {:induction false} SegCountSuffix(outs: seq<Outcome>, i: nat)
    requires 1 <= i <= |outs|
    ensures SegCountFrom(outs, i) == SegCountFrom(outs[1..], i - 1)
    decreases |outs| - i
  {
    if i < |outs| {
      assert outs[1..][i - 1] == outs[i];
      SegCountSuffix(outs, i + 1);
    }
  }

  /** `tmp_dir / f"segments{vid_idx}"` */
  function SegmentDir(tmpDir: string, i: nat): string
  {
    JoinDir(tmpDir, "segments" + NatToString(i))
  }

  /** `seg_dir / (video_out.stem + f".p{seg_idx:04d}" + video_out.suffix)` */
  function ClipPath(videoOut: FilePath, tmpDir: string, i: nat, k: nat): FilePath
  {
    FilePath(SegmentDir(tmpDir, i), videoOut.stem + ".p" + ZeroPad(k, 4), videoOut.suffix)
  }

  /** The first n clip paths of video i. */
  function VideoClips(videoOut: FilePath, tmpDir: string, i: nat, n: nat): (c: seq<FilePath>)
    ensures |c| == n
  {
    seq(n, k requires 0 <= k < n => ClipPath(videoOut, tmpDir, i, k))
  }

  /** The clip paths of videos i.., in video order and then segment order. */
  function ClipsFrom(videoOut: FilePath, tmpDir: string, outs: seq<Outcome>, i: nat): seq<FilePath>
    requires i <= |outs|
    decreases |outs| - i
  {
    if i == |outs| then []
    else VideoClips(videoOut, tmpDir, i, |PhaseTwoSegments(outs[i])|) + ClipsFrom(videoOut, tmpDir, outs, i + 1)
  }

  /** The command for one segment: a stream copy of a clear span, a black
      clip at the source's size for a sensitive one. */
  function ClipCommand(w: Work, v: SourceVideo, clip: FilePath, seg: Segment): seq<string>
  {
    if seg.value == 0 then KfCutArgs(w.bin, v.path.ToString(), clip.ToString(), seg.start, seg.end, DefaultTimescale)
    else BlackVideoArgs(w.bin, seg.end - seg.start, clip.ToString(), v.width, v.height, DefaultTimescale)
  }

  function SegmentMessage(processed: nat, total: nat): string
  {
    "Step 3/4: Segment " + NatToString(processed) + "/" + NatToString(total)
  }

  /** The actions for one segment: its clip command, then a progress event. */
  function SegStep(w: Work, v: SourceVideo, i: nat, seg: Segment, k: nat, processed: nat): seq<Op>
  {
    InvokeOps(Some(w.Logfile()), ClipCommand(w, v, ClipPath(w.videoOut, w.tmpDir, i, k), seg)) +
    [Emit(w.curr + processed + 1, w.curr + w.total, SegmentMessage(processed + 1, w.total))]
  }

  /** The actions for segments k.. of video i, `processed` clips made so far. */
  function SegOps(w: Work, v: SourceVideo, i: nat, segs: seq<Segment>, k: nat, processed: nat): seq<Op>
    requires k <= |segs|
    decreases |segs| - k
  {
    if k == |segs| then []
    else SegStep(w, v, i, segs[k], k, processed) + SegOps(w, v, i, segs, k + 1, processed + 1)
  }

  /** What the pipeline thread writes to the report log: the segment list
      (empty after a ZeroDivisionError); nothing when it died of another error. */
  function PipelineLogOps(w: Work, out: Outcome): seq<Op>
  {
    match out
    case Success(s) => [AppendSegments(w.Logfile(), s)]
    case Failure(e) => if e == ZeroDivisionError then [AppendSegments(w.Logfile(), [])] else []
  }

  /** The start of one video of the second pass: empty the frame directory,
      extract, segment, create the clip directory. */
  function PreludeOps(w: Work, v: SourceVideo, out: Outcome, i: nat): seq<Op>
  {
    [ClearDir(w.FrameDir())] +
    InvokeOps(Some(w.Logfile()), ExtractFramesArgs(w.bin, v.path.ToString(), w.FrameDir(), 64, 64, 1)) +
    PipelineLogOps(w, out) +
    [MakeDir(SegmentDir(w.tmpDir, i))]
  }

  /** One video of the second pass: the prelude, the clips, and emptying
      the frame directory again. */
  function VideoOps(w: Work, v: SourceVideo, out: Outcome, i: nat, processed: nat): seq<Op>
  {
    PreludeOps(w, v, out, i) + SegOps(w, v, i, PhaseTwoSegments(out), 0, processed) + [ClearDir(w.FrameDir())]
  }

  function WorkOps(w: Work, videos: seq<SourceVideo>, outs: seq<Outcome>, i: nat, processed: nat): seq<Op>
    requires i <= |videos| == |outs|
    decreases |videos| - i
  {
    if i == |videos| then []
    else VideoOps(w, videos[i], outs[i], i, processed) +
         WorkOps(w, videos, outs, i + 1, processed + |PhaseTwoSegments(outs[i])|)
  }

  function PathStrings(paths: seq<FilePath>): (r: seq<string>)
    ensures |r| == |paths| && forall j :: 0 <= j < |paths| ==> r[j] == paths[j].ToString()
  {
    seq(|paths|, j requires 0 <= j < |paths| => paths[j].ToString())
  }

  // ---------------------------------------------------------------------------
  // The driver
  // ---------------------------------------------------------------------------

  /** Phase 1: counts the segments of every video in a scratch directory
      that is removed whatever happens. */
  method Estimate(host: Host, videos: seq<SourceVideo>, estDir: string) returns (r: Result<nat>)
    modifies host
    ensures r == EstimateCount(Outcomes(videos))
    ensures host.trace == old(host.trace) + [MakeDir(estDir)] +
              EstimateOps(host.ffmpegBin, estDir, videos, Outcomes(videos), 0) + [RemoveTree(estDir)]
    ensures host.files == old(host.files)
  {
    ghost var outs := Outcomes(videos);
    host.trace := host.trace + [MakeDir(estDir)];
    ghost var whole := host.trace + EstimateOps(host.ffmpegBin, estDir, videos, outs, 0);
    var estimator := new VideoWorker(None, host);
    var count: nat := 0;
    var i := 0;
    while i < |videos|
      invariant 0 <= i <= |videos|
      invariant EstimatesSucceed(outs, i)
      invariant count + SegCountFrom(outs, i) == SegCountFrom(outs, 0)
      invariant host.trace + EstimateOps(host.ffmpegBin, estDir, videos, outs, i) == whole
      invariant host.files == old(host.files)
    {
      ghost var before := host.trace;
      var n := EstimateVideo(estimator, estDir, videos[i], outs[i]);
      EstimateOpsStep(host.ffmpegBin, estDir, videos, outs, i, before, host.trace, whole);
      if n.Failure? {
        host.trace := host.trace + [RemoveTree(estDir)];
        EstimateFailure(outs, i);
        return Failure(n.error);
      }
      CountStep(outs, i, count);
      count := count + n.value;
      i := i + 1;
    }
    host.trace := host.trace + [RemoveTree(estDir)];
    EstimateSuccess(outs, count);
    return Success(count);
  }

  /** The estimates of videos 0..i-1 all succeeded. */
  predicate EstimatesSucceed(outs: seq<Outcome>, i: nat)
    requires i <= |outs|
  {
    forall j :: 0 <= j < i ==> EstimateOne(outs[j]).Success?
  }

  lemma CountStep(outs: seq<Outcome>, i: nat, count: nat)
    requires i < |outs| && EstimateOne(outs[i]).Success? && EstimatesSucceed(outs, i)
    requires count + SegCountFrom(outs, i) == SegCountFrom(outs, 0)
    ensures count + EstimateOne(outs[i]).value + SegCountFrom(outs, i + 1) == SegCountFrom(outs, 0)
    ensures EstimatesSucceed(outs, i + 1)
  {
  }

  lemma EstimateSuccess(outs: seq<Outcome>, count: nat)
    requires EstimatesSucceed(outs, |outs|)
    requires count + SegCountFrom(outs, |outs|) == SegCountFrom(outs, 0)
    ensures EstimateCount(outs) == Success(count)
  {
  }

  /** The estimate for one video, in a frame directory of its own. */
  method EstimateVideo(estimator: VideoWorker, estDir: string, v: SourceVideo, ghost out: Outcome)
    returns (n: Result<nat>)
    requires estimator.logfile == None && out == Pipeline(v.labels)
    modifies estimator.host
    ensures n == EstimateOne(out)
    ensures estimator.host.trace == old(estimator.host.trace) + EstimateStep(estimator.host.ffmpegBin, estDir, v, out)
    ensures estimator.host.files == old(estimator.host.files)
  {
    var host := estimator.host;
    var tmp := EstimateFrameDir(estDir, v);
    ghost var t0 := host.trace;
    host.trace := host.trace + [MakeDir(tmp)];
    ghost var t1 := host.trace;
    estimator.ExtractFrames(v.path.ToString(), tmp);
    ghost var t2 := host.trace;
    var segs := Pipeline(v.labels);
    if segs.Success? {
      n := Success(|segs.value|);
    } else if segs.error == ZeroDivisionError {
      n := Success(0);
    } else {
      n := Failure(segs.error);
    }
    if n.Success? {
      host.trace := host.trace + [RemoveTree(tmp)];
    }
    Concat3(t0, t1, t2, host.trace, [MakeDir(tmp)], InvokeOps(None, ExtractFramesArgs(host.ffmpegBin, v.path.ToString(), tmp, 64, 64, 1)),
            if n.Success? then [RemoveTree(tmp)] else []);
  }

  lemma EstimateOpsStep(bin: string, estDir: string, videos: seq<SourceVideo>, outs: seq<Outcome>, i: nat,
                        before: seq<Op>, after: seq<Op>, whole: seq<Op>)
    requires i < |videos| == |outs|
    requires before + EstimateOps(bin, estDir, videos, outs, i) == whole
    requires after == before + EstimateStep(bin, estDir, videos[i], outs[i])
    ensures EstimateOne(outs[i]).Success? ==> after + EstimateOps(bin, estDir, videos, outs, i + 1) == whole
    ensures EstimateOne(outs[i]).Failure? ==> after == whole
  {
    var rest := if EstimateOne(outs[i]).Success? then EstimateOps(bin, estDir, videos, outs, i + 1) else [];
    TraceStep(before, EstimateStep(bin, estDir, videos[i], outs[i]), rest, whole);
    assert after + rest == whole;
  }

  lemma {:induction false} EstimateFailure(outs: seq<Outcome>, i: nat)
    requires i < |outs| && EstimateOne(outs[i]).Failure?
    requires forall j :: 0 <= j < i ==> EstimateOne(outs[j]).Success?
    ensures EstimateCount(outs) == EstimateOne(outs[i])
    decreases i
  {
    if i > 0 {
      assert forall j :: 0 <= j < i - 1 ==> outs[1..][j] == outs[j + 1];
      EstimateFailure(outs[1..], i - 1);
    }
  }

  /** Phase 3 for one video: one clip per segment, each followed by a
      progress event. */
  method CutSegments(worker: VideoWorker, w: Work, v: SourceVideo, i: nat, segs: seq<Segment>,
                     processed0: nat, paths0: seq<FilePath>)
    returns (processed: nat, paths: seq<FilePath>)
    requires worker.logfile == Some(w.Logfile()) && worker.host.ffmpegBin == w.bin
    modifies worker.host
    ensures processed == processed0 + |segs|
    ensures paths == paths0 + VideoClips(w.videoOut, w.tmpDir, i, |segs|)
    ensures worker.host.trace == old(worker.host.trace) + SegOps(w, v, i, segs, 0, processed0)
    ensures worker.host.files == old(worker.host.files)
  {
    var host := worker.host;
    ghost var whole := host.trace + SegOps(w, v, i, segs, 0, processed0);
    processed := processed0;
    paths := paths0;
    var k := 0;
    while k < |segs|
      invariant 0 <= k <= |segs|
      invariant processed == processed0 + k
      invariant paths == paths0 + VideoClips(w.videoOut, w.tmpDir, i, k)
      invariant host.trace + SegOps(w, v, i, segs, k, processed) == whole
      invariant host.files == old(host.files)
    {
      ghost var before := host.trace;
      var outSeg := CutOne(worker, w, v, i, segs[k], k, processed);
      SegOpsStep(w, v, i, segs, k, processed, before, host.trace, whole);
      VideoClipsSnoc(w.videoOut, w.tmpDir, i, k, paths0, paths);
      paths := paths + [outSeg];
      processed := processed + 1;
      k := k + 1;
    }
  }

  /** The body of the segment loop: make clip k and report progress. */
  method CutOne(worker: VideoWorker, w: Work, v: SourceVideo, i: nat, seg: Segment, k: nat, processed: nat)
    returns (outSeg: FilePath)
    requires worker.logfile == Some(w.Logfile()) && worker.host.ffmpegBin == w.bin
    modifies worker.host
    ensures outSeg == ClipPath(w.videoOut, w.tmpDir, i, k)
    ensures worker.host.trace == old(worker.host.trace) + SegStep(w, v, i, seg, k, processed)
    ensures worker.host.files == old(worker.host.files)
  {
    var segDir := SegmentDir(w.tmpDir, i);
    outSeg := FilePath(segDir, w.videoOut.stem + ".p" + ZeroPad(k, 4), w.videoOut.suffix);
    MakeClip(worker, w, v, outSeg, seg);
    worker.host.trace := worker.host.trace +
      [Emit(w.curr + processed + 1, w.curr + w.total, SegmentMessage(processed + 1, w.total))];
  }

  lemma SegOpsStep(w: Work, v: SourceVideo, i: nat, segs: seq<Segment>, k: nat, processed: nat,
                   before: seq<Op>, after: seq<Op>, whole: seq<Op>)
    requires k < |segs|
    requires before + SegOps(w, v, i, segs, k, processed) == whole
    requires after == before + SegStep(w, v, i, segs[k], k, processed)
    ensures after + SegOps(w, v, i, segs, k + 1, processed + 1) == whole
  {
    TraceStep(before, SegStep(w, v, i, segs[k], k, processed), SegOps(w, v, i, segs, k + 1, processed + 1), whole);
  }

  lemma VideoClipsSnoc(videoOut: FilePath, tmpDir: string, i: nat, k: nat, paths0: seq<FilePath>, paths: seq<FilePath>)
    requires paths == paths0 + VideoClips(videoOut, tmpDir, i, k)
    ensures paths + [ClipPath(videoOut, tmpDir, i, k)] == paths0 + VideoClips(videoOut, tmpDir, i, k + 1)
  {
    var clips := VideoClips(videoOut, tmpDir, i, k);
    assert VideoClips(videoOut, tmpDir, i, k + 1) == clips + [ClipPath(videoOut, tmpDir, i, k)];
    assert (paths0 + clips) + [ClipPath(videoOut, tmpDir, i, k)] == paths0 + (clips + [ClipPath(videoOut, tmpDir, i, k)]);
  }

  /** `if not sensitive: kf_cut(...) else: mk_black_video(...)` */
  method MakeClip(worker: VideoWorker, w: Work, v: SourceVideo, outSeg: FilePath, seg: Segment)
    requires worker.host.ffmpegBin == w.bin
    modifies worker.host
    ensures worker.host.trace == old(worker.host.trace) + InvokeOps(worker.logfile, ClipCommand(w, v, outSeg, seg))
    ensures worker.host.files == old(worker.host.files)
  {
    if seg.value == 0 {
      worker.KfCut(v.path.ToString(), outSeg.ToString(), seg.start, seg.end, DefaultTimescale);
    } else {
      worker.MkBlackVideo(seg.end - seg.start, outSeg.ToString(), v.width, v.height, DefaultTimescale);
    }
  }

  /** Moving one step of work from the remaining actions to the trace. */
  lemma TraceStep(t: seq<Op>, step: seq<Op>, rest: seq<Op>, whole: seq<Op>)
    requires t + (step + rest) == whole
    ensures (t + step) + rest == whole
  {
    assert t + (step + rest) == (t + step) + rest;
  }

  /** Three actions in a row leave their concatenation on the trace. */
  lemma Concat3(t0: seq<Op>, t1: seq<Op>, t2: seq<Op>, t3: seq<Op>, a: seq<Op>, b: seq<Op>, c: seq<Op>)
    requires t1 == t0 + a && t2 == t1 + b && t3 == t2 + c
    ensures t3 == t0 + (a + b + c)
  {
    assert t0 + (a + b + c) == t0 + a + b + c;
  }

  /** Phase 2 and 3 for one video. */
  method ProcessOne(worker: VideoWorker, w: Work, v: SourceVideo, ghost out: Outcome, i: nat,
                    processed0: nat, paths0: seq<FilePath>)
    returns (processed: nat, paths: seq<FilePath>)
    requires worker.logfile == Some(w.Logfile()) && worker.host.ffmpegBin == w.bin
    requires out == Pipeline(v.labels)
    modifies worker.host
    ensures processed == processed0 + |PhaseTwoSegments(out)|
    ensures paths == paths0 + VideoClips(w.videoOut, w.tmpDir, i, |PhaseTwoSegments(out)|)
    ensures worker.host.trace == old(worker.host.trace) + VideoOps(w, v, out, i, processed0)
    ensures worker.host.files == old(worker.host.files)
  {
    var host := worker.host;
    ghost var t0 := host.trace;
    var segmentTimes := Prelude(worker, w, v, out, i);
    ghost var t1 := host.trace;
    processed, paths := CutSegments(worker, w, v, i, segmentTimes, processed0, paths0);
    ghost var t2 := host.trace;
    host.trace := host.trace + [ClearDir(w.FrameDir())];
    Concat3(t0, t1, t2, host.trace, PreludeOps(w, v, out, i), SegOps(w, v, i, segmentTimes, 0, processed0),
            [ClearDir(w.FrameDir())]);
  }

  /** Frame extraction and segmentation of one video, with the segment list
      written to the report log, and the clip directory created. */
  method Prelude(worker: VideoWorker, w: Work, v: SourceVideo, ghost out: Outcome, i: nat)
    returns (segmentTimes: seq<Segment>)
    requires worker.logfile == Some(w.Logfile()) && worker.host.ffmpegBin == w.bin
    requires out == Pipeline(v.labels)
    modifies worker.host
    ensures segmentTimes == PhaseTwoSegments(out)
    ensures worker.host.trace == old(worker.host.trace) + PreludeOps(w, v, out, i)
    ensures worker.host.files == old(worker.host.files)
  {
    var host := worker.host;
    var frameDir := JoinDir(w.tmpDir, "frames");
    ghost var t0 := host.trace;
    host.trace := host.trace + [ClearDir(frameDir)];
    ghost var t1 := host.trace;
    worker.ExtractFrames(v.path.ToString(), frameDir);
    ghost var t2 := host.trace;
    var piped := Pipeline(v.labels);
    segmentTimes := [];
    if piped.Success? {
      segmentTimes := piped.value;
      host.trace := host.trace + [AppendSegments(worker.logfile.value, segmentTimes)];
    } else if piped.error == ZeroDivisionError {
      host.trace := host.trace + [AppendSegments(worker.logfile.value, [])];
    }
    ghost var t3 := host.trace;
    assert t3 == t2 + PipelineLogOps(w, out);
    host.trace := host.trace + [MakeDir(SegmentDir(w.tmpDir, i))];
    Concat3(t0, t1, t2, t3, [ClearDir(w.FrameDir())],
            InvokeOps(Some(w.Logfile()), ExtractFramesArgs(w.bin, v.path.ToString(), w.FrameDir(), 64, 64, 1)),
            PipelineLogOps(w, out));
    assert host.trace == t3 + [MakeDir(SegmentDir(w.tmpDir, i))];
  }

  /** The second and third phase over all videos. */
  method ProcessAll(worker: VideoWorker, w: Work, videos: seq<SourceVideo>, ghost outs: seq<Outcome>)
    returns (processed: nat, segmentPaths: seq<FilePath>)
    requires worker.logfile == Some(w.Logfile()) && worker.host.ffmpegBin == w.bin
    requires outs == Outcomes(videos)
    modifies worker.host
    ensures processed == SegCountFrom(outs, 0)
    ensures segmentPaths == ClipsFrom(w.videoOut, w.tmpDir, outs, 0)
    ensures worker.host.trace == old(worker.host.trace) + WorkOps(w, videos, outs, 0, 0)
    ensures worker.host.files == old(worker.host.files)
  {
    var host := worker.host;
    ghost var whole := host.trace + WorkOps(w, videos, outs, 0, 0);
    processed := 0;
    segmentPaths := [];
    var i := 0;
    while i < |videos|
      invariant 0 <= i <= |videos|
      invariant processed + SegCountFrom(outs, i) == SegCountFrom(outs, 0)
      invariant segmentPaths + ClipsFrom(w.videoOut, w.tmpDir, outs, i) == ClipsFrom(w.videoOut, w.tmpDir, outs, 0)
      invariant host.trace + WorkOps(w, videos, outs, i, processed) == whole
      invariant host.files == old(host.files)
    {
      ghost var before := host.trace;
      ghost var pathsBefore := segmentPaths;
      ghost var p0 := processed;
      processed, segmentPaths := ProcessOne(worker, w, videos[i], outs[i], i, processed, segmentPaths);
      WorkOpsStep(w, videos, outs, i, p0, processed, before, host.trace, whole);
      ClipsStep(w.videoOut, w.tmpDir, outs, i, pathsBefore, segmentPaths, ClipsFrom(w.videoOut, w.tmpDir, outs, 0));
      i := i + 1;
    }
  }

  lemma WorkOpsStep(w: Work, videos: seq<SourceVideo>, outs: seq<Outcome>, i: nat, processed: nat, processed1: nat,
                    before: seq<Op>, after: seq<Op>, whole: seq<Op>)
    requires i < |videos| == |outs|
    requires before + WorkOps(w, videos, outs, i, processed) == whole
    requires after == before + VideoOps(w, videos[i], outs[i], i, processed)
    requires processed1 == processed + |PhaseTwoSegments(outs[i])|
    ensures after + WorkOps(w, videos, outs, i + 1, processed1) == whole
  {
    WorkOpsUnfold(w, videos, outs, i, processed, |PhaseTwoSegments(outs[i])|, processed1, SegCountFrom(outs, i + 1));
    TraceStep(before, VideoOps(w, videos[i], outs[i], i, processed),
              WorkOps(w, videos, outs, i + 1, processed1), whole);
  }

  lemma ClipsStep(videoOut: FilePath, tmpDir: string, outs: seq<Outcome>, i: nat,
                  before: seq<FilePath>, after: seq<FilePath>, whole: seq<FilePath>)
    requires i < |outs|
    requires before + ClipsFrom(videoOut, tmpDir, outs, i) == whole
    requires after == before + VideoClips(videoOut, tmpDir, i, |PhaseTwoSegments(outs[i])|)
    ensures after + ClipsFrom(videoOut, tmpDir, outs, i + 1) == whole
  {
    var c := VideoClips(videoOut, tmpDir, i, |PhaseTwoSegments(outs[i])|);
    assert before + (c + ClipsFrom(videoOut, tmpDir, outs, i + 1)) == (before + c) + ClipsFrom(videoOut, tmpDir, outs, i + 1);
  }

  /** `process_video`, without its fake progress animation, logging and
      threads. The two timestamps stand for the clock readings that name the
      working directories. */
  method ProcessVideo(host: Host, videos: seq<SourceVideo>, videoOut: FilePath, curr: int,
                      estimateStamp: string, workStamp: string)
    returns (r: Result<DeidRun>)
    modifies host
    ensures host.files == old(host.files)
    ensures var count := EstimateCount(Outcomes(videos));
            (r.Failure? <==> count.Failure?) &&
            (r.Failure? ==> r.error == count.error)
    ensures r.Failure? ==>
              host.trace == old(host.trace) + EstimatePhaseOps(host.ffmpegBin, videos, Outcomes(videos), videoOut, estimateStamp)
    ensures r.Success? ==>
              var outs := Outcomes(videos);
              var w := Work(host.ffmpegBin, videoOut, JoinDir(videoOut.dir, "tmp_" + workStamp),
                            curr, TotalSegments(EstimateCount(outs).value));
              r.value == DeidRun(w.total, SegCountFrom(outs, 0), ClipsFrom(videoOut, w.tmpDir, outs, 0)) &&
              host.trace == old(host.trace) + EstimatePhaseOps(host.ffmpegBin, videos, outs, videoOut, estimateStamp) +
                WorkPhaseOps(w, host.status, videos, outs)
  {
    ghost var outs := Outcomes(videos);
    var estDir := EstimateDir(videoOut, estimateStamp);
    ghost var t0 := host.trace;
    var estimate := Estimate(host, videos, estDir);
    ghost var t1 := host.trace;
    EstimatePhaseTrace(t0, t1, host.ffmpegBin, videos, outs, videoOut, estimateStamp);
    if estimate.Failure? {
      return Failure(estimate.error);
    }
    var total := TotalSegments(estimate.value);
    var w := Work(host.ffmpegBin, videoOut, JoinDir(videoOut.dir, "tmp_" + workStamp), curr, total);
    var processed, segmentPaths := WorkPhase(host, w, videos, outs);
    r := Success(DeidRun(total, processed, segmentPaths));
  }

  lemma EstimatePhaseTrace(t0: seq<Op>, t1: seq<Op>, bin: string, videos: seq<SourceVideo>, outs: seq<Outcome>,
                           videoOut: FilePath, stamp: string)
    requires |videos| == |outs|
    requires var estDir := EstimateDir(videoOut, stamp);
             t1 == t0 + [MakeDir(estDir)] + EstimateOps(bin, estDir, videos, outs, 0) + [RemoveTree(estDir)]
    ensures t1 == t0 + EstimatePhaseOps(bin, videos, outs, videoOut, stamp)
  {
    var estDir := EstimateDir(videoOut, stamp);
    var ops := EstimateOps(bin, estDir, videos, outs, 0);
    var a, c := [MakeDir(estDir)], [RemoveTree(estDir)];
    Concat3(t0, t0 + a, t0 + a + ops, t1, a, ops, c);
  }

  /** The actions of phases 2 and 3: the work directory, every video, the
      merge of every clip, and removing the work directory. */
  function WorkPhaseOps(w: Work, status: seq<string> -> RunStatus, videos: seq<SourceVideo>, outs: seq<Outcome>): seq<Op>
    requires |videos| == |outs|
  {
    [MakeDir(w.tmpDir), MakeDir(w.FrameDir())] +
    WorkOps(w, videos, outs, 0, 0) +
    MergeOps(w.bin, Some(w.Logfile()), status, PathStrings(ClipsFrom(w.videoOut, w.tmpDir, outs, 0)), w.videoOut, None) +
    [RemoveTree(w.tmpDir)]
  }

  /** Phases 2 and 3 of `process_video`: the work directory, every video,
      the merge, and removing the work directory. */
  method WorkPhase(host: Host, w: Work, videos: seq<SourceVideo>, ghost outs: seq<Outcome>)
    returns (processed: nat, segmentPaths: seq<FilePath>)
    requires w.bin == host.ffmpegBin && outs == Outcomes(videos)
    modifies host
    ensures host.files == old(host.files)
    ensures processed == SegCountFrom(outs, 0)
    ensures segmentPaths == ClipsFrom(w.videoOut, w.tmpDir, outs, 0)
    ensures host.trace == old(host.trace) + WorkPhaseOps(w, host.status, videos, outs)
  {
    ghost var t1 := host.trace;
    host.trace := host.trace + [MakeDir(w.tmpDir), MakeDir(w.FrameDir())];
    var worker := new VideoWorker(Some(w.Logfile()), host);
    ghost var t2 := host.trace;
    processed, segmentPaths := ProcessAll(worker, w, videos, outs);
    ghost var t3 := host.trace;
    // a failed concat is swallowed by the merge thread
    var merged := worker.Merge(PathStrings(segmentPaths), w.videoOut, None);
    ghost var t4 := host.trace;
    host.trace := host.trace + [RemoveTree(w.tmpDir)];
    Concat3(t1, t2, t3, t4, [MakeDir(w.tmpDir), MakeDir(w.FrameDir())], WorkOps(w, videos, outs, 0, 0),
            MergeOps(host.ffmpegBin, Some(w.Logfile()), host.status, PathStrings(segmentPaths), w.videoOut, None));
  }

  // ---------------------------------------------------------------------------
  // Properties
  // ---------------------------------------------------------------------------

  /** Each video has a clip directory of its own. */
  lemma SegmentDirInjective(tmpDir: string, i: nat, j: nat)
    requires SegmentDir(tmpDir, i) == SegmentDir(tmpDir, j)
    ensures i == j
  {
    var p := if tmpDir == "" then "segments" else tmpDir + "/" + "segments";
    assert SegmentDir(tmpDir, i) == p + NatToString(i);
    assert SegmentDir(tmpDir, j) == p + NatToString(j);
    PrefixCancel(p, NatToString(i), NatToString(j));
    NatToStringInjective(i, j);
  }

  /** A clip path determines its video and its segment. */
  lemma ClipPathInjective(videoOut: FilePath, tmpDir: string, i: nat, k: nat, j: nat, l: nat)
    requires ClipPath(videoOut, tmpDir, i, k) == ClipPath(videoOut, tmpDir, j, l)
    ensures i == j && k == l
  {
    SegmentDirInjective(tmpDir, i, j);
    PrefixCancel(videoOut.stem + ".p", ZeroPad(k, 4), ZeroPad(l, 4));
    ZeroPadInjective(k, l, 4);
  }

  predicate Distinct<T(==)>(s: seq<T>)
  {
    forall a, b :: 0 <= a < b < |s| ==> s[a] != s[b]
  }

  lemma VideoClipsDistinct(videoOut: FilePath, tmpDir: string, i: nat, n: nat)
    ensures Distinct(VideoClips(videoOut, tmpDir, i, n))
  {
    var c := VideoClips(videoOut, tmpDir, i, n);
    forall a, b | 0 <= a < b < n
      ensures c[a] != c[b]
    {
      if c[a] == c[b] {
        ClipPathInjective(videoOut, tmpDir, i, a, i, b);
      }
    }
  }

  /** The directory of `p` is none of the clip directories of the videos before i. */
  predicate NotBefore(p: FilePath, tmpDir: string, i: nat)
  {
    forall j: nat :: j < i ==> p.dir != SegmentDir(tmpDir, j)
  }

  lemma {:induction false} ClipsFromDirs(videoOut: FilePath, tmpDir: string, outs: seq<Outcome>, i: nat)
    requires i <= |outs|
    ensures forall x :: 0 <= x < |ClipsFrom(videoOut, tmpDir, outs, i)| ==>
              NotBefore(ClipsFrom(videoOut, tmpDir, outs, i)[x], tmpDir, i)
    decreases |outs| - i
  {
    if i < |outs| {
      var c := VideoClips(videoOut, tmpDir, i, |PhaseTwoSegments(outs[i])|);
      var rest := ClipsFrom(videoOut, tmpDir, outs, i + 1);
      ClipsFromDirs(videoOut, tmpDir, outs, i + 1);
      forall x | 0 <= x < |c + rest|
        ensures NotBefore((c + rest)[x], tmpDir, i)
      {
        if x < |c| {
          forall j: nat | j < i
            ensures c[x].dir != SegmentDir(tmpDir, j)
          {
            if c[x].dir == SegmentDir(tmpDir, j) {
              SegmentDirInjective(tmpDir, i, j);
            }
          }
        } else {
          assert (c + rest)[x] == rest[x - |c|];
        }
      }
    }
  }

  /** Every clip of a run has a path of its own, so no clip overwrites another. */
  lemma {:induction false} ClipsFromDistinct(videoOut: FilePath, tmpDir: string, outs: seq<Outcome>, i: nat)
    requires i <= |outs|
    ensures Distinct(ClipsFrom(videoOut, tmpDir, outs, i))
    decreases |outs| - i
  {
    if i < |outs| {
      var c := VideoClips(videoOut, tmpDir, i, |PhaseTwoSegments(outs[i])|);
      var rest := ClipsFrom(videoOut, tmpDir, outs, i + 1);
      ClipsFromDistinct(videoOut, tmpDir, outs, i + 1);
      ClipsFromDirs(videoOut, tmpDir, outs, i + 1);
      VideoClipsDistinct(videoOut, tmpDir, i, |c|);
      forall a, b | 0 <= a < b < |c + rest|
        ensures (c + rest)[a] != (c + rest)[b]
      {
        if b < |c| {
        } else if a >= |c| {
          assert (c + rest)[a] == rest[a - |c|];
          assert (c + rest)[b] == rest[b - |c|];
        } else {
          assert (c + rest)[b] == rest[b - |c|];
          assert NotBefore(rest[b - |c|], tmpDir, i + 1);
          assert c[a].dir == SegmentDir(tmpDir, i);
        }
      }
    }
  }

  /** One clip per segment. */
  lemma {:induction false} ClipsFromLength(videoOut: FilePath, tmpDir: string, outs: seq<Outcome>, i: nat)
    requires i <= |outs|
    ensures |ClipsFrom(videoOut, tmpDir, outs, i)| == SegCountFrom(outs, i)
    decreases |outs| - i
  {
    if i < |outs| {
      ClipsFromLength(videoOut, tmpDir, outs, i + 1);
    }
  }

  /** The (value, maximum) of every progress event, in order. */
  function Progress(ops: seq<Op>): seq<(int, int)>
  {
    if |ops| == 0 then []
    else (if ops[0].Emit? then [(ops[0].value, ops[0].maximum)] else []) + Progress(ops[1..])
  }

  lemma {:induction false} ProgressAppend(a: seq<Op>, b: seq<Op>)
    ensures Progress(a + b) == Progress(a) + Progress(b)
    decreases |a|
  {
    if |a| == 0 {
      assert a + b == b;
    } else {
      var h := if a[0].Emit? then [(a[0].value, a[0].maximum)] else [];
      assert (a + b)[0] == a[0];
      assert (a + b)[1..] == a[1..] + b;
      ProgressAppend(a[1..], b);
      assert Progress(a + b) == h + (Progress(a[1..]) + Progress(b));
      assert h + (Progress(a[1..]) + Progress(b)) == (h + Progress(a[1..])) + Progress(b);
    }
  }

  lemma {:induction false} ProgressNone(ops: seq<Op>)
    requires forall j :: 0 <= j < |ops| ==> !ops[j].Emit?
    ensures Progress(ops) == []
    decreases |ops|
  {
    if |ops| > 0 {
      ProgressNone(ops[1..]);
    }
  }

  /** n events counting up from processed + 1, all with the same maximum. */
  function Ticks(w: Work, processed: nat, n: nat): seq<(int, int)>
  {
    seq(n, j => (w.curr + processed + j + 1, w.curr + w.total))
  }

  lemma TicksSplit(w: Work, processed: nat, n: nat, m: nat)
    ensures Ticks(w, processed, n) + Ticks(w, processed + n, m) == Ticks(w, processed, n + m)
  {
  }

  lemma ProgressInvoke(logfile: Option<FilePath>, cmd: seq<string>)
    ensures Progress(InvokeOps(logfile, cmd)) == []
  {
    ProgressNone(InvokeOps(logfile, cmd));
  }

  lemma ProgressSegStep(w: Work, v: SourceVideo, i: nat, seg: Segment, k: nat, processed: nat)
    ensures Progress(SegStep(w, v, i, seg, k, processed)) == Ticks(w, processed, 1)
  {
    TicksOne(w, processed);
    ProgressInvokeEmit(Some(w.Logfile()), ClipCommand(w, v, ClipPath(w.videoOut, w.tmpDir, i, k), seg),
                       w.curr + processed + 1, w.curr + w.total, SegmentMessage(processed + 1, w.total));
  }

  /** A command followed by one event reports that event only. */
  lemma ProgressInvokeEmit(logfile: Option<FilePath>, cmd: seq<string>, value: int, maximum: int, message: string)
    ensures Progress(InvokeOps(logfile, cmd) + [Emit(value, maximum, message)]) == [(value, maximum)]
  {
    var emit := [Emit(value, maximum, message)];
    ProgressInvoke(logfile, cmd);
    assert Progress(emit) == [(value, maximum)] by {
      assert emit[1..] == [];
    }
    ProgressAppend(InvokeOps(logfile, cmd), emit);
  }

  lemma TicksOne(w: Work, processed: nat)
    ensures Ticks(w, processed, 1) == [(w.curr + processed + 1, w.curr + w.total)]
  {
  }

  lemma {:induction false} ProgressSegOps(w: Work, v: SourceVideo, i: nat, segs: seq<Segment>, k: nat, processed: nat)
    requires k <= |segs|
    ensures Progress(SegOps(w, v, i, segs, k, processed)) == Ticks(w, processed, |segs| - k)
    decreases |segs| - k
  {
    if k < |segs| {
      var step := SegStep(w, v, i, segs[k], k, processed);
      var rest := SegOps(w, v, i, segs, k + 1, processed + 1);
      assert SegOps(w, v, i, segs, k, processed) == step + rest;
      ProgressSegStep(w, v, i, segs[k], k, processed);
      var m := |segs| - (k + 1);
      ProgressSegOps(w, v, i, segs, k + 1, processed + 1);
      assert Progress(rest) == Ticks(w, processed + 1, m);
      ProgressJoin(w, SegOps(w, v, i, segs, k, processed), step, rest, processed, 1, processed + 1, m, m + 1);
    }
  }

  lemma ProgressVideoOps(w: Work, v: SourceVideo, out: Outcome, i: nat, processed: nat)
    ensures Progress(VideoOps(w, v, out, i, processed)) == Ticks(w, processed, |PhaseTwoSegments(out)|)
  {
    var pre := PreludeOps(w, v, out, i);
    var segs := SegOps(w, v, i, PhaseTwoSegments(out), 0, processed);
    ProgressNone(pre);
    ProgressNone([ClearDir(w.FrameDir())]);
    ProgressSegOps(w, v, i, PhaseTwoSegments(out), 0, processed);
    ProgressAppend(pre, segs);
    ProgressAppend(pre + segs, [ClearDir(w.FrameDir())]);
  }

  lemma TicksOfConcat(w: Work, a: seq<Op>, b: seq<Op>, processed: nat, n: nat, m: nat)
    requires Progress(a) == Ticks(w, processed, n) && Progress(b) == Ticks(w, processed + n, m)
    ensures Progress(a + b) == Ticks(w, processed, n + m)
  {
    ProgressAppend(a, b);
    TicksSplit(w, processed, n, m);
  }

  lemma ProgressJoin(w: Work, whole: seq<Op>, here: seq<Op>, rest: seq<Op>, processed: nat, n: nat, next: nat,
                     m: nat, total: nat)
    requires whole == here + rest && total == n + m && next == processed + n
    requires Progress(here) == Ticks(w, processed, n) && Progress(rest) == Ticks(w, next, m)
    ensures Progress(whole) == Ticks(w, processed, total)
  {
    TicksOfConcat(w, here, rest, processed, n, m);
  }

  lemma WorkOpsUnfold(w: Work, videos: seq<SourceVideo>, outs: seq<Outcome>, i: nat, processed: nat,
                      n: nat, next: nat, m: nat)
    requires i < |videos| == |outs|
    requires n == |PhaseTwoSegments(outs[i])| && next == processed + n && m == SegCountFrom(outs, i + 1)
    ensures WorkOps(w, videos, outs, i, processed) ==
              VideoOps(w, videos[i], outs[i], i, processed) + WorkOps(w, videos, outs, i + 1, next)
    ensures SegCountFrom(outs, i) == n + m
  {
    assert WorkOps(w, videos, outs, i + 1, next) == WorkOps(w, videos, outs, i + 1, processed + |PhaseTwoSegments(outs[i])|);
  }

  /** Each clip reports one event, numbered from curr + 1 on, all with the
      maximum curr + total. */
  lemma {:induction false} ProgressWorkOps(w: Work, videos: seq<SourceVideo>, outs: seq<Outcome>, i: nat, processed: nat)
    requires i <= |videos| == |outs|
    ensures Progress(WorkOps(w, videos, outs, i, processed)) == Ticks(w, processed, SegCountFrom(outs, i))
    decreases |videos| - i
  {
    if i < |videos| {
      var n := |PhaseTwoSegments(outs[i])|;
      var m := SegCountFrom(outs, i + 1);
      var next := processed + n;
      ProgressWorkOps(w, videos, outs, i + 1, next);
      WorkOpsUnfold(w, videos, outs, i, processed, n, next, m);
      ProgressVideoOps(w, videos[i], outs[i], i, processed);
      ProgressJoin(w, WorkOps(w, videos, outs, i, processed), VideoOps(w, videos[i], outs[i], i, processed),
                   WorkOps(w, videos, outs, i + 1, next), processed, n, next, SegCountFrom(outs, i + 1), SegCountFrom(outs, i));
    } else {
      assert Ticks(w, processed, 0) == [];
    }
  }

  /** When the estimate succeeds the clip count never exceeds the reported
      total, and equals it whenever there is at least one segment. */
  lemma ProgressWithinTotal(outs: seq<Outcome>)
    requires EstimateCount(outs).Success?
    ensures SegCountFrom(outs, 0) <= TotalSegments(EstimateCount(outs).value)
    ensures SegCountFrom(outs, 0) >= 1 ==> SegCountFrom(outs, 0) == TotalSegments(EstimateCount(outs).value)
  {
  }
}
