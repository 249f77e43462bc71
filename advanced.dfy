/** Advanced mode (`run_advanced_inference`): one pass per video that reads
    frames into a buffer of `buffer_size` slots. Each full buffer is
    classified; its sensitive frames are zero-filled in place and every slot
    is written, subject to the frame-rate thinning test. The frames left at the
    end of a video are classified as a short batch and written from a copy in
    which sensitive frames take their own mean colour. Progress is counted in
    units: one per full buffer and one per finished video, against a total
    of `ceil(frame_count / buffer_size)` summed over the videos. */
module Advanced {
  import opened Wrappers

  /** A decoded frame, or one of the two redacted forms: all zeros, or the
      frame's own mean colour broadcast over the picture. */
  datatype Frame = Decoded(id: nat) | Black | MeanColor(source: Frame)

  /** One input video: the frames `read()` returns, the frame count the
      container reports (`CAP_PROP_FRAME_COUNT`), the classifier's label for
      each frame in reading order, whether the thinning branch is taken
      (`fps_in >= target_fps`) and the thinning test
      `frame_index % frame_interval < 1`. */
  datatype Video = Video(frames: seq<Frame>, frameCount: nat, labels: seq<bool>,
                         thin: bool, keep: nat -> bool)

  /** The classifier gives one label per frame. */
  predicate Labelled(videos: seq<Video>)
  {
    forall k :: 0 <= k < |videos| ==> |videos[k].labels| == |videos[k].frames|
  }

  // ---------------------------------------------------------------------------
  // Masking and writing, as functions of the frames
  // ---------------------------------------------------------------------------

  /** A full batch after `buf[preds] = zeros_like(buf[preds])`. */
  function ZeroFilled(batch: seq<Frame>, preds: seq<bool>): (r: seq<Frame>)
    requires |preds| == |batch|
    ensures |r| == |batch|
    ensures forall i :: 0 <= i < |batch| ==> r[i] == if preds[i] then Black else batch[i]
  {
    seq(|batch|, i requires 0 <= i < |batch| => if preds[i] then Black else batch[i])
  }

  /** The tail batch after its sensitive frames take their mean colour. */
  function MeanFilled(batch: seq<Frame>, preds: seq<bool>): (r: seq<Frame>)
    requires |preds| == |batch|
    ensures |r| == |batch|
    ensures forall i :: 0 <= i < |batch| ==> r[i] == if preds[i] then MeanColor(batch[i]) else batch[i]
  {
    seq(|batch|, i requires 0 <= i < |batch| => if preds[i] then MeanColor(batch[i]) else batch[i])
  }

  /** The frames of a full batch that reach the encoder: all of them, or,
      on the thinning branch, those whose running `frame_index` passes the
      test. */
  function Passed(frames: seq<Frame>, index: nat, thin: bool, keep: nat -> bool): seq<Frame>
    decreases |frames|
  {
    if !thin || |frames| == 0 then frames
    else (if keep(index) then [frames[0]] else []) + Passed(frames[1..], index + 1, thin, keep)
  }

  /** The number of full batches in `n` frames. */
  function Batches(n: nat, bs: nat): nat
    requires bs > 0
    decreases n
  {
    if n < bs then 0 else 1 + Batches(n - bs, bs)
  }

  /** What one video adds to the output: its full batches zero-filled and
      thinned, then its tail mean-coloured and written whole. */
  function VideoOutput(frames: seq<Frame>, labels: seq<bool>, bs: nat, index: nat,
                       thin: bool, keep: nat -> bool): seq<Frame>
    requires bs > 0 && |labels| == |frames|
    decreases |frames|
  {
    if |frames| < bs then MeanFilled(frames, labels)
    else Passed(ZeroFilled(frames[..bs], labels[..bs]), index, thin, keep) +
         VideoOutput(frames[bs..], labels[bs..], bs, index + bs, thin, keep)
  }

  /** `math.ceil(n / bs)` */
  function Ceil(n: nat, bs: nat): nat
    requires bs > 0
  {
    (n + bs - 1) / bs
  }

  /** `total_chunks` over the first videos. */
  function TotalChunks(videos: seq<Video>, bs: nat): nat
    requires bs > 0
  {
    if |videos| == 0 then 0
    else TotalChunks(videos[..|videos| - 1], bs) + Ceil(videos[|videos| - 1].frameCount, bs)
  }

  /** The units a video adds to `_processed_units`. */
  function VideoUnits(v: Video, bs: nat): nat
    requires bs > 0
  {
    Batches(|v.frames|, bs) + 1
  }

  function UnitsProcessed(videos: seq<Video>, bs: nat): nat
    requires bs > 0
  {
    if |videos| == 0 then 0
    else UnitsProcessed(videos[..|videos| - 1], bs) + VideoUnits(videos[|videos| - 1], bs)
  }

  /** The frames written for the first videos. */
  function RunOutput(videos: seq<Video>, bs: nat): seq<Frame>
    requires bs > 0 && Labelled(videos)
  {
    if |videos| == 0 then []
    else
      var v := videos[|videos| - 1];
      RunOutput(videos[..|videos| - 1], bs) + VideoOutput(v.frames, v.labels, bs, 0, v.thin, v.keep)
  }

  /** The events of `n` full-buffer flushes after `p` units. */
  function Ticks(p: int, n: nat, total: int): (r: seq<(int, int)>)
    ensures |r| == n
  {
    seq(n, i => (p + i + 1, total))
  }

  /** The events of one video: a tick per full buffer, one for the finished
      video, and the patient-level event. */
  function VideoEvents(p: int, v: Video, bs: nat, total: int, curr: int, max: int, count: int): seq<(int, int)>
    requires bs > 0
  {
    var n := Batches(|v.frames|, bs);
    Ticks(p, n, total) + [(p + n + 1, total), (curr + count, max)]
  }

  /** The events of the per-video loop over the first videos. */
  function RunEvents(videos: seq<Video>, bs: nat, total: int, curr: int, max: int, count: int): seq<(int, int)>
    requires bs > 0
  {
    if |videos| == 0 then []
    else
      var front := videos[..|videos| - 1];
      RunEvents(front, bs, total, curr, max, count) +
      VideoEvents(UnitsProcessed(front, bs), videos[|videos| - 1], bs, total, curr, max, count)
  }

  /** What a finished run leaves behind. */
  datatype Run = Run(written: seq<Frame>, events: seq<(int, int)>, totalUnits: nat, processedUnits: nat)

  // ---------------------------------------------------------------------------
  // The buffer and its counters
  // ---------------------------------------------------------------------------

  class Inference {
    /** `buffer_size` */
    const bufferSize: nat
    /** `orig_image_buffer`, allocated once with `np.zeros`. */
    const buffer: array<Frame>
    /** `image_count` */
    var imageCount: nat
    /** `frame_index` */
    var frameIndex: nat
    /** `_total_units` */
    var totalUnits: nat
    /** `_processed_units` */
    var processedUnits: nat
    /** The frames handed to `video_out.write`, in order. */
    var written: seq<Frame>
    /** The `update_progress` events, as (value, maximum). */
    var events: seq<(int, int)>

    ghost predicate Valid()
      reads this
    {
      bufferSize > 0 && buffer.Length == bufferSize && imageCount <= bufferSize
    }

    constructor (bufferSize: nat, totalUnits: nat, events: seq<(int, int)>)
      requires bufferSize > 0
      ensures Valid() && fresh(buffer)
      ensures this.bufferSize == bufferSize && this.totalUnits == totalUnits
      ensures processedUnits == 0 && imageCount == 0 && frameIndex == 0
      ensures written == [] && this.events == events
      ensures buffer[..] == seq(bufferSize, _ => Black)
    {
      this.bufferSize := bufferSize;
      buffer := new Frame[bufferSize](_ => Black);
      imageCount := 0;
      frameIndex := 0;
      this.totalUnits := totalUnits;
      processedUnits := 0;
      written := [];
      this.events := events;
    }

    /** `orig_image_buffer[image_count] = frame; image_count += 1` */
    method Push(f: Frame)
      requires Valid() && imageCount < bufferSize
      modifies buffer, this`imageCount
      ensures Valid() && imageCount == old(imageCount) + 1
      ensures buffer[..imageCount] == old(buffer[..imageCount]) + [f]
    {
      buffer[imageCount] := f;
      imageCount := imageCount + 1;
    }

    /** A full buffer: zero-fill the sensitive slots in place, write every
        slot that the thinning test passes, empty the buffer and count one
        unit. */
    method FlushFull(preds: seq<bool>, thin: bool, keep: nat -> bool)
      requires Valid() && imageCount == bufferSize && |preds| == bufferSize
      modifies buffer, this`imageCount, this`frameIndex, this`written, this`processedUnits, this`events
      ensures Valid() && imageCount == 0
      ensures buffer[..] == ZeroFilled(old(buffer[..]), preds)
      ensures written == old(written) + Passed(buffer[..], old(frameIndex), thin, keep)
      ensures frameIndex == if thin then old(frameIndex) + bufferSize else old(frameIndex)
      ensures processedUnits == old(processedUnits) + 1
      ensures events == old(events) + [(processedUnits, totalUnits)]
    {
      MaskBatch(preds);
      var passed, index := PassBatch(thin, keep);
      written := written + passed;
      frameIndex := index;
      imageCount := 0;
      processedUnits := processedUnits + 1;
      events := events + [(processedUnits, totalUnits)];
    }

    /** The masking loop of a full flush: sensitive frames become black in
        place. */
    method MaskBatch(preds: seq<bool>)
      requires Valid() && |preds| == bufferSize
      modifies buffer
      ensures buffer[..] == ZeroFilled(old(buffer[..]), preds)
    {
      var i := 0;
      while i < bufferSize
        invariant 0 <= i <= bufferSize
        invariant forall k :: 0 <= k < i ==> buffer[k] == if preds[k] then Black else old(buffer[k])
        invariant forall k :: i <= k < bufferSize ==> buffer[k] == old(buffer[k])
        modifies buffer
      {
        if preds[i] {
          buffer[i] := Black;
        }
        i := i + 1;
      }
    }

    /** The writing loop of a full flush: each buffered frame goes through
        the fps test, and the frame index advances only when thinning. */
    method PassBatch(thin: bool, keep: nat -> bool) returns (out: seq<Frame>, index: nat)
      requires Valid()
      ensures out == Passed(buffer[..], frameIndex, thin, keep)
      ensures index == if thin then frameIndex + bufferSize else frameIndex
    {
      var j := 0;
      out := [];
      index := frameIndex;
      while j < bufferSize
        invariant 0 <= j <= bufferSize
        invariant index == if thin then frameIndex + j else frameIndex
        invariant out == Passed(buffer[..j], frameIndex, thin, keep)
      {
        PassedSnoc(buffer[..j], buffer[j], frameIndex, thin, keep);
        assert buffer[..j + 1] == buffer[..j] + [buffer[j]];
        if !thin || keep(index) {
          out := out + [buffer[j]];
        }
        if thin {
          index := index + 1;
        }
        j := j + 1;
      }
      assert buffer[..j] == buffer[..];
    }

    /** The end of a video with frames left in the buffer: copy them, give
        the sensitive ones their mean colour in the copy, write them all. */
    method FlushTail(preds: seq<bool>)
      requires Valid() && |preds| == imageCount
      modifies this`written
      ensures written == old(written) + MeanFilled(buffer[..imageCount], preds)
    {
      var n, source := imageCount, buffer;
      var copy := new Frame[n](k requires 0 <= k < n reads source => source[k]);
      var i := 0;
      while i < imageCount
        invariant 0 <= i <= imageCount
        invariant forall k :: 0 <= k < i ==> copy[k] == if preds[k] then MeanColor(buffer[k]) else buffer[k]
        invariant forall k :: i <= k < imageCount ==> copy[k] == buffer[k]
        modifies copy
      {
        if preds[i] {
          copy[i] := MeanColor(copy[i]);
        }
        i := i + 1;
      }
      assert copy[..] == MeanFilled(buffer[..imageCount], preds);
      written := written + copy[..];
    }

    /** The state after reading the first `k` frames of `v`. */
    ghost predicate Reading(v: Video, k: nat, start: nat, batches: nat, whole: seq<Frame>,
                            p0: nat, e0: seq<(int, int)>)
      reads this, buffer
    {
      Valid() &&
      ReadState(v, bufferSize, k, start, batches, whole, p0, e0, buffer[..imageCount], frameIndex,
                written, processedUnits, events, totalUnits)
    }

    /** One iteration of the frame loop: buffer the frame, and flush when the
        buffer is full. */
    method ReadFrame(v: Video, k: nat, ghost start: nat, ghost batches: nat, ghost whole: seq<Frame>,
                     ghost p0: nat, ghost e0: seq<(int, int)>)
      returns (ghost start': nat, ghost batches': nat)
      requires Reading(v, k, start, batches, whole, p0, e0) && k < |v.frames|
      modifies buffer, this`imageCount, this`frameIndex, this`written, this`processedUnits, this`events
      ensures Reading(v, k + 1, start', batches', whole, p0, e0)
    {
      ghost var buffered := buffer[..imageCount];
      Push(v.frames[k]);
      if imageCount == bufferSize {
        start', batches' := k + 1, batches + 1;
        FlushRead(v, k, start, batches, whole, p0, e0, buffered);
      } else {
        start', batches' := start, batches;
        ReadNoFlush(v, bufferSize, k, start, batches, whole, p0, e0, buffered, frameIndex, written,
                    processedUnits, events, totalUnits);
      }
    }

    /** The flush when frame `k` fills the buffer. */
    method FlushRead(v: Video, k: nat, ghost start: nat, ghost batches: nat, ghost whole: seq<Frame>,
                     ghost p0: nat, ghost e0: seq<(int, int)>, ghost buffered: seq<Frame>)
      requires Valid() && imageCount == bufferSize && k < |v.frames|
      requires ReadState(v, bufferSize, k, start, batches, whole, p0, e0, buffered, frameIndex, written,
                         processedUnits, events, totalUnits)
      requires buffer[..imageCount] == buffered + [v.frames[k]]
      modifies buffer, this`imageCount, this`frameIndex, this`written, this`processedUnits, this`events
      ensures Reading(v, k + 1, k + 1, batches + 1, whole, p0, e0)
    {
      ghost var fi, wr, pu, ev := frameIndex, written, processedUnits, events;
      ReadFlush(v, bufferSize, k, start, batches, whole, p0, e0, buffered, fi, wr, pu, ev, totalUnits, k + 1);
      var preds := v.labels[k + 1 - bufferSize..k + 1];
      assert buffer[..] == buffer[..imageCount];
      FlushFull(preds, v.thin, v.keep);
      assert buffer[..imageCount] == [];
    }

    /** One video: read every frame into the buffer, flush each full
        buffer, flush the tail, count the finished video. */
    method ProcessVideo(v: Video, curr: int, max: int, count: int)
      requires Valid() && |v.labels| == |v.frames|
      modifies buffer, this`imageCount, this`frameIndex, this`written, this`processedUnits, this`events
      ensures Valid() && totalUnits == old(totalUnits)
      ensures written == old(written) + VideoOutput(v.frames, v.labels, bufferSize, 0, v.thin, v.keep)
      ensures processedUnits == old(processedUnits) + VideoUnits(v, bufferSize)
      ensures events == old(events) + VideoEvents(old(processedUnits), v, bufferSize, totalUnits, curr, max, count)
    {
      var n := |v.frames|;
      imageCount := 0;
      frameIndex := 0;
      ghost var p0 := processedUnits;
      ghost var e0 := events;
      ghost var whole := written + VideoOutput(v.frames, v.labels, bufferSize, 0, v.thin, v.keep);
      ghost var start: nat := 0;
      ghost var batches: nat := 0;
      assert v.frames[0..] == v.frames && v.labels[0..] == v.labels;
      var k := 0;
      while k < n
        invariant k <= n && Reading(v, k, start, batches, whole, p0, e0)
      {
        start, batches := ReadFrame(v, k, start, batches, whole, p0, e0);
        k := k + 1;
      }
      FinishVideo(v, curr, max, count, start, batches, whole, p0, e0);
    }

    /** The end of one video: flush what is left in the buffer and count
        the finished video. */
    method FinishVideo(v: Video, curr: int, max: int, count: int, ghost start: nat, ghost batches: nat,
                       ghost whole: seq<Frame>, ghost p0: nat, ghost e0: seq<(int, int)>)
      requires Reading(v, |v.frames|, start, batches, whole, p0, e0)
      modifies this`written, this`processedUnits, this`events
      ensures written == whole
      ensures processedUnits == p0 + VideoUnits(v, bufferSize)
      ensures events == e0 + VideoEvents(p0, v, bufferSize, totalUnits, curr, max, count)
    {
      var k := |v.frames|;
      assert v.frames[start..] == v.frames[start..k] && v.labels[start..] == v.labels[start..k];
      if imageCount > 0 {
        FlushTail(v.labels[k - imageCount..k]);
      } else {
        assert MeanFilled(v.frames[start..], v.labels[start..]) == [];
      }
      processedUnits := processedUnits + 1;
      events := events + [(processedUnits, totalUnits), (curr + count, max)];
    }
  }

  /** The chunk count before the run: the sum over the videos of their
      frame counts divided by the buffer size, rounded up. */
  method CountChunks(videos: seq<Video>, bufferSize: nat) returns (totalChunks: nat)
    requires bufferSize > 0
    ensures totalChunks == TotalChunks(videos, bufferSize)
  {
    totalChunks := 0;
    var i := 0;
    while i < |videos|
      invariant 0 <= i <= |videos|
      invariant totalChunks == TotalChunks(videos[..i], bufferSize)
    {
      assert videos[..i + 1][..i] == videos[..i];
      totalChunks := totalChunks + Ceil(videos[i].frameCount, bufferSize);
      i := i + 1;
    }
    assert videos[..i] == videos;
  }

  /** `run_advanced_inference` over a patient's videos. An empty video list
      divides nothing and reaches `video_out.close()` with `video_out` never
      assigned; otherwise a zero buffer size fails in the chunk count. */
  method RunAdvancedInference(videos: seq<Video>, bufferSize: nat, curr: int, max: int) returns (r: Result<Run>)
    requires Labelled(videos)
    ensures |videos| == 0 ==> r == Failure(UnboundLocalError)
    ensures |videos| > 0 && bufferSize == 0 ==> r == Failure(ZeroDivisionError)
    ensures |videos| > 0 && bufferSize > 0 ==>
              r == Success(Run(RunOutput(videos, bufferSize),
                               [(curr, max)] + RunEvents(videos, bufferSize, TotalChunks(videos, bufferSize), curr, max, |videos|)
                                 + [(curr + |videos|, max)],
                               TotalChunks(videos, bufferSize), UnitsProcessed(videos, bufferSize)))
  {
    if |videos| == 0 {
      return Failure(UnboundLocalError);
    }
    if bufferSize == 0 {
      return Failure(ZeroDivisionError);
    }
    var totalChunks := CountChunks(videos, bufferSize);
    var run := new Inference(bufferSize, totalChunks, [(curr, max)]);
    var j := 0;
    while j < |videos|
      invariant 0 <= j <= |videos| && run.Valid()
      invariant run.bufferSize == bufferSize && run.totalUnits == totalChunks
      invariant run.written == RunOutput(videos[..j], bufferSize)
      invariant run.processedUnits == UnitsProcessed(videos[..j], bufferSize)
      invariant run.events == [(curr, max)] + RunEvents(videos[..j], bufferSize, totalChunks, curr, max, |videos|)
    {
      RunSnoc(videos, j, bufferSize, totalChunks, curr, max, |videos|, [(curr, max)]);
      run.ProcessVideo(videos[j], curr, max, |videos|);
      j := j + 1;
    }
    assert videos[..j] == videos;
    r := Success(Run(run.written, run.events + [(curr + |videos|, max)], run.totalUnits, run.processedUnits));
  }

  // ---------------------------------------------------------------------------
  // Step lemmas for the loops
  // ---------------------------------------------------------------------------

  /** One more video in the run: output, units and events each grow by
      that video's share. */
  lemma RunSnoc(videos: seq<Video>, j: nat, bs: nat, total: int, curr: int, max: int, count: int,
                e0: seq<(int, int)>)
    requires bs > 0 && Labelled(videos) && j < |videos|
    ensures Labelled(videos[..j]) && Labelled(videos[..j + 1])
    ensures RunOutput(videos[..j + 1], bs) ==
              RunOutput(videos[..j], bs) + VideoOutput(videos[j].frames, videos[j].labels, bs, 0, videos[j].thin, videos[j].keep)
    ensures UnitsProcessed(videos[..j + 1], bs) == UnitsProcessed(videos[..j], bs) + VideoUnits(videos[j], bs)
    ensures e0 + RunEvents(videos[..j + 1], bs, total, curr, max, count) ==
              (e0 + RunEvents(videos[..j], bs, total, curr, max, count)) +
              VideoEvents(UnitsProcessed(videos[..j], bs), videos[j], bs, total, curr, max, count)
  {
    assert videos[..j + 1][..j] == videos[..j];
  }

  /** The frame loop's state, on values: the frames since the last full
      flush are buffered, what is written so far plus what the rest of the
      video will add is the whole output, and the counters match the
      flushes done. */
  ghost predicate ReadState(v: Video, bs: nat, k: nat, start: nat, batches: nat, whole: seq<Frame>,
                            p0: nat, e0: seq<(int, int)>, buffered: seq<Frame>, frameIndex: nat,
                            written: seq<Frame>, processed: nat, events: seq<(int, int)>, total: nat)
  {
    bs > 0 && |v.labels| == |v.frames| && start <= k <= |v.frames| &&
    |buffered| == k - start && |buffered| < bs && buffered == v.frames[start..k] &&
    frameIndex == (if v.thin then start else 0) &&
    written + VideoOutput(v.frames[start..], v.labels[start..], bs, start, v.thin, v.keep) == whole &&
    Batches(|v.frames|, bs) == batches + Batches(|v.frames| - start, bs) &&
    processed == p0 + batches && events == e0 + Ticks(p0, batches, total)
  }

  /** A frame that does not fill the buffer is only buffered. */
  lemma ReadNoFlush(v: Video, bs: nat, k: nat, start: nat, batches: nat, whole: seq<Frame>,
                    p0: nat, e0: seq<(int, int)>, buffered: seq<Frame>, frameIndex: nat,
                    written: seq<Frame>, processed: nat, events: seq<(int, int)>, total: nat)
    requires ReadState(v, bs, k, start, batches, whole, p0, e0, buffered, frameIndex, written, processed, events, total)
    requires k < |v.frames| && |buffered| + 1 < bs
    ensures ReadState(v, bs, k + 1, start, batches, whole, p0, e0, buffered + [v.frames[k]], frameIndex,
                      written, processed, events, total)
  {
    assert v.frames[start..k + 1] == v.frames[start..k] + [v.frames[k]];
  }

  /** A frame that fills the buffer: the flush writes the batch's share of
      the output and counts one more batch. */
  lemma ReadFlush(v: Video, bs: nat, k: nat, start: nat, batches: nat, whole: seq<Frame>,
                  p0: nat, e0: seq<(int, int)>, buffered: seq<Frame>, frameIndex: nat,
                  written: seq<Frame>, processed: nat, events: seq<(int, int)>, total: nat, next: nat)
    requires ReadState(v, bs, k, start, batches, whole, p0, e0, buffered, frameIndex, written, processed, events, total)
    requires k < |v.frames| && |buffered| + 1 == bs && next == k + 1
    ensures ReadState(v, bs, k + 1, next, batches + 1, whole, p0, e0, [],
                      if v.thin then frameIndex + bs else frameIndex,
                      written + Passed(ZeroFilled(buffered + [v.frames[k]], v.labels[k + 1 - bs..k + 1]), frameIndex, v.thin, v.keep),
                      processed + 1, events + [(processed + 1, total)], total)
  {
    ReadFlushOutput(v, bs, k, start, whole, buffered, frameIndex, written);
    assert start + bs == next;
    TicksSnoc(p0, batches, total);
    assert v.frames[next..next] == [];
  }

  /** The output half of `ReadFlush`. */
  lemma ReadFlushOutput(v: Video, bs: nat, k: nat, start: nat, whole: seq<Frame>,
                        buffered: seq<Frame>, frameIndex: nat, written: seq<Frame>)
    requires bs > 0 && |v.labels| == |v.frames| && start <= k < |v.frames|
    requires buffered == v.frames[start..k] && |buffered| + 1 == bs
    requires frameIndex == (if v.thin then start else 0)
    requires written + VideoOutput(v.frames[start..], v.labels[start..], bs, start, v.thin, v.keep) == whole
    ensures written + Passed(ZeroFilled(buffered + [v.frames[k]], v.labels[k + 1 - bs..k + 1]), frameIndex, v.thin, v.keep)
              + VideoOutput(v.frames[start + bs..], v.labels[start + bs..], bs, start + bs, v.thin, v.keep) == whole
    ensures Batches(|v.frames| - start, bs) == 1 + Batches(|v.frames| - (start + bs), bs)
  {
    var batch := v.frames[start..start + bs];
    var preds := v.labels[start..start + bs];
    assert buffered + [v.frames[k]] == batch;
    assert v.labels[k + 1 - bs..k + 1] == preds;
    var out := Passed(ZeroFilled(batch, preds), start, v.thin, v.keep);
    assert Passed(ZeroFilled(batch, preds), frameIndex, v.thin, v.keep) == out;
    FlushKeeps(v.frames, v.labels, bs, start, v.thin, v.keep, written, written + out, whole);
  }

  lemma {:induction false} PassedSnoc(s: seq<Frame>, x: Frame, index: nat, thin: bool, keep: nat -> bool)
    ensures Passed(s + [x], index, thin, keep) ==
            Passed(s, index, thin, keep) + (if !thin || keep(index + |s|) then [x] else [])
    decreases |s|
  {
    if thin && |s| > 0 {
      assert (s + [x])[1..] == s[1..] + [x];
      PassedSnoc(s[1..], x, index + 1, thin, keep);
    } else if thin {
      assert s + [x] == [x];
    }
  }

  /** One full batch of the remaining frames, unfolded. */
  lemma FullStep(frames: seq<Frame>, labels: seq<bool>, bs: nat, start: nat, thin: bool, keep: nat -> bool)
    requires bs > 0 && |labels| == |frames| && start + bs <= |frames|
    ensures VideoOutput(frames[start..], labels[start..], bs, start, thin, keep) ==
            Passed(ZeroFilled(frames[start..start + bs], labels[start..start + bs]), start, thin, keep) +
            VideoOutput(frames[start + bs..], labels[start + bs..], bs, start + bs, thin, keep)
    ensures Batches(|frames| - start, bs) == 1 + Batches(|frames| - (start + bs), bs)
  {
    assert frames[start..][..bs] == frames[start..start + bs];
    assert labels[start..][..bs] == labels[start..start + bs];
    assert frames[start..][bs..] == frames[start + bs..];
    assert labels[start..][bs..] == labels[start + bs..];
  }

  /** The written frames before and after a full flush, against the whole output. */
  lemma FlushKeeps(frames: seq<Frame>, labels: seq<bool>, bs: nat, start: nat, thin: bool, keep: nat -> bool,
                   before: seq<Frame>, after: seq<Frame>, whole: seq<Frame>)
    requires bs > 0 && |labels| == |frames| && start + bs <= |frames|
    requires before + VideoOutput(frames[start..], labels[start..], bs, start, thin, keep) == whole
    requires after == before + Passed(ZeroFilled(frames[start..start + bs], labels[start..start + bs]), start, thin, keep)
    ensures after + VideoOutput(frames[start + bs..], labels[start + bs..], bs, start + bs, thin, keep) == whole
    ensures Batches(|frames| - start, bs) == 1 + Batches(|frames| - (start + bs), bs)
  {
    FullStep(frames, labels, bs, start, thin, keep);
  }

  lemma TicksSnoc(p: int, n: nat, total: int)
    ensures Ticks(p, n + 1, total) == Ticks(p, n, total) + [(p + n + 1, total)]
  {
    assert Ticks(p, n + 1, total)[..n] == Ticks(p, n, total);
  }

  // ---------------------------------------------------------------------------
  // What the output is
  // ---------------------------------------------------------------------------

  lemma MulAtLeast(t: int, d: nat)
    requires t >= 1
    ensures t * d >= d
    decreases t
  {
    if t > 1 {
      MulAtLeast(t - 1, d);
      assert t * d == (t - 1) * d + d;
    }
  }

  /** Quotient and remainder are the only ones with `x == q * d + r`, `0 <= r < d`. */
  lemma DivModUnique(x: nat, d: nat, q: int, r: int)
    requires d > 0 && 0 <= r < d && x == q * d + r
    ensures x / d == q && x % d == r
  {
    var t := q - x / d;
    assert t * d == x % d - r by {
      assert x == (x / d) * d + x % d;
      assert q * d - (x / d) * d == t * d;
    }
    if t >= 1 {
      MulAtLeast(t, d);
    } else if t <= -1 {
      MulAtLeast(-t, d);
    }
  }

  lemma ModStep(n: nat, bs: nat)
    requires 0 < bs <= n
    ensures (n - bs) % bs == n % bs && (n - bs) / bs == n / bs - 1
  {
    var q, r := (n - bs) / bs, (n - bs) % bs;
    assert n - bs == q * bs + r;
    assert n == (q + 1) * bs + r;
    DivModUnique(n, bs, q + 1, r);
  }

  /** The full batches are the first `n / bs` buffers. */
  lemma {:induction false} BatchesDiv(n: nat, bs: nat)
    requires bs > 0
    ensures Batches(n, bs) == n / bs
    decreases n
  {
    if n >= bs {
      BatchesDiv(n - bs, bs);
      ModStep(n, bs);
    }
  }

  lemma {:induction false} UnthinnedLength(frames: seq<Frame>, labels: seq<bool>, bs: nat, index: nat, keep: nat -> bool)
    requires bs > 0 && |labels| == |frames|
    ensures |VideoOutput(frames, labels, bs, index, false, keep)| == |frames|
    decreases |frames|
  {
    if |frames| >= bs {
      UnthinnedLength(frames[bs..], labels[bs..], bs, index + bs, keep);
    }
  }

  /** Without thinning every frame is written once and in place: a clear
      frame unchanged, a sensitive frame black when it falls in a full
      buffer and its mean colour when it falls in the tail. */
  lemma {:induction false} UnthinnedOutputAt(frames: seq<Frame>, labels: seq<bool>, bs: nat, index: nat,
                                             keep: nat -> bool, i: nat)
    requires bs > 0 && |labels| == |frames| && i < |frames|
    ensures var out := VideoOutput(frames, labels, bs, index, false, keep);
            |out| == |frames| &&
            out[i] == if !labels[i] then frames[i]
                      else if i < |frames| - |frames| % bs then Black
                      else MeanColor(frames[i])
    decreases |frames|
  {
    var n := |frames|;
    UnthinnedLength(frames, labels, bs, index, keep);
    if n < bs {
      assert n % bs == n by { DivModUnique(n, bs, 0, n); }
    } else {
      ModStep(n, bs);
      var head := ZeroFilled(frames[..bs], labels[..bs]);
      var rest := VideoOutput(frames[bs..], labels[bs..], bs, index + bs, false, keep);
      assert VideoOutput(frames, labels, bs, index, false, keep) == head + rest;
      if i < bs {
        assert (n - bs) % bs <= n - bs;
      } else {
        UnthinnedOutputAt(frames[bs..], labels[bs..], bs, index + bs, keep, i - bs);
        assert frames[bs..][i - bs] == frames[i] && labels[bs..][i - bs] == labels[i];
      }
    }
  }

  /** Thinning only ever drops frames. */
  lemma {:induction false} PassedFrom(frames: seq<Frame>, index: nat, thin: bool, keep: nat -> bool)
    ensures forall x :: x in Passed(frames, index, thin, keep) ==> x in frames
    decreases |frames|
  {
    if thin && |frames| > 0 {
      PassedFrom(frames[1..], index + 1, thin, keep);
    }
  }

  /** A frame that reaches the output of a video is black, a mean colour, or
      a frame of the video that the classifier labelled clear. */
  lemma {:induction false} OutputFrom(frames: seq<Frame>, labels: seq<bool>, bs: nat, index: nat,
                                      thin: bool, keep: nat -> bool)
    requires bs > 0 && |labels| == |frames|
    ensures forall x :: x in VideoOutput(frames, labels, bs, index, thin, keep) ==>
              x == Black || x.MeanColor? || exists j :: 0 <= j < |frames| && !labels[j] && x == frames[j]
    decreases |frames|
  {
    if |frames| >= bs {
      var batch := ZeroFilled(frames[..bs], labels[..bs]);
      PassedFrom(batch, index, thin, keep);
      OutputFrom(frames[bs..], labels[bs..], bs, index + bs, thin, keep);
      forall x | x in VideoOutput(frames, labels, bs, index, thin, keep)
        ensures x == Black || x.MeanColor? || exists j :: 0 <= j < |frames| && !labels[j] && x == frames[j]
      {
        if x in Passed(batch, index, thin, keep) {
          var j :| 0 <= j < bs && batch[j] == x;
          if !labels[j] { assert x == frames[j]; }
        } else {
          assert x in VideoOutput(frames[bs..], labels[bs..], bs, index + bs, thin, keep);
          if x != Black && !x.MeanColor? {
            var j :| 0 <= j < |frames| - bs && !labels[bs..][j] && x == frames[bs..][j];
            assert !labels[j + bs] && x == frames[j + bs];
          }
        }
      }
    }
  }

  /** No decoded frame the classifier labels sensitive reaches the output,
      when the video's decoded frames are distinct. */
  lemma NoSensitiveFrameWritten(frames: seq<Frame>, labels: seq<bool>, bs: nat, thin: bool, keep: nat -> bool, i: nat)
    requires bs > 0 && |labels| == |frames| && i < |frames| && labels[i] && frames[i].Decoded?
    requires forall j, l :: 0 <= j < l < |frames| ==> frames[j] != frames[l]
    ensures frames[i] !in VideoOutput(frames, labels, bs, 0, thin, keep)
  {
    OutputFrom(frames, labels, bs, 0, thin, keep);
  }

  // ---------------------------------------------------------------------------
  // Progress units
  // ---------------------------------------------------------------------------

  /** The videos whose frame count is a multiple of the buffer size. */
  function Multiples(videos: seq<Video>, bs: nat): nat
    requires bs > 0
  {
    if |videos| == 0 then 0
    else Multiples(videos[..|videos| - 1], bs) + (if videos[|videos| - 1].frameCount % bs == 0 then 1 else 0)
  }

  /** Per video, one unit per full buffer plus one for the video is the
      ceiling of frames over buffer size, plus one more when the division
      is exact. */
  lemma VideoUnitsCeil(n: nat, bs: nat)
    requires bs > 0
    ensures Batches(n, bs) + 1 == Ceil(n, bs) + (if n % bs == 0 then 1 else 0)
  {
    BatchesDiv(n, bs);
    var q, r := n / bs, n % bs;
    assert n == q * bs + r;
    if r == 0 {
      DivModUnique(n + bs - 1, bs, q, bs - 1);
    } else {
      assert n + bs - 1 == (q + 1) * bs + (r - 1);
      DivModUnique(n + bs - 1, bs, q + 1, r - 1);
    }
  }

  /** When every container reports its true frame count, the units counted
      exceed the precomputed total by the number of videos whose length is
      a multiple of the buffer size; the bar can overshoot but never stops
      short. */
  lemma {:induction false} UnitsAgainstTotal(videos: seq<Video>, bs: nat)
    requires bs > 0
    requires forall k :: 0 <= k < |videos| ==> videos[k].frameCount == |videos[k].frames|
    ensures UnitsProcessed(videos, bs) == TotalChunks(videos, bs) + Multiples(videos, bs)
    ensures UnitsProcessed(videos, bs) >= TotalChunks(videos, bs)
    decreases |videos|
  {
    if |videos| > 0 {
      var front := videos[..|videos| - 1];
      UnitsAgainstTotal(front, bs);
      VideoUnitsCeil(|videos[|videos| - 1].frames|, bs);
    }
  }
}
