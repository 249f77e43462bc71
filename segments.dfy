/** The segment synthesiser: per-frame labels from the classifier (0 = clear,
    1 = sensitive, one label per second of video) are smoothed in place and
    then cut into `(label, start, end)` runs by a scan that appends a `-1`
    sentinel. */
module Segments {
  import opened Wrappers

  /** The sentinel that flushes the final run. */
  const Sentinel: int := -1

  datatype Segment = Segment(value: int, start: int, end: int)

  // ---------------------------------------------------------------------------
  // Smoothing (delete_isolated_non_sensitive)
  // ---------------------------------------------------------------------------

  /** Frame i is a clear frame that the smoothing rule reclassifies: the first
      frame followed by a sensitive one, the last frame preceded by one, or an
      interior frame with a sensitive frame on both sides. Nothing happens
      below two frames. */
  predicate Isolated(s: seq<int>, i: int)
    requires 0 <= i < |s|
  {
    |s| >= 2 && s[i] == 0 &&
    ((i == 0 && s[1] == 1) ||
     (i == |s| - 1 && s[|s| - 2] == 1) ||
     (0 < i < |s| - 1 && s[i - 1] == 1 && s[i + 1] == 1))
  }

  /** The smoothing rule applied pointwise to the original labels. */
  function Smooth(s: seq<int>): seq<int>
  {
    seq(|s|, i requires 0 <= i < |s| => if Isolated(s, i) then 1 else s[i])
  }

  /** Smoothing in place, two boundary tests and then one left-to-right pass
      over the interior. Each flip happens next to a frame that is already
      sensitive, so the pass computes the pointwise rule on the original. */
  method DeleteIsolatedNonSensitive(arr: array<int>)
    modifies arr
    ensures arr[..] == Smooth(old(arr[..]))
  {
    var n := arr.Length;
    if n < 2 {
      return;
    }
    ghost var s := arr[..];
    ghost var t := Smooth(s);
    if arr[0] == 0 && arr[1] == 1 {
      arr[0] := 1;
    }
    if arr[n - 1] == 0 && arr[n - 2] == 1 {
      arr[n - 1] := 1;
    }
    assert arr[0] == t[0] && arr[n - 1] == t[n - 1];
    var j := 1;
    while j < n - 1
      invariant 1 <= j <= n - 1
      invariant forall i :: 0 <= i < j ==> arr[i] == t[i]
      invariant arr[n - 1] == t[n - 1]
      invariant forall i :: j <= i < n - 1 ==> arr[i] == s[i]
    {
      if arr[j] == 0 && arr[j - 1] == 1 && arr[j + 1] == 1 {
        arr[j] := 1;
      }
      j := j + 1;
    }
    assert arr[..] == t;
  }

  /** Fewer than two frames: nothing changes. */
  lemma SmoothShort(s: seq<int>)
    requires |s| < 2
    ensures Smooth(s) == s
  {
  }

  /** Smoothing keeps the length and only ever turns a 0 into a 1. */
  lemma SmoothOnlyRaises(s: seq<int>)
    ensures |Smooth(s)| == |s|
    ensures forall i :: 0 <= i < |s| && Smooth(s)[i] != s[i] ==> s[i] == 0 && Smooth(s)[i] == 1
    ensures forall i :: 0 <= i < |s| && s[i] == 1 ==> Smooth(s)[i] == 1
  {
  }

  /** The boundary rule, both directions. */
  lemma SmoothBoundary(s: seq<int>)
    requires |s| >= 2
    ensures s[0] == 0 ==> (Smooth(s)[0] == 1 <==> s[1] == 1)
    ensures s[|s| - 1] == 0 ==> (Smooth(s)[|s| - 1] == 1 <==> s[|s| - 2] == 1)
  {
  }

  /** The interior rule, both directions. */
  lemma SmoothInterior(s: seq<int>, i: int)
    requires 0 < i < |s| - 1 && s[i] == 0
    ensures Smooth(s)[i] == 1 <==> s[i - 1] == 1 && s[i + 1] == 1
  {
  }

  /** A frame that smoothing turns sensitive only ever has sensitive
      neighbours in the original, so a neighbour of a frame that stays
      clear was itself sensitive or clear before. */
  lemma RaisedNeighbour(s: seq<int>, i: int)
    requires 0 <= i < |s| && Smooth(s)[i] == 0
    ensures s[i] == 0
    ensures i > 0 ==> (Smooth(s)[i - 1] == 1 <==> s[i - 1] == 1)
    ensures i < |s| - 1 ==> (Smooth(s)[i + 1] == 1 <==> s[i + 1] == 1)
  {
  }

  /** After smoothing no clear frame qualifies for any rule, so a second
      application changes nothing. */
  lemma SmoothIdempotent(s: seq<int>)
    ensures Smooth(Smooth(s)) == Smooth(s)
  {
    var t := Smooth(s);
    forall i | 0 <= i < |t|
      ensures Smooth(t)[i] == t[i]
    {
      if t[i] == 0 {
        RaisedNeighbour(s, i);
        if |t| >= 2 {
          if i > 0 { assert t[i - 1] == 1 <==> s[i - 1] == 1; }
          if i < |t| - 1 { assert t[i + 1] == 1 <==> s[i + 1] == 1; }
        }
        assert !Isolated(t, i);
      }
    }
  }

  // ---------------------------------------------------------------------------
  // Run extraction (find_segments)
  // ---------------------------------------------------------------------------

  /** The scan over `a` from index j, with the current run starting at
      `start` and carrying label `cv`. On a change of label the run ends at j
      when the new label is truthy and at j - 1 when it is 0; a run whose end
      equals its start is skipped and neither `start` nor `cv` moves. */
  function ScanFrom(a: seq<int>, j: nat, start: int, cv: int): seq<Segment>
    requires j <= |a|
    decreases |a| - j
  {
    if j == |a| then []
    else if a[j] != cv then
      var end := if a[j] != 0 then j else j - 1;
      if end != start then [Segment(cv, start, end)] + ScanFrom(a, j + 1, end, a[j])
      else ScanFrom(a, j + 1, start, cv)
    else ScanFrom(a, j + 1, start, cv)
  }

  /** The runs of a non-empty label sequence, sentinel appended. */
  function Runs(s: seq<int>): seq<Segment>
    requires |s| >= 1
  {
    ScanFrom(s + [Sentinel], 0, 0, s[0])
  }

  /** What `find_segments` returns: smoothing first, then the runs; an empty
      input fails at `arr[0]`. */
  function Segmentation(s: seq<int>): Result<seq<Segment>>
  {
    if |s| == 0 then Failure(IndexError) else Success(Runs(Smooth(s)))
  }

  /** Smooths `arr` in place (the caller sees the change) and scans it. */
  method FindSegments(arr: array<int>) returns (r: Result<seq<Segment>>)
    modifies arr
    ensures arr[..] == Smooth(old(arr[..]))
    ensures r == Segmentation(old(arr[..]))
  {
    DeleteIsolatedNonSensitive(arr);
    if arr.Length == 0 {
      return Failure(IndexError);
    }
    var segments: seq<Segment> := [];
    var start := 0;
    var cv := arr[0];
    var a := arr[..] + [Sentinel];
    ghost var whole := Runs(arr[..]);
    var j := 0;
    while j < |a|
      modifies {}
      invariant 0 <= j <= |a|
      invariant segments + ScanFrom(a, j, start, cv) == whole
    {
      var v := a[j];
      ScanStep(a, j, start, cv, segments, whole);
      if v != cv {
        var end := if v != 0 then j else j - 1;
        if end != start {
          segments := segments + [Segment(cv, start, end)];
          start := end;
          cv := v;
        }
      }
      j := j + 1;
    }
    assert ScanFrom(a, j, start, cv) == [];
    assert segments == whole;
    return Success(segments);
  }

  /** One step of the scan loop keeps the emitted runs plus the rest of the
      scan equal to the whole scan. */
  lemma ScanStep(a: seq<int>, j: nat, start: int, cv: int, segments: seq<Segment>, whole: seq<Segment>)
    requires j < |a| && segments + ScanFrom(a, j, start, cv) == whole
    ensures var end := if a[j] != 0 then j else j - 1;
            if a[j] != cv && end != start
            then (segments + [Segment(cv, start, end)]) + ScanFrom(a, j + 1, end, a[j]) == whole
            else segments + ScanFrom(a, j + 1, start, cv) == whole
  {
    var end := if a[j] != 0 then j else j - 1;
    if a[j] != cv && end != start {
      var rest := ScanFrom(a, j + 1, end, a[j]);
      assert segments + ([Segment(cv, start, end)] + rest) == (segments + [Segment(cv, start, end)]) + rest;
    }
  }

  /** `pipeline`: the classifier's labels (or its failure) through
      `find_segments`. */
  function Pipeline(labels: Result<seq<int>>): (r: Result<seq<Segment>>)
    ensures labels.Failure? ==> r == Failure(labels.error)
    ensures labels.Success? && |labels.value| == 0 ==> r == Failure(IndexError)
    ensures labels.Success? && |labels.value| >= 1 && NoSentinel(labels.value) ==>
              r.Success? && Tiles(r.value, 0, |labels.value|) &&
              r.value[0].value == Smooth(labels.value)[0]
  {
    match labels
    case Failure(e) => Failure(e)
    case Success(s) =>
      if |s| >= 1 && NoSentinel(s) then
        SmoothNoSentinel(s);
        RunsShape(Smooth(s));
        Segmentation(s)
      else Segmentation(s)
  }

  // ---------------------------------------------------------------------------
  // Shape of the runs
  // ---------------------------------------------------------------------------

  predicate NoSentinel(s: seq<int>)
  {
    forall i :: 0 <= i < |s| ==> s[i] != Sentinel
  }

  /** `t` tiles [lo, hi): it starts at lo, ends at hi, each run is non-empty,
      consecutive runs touch, and consecutive labels differ. */
  predicate Tiles(t: seq<Segment>, lo: int, hi: int)
  {
    |t| >= 1 && t[0].start == lo && t[|t| - 1].end == hi &&
    (forall k :: 0 <= k < |t| ==> t[k].start < t[k].end) &&
    (forall k :: 0 <= k < |t| - 1 ==> t[k].end == t[k + 1].start) &&
    (forall k :: 0 <= k < |t| - 1 ==> t[k].value != t[k + 1].value)
  }

  /** Every run's label is one of the input labels. */
  predicate LabelsFrom(t: seq<Segment>, s: seq<int>)
  {
    forall k :: 0 <= k < |t| ==> t[k].value in s
  }

  lemma SmoothNoSentinel(s: seq<int>)
    requires NoSentinel(s)
    ensures NoSentinel(Smooth(s))
  {
  }

  /** Putting a run in front of a tiling of [run end, hi) that starts with a
      different label gives a tiling of [run start, hi). */
  lemma TilesCons(g: Segment, rest: seq<Segment>, hi: int)
    requires Tiles(rest, g.end, hi) && g.start < g.end && g.value != rest[0].value
    ensures Tiles([g] + rest, g.start, hi)
  {
    var t := [g] + rest;
    forall k | 0 <= k < |t| - 1
      ensures t[k].end == t[k + 1].start && t[k].value != t[k + 1].value
    {
      if k > 0 {
        assert t[k] == rest[k - 1] && t[k + 1] == rest[k];
      }
    }
    forall k | 0 <= k < |t|
      ensures t[k].start < t[k].end
    {
      if k > 0 {
        assert t[k] == rest[k - 1];
      }
    }
  }

  lemma LabelsCons(g: Segment, rest: seq<Segment>, s: seq<int>)
    requires LabelsFrom(rest, s) && g.value in s
    ensures LabelsFrom([g] + rest, s)
  {
    var t := [g] + rest;
    forall k | 0 <= k < |t|
      ensures t[k].value in s
    {
      if k > 0 {
        assert t[k] == rest[k - 1];
      }
    }
  }

  /** The scan invariant: with the sentinel still ahead and the current run
      begun before j, the rest of the scan tiles [start, end of input). */
  lemma {:induction false} ScanShape(a: seq<int>, j: nat, start: int, cv: int)
    requires |a| >= 1 && a[|a| - 1] == Sentinel
    requires forall i :: 0 <= i < |a| - 1 ==> a[i] != Sentinel
    requires 1 <= j <= |a| - 1 && 0 <= start < j
    requires cv != Sentinel && cv in a[..|a| - 1]
    ensures Tiles(ScanFrom(a, j, start, cv), start, |a| - 1)
    ensures ScanFrom(a, j, start, cv)[0].value == cv
    ensures LabelsFrom(ScanFrom(a, j, start, cv), a[..|a| - 1])
    decreases |a| - j
  {
    if j == |a| - 1 {
      ScanLast(a, j, start, cv);
    } else if a[j] != cv {
      var end := if a[j] != 0 then j else j - 1;
      if end != start {
        assert a[j] in a[..|a| - 1];
        ScanShape(a, j + 1, end, a[j]);
        ScanEmit(a, j, start, cv, end);
      } else {
        assert ScanFrom(a, j, start, cv) == ScanFrom(a, j + 1, start, cv);
        ScanShape(a, j + 1, start, cv);
      }
    } else {
      assert ScanFrom(a, j, start, cv) == ScanFrom(a, j + 1, start, cv);
      ScanShape(a, j + 1, start, cv);
    }
  }

  /** The scan meets the sentinel: the current run is the last one. */
  lemma ScanLast(a: seq<int>, j: nat, start: int, cv: int)
    requires |a| >= 1 && a[|a| - 1] == Sentinel
    requires j == |a| - 1 && 0 <= start < j
    requires cv != Sentinel && cv in a[..|a| - 1]
    ensures Tiles(ScanFrom(a, j, start, cv), start, |a| - 1)
    ensures ScanFrom(a, j, start, cv)[0].value == cv
    ensures LabelsFrom(ScanFrom(a, j, start, cv), a[..|a| - 1])
  {
    var g := Segment(cv, start, j);
    assert ScanFrom(a, j + 1, j, a[j]) == [];
    assert ScanFrom(a, j, start, cv) == [g];
    assert Tiles([g], start, |a| - 1);
    assert LabelsFrom([g], a[..|a| - 1]);
  }

  /** The label changes at j: the run [start, end) is emitted in front of
      the runs scanned from j + 1. */
  lemma ScanEmit(a: seq<int>, j: nat, start: int, cv: int, end: int)
    requires |a| >= 1 && a[|a| - 1] == Sentinel
    requires 1 <= j < |a| - 1 && 0 <= start < j && a[j] != cv
    requires end == (if a[j] != 0 then j else j - 1) && end != start
    requires cv != Sentinel && cv in a[..|a| - 1]
    requires Tiles(ScanFrom(a, j + 1, end, a[j]), end, |a| - 1)
    requires ScanFrom(a, j + 1, end, a[j])[0].value == a[j]
    requires LabelsFrom(ScanFrom(a, j + 1, end, a[j]), a[..|a| - 1])
    ensures Tiles(ScanFrom(a, j, start, cv), start, |a| - 1)
    ensures ScanFrom(a, j, start, cv)[0].value == cv
    ensures LabelsFrom(ScanFrom(a, j, start, cv), a[..|a| - 1])
  {
    var s := a[..|a| - 1];
    var g := Segment(cv, start, end);
    var rest := ScanFrom(a, j + 1, end, a[j]);
    assert ScanFrom(a, j, start, cv) == [g] + rest;
    TilesCons(g, rest, |a| - 1);
    LabelsCons(g, rest, s);
  }

  /** For a non-empty label sequence without the sentinel value, the runs tile
      [0, n): the first starts at 0 with the first label, the last ends at n,
      runs are non-empty, contiguous and alternate in label. */
  lemma RunsShape(s: seq<int>)
    requires |s| >= 1 && NoSentinel(s)
    ensures Tiles(Runs(s), 0, |s|)
    ensures Runs(s)[0].value == s[0]
    ensures LabelsFrom(Runs(s), s)
  {
    var a := s + [Sentinel];
    assert a[..|a| - 1] == s;
    assert a[0] == s[0];
    assert ScanFrom(a, 0, 0, s[0]) == ScanFrom(a, 1, 0, s[0]);
    ScanShape(a, 1, 0, s[0]);
  }

  function TotalDuration(t: seq<Segment>): int
  {
    if |t| == 0 then 0 else (t[0].end - t[0].start) + TotalDuration(t[1..])
  }

  /** Coverage: the durations of a tiling add up to its span, so the runs of
      n frames last n seconds in total. */
  lemma {:induction false} TilesDuration(t: seq<Segment>, lo: int, hi: int)
    requires Tiles(t, lo, hi)
    ensures TotalDuration(t) == hi - lo
    decreases |t|
  {
    if |t| > 1 {
      TilesDuration(t[1..], t[0].end, hi);
    }
  }

  /** Smoothing before `find_segments` (which smooths again) changes nothing. */
  lemma SegmentationIdempotent(s: seq<int>)
    ensures Segmentation(Smooth(s)) == Segmentation(s)
  {
    SmoothIdempotent(s);
  }

  // ---------------------------------------------------------------------------
  // Worked examples
  // ---------------------------------------------------------------------------

  /** A single frame yields exactly one run (unless its label is the sentinel value). */
  lemma SingleFrame(x: int)
    ensures Segmentation([x]) == Success(if x == Sentinel then [] else [Segment(x, 0, 1)])
  {
    var a := [x] + [Sentinel];
    assert Smooth([x]) == [x];
    assert a[0] == x && a[1] == Sentinel;
    var t := ScanFrom(a, 0, 0, x);
    assert t == ScanFrom(a, 1, 0, x);
    assert Segmentation([x]) == Success(t);
    if x == Sentinel {
      assert ScanFrom(a, 1, 0, x) == ScanFrom(a, 2, 0, x) == [];
    } else {
      assert ScanFrom(a, 2, 1, Sentinel) == [];
      assert ScanFrom(a, 1, 0, x) == [Segment(x, 0, 1)] + ScanFrom(a, 2, 1, Sentinel);
      assert t == [Segment(x, 0, 1)];
    }
  }

  /** [1,0,1]: the middle frame flips and one run remains. */
  lemma ScenarioB()
    ensures Segmentation([1, 0, 1]) == Success([Segment(1, 0, 3)])
  {
    var s := [1, 0, 1];
    assert Isolated(s, 1);
    assert Smooth(s) == [1, 1, 1];
    var a := [1, 1, 1] + [Sentinel];
    assert a == [1, 1, 1, -1];
    var t3 := ScanFrom(a, 3, 0, 1);
    assert t3 == [Segment(1, 0, 3)] + ScanFrom(a, 4, 3, -1);
    assert ScanFrom(a, 2, 0, 1) == t3;
    assert ScanFrom(a, 1, 0, 1) == t3;
    assert ScanFrom(a, 0, 0, 1) == t3;
    assert Runs(Smooth(s)) == t3;
    assert t3 == [Segment(1, 0, 3)];
  }

  /** [0,0,1,0,0,1,1,0,0]: nothing is smoothed (no clear frame has two
      sensitive neighbours), and a run followed by a clear frame ends one
      frame early. */
  lemma ScenarioA()
    ensures Segmentation([0, 0, 1, 0, 0, 1, 1, 0, 0]) ==
            Success([Segment(0, 0, 2), Segment(1, 2, 3), Segment(0, 3, 5),
                     Segment(1, 5, 6), Segment(0, 6, 9)])
  {
    var s := [0, 0, 1, 0, 0, 1, 1, 0, 0];
    assert forall i | 0 <= i < |s| :: !Isolated(s, i);
    assert Smooth(s) == s;
    var a := s + [Sentinel];
    assert a == [0, 0, 1, 0, 0, 1, 1, 0, 0, -1];
    var t9 := ScanFrom(a, 9, 6, 0);
    assert t9 == [Segment(0, 6, 9)] + ScanFrom(a, 10, 9, -1);
    assert ScanFrom(a, 8, 6, 0) == t9;
    var t7 := ScanFrom(a, 7, 5, 1);
    assert t7 == [Segment(1, 5, 6)] + t9;
    assert ScanFrom(a, 6, 5, 1) == t7;
    var t5 := ScanFrom(a, 5, 3, 0);
    assert t5 == [Segment(0, 3, 5)] + t7;
    var t4 := ScanFrom(a, 4, 2, 1);
    assert t4 == [Segment(1, 2, 3)] + t5;
    assert ScanFrom(a, 3, 2, 1) == t4;
    var t2 := ScanFrom(a, 2, 0, 0);
    assert t2 == [Segment(0, 0, 2)] + t4;
    assert ScanFrom(a, 1, 0, 0) == t2;
    assert ScanFrom(a, 0, 0, 0) == t2;
    assert Runs(Smooth(s)) == t2;
    assert t9 == [Segment(0, 6, 9)];
    assert t7 == [Segment(1, 5, 6), Segment(0, 6, 9)];
    assert t5 == [Segment(0, 3, 5), Segment(1, 5, 6), Segment(0, 6, 9)];
    assert t2 == [Segment(0, 0, 2), Segment(1, 2, 3), Segment(0, 3, 5), Segment(1, 5, 6), Segment(0, 6, 9)];
  }

  /** [1,1,0,0,1,1]: the clear run [2,4) is reported as [1,4) because the
      run before it ends at j - 1. */
  lemma ShiftedClearRun()
    ensures Segmentation([1, 1, 0, 0, 1, 1]) ==
            Success([Segment(1, 0, 1), Segment(0, 1, 4), Segment(1, 4, 6)])
  {
    var s := [1, 1, 0, 0, 1, 1];
    assert forall i | 0 <= i < |s| :: !Isolated(s, i);
    assert Smooth(s) == s;
    var a := s + [Sentinel];
    assert a == [1, 1, 0, 0, 1, 1, -1];
    var t6 := ScanFrom(a, 6, 4, 1);
    assert t6 == [Segment(1, 4, 6)] + ScanFrom(a, 7, 6, -1);
    assert ScanFrom(a, 5, 4, 1) == t6;
    var t4 := ScanFrom(a, 4, 1, 0);
    assert t4 == [Segment(0, 1, 4)] + t6;
    assert ScanFrom(a, 3, 1, 0) == t4;
    var t2 := ScanFrom(a, 2, 0, 1);
    assert t2 == [Segment(1, 0, 1)] + t4;
    assert ScanFrom(a, 1, 0, 1) == t2;
    assert ScanFrom(a, 0, 0, 1) == t2;
    assert Runs(Smooth(s)) == t2;
    assert t6 == [Segment(1, 4, 6)];
    assert t2 == [Segment(1, 0, 1), Segment(0, 1, 4), Segment(1, 4, 6)];
  }
}
