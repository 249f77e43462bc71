/** The video merger screen: the progress bar's percentage and ETA timer,
    the resolution check that guards a patient's selection, the guards in
    front of processing, and the per-patient video table. */
module Merger {
  import opened Wrappers

  // ---------------------------------------------------------------------------
  // Progress percentage (update_progress)
  // ---------------------------------------------------------------------------

  /** Python's `int(a / b)` for `b > 0`: the quotient rounded toward zero. */
  function TruncDiv(a: int, b: int): (q: int)
    requires b > 0
    ensures a >= 0 ==> q >= 0 && q * b <= a < (q + 1) * b
    ensures a < 0 ==> q <= 0 && (q - 1) * b < a <= q * b
  {
    if a >= 0 then
      DivBounds(a, b);
      a / b
    else
      DivBounds(-a, b);
      -((-a) / b)
  }

  /** Euclidean division of a non-negative number brackets it between two
      consecutive multiples, read from either side of zero. */
  lemma DivBounds(a: nat, b: int)
    requires b > 0
    ensures a / b >= 0 && (a / b) * b <= a < (a / b + 1) * b
    ensures (-(a / b) - 1) * b < -(a as int) <= -(a / b) * b
  {
    var q, r := a / b, a % b;
    assert a == q * b + r;
    assert (q + 1) * b == q * b + b;
    assert (-q - 1) * b == -(q * b) - b;
    assert -q * b == -(q * b);
  }

  /** `max(0, min(100, pct))` */
  function Clamp(pct: int): (c: int)
    ensures 0 <= c <= 100
    ensures 0 <= pct <= 100 ==> c == pct
    ensures pct < 0 ==> c == 0
    ensures pct > 100 ==> c == 100
  {
    if pct < 0 then 0 else if pct > 100 then 100 else pct
  }

  /** The bar value `update_progress` sets: 0 without a positive total,
      otherwise `int(current / total * 100)` clamped to [0, 100]. */
  function Percent(current: int, total: int): (pct: int)
    ensures 0 <= pct <= 100
    ensures total <= 0 ==> pct == 0
    ensures total > 0 && current <= 0 ==> pct == 0
    ensures total > 0 && current >= total ==> pct == 100
    ensures total > 0 && 0 <= current <= total ==> pct * total <= 100 * current < (pct + 1) * total
  {
    if total > 0 then
      var q := TruncDiv(100 * current, total);
      QuotientRange(current, total, q);
      Clamp(q)
    else 0
  }

  /** Where the raw quotient falls relative to 0 and 100. */
  lemma QuotientRange(current: int, total: int, q: int)
    requires total > 0 && q == TruncDiv(100 * current, total)
    ensures current <= 0 ==> q <= 0
    ensures current >= total ==> q >= 100
    ensures 0 <= current <= total ==> 0 <= q <= 100
  {
    if current >= total {
      if q < 100 {
        MulMonotone(q + 1, 100, total);
        assert false;
      }
    }
    if 0 <= current <= total && q > 100 {
      MulMonotone(101, q, total);
      assert false;
    }
  }

  lemma {:induction false} TruncDivMonotone(a: int, b: int, d: int)
    requires d > 0 && a <= b
    ensures TruncDiv(a, d) <= TruncDiv(b, d)
  {
    var qa, qb := TruncDiv(a, d), TruncDiv(b, d);
    if qa > qb {
      MulMonotone(qb + 1, qa, d);
      if a < 0 && b < 0 {
        MulMonotone(qb, qa - 1, d);
      }
      assert false;
    }
  }

  lemma MulMonotone(x: int, y: int, d: nat)
    requires x <= y
    ensures x * d <= y * d
  {
  }

  /** For a fixed positive total, a later step never shows a smaller
      percentage. */
  lemma PercentMonotone(c1: int, c2: int, total: int)
    requires c1 <= c2
    ensures Percent(c1, total) <= Percent(c2, total)
  {
    if total > 0 {
      TruncDivMonotone(100 * c1, 100 * c2, total);
    }
  }

  // ---------------------------------------------------------------------------
  // Resolution check (copy_selected_videos)
  // ---------------------------------------------------------------------------

  datatype Resolution = Resolution(width: int, height: int)

  /** `_gather_resolutions`: the probed resolution of every path, `None` for
      a file that cannot be opened; a path listed twice is one key. */
  method GatherResolutions(paths: seq<string>, probe: string -> Option<Resolution>)
    returns (resolutions: map<string, Option<Resolution>>)
    ensures resolutions.Keys == set p | p in paths
    ensures forall p :: p in resolutions ==> resolutions[p] == probe(p)
  {
    resolutions := map[];
    var k := 0;
    while k < |paths|
      invariant 0 <= k <= |paths|
      invariant resolutions.Keys == set p | p in paths[..k]
      invariant forall p :: p in resolutions ==> resolutions[p] == probe(p)
    {
      assert paths[..k + 1] == paths[..k] + [paths[k]];
      resolutions := resolutions[paths[k] := probe(paths[k])];
      k := k + 1;
    }
    assert paths[..k] == paths;
  }

  /** `unique_sizes`: the distinct readable resolutions. */
  function UniqueSizes(resolutions: map<string, Option<Resolution>>): set<Resolution>
  {
    set p | p in resolutions && resolutions[p].Some? :: resolutions[p].value
  }

  /** The mismatch test: more than one distinct size, or an unreadable file. */
  predicate Mismatch(resolutions: map<string, Option<Resolution>>)
  {
    |UniqueSizes(resolutions)| > 1 || None in resolutions.Values
  }

  /** The selection passes exactly when every file was readable and all of
      them share one resolution; an empty selection passes. */
  lemma {:induction false} MismatchMeans(resolutions: map<string, Option<Resolution>>)
    ensures !Mismatch(resolutions) <==>
              forall p, q :: p in resolutions && q in resolutions ==>
                resolutions[p].Some? && resolutions[p] == resolutions[q]
  {
    var sizes := UniqueSizes(resolutions);
    if !Mismatch(resolutions) {
      forall p, q | p in resolutions && q in resolutions
        ensures resolutions[p].Some? && resolutions[p] == resolutions[q]
      {
        assert resolutions[p] in resolutions.Values && resolutions[q] in resolutions.Values;
        assert resolutions[p].value in sizes && resolutions[q].value in sizes;
        if resolutions[p] != resolutions[q] {
          assert {resolutions[p].value, resolutions[q].value} <= sizes;
          assert |{resolutions[p].value, resolutions[q].value}| == 2;
          SubsetCard({resolutions[p].value, resolutions[q].value}, sizes);
        }
      }
    } else if None in resolutions.Values {
      var p :| p in resolutions && resolutions[p] == None;
    } else {
      var x :| x in sizes;
      assert |sizes - {x}| >= 1;
      var y :| y in sizes - {x};
      var p :| p in resolutions && resolutions[p].Some? && resolutions[p].value == x;
      var q :| q in resolutions && resolutions[q].Some? && resolutions[q].value == y;
      assert resolutions[p] != resolutions[q];
    }
  }

  lemma SubsetCard<T>(a: set<T>, b: set<T>)
    requires a <= b
    ensures |a| <= |b|
  {
    assert b == a + (b - a);
  }

  // ---------------------------------------------------------------------------
  // The merger screen's state
  // ---------------------------------------------------------------------------

  /** What `copy_selected_videos` did. */
  datatype CopyOutcome = NoFolder | NoPatientName | ResolutionMismatch | NoVideos | Copying

  /** What `merge_files` did. */
  datatype MergeOutcome = NothingToProcess | NoDestination | Started

  /** The guards of `merge_files`, in order. */
  function StartCheck(videoDict: map<string, seq<string>>, shared: string, local: string): (o: MergeOutcome)
    ensures o == Started <==> videoDict != map[] && shared != "" && local != ""
    ensures o == NothingToProcess <==> videoDict == map[]
  {
    if videoDict == map[] then NothingToProcess
    else if shared == "" then NoDestination
    else if local == "" then NoDestination
    else Started
  }

  /** A processing run handed to the worker: the patients and the two folders. */
  datatype Launch = Launch(videoDict: map<string, seq<string>>, shared: string, local: string)

  /** The value `QProgressBar.reset()` leaves: one below the bar's minimum,
      which is 0 here. A fresh bar holds it too. */
  const ResetValue: int := -1

  class VideoMerger {
    /** `_progress_start`: when the current timed phase began. */
    var progressStart: Option<int>
    /** The progress bar's value. */
    var barValue: int
    /** The folder the browser shows, and the patient being added. */
    var selectedFolder: string
    var patientName: string
    /** `selected_videos`: appended by every confirmed selection, cleared by `add_new_patient`. */
    var selectedVideos: seq<string>
    /** `video_dict`: patient name to the videos copied for that patient. */
    var videoDict: map<string, seq<string>>
    /** The patients listed on screen, top to bottom. */
    var nameList: seq<string>
    var sharedFolder: string
    var localFolder: string
    /** The runs started so far. */
    var launched: seq<Launch>

    constructor (sharedFolder: string, localFolder: string)
      ensures progressStart == None && barValue == ResetValue
      ensures selectedFolder == "" && patientName == "" && selectedVideos == []
      ensures videoDict == map[] && nameList == [] && launched == []
      ensures this.sharedFolder == sharedFolder && this.localFolder == localFolder
    {
      progressStart := None;
      barValue := ResetValue;
      selectedFolder := "";
      patientName := "";
      selectedVideos := [];
      videoDict := map[];
      nameList := [];
      this.sharedFolder := sharedFolder;
      this.localFolder := localFolder;
      launched := [];
    }

    /** `update_progress`: set the bar, start the ETA timer on a timed
        phase if it is not running, stop it once `current` reaches `total`. */
    method UpdateProgress(current: int, total: int, isCopying: bool, now: int)
      modifies this`barValue, this`progressStart
      ensures barValue == Percent(current, total)
      ensures current >= total ==> progressStart == None
      ensures current < total ==>
                progressStart == if !isCopying && old(progressStart).None? then Some(now) else old(progressStart)
    {
      var pct := if total > 0 then TruncDiv(100 * current, total) else 0;
      pct := Clamp(pct);
      barValue := pct;
      if !isCopying {
        if progressStart.None? {
          progressStart := Some(now);
        }
      }
      if current >= total {
        progressStart := None;
      }
    }

    /** `copy_selected_videos`: `pending` is the browser's list of selected
        paths, `probe` opens a file and reads its size. */
    method CopySelectedVideos(nameInput: string, pending: seq<string>, probe: string -> Option<Resolution>)
      returns (o: CopyOutcome)
      modifies this`patientName, this`selectedVideos, this`videoDict, this`nameList, this`barValue
      ensures selectedFolder == "" ==> o == NoFolder
      ensures selectedFolder != "" && nameInput == "" ==> o == NoPatientName
      ensures o == ResolutionMismatch <==>
                selectedFolder != "" && nameInput != "" &&
                exists p, q :: p in pending && q in pending && (probe(p).None? || probe(p) != probe(q))
      ensures o == NoVideos <==> selectedFolder != "" && nameInput != "" && pending == []
      ensures o == Copying ==>
                selectedVideos == old(selectedVideos) + pending &&
                videoDict == old(videoDict)[nameInput := selectedVideos] &&
                nameList == old(nameList) + [nameInput]
      ensures o != Copying ==>
                selectedVideos == old(selectedVideos) && videoDict == old(videoDict) && nameList == old(nameList)
      ensures o != NoFolder ==> patientName == nameInput
      ensures o == NoFolder ==> patientName == old(patientName)
      ensures o == NoVideos ==> barValue == ResetValue
      ensures o != NoVideos ==> barValue == old(barValue)
    {
      if selectedFolder == "" {
        return NoFolder;
      }
      patientName := nameInput;
      if patientName == "" {
        return NoPatientName;
      }
      var resolutions := GatherResolutions(pending, probe);
      MismatchMeans(resolutions);
      if Mismatch(resolutions) {
        return ResolutionMismatch;
      }
      if |pending| == 0 {
        barValue := ResetValue;
        return NoVideos;
      }
      selectedVideos := selectedVideos + pending;
      videoDict := videoDict[patientName := selectedVideos];
      nameList := nameList + [patientName];
      o := Copying;
    }

    /** `merge_files`: refuse without patients or without both folders;
        otherwise start the timer and the worker. */
    method MergeFiles(now: int) returns (o: MergeOutcome)
      modifies this`barValue, this`progressStart, this`launched
      ensures o == StartCheck(videoDict, sharedFolder, localFolder)
      ensures o == Started ==>
                barValue == old(barValue) && progressStart == Some(now) && launched == old(launched) + [Launch(videoDict, sharedFolder, localFolder)]
      ensures o != Started ==> barValue == ResetValue && progressStart == old(progressStart) && launched == old(launched)
    {
      if videoDict == map[] {
        barValue := ResetValue;
        return NothingToProcess;
      }
      if sharedFolder == "" {
        barValue := ResetValue;
        return NoDestination;
      }
      if localFolder == "" {
        barValue := ResetValue;
        return NoDestination;
      }
      progressStart := Some(now);
      launched := launched + [Launch(videoDict, sharedFolder, localFolder)];
      o := Started;
    }

    /** `remove_patient_confirmation_dialog`: on confirmation, drop the
        selected patient's row and its videos. */
    method RemovePatient(confirmed: bool, selected: Option<nat>)
      requires selected.Some? ==> selected.value < |nameList|
      modifies this`videoDict, this`nameList, this`barValue
      ensures confirmed && selected.Some? ==>
                var row := selected.value;
                nameList == old(nameList[..row] + nameList[row + 1..]) &&
                videoDict == old(videoDict) - {old(nameList[row])}
      ensures !(confirmed && selected.Some?) ==> nameList == old(nameList) && videoDict == old(videoDict)
      ensures confirmed ==> barValue == ResetValue
      ensures !confirmed ==> barValue == old(barValue)
    {
      if confirmed {
        if selected.Some? {
          var name := nameList[selected.value];
          if name in videoDict {
            videoDict := videoDict - {name};
          }
          nameList := nameList[..selected.value] + nameList[selected.value + 1..];
          barValue := ResetValue;
        } else {
          barValue := ResetValue;
        }
      }
    }
  }
}
