/** The progress and post-processor hooks that the download threads of the
    two graphical front ends hand to the downloader: the integer percent, the
    once-per-change status line, the ten-percent progress log, the finished
    path, and the post-processor hook that reports the merged file once. */
module Hooks {
  import opened Wrappers
  import Text

  /** One progress dictionary; byte counts and strings are `0`/`""` when missing. */
  datatype Progress = Progress(
    status: string, downloadedBytes: nat, totalBytes: nat, totalBytesEstimate: nat,
    speed: string, filename: string, error: string)

  /** A computed percent, and whether it came from the size estimate. */
  datatype Reading = Reading(percent: nat, estimated: bool)

  /** The byte count the percent is taken against. */
  function Denominator(d: Progress): nat
  {
    if d.totalBytes != 0 then d.totalBytes else d.totalBytesEstimate
  }

  /** `int(downloaded / total * 100)`, taken against `total_bytes` and else
      `total_bytes_estimate`, or nothing when neither is usable. */
  function PercentOf(d: Progress): (r: Option<Reading>)
    ensures r.Some? <==> d.downloadedBytes != 0 && Denominator(d) != 0
    ensures r.Some? ==> (r.value.estimated <==> d.totalBytes == 0)
    ensures r.Some? ==> r.value.percent * Denominator(d) <= d.downloadedBytes * 100 < (r.value.percent + 1) * Denominator(d)
  {
    if d.downloadedBytes != 0 && d.totalBytes != 0 then
      Text.PercentIsFloor(d.downloadedBytes, d.totalBytes);
      Some(Reading(Text.Percent(d.downloadedBytes, d.totalBytes), false))
    else if d.downloadedBytes != 0 && d.totalBytesEstimate != 0 then
      Text.PercentIsFloor(d.downloadedBytes, d.totalBytesEstimate);
      Some(Reading(Text.Percent(d.downloadedBytes, d.totalBytesEstimate), true))
    else None
  }

  lemma MulLe(a: nat, b: nat, t: nat)
    requires a <= b
    ensures a * t <= b * t
  {
    var c := b - a;
    assert b * t == a * t + c * t;
  }

  /** A floored percent of `n` out of `t` is at most 100 while `n <= t`, and
      is 100 exactly when `n == t`. */
  lemma FlooredPercent(p: nat, n: nat, t: nat)
    requires t > 0 && n <= t
    requires p * t <= n * 100 < (p + 1) * t
    ensures p <= 100
    ensures p == 100 <==> n == t
  {
    MulLe(n, t, 100);
    if p > 100 {
      MulLe(101, p, t);
    }
    if n == t && p < 100 {
      MulLe(p + 1, 100, t);
    }
  }

  /** The percent never exceeds 100 while the download is within its size,
      and reaches 100 exactly when all bytes are in. */
  lemma PercentBounded(d: Progress)
    requires PercentOf(d).Some? && d.downloadedBytes <= Denominator(d)
    ensures PercentOf(d).value.percent <= 100
    ensures PercentOf(d).value.percent == 100 <==> d.downloadedBytes == Denominator(d)
  {
    FlooredPercent(PercentOf(d).value.percent, d.downloadedBytes, Denominator(d));
  }

  /** The status line the hooks write. */
  datatype Status =
    | Waiting
    | Exact(percent: nat, downloaded: nat, total: nat)
    | Estimated(percent: nat)
    | Speed(text: string)
    | Merging
    | Processing
    | Converting
    | Failed(error: string)

  /** The fields the progress hook writes, taken together as a value. */
  datatype View = View(started: bool, lastPercent: Option<nat>, lastLogPercent: Option<nat>, bar: nat,
                       status: Status, currentDownloadPath: Option<string>, progressLog: seq<nat>)

  /** What one call of the progress hook that is not cancelled makes of those
      fields; `finished` is the status a finished download writes. */
  function ProgressStep(v: View, finished: Status, d: Progress): View
  {
    if d.status == "downloading" then
      match PercentOf(d)
      case Some(r) =>
        var logs := !r.estimated && (v.lastLogPercent.None? || r.percent / 10 > v.lastLogPercent.value / 10);
        v.(started := true, bar := r.percent, lastPercent := Some(r.percent),
           status := if v.lastPercent == Some(r.percent) then v.status
                     else if r.estimated then Estimated(r.percent)
                     else Exact(r.percent, d.downloadedBytes, d.totalBytes),
           progressLog := if logs then v.progressLog + [r.percent] else v.progressLog,
           lastLogPercent := if logs then Some(r.percent) else v.lastLogPercent)
      case None =>
        v.(started := true, status := if d.speed != "" then Speed(d.speed) else v.status)
    else if d.status == "finished" then
      v.(bar := 100,
         currentDownloadPath := if d.filename != "" then Some(d.filename) else v.currentDownloadPath,
         status := if d.filename != "" then finished else v.status)
    else if d.status == "error" then
      v.(status := Failed(if d.error != "" then d.error else "Unknown error"))
    else v
  }

  /** Each logged percent is in a later ten-percent step than the one before. */
  predicate DecadesIncrease(s: seq<nat>)
  {
    forall i, j :: 0 <= i < j < |s| ==> s[i] / 10 < s[j] / 10
  }

  lemma {:induction false} DecadesGrow(s: seq<nat>, k: nat)
    requires DecadesIncrease(s) && k < |s|
    ensures s[k] / 10 >= k
  {
    if k > 0 {
      DecadesGrow(s, k - 1);
    }
  }

  lemma AppendDecade(s: seq<nat>, p: nat)
    requires DecadesIncrease(s)
    requires s == [] || p / 10 > s[|s| - 1] / 10
    ensures DecadesIncrease(s + [p])
  {
    forall i, j | 0 <= i < j < |s| + 1 ensures (s + [p])[i] / 10 < (s + [p])[j] / 10 {
      if j == |s| {
        assert s[i] / 10 <= s[|s| - 1] / 10;
      }
    }
  }

  /** Within 0..100 percent there are at most eleven progress log lines. */
  lemma LogLinesBounded(s: seq<nat>)
    requires DecadesIncrease(s)
    requires forall k :: 0 <= k < |s| ==> s[k] <= 100
    ensures |s| <= 11
  {
    if s != [] {
      DecadesGrow(s, |s| - 1);
    }
  }

  /** The hook state of one download thread. `mp3` selects the MP3 thread's
      hook, `combined` a merged video+audio download. */
  class DownloadHooks {
    var cancelFlag: bool
    const combined: bool
    const mp3: bool
    var started: bool
    var lastPercent: Option<nat>
    var lastLogPercent: Option<nat>
    var bar: nat
    var status: Status
    var currentDownloadPath: Option<string>
    var reported: bool
    /** The percents the hook logged at DEBUG level, in order. */
    var progressLog: seq<nat>

    /** `last_log_percent` is the last logged percent and the log climbs by
        ten-percent steps. */
    predicate Valid()
      reads this
    {
      (lastLogPercent.None? <==> progressLog == []) &&
      (progressLog != [] ==> lastLogPercent == Some(progressLog[|progressLog| - 1])) &&
      DecadesIncrease(progressLog)
    }

    /** The thread start: no path yet, nothing reported, bar at 0. */
    constructor(combined: bool, mp3: bool, cancelFlag: bool)
      ensures Valid()
      ensures this.combined == combined && this.mp3 == mp3 && this.cancelFlag == cancelFlag
      ensures !started && lastPercent.None? && lastLogPercent.None? && bar == 0 && status == Waiting
      ensures currentDownloadPath.None? && !reported && progressLog == []
    {
      this.combined := combined;
      this.mp3 := mp3;
      this.cancelFlag := cancelFlag;
      started := false;
      lastPercent := None;
      lastLogPercent := None;
      bar := 0;
      status := Waiting;
      currentDownloadPath := None;
      reported := false;
      progressLog := [];
    }

    /** The fields the progress hook writes. */
    function Snapshot(): View
      reads this
    {
      View(started, lastPercent, lastLogPercent, bar, status, currentDownloadPath, progressLog)
    }

    /** Whether a reading is logged: the first one, or one in a later ten-percent step. */
    function LogsAt(p: nat): bool
      reads this
    {
      lastLogPercent.None? || p / 10 > lastLogPercent.value / 10
    }

    /** The status a new percent writes, or the old one when the percent repeats. */
    function StatusFor(r: Reading, d: Progress): Status
      reads this
    {
      if lastPercent == Some(r.percent) then status
      else if r.estimated then Estimated(r.percent)
      else Exact(r.percent, d.downloadedBytes, d.totalBytes)
    }

    /** The status a finished download writes. */
    function FinishedStatus(): Status
      reads this
    {
      if mp3 then Converting else if combined then Merging else Processing
    }

    /** `progress_hook`. */
    method ProgressHook(d: Progress)
      requires Valid()
      modifies this
      ensures Valid()
      ensures old(cancelFlag) ==> unchanged(this)
      ensures cancelFlag == old(cancelFlag) && reported == old(reported)
      ensures !old(cancelFlag) && d.status == "downloading" ==>
        started && currentDownloadPath == old(currentDownloadPath) &&
        match PercentOf(d)
        case Some(r) =>
          bar == r.percent && lastPercent == Some(r.percent) && status == old(StatusFor(r, d)) &&
          (if !r.estimated && old(LogsAt(r.percent))
           then progressLog == old(progressLog) + [r.percent] && lastLogPercent == Some(r.percent)
           else progressLog == old(progressLog) && lastLogPercent == old(lastLogPercent))
        case None =>
          bar == old(bar) && lastPercent == old(lastPercent) && lastLogPercent == old(lastLogPercent) &&
          progressLog == old(progressLog) && status == (if d.speed != "" then Speed(d.speed) else old(status))
      ensures !old(cancelFlag) && d.status == "finished" ==>
        bar == 100 && started == old(started) && lastPercent == old(lastPercent) &&
        lastLogPercent == old(lastLogPercent) && progressLog == old(progressLog) &&
        (if d.filename != "" then currentDownloadPath == Some(d.filename) && status == old(FinishedStatus())
         else currentDownloadPath == old(currentDownloadPath) && status == old(status))
      ensures !old(cancelFlag) && d.status == "error" ==>
        status == Failed(if d.error != "" then d.error else "Unknown error") &&
        bar == old(bar) && started == old(started) && lastPercent == old(lastPercent) &&
        lastLogPercent == old(lastLogPercent) && progressLog == old(progressLog) &&
        currentDownloadPath == old(currentDownloadPath)
      ensures d.status != "downloading" && d.status != "finished" && d.status != "error" ==> unchanged(this)
      ensures !old(cancelFlag) ==> Snapshot() == ProgressStep(old(Snapshot()), old(FinishedStatus()), d)
    {
      if cancelFlag {
        return;
      }
      if d.status == "downloading" {
        started := true;
        var reading := PercentOf(d);
        if reading.Some? {
          var p := reading.value.percent;
          bar := p;
          status := StatusFor(reading.value, d);
          lastPercent := Some(p);
          if !reading.value.estimated && LogsAt(p) {
            AppendDecade(progressLog, p);
            progressLog := progressLog + [p];
            lastLogPercent := Some(p);
          }
        } else if d.speed != "" {
          status := Speed(d.speed);
        }
      } else if d.status == "finished" {
        bar := 100;
        if d.filename != "" {
          currentDownloadPath := Some(d.filename);
          status := FinishedStatus();
        }
      } else if d.status == "error" {
        status := Failed(if d.error != "" then d.error else "Unknown error");
      }
    }

    /** `post_process_hook`: the first non-empty MoveFiles destination of a
        combined download, reported once. */
    method PostProcessHook(e: PostEvent)
      requires Valid()
      modifies this
      ensures Valid()
      ensures old(reported) ==> unchanged(this)
      ensures var fires := e.status == "finished" && combined && e.postprocessor == "MoveFiles" &&
                           e.destinations != [] && !old(reported) && FirstNonEmpty(e.destinations).Some?;
              if fires then currentDownloadPath == Some(e.destinations[FirstNonEmpty(e.destinations).value]) && reported
              else unchanged(this)
      ensures cancelFlag == old(cancelFlag) && bar == old(bar) && status == old(status) && progressLog == old(progressLog)
      ensures started == old(started) && lastPercent == old(lastPercent) && lastLogPercent == old(lastLogPercent)
    {
      if e.status == "finished" && combined {
        if e.postprocessor == "MoveFiles" && e.destinations != [] && !reported {
          var i := 0;
          while i < |e.destinations|
            invariant 0 <= i <= |e.destinations|
            invariant forall j :: 0 <= j < i ==> e.destinations[j] == ""
            invariant unchanged(this)
          {
            if e.destinations[i] != "" {
              currentDownloadPath := Some(e.destinations[i]);
              reported := true;
              return;
            }
            i := i + 1;
          }
        }
      }
    }
  }

  /** A post-processor event: its status, its name, and the destinations of
      `__files_to_move` in order. */
  datatype PostEvent = PostEvent(status: string, postprocessor: string, destinations: seq<string>)

  /** The index of the first non-empty destination. */
  function FirstNonEmpty(ds: seq<string>): (r: Option<nat>)
    ensures r.Some? ==> r.value < |ds| && ds[r.value] != "" && forall j :: 0 <= j < r.value ==> ds[j] == ""
    ensures r.None? ==> forall j :: 0 <= j < |ds| ==> ds[j] == ""
  {
    if ds == [] then None
    else if ds[0] != "" then Some(0)
    else
      match FirstNonEmpty(ds[1..])
      case None => None
      case Some(i) => Some(i + 1)
  }
}
