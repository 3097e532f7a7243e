/** The lighter graphical front end (`yt-liteg.py`). It shares the window
    state, the hooks and the format table with the full front end and differs
    in the start of a download (video-only formats are always combined with
    audio), the fixed mp4 merge container, and the renaming of finished files
    to a free name. */
module Liteg {
  import opened Wrappers
  import opened Text
  import opened YdlOptions
  import opened Formats
  import opened Hooks
  import opened Clock
  import Dlite

  /** The duration line of the video panel. */
  function DurationLine(duration: nat): (r: string)
    ensures duration == 0 ==> r == "Unknown"
    ensures duration != 0 ==> ParseClock(r) == Some(duration)
  {
    if duration == 0 then DurationText(duration, "Unknown")
    else
      ParseClockText(duration);
      DurationText(duration, "Unknown")
  }

  /** The last index of `c` in `s`. */
  function LastIndexOfChar(s: string, c: char): (r: Option<nat>)
    ensures r.Some? ==> r.value < |s| && s[r.value] == c && forall j :: r.value < j < |s| ==> s[j] != c
    ensures r.None? ==> forall j :: 0 <= j < |s| ==> s[j] != c
  {
    if s == [] then None
    else if s[|s| - 1] == c then Some(|s| - 1)
    else LastIndexOfChar(s[..|s| - 1], c)
  }

  /** `os.path.splitext` on POSIX paths: the extension starts at the last dot
      of the last path component, unless only dots precede it there. */
  function SplitExt(p: string): (r: (string, string))
    ensures r.0 + r.1 == p
    ensures r.1 != [] ==> r.1[0] == '.' && forall k :: 0 < k < |r.1| ==> r.1[k] != '.' && r.1[k] != '/'
  {
    var dot := LastIndexOfChar(p, '.');
    var slash := LastIndexOfChar(p, '/');
    var start := if slash.Some? then slash.value + 1 else 0;
    if dot.Some? && dot.value >= start && exists k :: start <= k < dot.value && p[k] != '.' then
      assert p[..dot.value] + p[dot.value..] == p;
      (p[..dot.value], p[dot.value..])
    else (p, [])
  }

  /** The `counter`-th candidate `name_counter.ext`. */
  function Candidate(parts: (string, string), counter: nat): string
  {
    parts.0 + "_" + NatToString(counter) + parts.1
  }

  lemma CandidateInjective(parts: (string, string), a: nat, b: nat)
    requires Candidate(parts, a) == Candidate(parts, b)
    ensures a == b
  {
    var x, y := Candidate(parts, a), Candidate(parts, b);
    var lo := |parts.0| + 1;
    var na, nb := NatToString(a), NatToString(b);
    assert |na| == |nb|;
    assert x[lo..lo + |na|] == na;
    assert y[lo..lo + |nb|] == nb;
    NatToStringInjective(a, b);
  }

  /** `get_unique_filename`: the path itself when free, otherwise the first
      free candidate. */
  method GetUniqueFilename(base: string, existing: set<string>) returns (unique: string)
    ensures unique !in existing
    ensures base !in existing ==> unique == base
    ensures base in existing ==> exists n :: n >= 1 && unique == Candidate(SplitExt(base), n) &&
                                             forall k :: 1 <= k < n ==> Candidate(SplitExt(base), k) in existing
  {
    if base !in existing {
      return base;
    }
    var parts := SplitExt(base);
    var counter := 1;
    ghost var seen: set<string> := {};
    while true
      invariant counter >= 1
      invariant forall k :: 1 <= k < counter ==> Candidate(parts, k) in existing
      invariant seen <= existing && |seen| == counter - 1
      invariant forall c :: c in seen ==> exists k :: 1 <= k < counter && c == Candidate(parts, k)
      decreases |existing| - |seen|
    {
      var candidate := Candidate(parts, counter);
      if candidate !in existing {
        return candidate;
      }
      if candidate in seen {
        var k :| 1 <= k < counter && candidate == Candidate(parts, k);
        CandidateInjective(parts, k, counter);
      }
      assert |seen + {candidate}| == |seen| + 1;
      seen := seen + {candidate};
      assert |seen| <= |existing| by {
        assert seen <= existing;
        SubsetCard(seen, existing);
      }
      counter := counter + 1;
    }
  }

  lemma SubsetCard(a: set<string>, b: set<string>)
    requires a <= b
    ensures |a| <= |b|
  {
    assert b == a + (b - a);
  }

  /** The existing files, which the rename changes. */
  class Disk {
    var files: set<string>

    constructor(files: set<string>)
      ensures this.files == files
    {
      this.files := files;
    }
  }

  /** `filename_progress_hook` as written: the shared progress hook runs
      first, and a finished file is then renamed to a free name when that
      name differs from it and is absent. The path the hook recorded is the
      name the file had before the rename. */
  method FilenameProgressHook(hooks: DownloadHooks, disk: Disk, d: Progress) returns (reported: Progress)
    requires hooks.Valid() && hooks != disk as object
    modifies hooks, disk
    ensures hooks.Valid()
    ensures d.status != "finished" ==> reported == d && disk.files == old(disk.files)
    ensures d.status == "finished" && d.filename in old(disk.files) ==> (
      exists unique :: unique !in old(disk.files) && reported == d.(filename := unique) &&
                       disk.files == old(disk.files) - {d.filename} + {unique})
    ensures d.status == "finished" && d.filename !in old(disk.files) ==> reported == d && disk.files == old(disk.files)
    ensures !old(hooks.cancelFlag) && d.status == "finished" && d.filename != "" && d.filename in old(disk.files) ==>
              hooks.currentDownloadPath == Some(d.filename) && d.filename !in disk.files
    ensures old(hooks.cancelFlag) ==> hooks.Snapshot() == old(hooks.Snapshot()) && hooks.cancelFlag
    ensures !old(hooks.cancelFlag) ==>
              hooks.Snapshot() == ProgressStep(old(hooks.Snapshot()), old(hooks.FinishedStatus()), d)
  {
    hooks.ProgressHook(d);
    reported := d;
    if d.status == "finished" {
      var output := d.filename;
      var unique := GetUniqueFilename(output, disk.files);
      if unique != output && unique !in disk.files {
        if output in disk.files {
          disk.files := disk.files - {output} + {unique};
          reported := d.(filename := unique);
        }
      }
    }
  }

  /** The same hook with the recorded path following the rename, so that
      the list of downloads names a file that exists. */
  method FilenameProgressHookFixed(hooks: DownloadHooks, disk: Disk, d: Progress) returns (reported: Progress)
    requires hooks.Valid() && hooks != disk as object
    modifies hooks, disk
    ensures hooks.Valid()
    ensures d.status != "finished" ==> reported == d && disk.files == old(disk.files)
    ensures d.status == "finished" && d.filename in old(disk.files) ==> (
      exists unique :: unique !in old(disk.files) && reported == d.(filename := unique) &&
                       disk.files == old(disk.files) - {d.filename} + {unique})
    ensures !old(hooks.cancelFlag) && d.status == "finished" && d.filename != "" && d.filename in old(disk.files) ==>
              hooks.currentDownloadPath.Some? && hooks.currentDownloadPath.value in disk.files &&
              hooks.currentDownloadPath == Some(reported.filename)
    ensures var e := if old(hooks.cancelFlag) then old(hooks.Snapshot())
                     else ProgressStep(old(hooks.Snapshot()), old(hooks.FinishedStatus()), d);
            hooks.Snapshot().(currentDownloadPath := e.currentDownloadPath) == e &&
            hooks.currentDownloadPath == (if e.currentDownloadPath == Some(d.filename) && reported.filename != d.filename
                                          then Some(reported.filename) else e.currentDownloadPath)
  {
    hooks.ProgressHook(d);
    reported := d;
    if d.status == "finished" {
      var output := d.filename;
      var unique := GetUniqueFilename(output, disk.files);
      if unique != output && unique !in disk.files {
        if output in disk.files {
          disk.files := disk.files - {output} + {unique};
          reported := d.(filename := unique);
          if hooks.currentDownloadPath == Some(output) {
            hooks.currentDownloadPath := Some(unique);
          }
        }
      }
    }
  }

  /** The first free name of a file that exists is its `_1` candidate when that is free. */
  lemma FirstCandidate(base: string, existing: set<string>, unique: string)
    requires base in existing && Candidate(SplitExt(base), 1) !in existing
    requires exists n :: n >= 1 && unique == Candidate(SplitExt(base), n) &&
                         forall k :: 1 <= k < n ==> Candidate(SplitExt(base), k) in existing
    ensures unique == Candidate(SplitExt(base), 1)
  {
    var n :| n >= 1 && unique == Candidate(SplitExt(base), n) &&
             forall k :: 1 <= k < n ==> Candidate(SplitExt(base), k) in existing;
    assert !(1 < n);
  }

  /** `video.mp4`, finished and alone in its folder, is moved to `video_1.mp4`. */
  lemma RenamedExample()
    ensures SplitExt("video.mp4") == ("video", ".mp4")
    ensures Candidate(SplitExt("video.mp4"), 1) == "video_1.mp4"
  {
    var p := "video.mp4";
    assert p[5] == '.' && p[0] != '.';
    assert forall j :: 5 < j < |p| ==> p[j] != '.';
    assert forall j :: 0 <= j < |p| ==> p[j] != '/';
    assert LastIndexOfChar(p, '.') == Some(5);
    assert LastIndexOfChar(p, '/') == None;
    assert 0 <= 0 < 5 && p[0] != '.';
    assert p[..5] == "video" && p[5..] == ".mp4";
    assert NatToString(1) == "1";
  }

  /** `start_download`: the same checks as the full front end, without the
      mp3 row, and a video-only format in video mode is always combined with
      audio. */
  method StartDownload(app: Dlite.App, selection: Option<string>, hasInfo: bool, formats: seq<Format>,
                       saveEntry: string, dirs: set<string>, mode: string) returns (d: Dlite.Decision)
    modifies app
    ensures selection.None? ==> d == Dlite.NoSelection
    ensures selection.Some? && !hasInfo ==> d == Dlite.NoInfo
    ensures selection.Some? && hasInfo && Strip(saveEntry) == [] ==> d == Dlite.NoSavePath
    ensures selection.Some? && hasInfo && Strip(saveEntry) != [] && Strip(saveEntry) !in dirs ==> d == Dlite.NotADirectory
    ensures app.cancelFlag == (old(app.cancelFlag) && !(selection.Some? && hasInfo && Strip(saveEntry) != [] && Strip(saveEntry) in dirs))
    ensures selection.Some? && hasInfo && Strip(saveEntry) != [] && Strip(saveEntry) in dirs ==>
      var id, path := selection.value, Strip(saveEntry);
      var f := FirstWithId(formats, id);
      if mode == "video" && f.Some? && f.value.acodec == Present("none")
      then d == Dlite.FormatThread(MergeSelector(id, f.value.ext.GetOr("")), path, true)
      else d == Dlite.FormatThread(id, path, false)
    ensures !(selection.Some? && hasInfo && Strip(saveEntry) != [] && Strip(saveEntry) in dirs) ==> app.logLines == old(app.logLines)
    ensures selection.Some? && hasInfo && Strip(saveEntry) != [] && Strip(saveEntry) in dirs ==>
      var id := selection.value;
      var f := FirstWithId(formats, id);
      var start := "Starting download with format specification: " + d.format;
      app.logLines == old(app.logLines) + Dlite.InfoLines(
        if mode == "video" && f.Some? && f.value.acodec == Present("none")
        then ["Selected format " + id + " is video-only. Auto-combining with audio using format string: " + d.format, start]
        else [start], app.logLevel)
    ensures app.sortFormats == old(app.sortFormats) && app.sortDownloads == old(app.sortDownloads)
    ensures app.downloadedFiles == old(app.downloadedFiles) && app.logLevel == old(app.logLevel)
    ensures app.threadAlive == old(app.threadAlive)
  {
    if selection.None? {
      return Dlite.NoSelection;
    }
    if !hasInfo {
      return Dlite.NoInfo;
    }
    var id := selection.value;
    var selected := FindFormat(formats, id);
    var videoOnly := selected.Some? && selected.value.acodec == Present("none");
    var path := Strip(saveEntry);
    if path == [] {
      return Dlite.NoSavePath;
    }
    if path !in dirs {
      return Dlite.NotADirectory;
    }
    var format := id;
    var combined := false;
    if mode == "video" && videoOnly && selected.Some? {
      combined := true;
      format := MergeSelector(id, selected.value.ext.GetOr(""));
    }
    var start := "Starting download with format specification: " + format;
    app.LogInfo(if combined then ["Selected format " + id + " is video-only. Auto-combining with audio using format string: " + format, start]
                else [start]);
    app.cancelFlag := false;
    return Dlite.FormatThread(format, path, combined);
  }

  /** The options of `_download_thread` (the hooks aside): those of the full
      front end with the merge container fixed to mp4. */
  function ThreadOptions(format: string, savePath: string): (o: Options)
    ensures o.Keys == {"format", "outtmpl", "quiet", "no_warnings", "merge_output_format"}
    ensures o["merge_output_format"] == Str("mp4")
    ensures forall k :: k in o && k != "merge_output_format" ==> o[k] == Dlite.ThreadOptions(format, savePath)[k]
  {
    map["format" := Str(format), "outtmpl" := Str(PathJoin(savePath, Dlite.IdTemplate)), "quiet" := Bool(false),
        "no_warnings" := Bool(false), "merge_output_format" := Str("mp4")]
  }

  /** The start of `_download_thread`: the selector is logged at INFO, the
      dictionary at DEBUG, and the dictionary is what yt_dlp gets. `printed`
      is the printed form of that dictionary. */
  method BeginThread(app: Dlite.App, format: string, savePath: string, printed: string) returns (o: Options)
    modifies app
    ensures o == ThreadOptions(format, savePath)
    ensures var debug := Dlite.Admit("DEBUG", app.logLevel);
            app.logLines == old(app.logLines) + Dlite.InfoLines(["Using format specification: " + format], app.logLevel) +
              (if debug.Some? then [Dlite.LogLine(debug.value, "yt-dlp options: " + printed)] else [])
    ensures app.logLevel == old(app.logLevel) && app.downloadedFiles == old(app.downloadedFiles)
    ensures app.sortFormats == old(app.sortFormats) && app.sortDownloads == old(app.sortDownloads)
    ensures app.cancelFlag == old(app.cancelFlag) && app.threadAlive == old(app.threadAlive)
  {
    app.LogInfo(["Using format specification: " + format]);
    o := ThreadOptions(format, savePath);
    app.Log("yt-dlp options: " + printed, "DEBUG");
  }

  /** The two front ends choose the same merge container unless the
      selector names webm. */
  lemma MergeContainersAgree(format: string, savePath: string)
    ensures (ThreadOptions(format, savePath)["merge_output_format"] == Dlite.ThreadOptions(format, savePath)["merge_output_format"])
            <==> !Contains(Lower(format), "webm")
  {
  }

  /** Sizeless formats stay in the table, and there is no mp3 row. */
  const TableVariant: Variant := Variant(false, false)
}
