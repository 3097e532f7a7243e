/** The full graphical front end (`yt-dlite.py`): sort state and column
    headers, the log filter, the list of downloaded files, the cancel flag,
    the decisions of `start_download`, and the downloader options of the two
    download threads. */
module Dlite {
  import opened Wrappers
  import opened Text
  import opened YdlOptions
  import opened Formats

  datatype Direction = Asc | Desc

  /** The sort state of one tree: column and direction, both `None` at start. */
  datatype SortKey = SortKey(column: Option<string>, direction: Option<Direction>)

  /** Clicking a column header: the sorted column flips its direction, any
      other column becomes the sorted one, ascending. */
  function Toggle(s: SortKey, column: string): (r: SortKey)
    ensures r.column == Some(column) && r.direction.Some?
    ensures s.column == Some(column) && s.direction == Some(Asc) ==> r.direction == Some(Desc)
    ensures !(s.column == Some(column) && s.direction == Some(Asc)) ==> r.direction == Some(Asc)
  {
    if s.column == Some(column) then
      SortKey(Some(column), Some(if s.direction == Some(Asc) then Desc else Asc))
    else SortKey(Some(column), Some(Asc))
  }

  /** Two clicks on the same header flip the direction back and forth:
      a third click is the same as the first. */
  lemma {:induction false} ToggleAlternates(s: SortKey, column: string)
    ensures Toggle(Toggle(s, column), column).direction != Toggle(s, column).direction
    ensures Toggle(Toggle(Toggle(s, column), column), column) == Toggle(s, column)
  {
    var once := Toggle(s, column);
    assert once.column == Some(column);
    if once.direction == Some(Asc) {
      assert Toggle(once, column).direction == Some(Desc);
    } else {
      assert once.direction == Some(Desc);
      assert Toggle(once, column).direction == Some(Asc);
    }
  }

  /** The rows are listed in reverse exactly when the direction is descending. */
  function Reverse(s: SortKey): bool
  {
    s.direction == Some(Desc)
  }

  /** The header titles of both trees. */
  const Titles: map<string, string> := map[
    "format_id" := "Format ID", "extension" := "Extension", "resolution" := "Resolution/Quality",
    "filesize" := "File Size", "note" := "Notes", "filename" := "Filename", "date" := "Date", "size" := "Size"]

  /** The columns of the format tree; every other column belongs to the downloads tree. */
  const FormatColumns: seq<string> := ["format_id", "extension", "resolution", "filesize", "note"]

  const UpArrow: string := " ↑"
  const DownArrow: string := " ↓"

  /** `get_column_title`: the title, with an arrow when the column's own tree is sorted on it. */
  function ColumnTitle(column: string, formatTree: SortKey, downloadsTree: SortKey): (r: string)
    requires column in Titles
    ensures var s := if column in FormatColumns then formatTree else downloadsTree;
            (s.column != Some(column) ==> r == Titles[column]) &&
            (s.column == Some(column) && s.direction == Some(Asc) ==> r == Titles[column] + UpArrow) &&
            (s.column == Some(column) && s.direction != Some(Asc) ==> r == Titles[column] + DownArrow)
  {
    var s := if column in FormatColumns then formatTree else downloadsTree;
    if s.column == Some(column) then
      if s.direction == Some(Asc) then Titles[column] + UpArrow else Titles[column] + DownArrow
    else Titles[column]
  }

  /** A header shows an arrow only on the sorted column of its tree: after a
      click on a format column, every other format column shows its plain title. */
  lemma ArrowOnlyOnSorted(clicked: string, other: string, formatTree: SortKey, downloadsTree: SortKey)
    requires clicked in FormatColumns && other in FormatColumns && other != clicked && other in Titles
    ensures ColumnTitle(other, Toggle(formatTree, clicked), downloadsTree) == Titles[other]
  {
  }

  /** The recognised log levels. */
  const Levels: set<string> := {"INFO", "DEBUG", "ERROR"}

  /** `log`: the level a message is written with, or `None` when the current
      log level drops it. An unrecognised level is written as INFO. */
  function Admit(level: string, logLevel: string): (r: Option<string>)
    ensures r.Some? ==> r.value == if level in Levels then level else "INFO"
    ensures logLevel == "ERROR" ==> (r.Some? <==> level == "ERROR")
    ensures logLevel == "INFO" ==> (r.Some? <==> level != "DEBUG")
    ensures logLevel == "DEBUG" ==> r.Some?
  {
    var l := if level in Levels then level else "INFO";
    if l == "DEBUG" && logLevel == "INFO" then None
    else if (l == "DEBUG" || l == "INFO") && logLevel == "ERROR" then None
    else Some(l)
  }

  /** `list.remove`: drops the first occurrence. */
  function RemoveFirst(s: seq<string>, x: string): (r: seq<string>)
    ensures x !in s ==> r == s
    ensures x in s ==> |r| == |s| - 1
    ensures forall y :: y in r ==> y in s
    ensures forall y :: y in s && y != x ==> y in r
  {
    if s == [] then []
    else if s[0] == x then s[1..]
    else [s[0]] + RemoveFirst(s[1..], x)
  }

  predicate NoDuplicates(s: seq<string>)
  {
    forall i, j :: 0 <= i < j < |s| ==> s[i] != s[j]
  }

  /** Removing from a duplicate-free list removes the path altogether. */
  lemma {:induction false} RemoveFirstAll(s: seq<string>, x: string)
    requires NoDuplicates(s)
    ensures NoDuplicates(RemoveFirst(s, x)) && x !in RemoveFirst(s, x)
    decreases |s|
  {
    if s != [] && s[0] != x {
      assert NoDuplicates(s[1..]);
      RemoveFirstAll(s[1..], x);
      var t := RemoveFirst(s[1..], x);
      assert s[0] !in s[1..];
      assert s[0] !in t;
      assert RemoveFirst(s, x) == [s[0]] + t;
    } else if s != [] {
      assert s[0] !in s[1..];
    }
  }

  /** What the download button leads to. */
  datatype Decision =
    | NoSelection
    | NoInfo
    | NoSavePath
    | NotADirectory
    | Aborted
    | Mp3Thread(savePath: string)
    | FormatThread(format: string, savePath: string, combined: bool)

  /** What a cancelled download thread logs. */
  const CancelledLog: string := "Download was cancelled by user"

  /** What a cancelled MP3 thread logs. */
  const Mp3CancelledLog: string := "MP3 download was cancelled by user"

  /** What a download thread ends with. */
  datatype Ending = Cancelled | Completed | DownloadFailed(message: string)

  /** One line of the log pane. */
  datatype LogLine = LogLine(level: string, message: string)

  /** The lines `log` writes for messages sent at INFO: every one of them,
      in order, unless the log level is ERROR. */
  function InfoLines(messages: seq<string>, logLevel: string): (r: seq<LogLine>)
    ensures logLevel == "ERROR" ==> r == []
    ensures logLevel != "ERROR" ==> |r| == |messages| && forall i :: 0 <= i < |r| ==> r[i] == LogLine("INFO", messages[i])
  {
    if logLevel == "ERROR" then [] else seq(|messages|, i requires 0 <= i < |messages| => LogLine("INFO", messages[i]))
  }

  /** The state of the application window that its methods update. */
  class App {
    var sortFormats: SortKey
    var sortDownloads: SortKey
    var logLevel: string
    var logLines: seq<LogLine>
    var downloadedFiles: seq<string>
    var cancelFlag: bool
    var threadAlive: bool

    predicate Valid()
      reads this
    {
      logLevel in Levels && NoDuplicates(downloadedFiles)
    }

    /** The state `__init__` ends with. */
    constructor()
      ensures Valid()
      ensures sortFormats == SortKey(None, None) && sortDownloads == SortKey(None, None)
      ensures logLevel == "INFO" && logLines == [LogLine("INFO", "Application started")]
      ensures downloadedFiles == [] && !cancelFlag && !threadAlive
    {
      sortFormats := SortKey(None, None);
      sortDownloads := SortKey(None, None);
      logLevel := "INFO";
      logLines := [LogLine("INFO", "Application started")];
      downloadedFiles := [];
      cancelFlag := false;
      threadAlive := false;
    }

    /** `log`. */
    method Log(message: string, level: string)
      modifies this
      ensures var a := Admit(level, old(logLevel));
              logLines == old(logLines) + (if a.Some? then [LogLine(a.value, message)] else [])
      ensures logLevel == old(logLevel) && downloadedFiles == old(downloadedFiles)
      ensures sortFormats == old(sortFormats) && sortDownloads == old(sortDownloads)
      ensures cancelFlag == old(cancelFlag) && threadAlive == old(threadAlive)
    {
      var a := Admit(level, logLevel);
      if a.Some? {
        logLines := logLines + [LogLine(a.value, message)];
      }
    }

    /** `log` called once per message, all at INFO, in order. */
    method LogInfo(messages: seq<string>)
      modifies this
      ensures logLines == old(logLines) + InfoLines(messages, logLevel)
      ensures logLevel == old(logLevel) && downloadedFiles == old(downloadedFiles)
      ensures sortFormats == old(sortFormats) && sortDownloads == old(sortDownloads)
      ensures cancelFlag == old(cancelFlag) && threadAlive == old(threadAlive)
    {
      var i := 0;
      while i < |messages|
        invariant 0 <= i <= |messages|
        invariant logLines == old(logLines) + InfoLines(messages[..i], logLevel)
        invariant logLevel == old(logLevel) && downloadedFiles == old(downloadedFiles)
        invariant sortFormats == old(sortFormats) && sortDownloads == old(sortDownloads)
        invariant cancelFlag == old(cancelFlag) && threadAlive == old(threadAlive)
      {
        assert InfoLines(messages[..i + 1], logLevel) ==
               InfoLines(messages[..i], logLevel) + (if logLevel == "ERROR" then [] else [LogLine("INFO", messages[i])]);
        Log(messages[i], "INFO");
        i := i + 1;
      }
      assert messages[..i] == messages;
    }

    /** `set_log_level`: other values are ignored; a change is logged at INFO,
        which the new level may drop. */
    method SetLogLevel(level: string)
      requires Valid()
      modifies this
      ensures Valid()
      ensures logLevel == if level in Levels then level else old(logLevel)
      ensures level !in Levels ==> logLines == old(logLines)
      ensures level in Levels ==> logLines == old(logLines) + (if level != "ERROR" then [LogLine("INFO", "Log level changed to " + level)] else [])
      ensures downloadedFiles == old(downloadedFiles) && cancelFlag == old(cancelFlag)
      ensures sortFormats == old(sortFormats) && sortDownloads == old(sortDownloads)
    {
      if level in Levels {
        logLevel := level;
        Log("Log level changed to " + level, "INFO");
      }
    }

    /** `sort_treeview`'s state update; the answer says whether rows are reversed. */
    method SortTreeview(column: string, formatTree: bool) returns (reverse: bool)
      modifies this
      ensures formatTree ==> sortFormats == Toggle(old(sortFormats), column) && sortDownloads == old(sortDownloads)
      ensures !formatTree ==> sortDownloads == Toggle(old(sortDownloads), column) && sortFormats == old(sortFormats)
      ensures reverse == Reverse(if formatTree then sortFormats else sortDownloads)
      ensures logLevel == old(logLevel) && logLines == old(logLines) && downloadedFiles == old(downloadedFiles)
      ensures cancelFlag == old(cancelFlag) && threadAlive == old(threadAlive)
    {
      if formatTree {
        sortFormats := Toggle(sortFormats, column);
        reverse := Reverse(sortFormats);
      } else {
        sortDownloads := Toggle(sortDownloads, column);
        reverse := Reverse(sortDownloads);
      }
    }

    /** Every `downloaded_files.append` is guarded by `not in`. */
    method AddDownloaded(path: string)
      requires Valid()
      modifies this
      ensures Valid()
      ensures downloadedFiles == if path in old(downloadedFiles) then old(downloadedFiles) else old(downloadedFiles) + [path]
      ensures path in downloadedFiles
      ensures logLevel == old(logLevel) && logLines == old(logLines) && cancelFlag == old(cancelFlag)
      ensures sortFormats == old(sortFormats) && sortDownloads == old(sortDownloads) && threadAlive == old(threadAlive)
    {
      if path !in downloadedFiles {
        downloadedFiles := downloadedFiles + [path];
      }
    }

    /** Deleting a file drops it from the list, when it is there. */
    method RemoveDownloaded(path: string)
      requires Valid()
      modifies this
      ensures Valid()
      ensures downloadedFiles == RemoveFirst(old(downloadedFiles), path)
      ensures path !in downloadedFiles
      ensures logLevel == old(logLevel) && logLines == old(logLines) && cancelFlag == old(cancelFlag)
      ensures sortFormats == old(sortFormats) && sortDownloads == old(sortDownloads) && threadAlive == old(threadAlive)
    {
      RemoveFirstAll(downloadedFiles, path);
      if path in downloadedFiles {
        downloadedFiles := RemoveFirst(downloadedFiles, path);
      }
    }

    /** `cancel_download`: the flag is raised only while a download thread runs. */
    method CancelDownload()
      requires Valid()
      modifies this
      ensures Valid()
      ensures cancelFlag == (old(cancelFlag) || old(threadAlive))
      ensures logLines == old(logLines) + (if old(threadAlive) && logLevel != "ERROR" then [LogLine("INFO", "Download cancellation requested")] else [])
      ensures logLevel == old(logLevel) && downloadedFiles == old(downloadedFiles) && threadAlive == old(threadAlive)
      ensures sortFormats == old(sortFormats) && sortDownloads == old(sortDownloads)
    {
      if threadAlive {
        cancelFlag := true;
        Log("Download cancellation requested", "INFO");
      }
    }

    /** `start_download`. `selection` is the format id of the first selected
        row, `dirs` the existing directories, `answer` the reply to the
        merge question (`None` for Cancel). */
    method StartDownload(selection: Option<string>, hasInfo: bool, formats: seq<Format>, saveEntry: string,
                         dirs: set<string>, mode: string, answer: Option<bool>) returns (d: Decision)
      modifies this
      ensures selection.None? ==> d == NoSelection
      ensures selection.Some? && !hasInfo ==> d == NoInfo
      ensures selection.Some? && hasInfo && Strip(saveEntry) == [] ==> d == NoSavePath
      ensures selection.Some? && hasInfo && Strip(saveEntry) != [] && Strip(saveEntry) !in dirs ==> d == NotADirectory
      ensures cancelFlag == (old(cancelFlag) && !(selection.Some? && hasInfo && Strip(saveEntry) != [] && Strip(saveEntry) in dirs))
      ensures selection.Some? && hasInfo && Strip(saveEntry) != [] && Strip(saveEntry) in dirs ==>
        var id, path := selection.value, Strip(saveEntry);
        var f := FirstWithId(formats, id);
        var ask := mode == "video" && f.Some? && f.value.acodec == Present("none");
        (id == "mp3" ==> d == Mp3Thread(path)) &&
        (id != "mp3" && ask && answer.None? ==> d == Aborted) &&
        (id != "mp3" && ask && answer == Some(true) ==> d == FormatThread(MergeSelector(id, f.value.ext.GetOr("")), path, true)) &&
        (id != "mp3" && !(ask && answer != Some(false)) ==> d == FormatThread(id, path, false))
      ensures !(selection.Some? && hasInfo && Strip(saveEntry) != [] && Strip(saveEntry) in dirs) ==> logLines == old(logLines)
      ensures selection.Some? && hasInfo && Strip(saveEntry) != [] && Strip(saveEntry) in dirs ==>
        var id := selection.value;
        var f := FirstWithId(formats, id);
        var ask := id != "mp3" && mode == "video" && f.Some? && f.value.acodec == Present("none");
        var start := "Starting download with format specification: " + (if d.FormatThread? then d.format else "");
        logLines == old(logLines) + InfoLines(
          if id == "mp3" then ["Starting MP3 download and conversion"]
          else if ask && answer.None? then ["Download canceled by user"]
          else (if ask && answer == Some(true) then ["User selected to combine with audio. Using format string: " + d.format]
                else if ask then ["User selected to download video-only format: " + id]
                else []) + [start], old(logLevel))
      ensures sortFormats == old(sortFormats) && sortDownloads == old(sortDownloads) && downloadedFiles == old(downloadedFiles)
      ensures logLevel == old(logLevel) && threadAlive == old(threadAlive)
    {
      if selection.None? {
        return NoSelection;
      }
      if !hasInfo {
        return NoInfo;
      }
      var id := selection.value;
      var selected: Option<Format> := None;
      var videoOnly := false;
      var isMp3 := id == "mp3";
      if !isMp3 {
        selected := FindFormat(formats, id);
        videoOnly := selected.Some? && selected.value.acodec == Present("none");
      }
      var path := Strip(saveEntry);
      if path == [] {
        return NoSavePath;
      }
      if path !in dirs {
        return NotADirectory;
      }
      cancelFlag := false;
      if isMp3 {
        LogInfo(["Starting MP3 download and conversion"]);
        return Mp3Thread(path);
      }
      var format := id;
      var combined := false;
      var choice: seq<string> := [];
      if mode == "video" && videoOnly && selected.Some? {
        if answer.None? {
          LogInfo(["Download canceled by user"]);
          return Aborted;
        } else if answer.value {
          combined := true;
          format := MergeSelector(id, selected.value.ext.GetOr(""));
          choice := ["User selected to combine with audio. Using format string: " + format];
        } else {
          choice := ["User selected to download video-only format: " + id];
        }
      }
      LogInfo(choice + ["Starting download with format specification: " + format]);
      return FormatThread(format, path, combined);
    }

    /** The end of a download thread, `error` being the message of the
        exception it raised: cancelled while the flag is up, and otherwise
        completed (recording the finished path once) or failed. A cancel and
        a failure are logged. */
    method FinishDownload(path: Option<string>, error: Option<string>) returns (e: Ending)
      requires Valid()
      modifies this
      ensures Valid()
      ensures cancelFlag ==> e == Cancelled && downloadedFiles == old(downloadedFiles) &&
                             logLines == old(logLines) + (if logLevel != "ERROR" then [LogLine("INFO", CancelledLog)] else [])
      ensures !cancelFlag && error.Some? ==>
                e == DownloadFailed(error.value) && downloadedFiles == old(downloadedFiles) &&
                logLines == old(logLines) + [LogLine("ERROR", "Download failed: " + error.value)]
      ensures !cancelFlag && error.None? ==> (
        e == Completed && logLines == old(logLines) &&
        downloadedFiles == (if path.Some? && path.value != "" && path.value !in old(downloadedFiles)
                            then old(downloadedFiles) + [path.value] else old(downloadedFiles)))
      ensures cancelFlag == old(cancelFlag) && logLevel == old(logLevel)
      ensures sortFormats == old(sortFormats) && sortDownloads == old(sortDownloads) && threadAlive == old(threadAlive)
    {
      if cancelFlag {
        Log(CancelledLog, "INFO");
        return Cancelled;
      }
      if error.Some? {
        Log("Download failed: " + error.value, "ERROR");
        return DownloadFailed(error.value);
      }
      if path.Some? && path.value != "" {
        AddDownloaded(path.value);
      }
      return Completed;
    }

    /** The start of `_download_thread`: the selector and the merge container
        are logged at INFO, the dictionary at DEBUG, and the dictionary is
        what yt_dlp gets. `printed` is the printed form of that dictionary. */
    method BeginFormatThread(format: string, savePath: string, printed: string) returns (o: Options)
      modifies this
      ensures o == ThreadOptions(format, savePath)
      ensures var debug := Admit("DEBUG", logLevel);
              logLines == old(logLines) +
                InfoLines(["Using format specification: " + format, "Using merge format: " + MergeOutputFormat(format)], logLevel) +
                (if debug.Some? then [LogLine(debug.value, "yt-dlp options: " + printed)] else [])
      ensures logLevel == old(logLevel) && downloadedFiles == old(downloadedFiles)
      ensures sortFormats == old(sortFormats) && sortDownloads == old(sortDownloads)
      ensures cancelFlag == old(cancelFlag) && threadAlive == old(threadAlive)
    {
      LogInfo(["Using format specification: " + format, "Using merge format: " + MergeOutputFormat(format)]);
      o := ThreadOptions(format, savePath);
      Log("yt-dlp options: " + printed, "DEBUG");
    }

    /** The start of `_download_mp3`: the dictionary is logged at INFO and is
        what yt_dlp gets. `printed` is the printed form of that dictionary. */
    method BeginMp3Thread(savePath: string, printed: string) returns (o: Options)
      modifies this
      ensures o == Mp3Options(savePath)
      ensures logLines == old(logLines) + InfoLines(["Starting MP3 download with options: " + printed], logLevel)
      ensures logLevel == old(logLevel) && downloadedFiles == old(downloadedFiles)
      ensures sortFormats == old(sortFormats) && sortDownloads == old(sortDownloads)
      ensures cancelFlag == old(cancelFlag) && threadAlive == old(threadAlive)
    {
      o := Mp3Options(savePath);
      LogInfo(["Starting MP3 download with options: " + printed]);
    }

    /** The end of `_download_mp3`, `error` being the message of the exception
        it raised: cancelled while the flag is up, and otherwise completed
        (recording the finished path once) or failed. A cancel and a failure
        are logged with the MP3 thread's own texts. */
    method FinishMp3(path: Option<string>, error: Option<string>) returns (e: Ending)
      requires Valid()
      modifies this
      ensures Valid()
      ensures cancelFlag ==> e == Cancelled && downloadedFiles == old(downloadedFiles) &&
                             logLines == old(logLines) + InfoLines([Mp3CancelledLog], logLevel)
      ensures !cancelFlag && error.Some? ==>
                e == DownloadFailed(error.value) && downloadedFiles == old(downloadedFiles) &&
                logLines == old(logLines) + [LogLine("ERROR", "MP3 download failed: " + error.value)]
      ensures !cancelFlag && error.None? ==> (
        e == Completed && logLines == old(logLines) &&
        downloadedFiles == (if path.Some? && path.value != "" && path.value !in old(downloadedFiles)
                            then old(downloadedFiles) + [path.value] else old(downloadedFiles)))
      ensures cancelFlag == old(cancelFlag) && logLevel == old(logLevel)
      ensures sortFormats == old(sortFormats) && sortDownloads == old(sortDownloads) && threadAlive == old(threadAlive)
    {
      if cancelFlag {
        LogInfo([Mp3CancelledLog]);
        return Cancelled;
      }
      if error.Some? {
        Log("MP3 download failed: " + error.value, "ERROR");
        return DownloadFailed(error.value);
      }
      if path.Some? && path.value != "" {
        AddDownloaded(path.value);
      }
      return Completed;
    }
  }

  /** The name pattern of both download threads. */
  const IdTemplate: string := "%(title)s-%(id)s.%(ext)s"

  /** The options of `_download_thread` (the hooks aside). */
  function ThreadOptions(format: string, savePath: string): (o: Options)
    ensures o.Keys == {"format", "outtmpl", "quiet", "no_warnings", "merge_output_format", "overwrites"}
    ensures o["format"] == Str(format) && o["outtmpl"] == Str(PathJoin(savePath, IdTemplate))
    ensures o["merge_output_format"] == Str(if Contains(Lower(format), "webm") then "webm" else "mp4")
    ensures o["overwrites"] == Bool(true) && o["quiet"] == Bool(false) && o["no_warnings"] == Bool(false)
  {
    map["format" := Str(format), "outtmpl" := Str(PathJoin(savePath, IdTemplate)), "quiet" := Bool(false),
        "no_warnings" := Bool(false), "merge_output_format" := Str(MergeOutputFormat(format)), "overwrites" := Bool(true)]
  }

  /** A merged download with the webm container is merged into webm, one
      with another container into mp4 unless the format id names webm. */
  lemma MergedContainer(formatId: string, container: string, savePath: string)
    ensures container == "webm" ==> ThreadOptions(MergeSelector(formatId, container), savePath)["merge_output_format"] == Str("webm")
    ensures container != "webm" && !Contains(Lower(formatId), "webm") ==>
              ThreadOptions(MergeSelector(formatId, container), savePath)["merge_output_format"] == Str("mp4")
  {
    if container == "webm" {
      WebmMergesToWebm(formatId);
    } else if !Contains(Lower(formatId), "webm") {
      OtherMergesToMp4(formatId, container);
    }
  }

  /** The options of `_download_mp3` (the hooks aside). */
  function Mp3Options(savePath: string): (o: Options)
    ensures o.Keys == {"format", "outtmpl", "postprocessors", "quiet", "no_warnings"}
    ensures o["format"] == Str("bestaudio/best") && o["outtmpl"] == Str(PathJoin(savePath, IdTemplate))
    ensures o["postprocessors"] == PostProcessors([ExtractAudio("mp3", Some("192"))])
  {
    map["format" := Str("bestaudio/best"), "outtmpl" := Str(PathJoin(savePath, IdTemplate)),
        "postprocessors" := PostProcessors([ExtractAudio("mp3", Some("192"))]),
        "quiet" := Bool(false), "no_warnings" := Bool(false)]
  }

  /** The variant of the shared format table this front end uses: sizeless
      formats are dropped and the audio table starts with the mp3 row. */
  const TableVariant: Variant := Variant(true, true)
}
