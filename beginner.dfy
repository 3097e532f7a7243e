/** The beginner front end (`begginer.py`): routing of the search box, the
    result card texts, the options built from the chosen format string, and
    the flags and phases of a download in progress. */
module Beginner {
  import opened Wrappers
  import opened Text
  import opened YdlOptions
  import opened Clock
  import Playlist

  /** What the search box leads to. */
  datatype Route = Ignored | VideoUrl(url: string) | PlaylistUrl(url: string) | Search(query: string)

  /** `search_engine` with `process_url`: a blank query or a pending stop does
      nothing, a query starting with `http` is a URL, one with `list=` a playlist. */
  function RouteQuery(entry: string, stopping: bool): (r: Route)
    ensures Strip(entry) == [] || stopping ==> r == Ignored
    ensures r.VideoUrl? || r.PlaylistUrl? ==> StartsWith(Strip(entry), "http") && r.url == Strip(entry)
    ensures r.PlaylistUrl? <==> !stopping && StartsWith(Strip(entry), "http") && Contains(Strip(entry), "list=")
    ensures r.Search? <==> Strip(entry) != [] && !stopping && !StartsWith(Strip(entry), "http")
  {
    var q := Strip(entry);
    if q == [] || stopping then Ignored
    else if StartsWith(q, "http") then
      if Contains(q, "list=") then PlaylistUrl(q) else VideoUrl(q)
    else Search(q)
  }

  /** Every URL the playlist handler recognises by its `&list=` or `?list=`
      marker is also routed here as a playlist. */
  lemma PlaylistMarkersAgree(entry: string)
    requires StartsWith(Strip(entry), "http")
    requires Contains(Strip(entry), "&list=") || Contains(Strip(entry), "?list=")
    ensures RouteQuery(entry, false).PlaylistUrl?
  {
    Playlist.ListMarkerContainsList(Strip(entry));
  }

  /** The argument of `create_download_button`: a result dictionary, with its
      `url` entry when present, or a plain URL string. */
  datatype ButtonArg = ResultDict(url: Option<string>) | Plain(text: string)

  /** The URL the format popup opens for, as written: the popup call sits
      inside the dictionary branch, so only a dictionary opens one. */
  function PopupUrl(arg: ButtonArg): (r: Option<string>)
    ensures r.Some? <==> arg.ResultDict?
    ensures arg.ResultDict? && arg.url.Some? ==> r == arg.url
    ensures arg.ResultDict? && arg.url.None? ==> r == Some("")
  {
    match arg
    case ResultDict(u) => Some(u.GetOr(""))
    case Plain(_) => None
  }

  /** A single-video URL typed into the search box is routed to the button,
      which then opens no popup for it. */
  lemma SingleVideoNoPopup(entry: string)
    requires RouteQuery(entry, false).VideoUrl?
    ensures PopupUrl(Plain(RouteQuery(entry, false).url)).None?
    ensures !Contains(RouteQuery(entry, false).url, "list=")
  {
  }

  /** The URL the popup opens for as evidently intended: a dictionary's `url`
      entry, or the string itself. */
  function PopupUrlFixed(arg: ButtonArg): (r: string)
    ensures arg.ResultDict? ==> r == arg.url.GetOr("")
    ensures arg.Plain? ==> r == arg.text
  {
    match arg
    case ResultDict(u) => u.GetOr("")
    case Plain(t) => t
  }

  /** With the intended indentation, a single-video URL opens its popup for
      exactly the URL typed, without surrounding blanks. */
  lemma SingleVideoPopupFixed(entry: string)
    requires RouteQuery(entry, false).VideoUrl?
    ensures PopupUrlFixed(Plain(RouteQuery(entry, false).url)) == Strip(entry)
  {
  }

  const TitleLimit: nat := 60

  /** The title line of a result card. */
  function TitleLine(title: Option<string>): (r: string)
    ensures title.None? ==> r == "No title"
    ensures title.Some? && |title.value| <= TitleLimit ==> r == title.value
    ensures title.Some? && |title.value| > TitleLimit ==> |r| == TitleLimit + 3 && StartsWith(title.value, r[..TitleLimit]) && EndsWith(r, "...")
  {
    match title
    case None => "No title"
    case Some(t) =>
      if |t| > TitleLimit then
        var r := t[..TitleLimit] + "...";
        assert r[..TitleLimit] == t[..TitleLimit];
        assert r[|r| - 3..] == "...";
        r
      else t
  }

  /** The duration line of a result card, with `h = d // 3600`,
      `m = (d % 3600) // 60`, `s = d % 60`; the same text as the lighter front
      end's, with `N/A` for a missing duration. */
  function DurationLine(duration: nat): (r: string)
    ensures r == DurationText(duration, "N/A")
  {
    if duration == 0 then "N/A"
    else
      var hours, minutes, seconds := duration / 3600, (duration % 3600) / 60, duration % 60;
      SplitsAgree(duration);
      if hours > 0 then NatToString(hours) + ":" + Pad2(minutes) + ":" + Pad2(seconds)
      else NatToString(minutes) + ":" + Pad2(seconds)
  }

  /** `get_subtitle_lang`: the code of the selected language name, with the
      auto-generated English entry turned into its flag; English when the
      name is not in the list. */
  function SubtitleLang(languages: seq<(string, string)>, selected: string): (r: string)
    ensures (forall k :: 0 <= k < |languages| ==> languages[k].0 != selected) ==> r == "en"
    ensures forall k :: 0 <= k < |languages| && languages[k].0 == selected &&
                        (forall j :: 0 <= j < k ==> languages[j].0 != selected) ==>
              r == (if languages[k].1 == "en-auto" then "en --write-auto-sub" else languages[k].1)
  {
    if languages == [] then "en"
    else if languages[0].0 == selected then
      if languages[0].1 == "en-auto" then "en --write-auto-sub" else languages[0].1
    else
      var r := SubtitleLang(languages[1..], selected);
      assert forall k :: 1 <= k < |languages| ==> languages[k] == languages[1..][k - 1];
      r
  }

  /** The format string the download button passes on: the video selector,
      with the subtitle flags when the box is checked, or the audio string. */
  function FormatString(mediaType: string, videoValue: string, audioValue: string, subtitles: bool, lang: string): (r: string)
    ensures mediaType != "video" ==> r == audioValue
    ensures mediaType == "video" && !subtitles ==> r == videoValue
    ensures mediaType == "video" && subtitles ==> r == videoValue + " --write-subs --sub-lang " + lang
  {
    if mediaType == "video" then videoValue + (if subtitles then " --write-subs --sub-lang " + lang else "")
    else audioValue
  }

  /** The extract-audio post-processor the audio branch adds, by first match. */
  function AudioCodec(fs: string): (r: Option<PostProcessor>)
    ensures Contains(fs, "mp3") ==> r.Some? && r.value.codec == "mp3"
    ensures r.Some? && r.value.codec == "mp3" ==>
              r.value.quality == Some(if Contains(fs, "320K") then "320" else if Contains(fs, "192K") then "192" else "128")
    ensures r.None? <==> !Contains(fs, "mp3") && !Contains(fs, "m4a") && !Contains(fs, "vorbis") &&
                         !Contains(Lower(fs), "ogg") && !Contains(Lower(fs), "opus") &&
                         !Contains(Lower(fs), "flac") && !Contains(Lower(fs), "wav")
  {
    if Contains(fs, "mp3") then
      Some(ExtractAudio("mp3", Some(if Contains(fs, "320K") then "320" else if Contains(fs, "192K") then "192" else "128")))
    else if Contains(fs, "m4a") then Some(ExtractAudio("m4a", Some("0")))
    else if Contains(fs, "vorbis") || Contains(Lower(fs), "ogg") then Some(ExtractAudio("vorbis", Some("0")))
    else if Contains(Lower(fs), "opus") then Some(ExtractAudio("opus", Some("0")))
    else if Contains(Lower(fs), "flac") then Some(ExtractAudio("flac", None))
    else if Contains(Lower(fs), "wav") then Some(ExtractAudio("wav", None))
    else None
  }

  /** The base options of `download_thread`. */
  function BaseOptions(outputPath: string): (o: Options)
    ensures o.Keys == {"outtmpl", "verbose", "quiet"}
  {
    map["outtmpl" := Str(PathJoin(outputPath, TitleTemplate)), "verbose" := Bool(true), "quiet" := Bool(false)]
  }

  /** The entries a codec adds: the extract-audio post-processor and the
      `extractaudio` flag, or neither. */
  predicate CodecEntries(o: Options, codec: Option<PostProcessor>)
  {
    match codec
    case Some(pp) =>
      "postprocessors" in o && o["postprocessors"] == PostProcessors([pp]) &&
      "extractaudio" in o && o["extractaudio"] == Bool(true)
    case None => "postprocessors" !in o && "extractaudio" !in o
  }

  /** The base options with a `format` entry and, when there is a codec, the
      extract-audio post-processor and the `extractaudio` flag. */
  function Assemble(outputPath: string, format: string, codec: Option<PostProcessor>): (o: Options)
    ensures forall k :: k in BaseOptions(outputPath) ==> k in o && o[k] == BaseOptions(outputPath)[k]
    ensures "format" in o && o["format"] == Str(format)
    ensures CodecEntries(o, codec)
    ensures codec.None? ==> o.Keys == BaseOptions(outputPath).Keys + {"format"}
  {
    var o := BaseOptions(outputPath)["format" := Str(format)];
    match codec
    case Some(pp) => o["postprocessors" := PostProcessors([pp])]["extractaudio" := Bool(true)]
    case None => o
  }

  /** The options as `download_thread` builds them: any format string that
      mentions `audio` takes the audio branch, whose selector is the text
      before the first ` --`; the video branch drops a leading `-f `. */
  function DownloadOptions(outputPath: string, fs: string): (o: Options)
    ensures forall k :: k in BaseOptions(outputPath) ==> k in o && o[k] == BaseOptions(outputPath)[k]
    ensures "format" in o
    ensures Contains(fs, "audio") ==> o["format"] == Str(Strip(Before(fs, " --")))
    ensures CodecEntries(o, if Contains(fs, "audio") then AudioCodec(fs) else None)
    ensures !Contains(fs, "audio") ==> o.Keys == BaseOptions(outputPath).Keys + {"format"}
    ensures !Contains(fs, "audio") ==> o["format"] == Str(DropFlag(fs))
  {
    if Contains(fs, "audio") then Assemble(outputPath, Strip(Before(fs, " --")), AudioCodec(fs))
    else Assemble(outputPath, DropFlag(fs), None)
  }

  /** Drops a leading `-f `. */
  function DropFlag(s: string): (r: string)
    ensures StartsWith(s, "-f ") ==> r == s[3..]
    ensures !StartsWith(s, "-f ") ==> r == s
  {
    if StartsWith(s, "-f ") then s[3..] else s
  }

  /** The "MP4 - Best Quality" choice of the video table. */
  const Mp4Best: string := "bestvideo[ext=mp4]" + "+bestaudio[ext=m4a]" + "/best[ext=mp4]/mp4"

  /** The "MP3 - 192kbps" choice of the audio table: its selector, the
      extract-audio flag, and the remaining flags. */
  const Mp3Selector: string := "-f " + "ba[ext=m4a]/ba/best"
  const Mp3Rest: string := " --audio-format mp3 --audio-quality 192K --prefer-ffmpeg --embed-thumbnail --add-metadata"
  const ExtractFlag: string := "--extract-audio"
  const Mp3High: string := Mp3Selector + " " + ExtractFlag + Mp3Rest

  /** The "MP4 - Best Quality" video choice is free of `-` and of `3`. */
  lemma Mp4BestPieces()
    ensures '-' !in Mp4Best && '3' !in Mp4Best
  {
    var p1, p2, p3 := "bestvideo[ext=mp4]", "+bestaudio[ext=m4a]", "/best[ext=mp4]/mp4";
    assert '-' !in p1 && '3' !in p1;
    assert '-' !in p2 && '3' !in p2;
    assert '-' !in p3 && '3' !in p3;
    CharAbsent3(p1, p2, p3, '-');
    CharAbsent3(p1, p2, p3, '3');
  }

  lemma CharAbsent3(a: string, b: string, c: string, ch: char)
    requires ch !in a && ch !in b && ch !in c
    ensures ch !in a + b + c
  {
  }

  /** The "MP4 - Best Quality" video choice names `audio` and `m4a` but not `mp3`. */
  lemma Mp4BestWords()
    ensures Contains(Mp4Best, "audio") && Contains(Mp4Best, "m4a") && !Contains(Mp4Best, "mp3")
  {
    var p1, p2, p3 := "bestvideo[ext=mp4]", "+bestaudio[ext=m4a]", "/best[ext=mp4]/mp4";
    ContainsMiddle(p1, p2, p3);
    Mp4AudioWords();
    ContainsTrans(Mp4Best, p2, "audio");
    ContainsTrans(Mp4Best, p2, "m4a");
    Mp4BestPieces();
    NoCharOfWord(Mp4Best, "mp3", 2);
  }

  /** The audio part of the "MP4 - Best Quality" choice names `audio` and `m4a`. */
  lemma Mp4AudioWords()
    ensures Contains("+bestaudio[ext=m4a]", "audio") && Contains("+bestaudio[ext=m4a]", "m4a")
  {
    var p2 := "+bestaudio[ext=m4a]";
    assert p2[5..10] == "audio" && p2[15..18] == "m4a";
    ContainsAt(p2, "audio", 5);
    ContainsAt(p2, "m4a", 15);
  }

  /** The "MP4 - Best Quality" video choice takes the audio branch and is
      converted to an m4a audio file. */
  lemma VideoChoiceExtractsAudio(outputPath: string)
    ensures CodecEntries(DownloadOptions(outputPath, Mp4Best), Some(ExtractAudio("m4a", Some("0"))))
  {
    Mp4BestWords();
    assert AudioCodec(Mp4Best) == Some(ExtractAudio("m4a", Some("0")));
  }

  /** A word one of whose characters is absent from `s` does not occur in `s`. */
  lemma NoCharOfWord(s: string, w: string, k: nat)
    requires k < |w| && w[k] !in s
    ensures !Contains(s, w)
  {
    forall j ensures !OccursAt(s, w, j) {
      if 0 <= j && j + |w| <= |s| {
        assert s[j..j + |w|][k] == s[j + k];
        assert s[j + k] in s;
      }
    }
  }

  /** The selector of the "MP3 - 192kbps" choice holds no ` --`. */
  lemma Mp3SelectorUnflagged()
    ensures !Contains(Mp3Selector, " --")
  {
    var rest := "ba[ext=m4a]/ba/best";
    assert ' ' !in rest;
    assert rest == "b" + "a[ext=m4a]/ba/best";
    FlagHeadUnflagged(rest);
  }

  /** `-f ` followed by a blank-free word that does not start with `-` holds no ` --`. */
  lemma FlagHeadUnflagged(rest: string)
    requires ' ' !in rest && rest != [] && rest[0] != '-'
    ensures !Contains("-f " + rest, " --")
  {
    var s := "-f " + rest;
    forall j | 0 <= j && j + 3 <= |s| ensures !OccursAt(s, " --", j) {
      assert s[j..j + 3][0] == s[j] && s[j..j + 3][1] == s[j + 1];
      if j >= 3 {
        assert s[j] == rest[j - 3];
        assert rest[j - 3] in rest;
      } else if j == 2 {
        assert s[3] == rest[0];
      } else {
        assert s[0] == '-' && s[1] == 'f';
      }
    }
  }

  /** The selector of the "MP3 - 192kbps" choice has no blank at either end. */
  lemma Mp3SelectorStripped()
    ensures Strip(Mp3Selector) == Mp3Selector
  {
    assert Mp3Selector == "-" + "f ba[ext=m4a]/ba/bes" + "t";
    assert !IsSpace(Mp3Selector[0]);
    assert StripLeft(Mp3Selector) == Mp3Selector;
    assert !IsSpace(Mp3Selector[|Mp3Selector| - 1]);
    assert StripRight(Mp3Selector) == Mp3Selector;
  }

  /** The "MP3 - 192kbps" choice splits at its first ` --` into its selector. */
  lemma Mp3HighSplits()
    ensures Before(Mp3High, " --") == Mp3Selector
  {
    Mp3SelectorUnflagged();
    Mp3SelectorTail();
    ExtractFlagSplits();
    Regroup(Mp3Selector, " ", ExtractFlag, " --", "extract-audio", Mp3Rest);
    BeforeOfPrefix(Mp3Selector, " --", "extract-audio" + Mp3Rest);
  }

  lemma Mp3SelectorTail()
    ensures forall k :: 0 <= k < |Mp3Selector| && |Mp3Selector| < k + 3 ==> Mp3Selector[k] != ' '
  {
    assert Mp3Selector == "-f ba[ext=m4a]/ba/bes" + "t";
  }

  lemma ExtractFlagSplits()
    ensures " " + ExtractFlag == " --" + "extract-audio"
  {
  }

  lemma Regroup(a: string, x: string, y: string, u: string, v: string, b: string)
    requires x + y == u + v
    ensures a + x + y + b == a + u + (v + b)
  {
    assert a + x + y + b == a + (x + y) + b;
  }

  /** The "MP3 - 192kbps" choice names both `audio` and `--extract-audio`. */
  lemma Mp3HighFlagged()
    ensures Contains(Mp3High, "audio") && Contains(Mp3High, "--extract-audio")
  {
    ContainsMiddle(Mp3Selector + " ", ExtractFlag, Mp3Rest);
    ContainsMiddle("--extract-", "audio", "");
    assert "--extract-" + "audio" + "" == ExtractFlag;
    ContainsTrans(Mp3High, ExtractFlag, "audio");
  }

  /** The "MP3 - 192kbps" choice passes its `-f ` flag on as part of the selector. */
  lemma AudioSelectorKeepsFlag(outputPath: string)
    ensures DownloadOptions(outputPath, Mp3High)["format"] == Str(Mp3Selector)
    ensures StartsWith(Mp3Selector, "-f ")
  {
    Mp3HighSplits();
    Mp3HighFlagged();
    Mp3SelectorStripped();
  }

  /** `Before` of `a + sep + b` is `a` when `sep` occurs neither inside `a`
      nor across its end. */
  lemma BeforeOfPrefix(a: string, sep: string, b: string)
    requires sep != "" && !Contains(a, sep)
    requires forall k :: 0 <= k < |a| && |a| < k + |sep| ==> a[k] != sep[0]
    ensures Before(a + sep + b, sep) == a
  {
    var s := a + sep + b;
    ContainsMiddle(a, sep, b);
    assert s[|a|..|a| + |sep|] == sep;
    forall j | 0 <= j < |a| ensures !OccursAt(s, sep, j) {
      if j + |sep| <= |a| {
        assert s[j..j + |sep|] == a[j..j + |sep|];
        if OccursAt(a, sep, j) {
          ContainsAt(a, sep, j);
        }
      } else if j + |sep| <= |s| {
        assert s[j..j + |sep|][0] == a[j];
      }
    }
    assert OccursAt(s, sep, |a|);
    FindFirst(s, sep, |a|);
    var i := Find(s, sep).value;
    assert !(i < |a|);
    assert i == |a|;
    assert s[..|a|] == a;
  }

  /** The choice strings of the audio table; they are the only ones with this flag. */
  predicate IsAudioChoice(fs: string)
  {
    Contains(fs, "--extract-audio")
  }

  /** The options as evidently intended: the audio branch is taken for the
      audio table's strings, and both branches drop the `-f ` flag. */
  function DownloadOptionsFixed(outputPath: string, fs: string): (o: Options)
    ensures forall k :: k in BaseOptions(outputPath) ==> k in o && o[k] == BaseOptions(outputPath)[k]
    ensures "format" in o
    ensures IsAudioChoice(fs) ==> o["format"] == Str(DropFlag(Strip(Before(fs, " --"))))
    ensures CodecEntries(o, if IsAudioChoice(fs) then AudioCodec(fs) else None)
    ensures !IsAudioChoice(fs) ==> o.Keys == BaseOptions(outputPath).Keys + {"format"}
    ensures !IsAudioChoice(fs) ==> o["format"] == Str(DropFlag(fs))
  {
    if IsAudioChoice(fs) then Assemble(outputPath, DropFlag(Strip(Before(fs, " --"))), AudioCodec(fs))
    else Assemble(outputPath, DropFlag(fs), None)
  }

  /** With the intended test the video choice keeps its selector and is not converted. */
  lemma VideoChoiceFixed(outputPath: string)
    ensures DownloadOptionsFixed(outputPath, Mp4Best)["format"] == Str(Mp4Best)
    ensures CodecEntries(DownloadOptionsFixed(outputPath, Mp4Best), None)
  {
    Mp4BestPieces();
    UnflaggedChoiceFixed(outputPath, Mp4Best);
  }

  /** A choice string without `-` is passed on unchanged and not converted. */
  lemma UnflaggedChoiceFixed(outputPath: string, fs: string)
    requires '-' !in fs
    ensures DownloadOptionsFixed(outputPath, fs)["format"] == Str(fs)
    ensures CodecEntries(DownloadOptionsFixed(outputPath, fs), None)
  {
    NoCharOfWord(fs, "--extract-audio", 0);
    if |fs| >= 3 {
      assert fs[0] in fs;
    }
  }

  /** With the intended test the audio selector loses its flag. */
  lemma AudioSelectorFixed(outputPath: string)
    ensures DownloadOptionsFixed(outputPath, Mp3High)["format"] == Str("ba[ext=m4a]/ba/best")
  {
    Mp3HighSplits();
    Mp3HighFlagged();
    Mp3SelectorStripped();
  }

  /** The last path component, after `/` and then after `\`. */
  function BaseName(path: string): (r: string)
    ensures EndsWith(path, r)
    ensures forall k :: 0 <= k < |r| ==> r[k] != '/' && r[k] != '\\'
  {
    var a := AfterLast(path, '/');
    var b := AfterLast(a, '\\');
    assert EndsWith(path, b) by {
      assert path[|path| - |a|..] == a;
      assert a[|a| - |b|..] == b;
      assert path[|path| - |b|..] == a[|a| - |b|..];
    }
    b
  }

  const NameLimit: nat := 30

  /** A file name longer than 30 characters is shown as its first 27 and `...`. */
  function ShortName(name: string): (r: string)
    ensures |r| <= NameLimit
    ensures |name| <= NameLimit ==> r == name
    ensures |name| > NameLimit ==> r == name[..27] + "..."
  {
    if |name| > NameLimit then name[..27] + "..." else name
  }

  /** The status line of the beginner window. */
  datatype Status =
    | Idle
    | Starting
    | Downloading(name: string, percent: nat)
    | SizeUnknown(name: string, downloaded: nat)
    | Processing(name: string)
    | Cancelling
    | CancelledByUser
    | DownloadError(message: string)
    | Complete
    | Timed(text: string)  // the thread's first text and the timer's texts
    | StartingTitle(title: string)

  /** The timer phases of `schedule_status_update`. */
  datatype Phase = NoPhase | Preparing | Transferring | Waiting

  /** `schedule_status_update`'s message in the preparing phase. */
  function PreparingMessage(elapsed: nat): string
  {
    if elapsed < 15 then "Preparing for download..."
    else if elapsed < 30 then "Processing..."
    else "Taking longer than expected... still working"
  }

  /** The elapsed-time suffix, in whole minutes and seconds. */
  function ElapsedText(elapsed: nat): string
  {
    " (elapsed: " + NatToString(elapsed / 60) + "m " + NatToString(elapsed % 60) + "s)"
  }

  /** The phase after one timer tick. */
  function PhaseStep(phase: Phase, elapsed: nat): (r: Phase)
    ensures phase != Preparing ==> r == phase
    ensures r == Waiting <==> phase == Waiting || (phase == Preparing && elapsed >= 30)
  {
    if phase == Preparing && elapsed >= 30 then Waiting else phase
  }

  /** The phase after a run of ticks, at the given elapsed times. */
  function PhaseAfter(phase: Phase, ticks: seq<nat>): Phase
    decreases |ticks|
  {
    if ticks == [] then phase else PhaseAfter(PhaseStep(phase, ticks[0]), ticks[1..])
  }

  /** Over any run of ticks the timer stays in the preparing phase exactly as
      long as every tick came before 30 seconds, leaves it only for the
      waiting phase, and never changes any other phase. */
  lemma {:induction false} PhaseRun(phase: Phase, ticks: seq<nat>)
    ensures phase != Preparing ==> PhaseAfter(phase, ticks) == phase
    ensures PhaseAfter(phase, ticks) == Preparing <==> phase == Preparing && forall k :: 0 <= k < |ticks| ==> ticks[k] < 30
    ensures PhaseAfter(phase, ticks) == phase || (phase == Preparing && PhaseAfter(phase, ticks) == Waiting)
    decreases |ticks|
  {
    if ticks != [] {
      PhaseRun(PhaseStep(phase, ticks[0]), ticks[1..]);
      assert forall k :: 1 <= k < |ticks| ==> ticks[k] == ticks[1..][k - 1];
    }
  }

  /** The bar and the status line after a progress call that was not
      cancelled: the percent of `total_bytes` (else of the estimate) while
      downloading, the byte count when neither is known, and a reset bar once
      the file is finished; other states change nothing. */
  function ProgressView(state: string, downloaded: nat, totalBytes: nat, estimate: nat, filename: string,
                        bar: nat, status: Status): (r: (nat, Status))
    ensures state == "downloading" ==> var total := if totalBytes != 0 then totalBytes else estimate;
              (total > 0 ==> r.0 * total <= downloaded * 100 < (r.0 + 1) * total &&
                             (downloaded <= total ==> r.0 <= 100) &&
                             r.1 == Downloading(ShortName(BaseName(filename)), r.0)) &&
              (total == 0 ==> r == (bar, SizeUnknown(ShortName(BaseName(filename)), downloaded)))
    ensures state == "finished" ==> r == (0, Processing(BaseName(filename)))
    ensures state != "downloading" && state != "finished" ==> r == (bar, status)
  {
    if state == "downloading" then
      var total := if totalBytes != 0 then totalBytes else estimate;
      var name := ShortName(BaseName(filename));
      if total > 0 then
        PercentIsFloor(downloaded, total);
        (Percent(downloaded, total), Downloading(name, Percent(downloaded, total)))
      else (bar, SizeUnknown(name, downloaded))
    else if state == "finished" then (0, Processing(BaseName(filename)))
    else (bar, status)
  }

  /** How a download thread ends: the info step saw the cancel request, the
      download finished, or it raised with a message. */
  datatype ThreadEnd = CancelledAfterInfo | Finished | Raised(message: string)

  const CancelMessage: string := "Download cancelled by user"

  /** The download state of the beginner window. */
  class Session {
    var cancelRequested: bool
    var downloadCancelled: bool
    var updateTimerActive: bool
    var statusPhase: Phase
    var bar: nat
    var status: Status

    constructor()
      ensures !cancelRequested && !downloadCancelled && !updateTimerActive
      ensures statusPhase == NoPhase && bar == 0 && status == Idle
    {
      cancelRequested, downloadCancelled, updateTimerActive := false, false, false;
      statusPhase, bar, status := NoPhase, 0, Idle;
    }

    /** `start_download`: both flags are cleared before the thread starts. */
    method StartDownload()
      modifies this
      ensures !cancelRequested && !downloadCancelled && bar == 0 && status == Starting
      ensures updateTimerActive == old(updateTimerActive) && statusPhase == old(statusPhase)
    {
      bar := 0;
      status := Starting;
      cancelRequested := false;
      downloadCancelled := false;
    }

    /** The start of `download_thread`: the preparing text is shown, the
        timer runs in the preparing phase, and its first tick, at once,
        replaces the text with the preparing message at 0 seconds. */
    method BeginThread()
      modifies this
      ensures updateTimerActive && statusPhase == Preparing
      ensures status == Timed(PreparingMessage(0) + ElapsedText(0))
      ensures cancelRequested == old(cancelRequested) && downloadCancelled == old(downloadCancelled)
      ensures bar == old(bar)
    {
      status := Timed("Preparing for download...");
      updateTimerActive := true;
      statusPhase := Preparing;
      var _ := ScheduleStatusUpdate(0);
    }

    /** The info step of `download_thread`: the downloading phase starts and
        the title is shown; from then on no tick changes the phase, so none
        writes a preparing or waiting message. `title` is what
        `info_dict.get('title', 'Unknown Title')` gives. */
    method InfoExtracted(title: string)
      modifies this
      ensures statusPhase == Transferring && status == StartingTitle(title)
      ensures forall ticks :: PhaseAfter(statusPhase, ticks) == Transferring
      ensures cancelRequested == old(cancelRequested) && downloadCancelled == old(downloadCancelled)
      ensures updateTimerActive == old(updateTimerActive) && bar == old(bar)
    {
      statusPhase := Transferring;
      status := StartingTitle(title);
      forall ticks: seq<nat> ensures PhaseAfter(Transferring, ticks) == Transferring {
        PhaseRun(Transferring, ticks);
      }
    }

    /** `cancel_download`: both flags are raised. */
    method CancelDownload()
      modifies this
      ensures cancelRequested && downloadCancelled && status == Cancelling
      ensures updateTimerActive == old(updateTimerActive) && statusPhase == old(statusPhase) && bar == old(bar)
    {
      cancelRequested := true;
      downloadCancelled := true;
      status := Cancelling;
    }

    /** `update_download_progress`; `raised` stands for the cancellation exception. */
    method UpdateDownloadProgress(status': string, downloaded: nat, totalBytes: nat, estimate: nat, filename: string)
      returns (raised: bool)
      modifies this
      ensures raised <==> old(cancelRequested)
      ensures raised ==> unchanged(this)
      ensures !raised ==> (bar, status) == ProgressView(status', downloaded, totalBytes, estimate, filename, old(bar), old(status))
      ensures cancelRequested == old(cancelRequested) && downloadCancelled == old(downloadCancelled)
      ensures updateTimerActive == old(updateTimerActive) && statusPhase == old(statusPhase)
    {
      if cancelRequested {
        return true;
      }
      raised := false;
      if status' == "downloading" {
        var total := if totalBytes != 0 then totalBytes else estimate;
        var name := ShortName(BaseName(filename));
        if total > 0 {
          var percent := Percent(downloaded, total);
          bar := percent;
          status := Downloading(name, percent);
        } else {
          status := SizeUnknown(name, downloaded);
        }
      } else if status' == "finished" {
        status := Processing(BaseName(filename));
        bar := 0;
      }
    }

    /** `schedule_status_update` at `elapsed` whole seconds; the answer is the
        phase message shown, if any, and the status line shows it. In the
        downloading phase a timed text carrying an elapsed suffix gets the new
        suffix. */
    method ScheduleStatusUpdate(elapsed: nat) returns (message: Option<string>)
      modifies this
      ensures !old(updateTimerActive) ==> unchanged(this) && message.None?
      ensures old(updateTimerActive) ==> statusPhase == PhaseStep(old(statusPhase), elapsed)
      ensures old(updateTimerActive) && old(statusPhase) == Preparing ==> message == Some(PreparingMessage(elapsed) + ElapsedText(elapsed))
      ensures old(updateTimerActive) && old(statusPhase) == Waiting ==> message == Some(PreparingMessage(30) + ElapsedText(elapsed))
      ensures old(updateTimerActive) && old(statusPhase) != Preparing && old(statusPhase) != Waiting ==> message.None?
      ensures old(updateTimerActive) && message.Some? ==> status == Timed(message.value)
      ensures old(updateTimerActive) && old(statusPhase) == Transferring ==>
                status == (if old(status).Timed? && Contains(old(status).text, "elapsed:")
                           then Timed(Before(old(status).text, " (elapsed:") + ElapsedText(elapsed))
                           else old(status))
      ensures old(updateTimerActive) && old(statusPhase) == NoPhase ==> status == old(status)
      ensures cancelRequested == old(cancelRequested) && downloadCancelled == old(downloadCancelled)
      ensures updateTimerActive == old(updateTimerActive) && bar == old(bar)
    {
      if !updateTimerActive {
        return None;
      }
      message := None;
      if statusPhase == Preparing {
        message := Some(PreparingMessage(elapsed) + ElapsedText(elapsed));
        if elapsed >= 30 {
          statusPhase := Waiting;
        }
        status := Timed(message.value);
      } else if statusPhase == Transferring {
        if status.Timed? && Contains(status.text, "elapsed:") {
          status := Timed(Before(status.text, " (elapsed:") + ElapsedText(elapsed));
        }
      } else if statusPhase == Waiting {
        message := Some(PreparingMessage(30) + ElapsedText(elapsed));
        status := Timed(message.value);
      }
    }

    /** `on_download_complete`: 100 unless cancelled, then both flags cleared. */
    method OnDownloadComplete()
      modifies this
      ensures bar == (if old(downloadCancelled) then 0 else 100)
      ensures status == (if old(downloadCancelled) then old(status) else Complete)
      ensures !cancelRequested && !downloadCancelled
      ensures updateTimerActive == old(updateTimerActive) && statusPhase == old(statusPhase)
    {
      if !downloadCancelled {
        status := Complete;
        bar := 100;
      } else {
        bar := 0;
      }
      cancelRequested := false;
      downloadCancelled := false;
    }

    /** The end of `download_thread` as written: a failure shows its error and
        then runs `on_download_complete`, which replaces it. */
    method EndThread(url: string, end: ThreadEnd)
      modifies this
      ensures !updateTimerActive
      ensures end == Finished ==> bar == (if old(downloadCancelled) then 0 else 100) && !cancelRequested && !downloadCancelled
      ensures end == Finished ==> status == (if old(downloadCancelled) then old(status) else Complete)
      ensures end == CancelledAfterInfo || end == Raised(CancelMessage) ==> (
        status == CancelledByUser && bar == 0 && !cancelRequested && downloadCancelled == old(downloadCancelled))
      ensures end.Raised? && end.message != CancelMessage && !old(downloadCancelled) ==> status == Complete && bar == 100
      ensures end.Raised? && end.message != CancelMessage && old(downloadCancelled) ==>
                status == DownloadError("Error downloading from " + url + ": " + end.message) && bar == 0
      ensures end.Raised? && end.message != CancelMessage ==> !cancelRequested && !downloadCancelled
      ensures statusPhase == (if end == CancelledAfterInfo || end == Finished then Transferring else old(statusPhase))
    {
      if end == CancelledAfterInfo || end == Finished {
        statusPhase := Transferring;
      }
      if end == CancelledAfterInfo {
        status := CancelledByUser;
        bar := 0;
        cancelRequested := false;
        updateTimerActive := false;
        return;
      }
      updateTimerActive := false;
      if end == Finished {
        OnDownloadComplete();
      } else if end.message == CancelMessage {
        status := CancelledByUser;
        bar := 0;
        cancelRequested := false;
      } else {
        status := DownloadError("Error downloading from " + url + ": " + end.message);
        OnDownloadComplete();
      }
    }

    /** The same end with the error left visible: a failed download is not
        reported as complete. */
    method EndThreadFixed(url: string, end: ThreadEnd)
      modifies this
      ensures !updateTimerActive
      ensures end == Finished ==> bar == (if old(downloadCancelled) then 0 else 100) && !cancelRequested && !downloadCancelled
      ensures end == Finished ==> status == (if old(downloadCancelled) then old(status) else Complete)
      ensures end == CancelledAfterInfo || end == Raised(CancelMessage) ==> (
        status == CancelledByUser && bar == 0 && !cancelRequested && downloadCancelled == old(downloadCancelled))
      ensures end.Raised? && end.message != CancelMessage ==> (
        status == DownloadError("Error downloading from " + url + ": " + end.message) &&
        bar == 0 && !cancelRequested && !downloadCancelled)
      ensures statusPhase == (if end == CancelledAfterInfo || end == Finished then Transferring else old(statusPhase))
    {
      if end == CancelledAfterInfo || end == Finished {
        statusPhase := Transferring;
      }
      if end == CancelledAfterInfo {
        status := CancelledByUser;
        bar := 0;
        cancelRequested := false;
        updateTimerActive := false;
        return;
      }
      updateTimerActive := false;
      if end == Finished {
        OnDownloadComplete();
      } else if end.message == CancelMessage {
        status := CancelledByUser;
        bar := 0;
        cancelRequested := false;
      } else {
        status := DownloadError("Error downloading from " + url + ": " + end.message);
        bar := 0;
        cancelRequested := false;
        downloadCancelled := false;
      }
    }
  }
}
