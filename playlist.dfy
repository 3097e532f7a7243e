/** The playlist helper: playlist URL detection, the format and limit dialog
    state, the item list built from the playlist entries, the size estimate
    taken from the first entry, and the sequential download of the items
    with one fallback retry for audio. */
module Playlist {
  import opened Wrappers
  import opened Text
  import opened YdlOptions

  /** `is_playlist`. */
  predicate IsPlaylist(url: string)
  {
    Contains(url, "&list=") || Contains(url, "?list=") || Contains(url, "/playlist?")
  }

  /** A URL recognised through one of its `list=` markers also contains the
      plain `list=` that the beginner front end looks for. */
  lemma ListMarkerContainsList(url: string)
    requires Contains(url, "&list=") || Contains(url, "?list=")
    ensures Contains(url, "list=")
  {
    var w := if Contains(url, "&list=") then "&list=" else "?list=";
    var i := Find(url, w).value;
    assert url[i + 1..i + 6] == w[1..];
    assert w[1..] == "list=";
    ContainsAt(url, "list=", i + 1);
  }

  /** A playlist entry as the flat extraction gives it; `""` for a missing id. */
  datatype VideoEntry = VideoEntry(id: string, title: Option<string>)

  /** A download item. */
  datatype Item = Item(url: string, title: string, format: string, kind: string)

  const WatchPrefix: string := "https://www.youtube.com/watch?v="

  function ItemFor(v: VideoEntry, format: string, kind: string): (it: Item)
    ensures it.url == WatchPrefix + v.id && it.format == format && it.kind == kind
  {
    Item(WatchPrefix + v.id, v.title.GetOr("Unknown"), format, kind)
  }

  /** One item per entry that has an id, in playlist order. */
  function ItemsOf(vs: seq<VideoEntry>, format: string, kind: string): (r: seq<Item>)
    ensures |r| <= |vs|
    ensures forall k :: 0 <= k < |r| ==> r[k].format == format && r[k].kind == kind && StartsWith(r[k].url, WatchPrefix)
    decreases |vs|
  {
    if vs == [] then []
    else
      var init := ItemsOf(vs[..|vs| - 1], format, kind);
      var last := vs[|vs| - 1];
      if last.id != "" then init + [ItemFor(last, format, kind)] else init
  }

  /** Limiting the entries keeps a prefix of the unlimited item list. */
  lemma {:induction false} ItemsOfPrefix(vs: seq<VideoEntry>, c: nat, format: string, kind: string)
    requires c <= |vs|
    ensures var short, full := ItemsOf(vs[..c], format, kind), ItemsOf(vs, format, kind);
            |short| <= c && |short| <= |full| && short == full[..|short|]
    decreases |vs|
  {
    if c < |vs| {
      ItemsOfPrefix(vs[..|vs| - 1], c, format, kind);
      assert vs[..|vs| - 1][..c] == vs[..c];
    } else {
      assert vs[..c] == vs;
    }
  }

  /** When every entry has an id, the items follow the entries one for one. */
  lemma {:induction false} ItemsOfAllIds(vs: seq<VideoEntry>, format: string, kind: string)
    requires forall j :: 0 <= j < |vs| ==> vs[j].id != ""
    ensures |ItemsOf(vs, format, kind)| == |vs|
    ensures forall j :: 0 <= j < |vs| ==> ItemsOf(vs, format, kind)[j] == ItemFor(vs[j], format, kind)
    decreases |vs|
  {
    if vs != [] {
      ItemsOfAllIds(vs[..|vs| - 1], format, kind);
    }
  }

  /** An entry without an id adds no item. */
  lemma ItemsOfSkipsMissingId(vs: seq<VideoEntry>, v: VideoEntry, format: string, kind: string)
    requires v.id == ""
    ensures ItemsOf(vs + [v], format, kind) == ItemsOf(vs, format, kind)
  {
    assert (vs + [v])[..|vs|] == vs;
  }

  const VideoDisplays: seq<string> := ["mp4 (720p)", "mp4 (360p)", "webm (720p)", "webm (360p)"]
  const AudioDisplays: seq<string> := ["MP3 (192kbps)", "MP3 (128kbps)", "M4A (High Quality)", "OGG (High Quality)"]
  const VideoValues: seq<string> := [
    "bestvideo[ext=mp4][height<=720]+bestaudio[ext=m4a]/best[ext=mp4][height<=720]/best",
    "bestvideo[ext=mp4][height<=360]+bestaudio[ext=m4a]/best[ext=mp4][height<=360]/best",
    "bestvideo[ext=webm][height<=720]+bestaudio[ext=webm]/best[ext=webm][height<=720]/best",
    "bestvideo[ext=webm][height<=360]+bestaudio[ext=webm]/best[ext=webm][height<=360]/best"]
  const AudioValues: seq<string> := [
    "ba[ext=mp3]/ba/best --extract-audio --audio-format mp3 --audio-quality 192K",
    "ba[ext=mp3]/ba/best --extract-audio --audio-format mp3 --audio-quality 128K",
    "ba[ext=m4a]/ba/best --extract-audio --audio-format m4a",
    "ba[ext=vorbis]/ba/best --extract-audio --audio-format vorbis"]

  /** The entries of the format dialog for a download type, in order. */
  function FormatDisplays(kind: string): seq<string>
  {
    if kind == "video" then VideoDisplays else AudioDisplays
  }

  /** `dict(zip(displays, values))`. */
  function Zip(ds: seq<string>, vs: seq<string>): (m: map<string, string>)
    requires |ds| == |vs|
    ensures forall k :: 0 <= k < |ds| ==> ds[k] in m
    decreases |ds|
  {
    if ds == [] then map[] else Zip(ds[..|ds| - 1], vs[..|vs| - 1])[ds[|ds| - 1] := vs[|vs| - 1]]
  }

  /** The format string behind each entry of the dialog. */
  function FormatValues(kind: string): map<string, string>
  {
    if kind == "video" then Zip(VideoDisplays, VideoValues) else Zip(AudioDisplays, AudioValues)
  }

  /** The entry a type shows first has a format string. */
  lemma FirstDisplayListed(kind: string)
    ensures |FormatDisplays(kind)| > 0 && FormatDisplays(kind)[0] in FormatValues(kind)
  {
    var ds := FormatDisplays(kind);
    assert ds[0] in FormatValues(kind);
  }

  /** A size entry of a probed dictionary: missing, present as `None`, or a byte count. */
  type SizeField = Field<nat>

  /** `d.get(key, 0)` on a size entry: `None` stands for Python's `None`. */
  function GetSize(f: SizeField): (r: Option<nat>)
    ensures f.Missing? ==> r == Some(0)
    ensures f.Null? ==> r.None?
    ensures f.Present? ==> r == Some(f.value)
  {
    f.Get(0)
  }

  /** Python's truth value of a size: `None` and `0` are false. */
  predicate Truthy(v: Option<nat>)
  {
    v.Some? && v.value != 0
  }

  /** What the size probe reports about one format of the first entry. */
  datatype FormatSize = FormatSize(formatId: Option<string>, filesize: SizeField)

  /** The probed information of the first entry; `duration` is `0` when
      missing or `None`, both of which the code treats as false. */
  datatype ProbeInfo = ProbeInfo(formatId: Option<string>, formats: seq<FormatSize>, filesize: SizeField, duration: nat)

  /** What `calculate_playlist_size` ends with: no estimate (it returned
      early), an estimate in bytes, or the "Estimation failed" label of the
      exception handler. */
  datatype Estimate = NoEstimate | Estimated(bytes: nat) | EstimationFailed

  /** What the extraction for the first entry did: returned nothing, returned
      the probed information, or raised with the given message. */
  datatype Probe = NoProbe | Probed(info: ProbeInfo) | ProbeRaised(error: string)

  /** What the flat playlist extraction did: raised with the given message,
      or returned a result, with whether it has `entries` and those entries. */
  datatype Fetch = FetchRaised(error: string) | Fetched(hasEntries: bool, entries: seq<VideoEntry>)

  /** One call of the `log_func` callback: the message and its level. */
  datatype LogCall = LogCall(message: string, level: string)

  /** The text of the TypeError that `None * len(self.videos)` raises. */
  const NoneTimesIntError := "unsupported operand type(s) for *: 'NoneType' and 'int'"

  /** The byte rate assumed when no size is known. */
  function ByteRate(kind: string, display: string): (r: nat)
    ensures kind == "video" ==> r == (if Contains(display, "720p") then 350000 else 200000)
    ensures kind != "video" ==> r == (if Contains(display, "192kbps") then 24000 else 16000)
  {
    if kind == "video" then (if Contains(display, "720p") then 350000 else 200000)
    else (if Contains(display, "192kbps") then 24000 else 16000)
  }

  /** The outcome of one `extract_info(url, download=True)` call. */
  datatype Outcome = Downloaded(title: string, filename: string) | Failed(error: string)

  /** The dictionary `download_item` returns. */
  datatype DownloadResult = DownloadResult(success: bool, title: string, filename: string, error: string)

  /** `str.split(sep)`. */
  function SplitOn(s: string, sep: string): (r: seq<string>)
    requires sep != ""
    ensures r != [] && r[0] == Before(s, sep)
    decreases |s|
  {
    if Contains(s, sep) then [Before(s, sep)] + SplitOn(After(s, sep), sep) else [s]
  }

  /** `any(w in part for part in parts)`. */
  predicate AnyContains(parts: seq<string>, w: string)
  {
    exists k :: 0 <= k < |parts| && Contains(parts[k], w)
  }

  /** A word made of neither blanks nor dashes is in some part of the
      `' --'` split exactly when it is in the whole string. */
  lemma {:induction false} AnyPartContains(s: string, w: string)
    requires w != [] && forall j :: 0 <= j < |w| ==> w[j] != ' ' && w[j] != '-'
    ensures AnyContains(SplitOn(s, " --"), w) <==> Contains(s, w)
    decreases |s|
  {
    var sep := " --";
    if Contains(s, sep) {
      var b, a := Before(s, sep), After(s, sep);
      var tail := SplitOn(a, sep);
      AnyPartContains(a, w);
      assert SplitOn(s, sep) == [b] + tail;
      ContainsAcrossSep(b, a, w);
      assert AnyContains([b] + tail, w) <==> Contains(b, w) || AnyContains(tail, w) by {
        if AnyContains(tail, w) {
          var k :| 0 <= k < |tail| && Contains(tail[k], w);
          assert ([b] + tail)[k + 1] == tail[k];
        }
        if AnyContains([b] + tail, w) {
          var k :| 0 <= k < |[b] + tail| && Contains(([b] + tail)[k], w);
          if k > 0 {
            assert ([b] + tail)[k] == tail[k - 1];
          }
        }
      }
    } else {
      assert SplitOn(s, sep) == [s];
      assert AnyContains([s], w) <==> Contains(s, w) by {
        assert [s][0] == s;
      }
    }
  }

  /** Such a word is in `b + " --" + a` exactly when it is in `b` or in `a`. */
  lemma ContainsAcrossSep(b: string, a: string, w: string)
    requires w != [] && forall j :: 0 <= j < |w| ==> w[j] != ' ' && w[j] != '-'
    ensures Contains(b + " --" + a, w) <==> Contains(b, w) || Contains(a, w)
  {
    var sep := " --";
    assert b + sep + a == (b + sep) + a;
    if Contains(b, w) {
      ContainsInPrefix(b, sep, w);
      ContainsInPrefix(b + sep, a, w);
    }
    if Contains(a, w) {
      ContainsInSuffix(b + sep, a, w);
    }
    if Contains(b + sep + a, w) {
      ContainsInConcat(b + sep, a, w);
      NoStraddleOutOfSep(b, sep, w);
      if Contains(b + sep, w) {
        ContainsInConcat(b, sep, w);
        CharAbsentFrom(sep, w);
        NoStraddleIntoSep(sep, w);
      }
    }
  }

  lemma CharAbsentFrom(sep: string, w: string)
    requires sep == " --" && w != [] && forall j :: 0 <= j < |w| ==> w[j] != ' ' && w[j] != '-'
    ensures !Contains(sep, w)
  {
    forall j ensures !OccursAt(sep, w, j) {
      if 0 <= j && j + |w| <= |sep| {
        assert sep[j..j + |w|][0] == sep[j];
      }
    }
  }

  /** No tail of such a word can begin the separator. */
  lemma NoStraddleIntoSep(sep: string, w: string)
    requires sep == " --" && forall j :: 0 <= j < |w| ==> w[j] != ' ' && w[j] != '-'
    ensures forall k :: 0 < k < |w| ==> !StartsWith(sep, w[k..])
  {
    forall k | 0 < k < |w| ensures !StartsWith(sep, w[k..]) {
      if |w| - k <= |sep| {
        assert sep[..|w| - k][0] == sep[0];
      }
    }
  }

  /** No head of such a word can end the separator. */
  lemma NoStraddleOutOfSep(b: string, sep: string, w: string)
    requires sep == " --" && forall j :: 0 <= j < |w| ==> w[j] != ' ' && w[j] != '-'
    ensures forall k :: 0 < k < |w| ==> !EndsWith(b + sep, w[..k])
  {
    var bs := b + sep;
    forall k | 0 < k < |w| ensures !EndsWith(bs, w[..k]) {
      if k <= |bs| {
        assert bs[|bs| - k..][k - 1] == bs[|bs| - 1];
      }
    }
  }

  /** The extraction post-processor `download_item` asks for, by first match. */
  function AudioPostProcessor(format: string, parts: seq<string>): Option<PostProcessor>
  {
    if AnyContains(parts, "mp3") then Some(ExtractAudio("mp3", Some(if Contains(format, "192K") then "192" else "128")))
    else if AnyContains(parts, "m4a") then Some(ExtractAudio("m4a", Some("0")))
    else if AnyContains(parts, "vorbis") then Some(ExtractAudio("vorbis", Some("0")))
    else None
  }

  /** The dictionary `download_item` builds for an item. */
  function ItemOptions(item: Item, outputPath: string): (o: Options)
    ensures "outtmpl" in o && o["outtmpl"] == Str(outputPath + "/" + TitleTemplate)
    ensures "format" in o
    ensures item.kind != "audio" ==> o["format"] == Str(item.format) && "postprocessors" !in o && "extract_audio" !in o
    ensures item.kind == "audio" ==> (o["format"] == Str(Before(item.format, " --")) &&
              "extract_audio" in o && o["extract_audio"] == Bool(true))
  {
    var base := map["quiet" := Bool(true), "no_warnings" := Bool(true), "outtmpl" := Str(outputPath + "/" + TitleTemplate)];
    if item.kind == "audio" then
      var parts := SplitOn(item.format, " --");
      var o := base["format" := Str(parts[0])]["extract_audio" := Bool(true)];
      match AudioPostProcessor(item.format, parts)
      case Some(pp) => o["postprocessors" := PostProcessors([pp])]
      case None => o
    else base["format" := Str(item.format)]
  }

  /** For an audio item, the codec is the first of mp3, m4a and vorbis that the
      format string names, and the mp3 quality is 192 exactly when `192K` is there. */
  lemma AudioCodecChoice(item: Item, outputPath: string)
    requires item.kind == "audio"
    ensures var o := ItemOptions(item, outputPath);
            var f := item.format;
            (Contains(f, "mp3") ==> ("postprocessors" in o &&
               o["postprocessors"] == PostProcessors([ExtractAudio("mp3", Some(if Contains(f, "192K") then "192" else "128"))]))) &&
            (!Contains(f, "mp3") && Contains(f, "m4a") ==> ("postprocessors" in o &&
               o["postprocessors"] == PostProcessors([ExtractAudio("m4a", Some("0"))]))) &&
            (!Contains(f, "mp3") && !Contains(f, "m4a") && Contains(f, "vorbis") ==> ("postprocessors" in o &&
               o["postprocessors"] == PostProcessors([ExtractAudio("vorbis", Some("0"))]))) &&
            (!Contains(f, "mp3") && !Contains(f, "m4a") && !Contains(f, "vorbis") ==> "postprocessors" !in o)
  {
    AnyPartContains(item.format, "mp3");
    AnyPartContains(item.format, "m4a");
    AnyPartContains(item.format, "vorbis");
  }

  const FormatUnavailable: string := "Requested format is not available"
  const AudioFallback: string := "bestaudio/best"

  /** The dictionaries `download_item` hands to the downloader, in order: the
      item's own, and the fallback only after an audio item failed for an
      unavailable format. */
  function Attempts(item: Item, outputPath: string, download: (string, Options) -> Outcome): (r: seq<Options>)
    ensures 1 <= |r| <= 2 && r[0] == ItemOptions(item, outputPath)
    ensures |r| == 2 <==> item.kind == "audio" && download(item.url, r[0]).Failed? &&
                          Contains(download(item.url, r[0]).error, FormatUnavailable)
    ensures |r| == 2 ==> r[1] == r[0]["format" := Str(AudioFallback)]
  {
    var first := ItemOptions(item, outputPath);
    var out := download(item.url, first);
    if out.Failed? && Contains(out.error, FormatUnavailable) && item.kind == "audio" then
      [first, first["format" := Str(AudioFallback)]]
    else [first]
  }

  /** `download_item`: the result of the last attempt. */
  function DownloadItem(item: Item, outputPath: string, download: (string, Options) -> Outcome): DownloadResult
  {
    var tries := Attempts(item, outputPath, download);
    match download(item.url, tries[|tries| - 1])
    case Downloaded(t, f) => DownloadResult(true, t, f, "")
    case Failed(e) => DownloadResult(false, "", "", e)
  }

  /** An item succeeds exactly when its last attempt does: at once, or, for an
      audio item whose format was unavailable, on the one retry with the
      fallback selector; otherwise the result carries the error. */
  lemma DownloadItemOutcome(item: Item, outputPath: string, download: (string, Options) -> Outcome)
    ensures var r := DownloadItem(item, outputPath, download);
            var first := download(item.url, ItemOptions(item, outputPath));
            var retry := item.kind == "audio" && first.Failed? && Contains(first.error, FormatUnavailable);
            var last := if retry then download(item.url, ItemOptions(item, outputPath)["format" := Str(AudioFallback)]) else first;
            (r.success <==> last.Downloaded?) &&
            (last.Downloaded? ==> r.title == last.title && r.filename == last.filename) &&
            (last.Failed? ==> r.error == last.error)
  {
  }

  /** One `progress_callback(i, total, "Preparing...")` call. */
  datatype Preparing = Preparing(index: nat, total: nat)

  /** The results of downloading every item in order. */
  function DownloadAll(items: seq<Item>, outputPath: string, download: (string, Options) -> Outcome): (r: seq<DownloadResult>)
    ensures |r| == |items|
    decreases |items|
  {
    if items == [] then []
    else DownloadAll(items[..|items| - 1], outputPath, download) + [DownloadItem(items[|items| - 1], outputPath, download)]
  }

  /** Every item has its own result, at its own position, whatever the
      outcome of the others. */
  lemma {:induction false} DownloadAllEach(items: seq<Item>, outputPath: string, download: (string, Options) -> Outcome, i: nat)
    requires i < |items|
    ensures DownloadAll(items, outputPath, download)[i] == DownloadItem(items[i], outputPath, download)
    decreases |items|
  {
    if i < |items| - 1 {
      var init := items[..|items| - 1];
      DownloadAllEach(init, outputPath, download, i);
      assert init[i] == items[i];
    }
  }

  lemma DownloadAllStep(items: seq<Item>, outputPath: string, download: (string, Options) -> Outcome, i: nat)
    requires i < |items|
    ensures DownloadAll(items[..i + 1], outputPath, download) ==
            DownloadAll(items[..i], outputPath, download) + [DownloadItem(items[i], outputPath, download)]
  {
    assert items[..i + 1][..i] == items[..i];
  }

  /** `download_item` as it runs: one attempt with the item's dictionary and,
      for an audio item whose format was unavailable, one more with the
      fallback selector. */
  method FetchItem(item: Item, outputPath: string, download: (string, Options) -> Outcome) returns (r: DownloadResult)
    ensures r == DownloadItem(item, outputPath, download)
  {
    var opts := ItemOptions(item, outputPath);
    var out := download(item.url, opts);
    if out.Failed? && Contains(out.error, FormatUnavailable) && item.kind == "audio" {
      out := download(item.url, opts["format" := Str(AudioFallback)]);
    }
    if out.Downloaded? {
      r := DownloadResult(true, out.title, out.filename, "");
    } else {
      r := DownloadResult(false, "", "", out.error);
    }
  }

  /** The body of the `download_items` thread: every item in order, one
      result per item whatever its outcome; the results go to the
      completion callback once, at the end. */
  method DownloadItems(items: seq<Item>, outputPath: string, download: (string, Options) -> Outcome)
    returns (results: seq<DownloadResult>, preparing: seq<Preparing>)
    ensures results == DownloadAll(items, outputPath, download)
    ensures |preparing| == |items|
    ensures forall i :: 0 <= i < |items| ==> preparing[i] == Preparing(i, |items|)
  {
    results, preparing := [], [];
    var i := 0;
    while i < |items|
      invariant 0 <= i <= |items| && |preparing| == i
      invariant results == DownloadAll(items[..i], outputPath, download)
      invariant forall j :: 0 <= j < i ==> preparing[j] == Preparing(j, |items|)
    {
      preparing := preparing + [Preparing(i, |items|)];
      var r := FetchItem(items[i], outputPath, download);
      DownloadAllStep(items, outputPath, download, i);
      results := results + [r];
      i := i + 1;
    }
    assert items[..|items|] == items;
  }

  /** The size of the first format whose id equals `id`, `0` when none does. */
  function FirstMatchSize(fs: seq<FormatSize>, id: Option<string>): (r: Option<nat>)
    ensures (forall j :: 0 <= j < |fs| ==> fs[j].formatId != id) ==> r == Some(0)
    ensures forall j :: 0 <= j < |fs| && fs[j].formatId == id && (forall i :: 0 <= i < j ==> fs[i].formatId != id) ==>
              r == GetSize(fs[j].filesize)
    decreases |fs|
  {
    if fs == [] then Some(0)
    else if fs[0].formatId == id then GetSize(fs[0].filesize)
    else
      var rest := fs[1..];
      assert forall j :: 1 <= j < |fs| ==> fs[j] == rest[j - 1];
      assert forall j :: 1 <= j < |fs| && fs[j].formatId == id && (forall i :: 0 <= i < j ==> fs[i].formatId != id) ==>
               forall i :: 0 <= i < j - 1 ==> rest[i].formatId != id;
      FirstMatchSize(rest, id)
  }

  /** The size assumed for one entry: the chosen format's, else the reported
      one, else the duration times the assumed byte rate; `None` when the
      reported size is `None` and no duration helps. */
  function PerVideoSize(selected: Option<nat>, info: ProbeInfo, kind: string, display: string): Option<nat>
  {
    if Truthy(selected) then selected
    else
      var reported := GetSize(info.filesize);
      if Truthy(reported) then reported
      else if info.duration != 0 then Some(info.duration * ByteRate(kind, display))
      else reported
  }

  /** `filesize * len(self.videos)`. */
  function TotalSize(perEntry: nat, entries: nat): nat
  {
    perEntry * entries
  }

  /** The per-entry size is `None`, so that multiplying it fails, exactly when
      neither the chosen format nor the entry has a usable size, the entry's
      size is `None` and there is no duration; it is `0` exactly when the same
      holds with the entry's size missing or `0`. */
  lemma PerVideoSizeCases(selected: Option<nat>, info: ProbeInfo, kind: string, display: string)
    ensures PerVideoSize(selected, info, kind, display).None? <==>
              !Truthy(selected) && info.filesize.Null? && info.duration == 0
    ensures PerVideoSize(selected, info, kind, display) == Some(0) <==>
              !Truthy(selected) && (info.filesize.Missing? || info.filesize == Present(0)) && info.duration == 0
    ensures Truthy(selected) ==> PerVideoSize(selected, info, kind, display) == selected
  {
  }

  /** The playlist dialog state. */
  class PlaylistHandler {
    var url: string
    var hasInfo: bool
    var videos: seq<VideoEntry>
    var selectedFormat: string
    var selectedFormatType: string
    var formatType: string
    var formatDisplay: string
    var formatValues: map<string, string>
    var videoLimit: Option<int>
    var fetchCancelled: bool
    /** The calls made to `log_func`, in order. */
    var logged: seq<LogCall>

    constructor (url: string)
      ensures this.url == url && !hasInfo && videos == [] && selectedFormat == "" && selectedFormatType == ""
      ensures videoLimit == None && !fetchCancelled && formatValues == map[] && logged == []
    {
      this.url := url;
      hasInfo := false;
      videos := [];
      selectedFormat := "";
      selectedFormatType := "";
      formatType := "audio";
      formatDisplay := "";
      formatValues := map[];
      videoLimit := None;
      fetchCancelled := false;
      logged := [];
    }

    /** `fetch_playlist_info` given what the flat extraction did; each
        outcome is logged: the number of entries found at INFO, a result
        without entries or the raised error at ERROR. */
    method FetchPlaylistInfo(fetched: Fetch) returns (ok: bool)
      modifies this
      ensures ok <==> fetched.Fetched? && fetched.hasEntries
      ensures hasInfo == (fetched.Fetched? || old(hasInfo))
      ensures videos == if ok then fetched.entries else old(videos)
      ensures logged == old(logged) + [match fetched
                                       case FetchRaised(e) => LogCall("Error fetching playlist info: " + e, "ERROR")
                                       case Fetched(has, entries) =>
                                         if has then LogCall("Found " + NatToString(|entries|) + " videos in playlist", "INFO")
                                         else LogCall("No playlist information found", "ERROR")]
      ensures selectedFormat == old(selectedFormat) && videoLimit == old(videoLimit) && fetchCancelled == old(fetchCancelled)
      ensures url == old(url) && selectedFormatType == old(selectedFormatType) && formatType == old(formatType)
      ensures formatDisplay == old(formatDisplay) && formatValues == old(formatValues)
    {
      ok := false;
      match fetched {
        case FetchRaised(e) =>
          logged := logged + [LogCall("Error fetching playlist info: " + e, "ERROR")];
        case Fetched(has, entries) =>
          hasInfo := true;
          if has {
            videos := entries;
            logged := logged + [LogCall("Found " + NatToString(|videos|) + " videos in playlist", "INFO")];
            ok := true;
          } else {
            logged := logged + [LogCall("No playlist information found", "ERROR")];
          }
      }
    }

    /** `on_format_type_selected` while the dialog is open: the choice table
        for the type, its first entry shown, and the size estimate restarted. */
    method OnFormatTypeSelected(kind: string)
      modifies this
      ensures formatType == kind && formatValues == FormatValues(kind)
      ensures formatDisplay == FormatDisplays(kind)[0] && formatDisplay in formatValues
      ensures !fetchCancelled
      ensures videos == old(videos) && hasInfo == old(hasInfo) && selectedFormat == old(selectedFormat)
      ensures videoLimit == old(videoLimit) && url == old(url) && selectedFormatType == old(selectedFormatType)
      ensures logged == old(logged)
    {
      FirstDisplayListed(kind);
      formatType := kind;
      formatValues := FormatValues(kind);
      formatDisplay := FormatDisplays(kind)[0];
      fetchCancelled := false;
    }

    /** `on_cancel_button`. */
    method OnCancelButton()
      modifies this
      ensures selectedFormat == "" && selectedFormatType == "" && fetchCancelled
      ensures videos == old(videos) && hasInfo == old(hasInfo) && videoLimit == old(videoLimit)
      ensures url == old(url) && formatType == old(formatType) && formatDisplay == old(formatDisplay)
      ensures formatValues == old(formatValues) && logged == old(logged)
    {
      selectedFormat := "";
      selectedFormatType := "";
      fetchCancelled := true;
    }

    /** `on_download_button`: records the choice and the limit, `int()` of the
        limit text falling back to the whole playlist, then returns the items
        `start_download` hands on. */
    method OnDownloadButton(limitType: string, limitText: string) returns (items: seq<Item>)
      modifies this
      ensures selectedFormat == (if formatDisplay in formatValues then formatValues[formatDisplay] else "")
      ensures selectedFormatType == formatType
      ensures limitType == "limited" && ParseInt(limitText).Some? ==> videoLimit == ParseInt(limitText)
      ensures !(limitType == "limited" && ParseInt(limitText).Some?) ==> videoLimit == Some(|videos|)
      ensures fetchCancelled
      ensures videos == old(videos) && hasInfo == old(hasInfo)
      ensures url == old(url) && formatType == old(formatType) && formatDisplay == old(formatDisplay)
      ensures formatValues == old(formatValues)
      ensures items == (if !hasInfo || selectedFormat == "" then [] else ItemsOf(videos[..VideoCount()], selectedFormat, selectedFormatType))
      ensures logged == old(logged) + (if items != [] then [LogCall("Started downloading " + NatToString(|items|) + " videos from playlist", "INFO")] else [])
    {
      selectedFormat := if formatDisplay in formatValues then formatValues[formatDisplay] else "";
      selectedFormatType := formatType;
      if limitType == "limited" {
        var n := ParseInt(limitText);
        videoLimit := if n.Some? then n else Some(|videos|);
      } else {
        videoLimit := Some(|videos|);
      }
      fetchCancelled := true;
      items := GetDownloadItemsWithLimit();
      if items != [] {
        logged := logged + [LogCall("Started downloading " + NatToString(|items|) + " videos from playlist", "INFO")];
      }
    }

    /** How many leading entries the limit lets through: `min(limit, len)`,
        nothing for a negative limit, all when no limit was chosen. */
    function VideoCount(): (c: nat)
      reads this
      ensures c <= |videos|
      ensures videoLimit.None? ==> c == |videos|
      ensures videoLimit.Some? && 0 <= videoLimit.value ==> c == if videoLimit.value < |videos| then videoLimit.value else |videos|
      ensures videoLimit.Some? && videoLimit.value < 0 ==> c == 0
    {
      match videoLimit
      case None => |videos|
      case Some(n) => if n < 0 then 0 else if n < |videos| then n else |videos|
    }

    /** `get_download_items_with_limit`: the loop stops at the limit, and
        entries without an id are skipped but still count against it. */
    method GetDownloadItemsWithLimit() returns (items: seq<Item>)
      ensures !hasInfo || selectedFormat == "" ==> items == []
      ensures hasInfo && selectedFormat != "" ==> items == ItemsOf(videos[..VideoCount()], selectedFormat, selectedFormatType)
    {
      items := [];
      if !hasInfo || selectedFormat == "" {
        return;
      }
      var count: int := if videoLimit.Some? then (if videoLimit.value < |videos| then videoLimit.value else |videos|) else |videos|;
      var i := 0;
      while i < |videos|
        invariant 0 <= i <= |videos|
        invariant i <= VideoCount()
        invariant items == ItemsOf(videos[..i], selectedFormat, selectedFormatType)
      {
        if i >= count {
          break;
        }
        assert videos[..i + 1][..i] == videos[..i];
        if videos[i].id != "" {
          items := items + [ItemFor(videos[i], selectedFormat, selectedFormatType)];
        }
        i := i + 1;
      }
      assert i == VideoCount();
    }

    /** `get_download_items`: one item per entry with an id, no limit. */
    method GetDownloadItems() returns (items: seq<Item>)
      ensures !hasInfo || selectedFormat == "" ==> items == []
      ensures hasInfo && selectedFormat != "" ==> items == ItemsOf(videos, selectedFormat, selectedFormatType)
    {
      items := [];
      if !hasInfo || selectedFormat == "" {
        return;
      }
      var i := 0;
      while i < |videos|
        invariant 0 <= i <= |videos|
        invariant items == ItemsOf(videos[..i], selectedFormat, selectedFormatType)
      {
        assert videos[..i + 1][..i] == videos[..i];
        if videos[i].id != "" {
          items := items + [ItemFor(videos[i], selectedFormat, selectedFormatType)];
        }
        i := i + 1;
      }
      assert videos[..i] == videos;
    }

    /** The size of the chosen format in the probe, found by the loop that
        stops at the first format whose id equals the probe's own. */
    static method SelectedFormatSize(info: ProbeInfo) returns (size: Option<nat>)
      ensures size == FirstMatchSize(info.formats, info.formatId)
    {
      size := Some(0);
      var i := 0;
      while i < |info.formats|
        invariant 0 <= i <= |info.formats|
        invariant FirstMatchSize(info.formats, info.formatId) == FirstMatchSize(info.formats[i..], info.formatId)
      {
        assert info.formats[i..][1..] == info.formats[i + 1..];
        if info.formats[i].formatId == info.formatId {
          size := GetSize(info.formats[i].filesize);
          return;
        }
        i := i + 1;
      }
    }

    /** `calculate_playlist_size` while the dialog is open: no estimate where
        it returns early, else the per-entry size of the first entry times the
        number of entries (all of them, not the limit). The estimate fails, and
        the error is logged, when the extraction raises or when that size is
        `None` and the multiplication raises. */
    method CalculatePlaylistSize(probe: Probe) returns (total: Estimate)
      modifies this
      ensures total.NoEstimate? <==> !(hasInfo && videos != [] && videos[0].id != "" && !fetchCancelled &&
                                        formatDisplay != "" && !probe.NoProbe?)
      ensures total.NoEstimate? ==> logged == old(logged)
      ensures !total.NoEstimate? && probe.ProbeRaised? ==>
                total == EstimationFailed && logged == old(logged) + [LogCall("Size calculation error: " + probe.error, "ERROR")]
      ensures !total.NoEstimate? && probe.Probed? ==>
                var size := PerVideoSize(FirstMatchSize(probe.info.formats, probe.info.formatId), probe.info,
                                         formatType, formatDisplay);
                total == (if size.None? then EstimationFailed else Estimated(TotalSize(size.value, |videos|))) &&
                logged == old(logged) + (if size.None? then [LogCall("Size calculation error: " + NoneTimesIntError, "ERROR")] else [])
      ensures url == old(url) && hasInfo == old(hasInfo) && videos == old(videos) && selectedFormat == old(selectedFormat)
      ensures selectedFormatType == old(selectedFormatType) && formatType == old(formatType)
      ensures formatDisplay == old(formatDisplay) && formatValues == old(formatValues)
      ensures videoLimit == old(videoLimit) && fetchCancelled == old(fetchCancelled)
    {
      if !hasInfo || videos == [] {
        return NoEstimate;
      }
      if videos[0].id == "" || fetchCancelled {
        return NoEstimate;
      }
      if formatDisplay == "" {
        return NoEstimate;
      }
      match probe {
        case NoProbe =>
          return NoEstimate;
        case ProbeRaised(e) =>
          logged := logged + [LogCall("Size calculation error: " + e, "ERROR")];
          return EstimationFailed;
        case Probed(info) =>
          var filesize := SelectedFormatSize(info);
          ghost var selected := filesize;
          if !Truthy(filesize) {
            filesize := GetSize(info.filesize);
          }
          if !Truthy(filesize) && info.duration != 0 {
            filesize := Some(info.duration * ByteRate(formatType, formatDisplay));
          }
          assert selected == FirstMatchSize(info.formats, info.formatId);
          assert filesize == PerVideoSize(selected, info, formatType, formatDisplay);
          if filesize.None? {
            logged := logged + [LogCall("Size calculation error: " + NoneTimesIntError, "ERROR")];
            return EstimationFailed;
          }
          total := Estimated(TotalSize(filesize.value, |videos|));
      }
    }
  }
}
