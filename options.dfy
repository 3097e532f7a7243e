/** The option dictionaries handed to `yt_dlp.YoutubeDL`, as values. */
module YdlOptions {
  import opened Wrappers

  /** An entry of the `postprocessors` list: `FFmpegExtractAudio` with its
      preferred codec and, when given, its preferred quality. */
  datatype PostProcessor = ExtractAudio(codec: string, quality: Option<string>)

  /** The values the front ends store in an option dictionary: strings, booleans,
      an `outtmpl` dictionary with its `default` entry, and a post-processor list. */
  datatype Value =
    | Str(s: string)
    | Bool(b: bool)
    | Template(default: string)
    | PostProcessors(pps: seq<PostProcessor>)

  type Options = map<string, Value>

  /** The output template every front end starts from. */
  const TitleTemplate: string := "%(title)s.%(ext)s"

  /** Successive `opts[k] = v` assignments, in order. */
  function Apply(acc: Options, es: seq<(string, Value)>): (r: Options)
    ensures forall k :: k in acc ==> k in r
    decreases |es|
  {
    if es == [] then acc else Apply(acc[es[0].0 := es[0].1], es[1..])
  }

  /** The last assignment to a key decides its value. */
  lemma {:induction false} ApplyLastWins(acc: Options, es: seq<(string, Value)>, j: nat)
    requires j < |es|
    requires forall i :: j < i < |es| ==> es[i].0 != es[j].0
    ensures es[j].0 in Apply(acc, es) && Apply(acc, es)[es[j].0] == es[j].1
    decreases |es|
  {
    if j > 0 {
      ApplyLastWins(acc[es[0].0 := es[0].1], es[1..], j - 1);
    } else {
      ApplyUntouched(acc[es[0].0 := es[0].1], es[1..], es[0].0);
    }
  }

  /** A key no assignment names keeps its old value, or stays absent. */
  lemma {:induction false} ApplyUntouched(acc: Options, es: seq<(string, Value)>, k: string)
    requires forall i :: 0 <= i < |es| ==> es[i].0 != k
    ensures (k in Apply(acc, es)) == (k in acc)
    ensures k in acc ==> Apply(acc, es)[k] == acc[k]
    decreases |es|
  {
    if es != [] {
      ApplyUntouched(acc[es[0].0 := es[0].1], es[1..], k);
    }
  }
}

/** `download_media`, shared by the two command line front ends: the option
    dictionary built for the video download, and the same dictionary, updated
    in place, for the audio download that follows. */
module Media {
  import opened Wrappers
  import opened Text
  import opened YdlOptions

  const Mp4Selector: string := "bestvideo[ext=mp4]+bestaudio[ext=m4a]/best[ext=mp4]"
  const WebmSelector: string := "bestvideo[ext=webm]+bestaudio[ext=webm]/best[ext=webm]"
  const AudioSelector: string := "bestaudio/best"

  /** The selector table for `video_format`. */
  function VideoSelector(videoFormat: string): string
  {
    if videoFormat == "mp4" then Mp4Selector
    else if videoFormat == "webm" then WebmSelector
    else "best"
  }

  /** The `outtmpl` default for an output directory (`""` stands for `None`). */
  function OutputTemplate(outputPath: string): string
  {
    if outputPath != "" then PathJoin(outputPath, TitleTemplate) else TitleTemplate
  }

  /** The keys the base dictionary and the video and audio branches assign. */
  predicate OwnKey(k: string)
  {
    k == "quiet" || k == "no_warnings" || k == "outtmpl" || k == "restrictfilenames" ||
    k == "continuedl" || k == "format" || k == "postprocessors"
  }

  /** The keys the audio branch assigns over the video dictionary. */
  predicate AudioKey(k: string)
  {
    k == "format" || k == "postprocessors" || k == "continuedl" || k == "outtmpl"
  }

  /** `--format` applies to the video when a video URL is given, else to the
      audio; the defaults are mp4 and mp3. URLs and formats use `""` for `None`. */
  function ChooseFormats(videoUrl: string, audioUrl: string, format: string): (r: (string, string))
    ensures format == "" ==> r == ("mp4", "mp3")
    ensures format != "" && videoUrl != "" ==> r == (format, "mp3")
    ensures format != "" && videoUrl == "" && audioUrl != "" ==> r == ("mp4", format)
  {
    var videoFormat := if format != "" && videoUrl != "" then format else "mp4";
    var audioFormat := if format != "" && videoUrl == "" && audioUrl != "" then format else "mp3";
    (videoFormat, audioFormat)
  }

  /** The dictionaries `download_media` passes to the downloader, `None` for a
      download it does not start. `extra` is the parsed extra argument list
      (the empty map where the caller passes none). One dictionary is built,
      completed for the video and then updated in place for the audio. */
  method DownloadMedia(videoUrl: string, audioUrl: string, videoFormat: string, audioFormat: string,
                       outputPath: string, resume: bool, extra: Options)
    returns (video: Option<Options>, audio: Option<Options>)
    ensures video == (if videoUrl != "" then Some(VideoOptions(videoUrl, videoFormat, outputPath, resume, extra)) else None)
    ensures audio == (if audioUrl != "" then Some(AudioOptions(videoUrl, videoFormat, audioFormat, outputPath, resume, extra)) else None)
  {
    var opts := BaseOptions(outputPath, resume) + extra;
    video := None;
    if videoUrl != "" {
      if "format" !in opts {
        opts := opts["format" := Str(VideoSelector(videoFormat))];
      }
      video := Some(opts);
    }
    audio := None;
    if audioUrl != "" {
      opts := AudioUpdate(opts, audioFormat, resume, outputPath);
      audio := Some(opts);
    }
  }

  /** The shared dictionary once the video branch has run: extra options win
      over everything, and the selector table applies only when a video URL is
      given and no format came with the extra options. */
  function VideoOptions(videoUrl: string, videoFormat: string, outputPath: string, resume: bool, extra: Options): (r: Options)
    ensures forall k :: k in extra ==> k in r && r[k] == extra[k]
    ensures videoUrl != "" ==> ("format" in r &&
              r["format"] == (if "format" in extra then extra["format"] else Str(VideoSelector(videoFormat))))
    ensures videoUrl == "" ==> ("format" in r <==> "format" in extra)
    ensures "outtmpl" in r && r["outtmpl"] == (if "outtmpl" in extra then extra["outtmpl"] else Template(OutputTemplate(outputPath)))
    ensures resume && "continuedl" !in extra ==> "continuedl" in r && r["continuedl"] == Bool(true)
    ensures "restrictfilenames" !in extra ==> "restrictfilenames" in r && r["restrictfilenames"] == Bool(true)
    ensures forall k :: k in r ==> k in extra || OwnKey(k)
  {
    var opts := BaseOptions(outputPath, resume) + extra;
    if videoUrl != "" && "format" !in opts then opts["format" := Str(VideoSelector(videoFormat))] else opts
  }

  /** The audio dictionary: format and post-processor forced, resume and the
      output directory applied again, everything else carried over from the
      shared dictionary. */
  function AudioOptions(videoUrl: string, videoFormat: string, audioFormat: string, outputPath: string,
                        resume: bool, extra: Options): (r: Options)
    ensures "format" in r && r["format"] == Str(AudioSelector)
    ensures "postprocessors" in r && r["postprocessors"] == PostProcessors([ExtractAudio(audioFormat, Some("192"))])
    ensures resume ==> "continuedl" in r && r["continuedl"] == Bool(true)
    ensures "outtmpl" in r && r["outtmpl"] == (if outputPath == "" && "outtmpl" in extra then extra["outtmpl"] else Template(OutputTemplate(outputPath)))
    ensures forall k :: k in extra && !AudioKey(k) ==> k in r && r[k] == extra[k]
    ensures var v := VideoOptions(videoUrl, videoFormat, outputPath, resume, extra);
            forall k :: k in v && !AudioKey(k) ==> k in r && r[k] == v[k]
    ensures forall k :: k in r ==> k in extra || OwnKey(k)
  {
    AudioUpdate(VideoOptions(videoUrl, videoFormat, outputPath, resume, extra), audioFormat, resume, outputPath)
  }

  /** The dictionary before the extra options: quiet and warnings off, the
      title template (under the output directory when one is given), safe
      file names, and resume when asked for. */
  function BaseOptions(outputPath: string, resume: bool): (r: Options)
    ensures forall k :: k in r ==> OwnKey(k)
    ensures "outtmpl" in r && r["outtmpl"] == Template(OutputTemplate(outputPath))
    ensures "restrictfilenames" in r && r["restrictfilenames"] == Bool(true)
    ensures ("continuedl" in r) == resume && (resume ==> r["continuedl"] == Bool(true))
    ensures "format" !in r && "postprocessors" !in r
  {
    var opts := ResumeOptions(resume);
    if outputPath != "" then opts["outtmpl" := Template(PathJoin(outputPath, TitleTemplate))] else opts
  }

  /** The literal dictionary, with resume applied. */
  function ResumeOptions(resume: bool): (r: Options)
    ensures forall k :: k in r ==> OwnKey(k)
    ensures "outtmpl" in r && r["outtmpl"] == Template(TitleTemplate)
    ensures "restrictfilenames" in r && r["restrictfilenames"] == Bool(true)
    ensures ("continuedl" in r) == resume && (resume ==> r["continuedl"] == Bool(true))
    ensures "format" !in r && "postprocessors" !in r
  {
    var opts: Options := map["quiet" := Bool(false), "no_warnings" := Bool(false),
                             "outtmpl" := Template(TitleTemplate), "restrictfilenames" := Bool(true)];
    if resume then opts["continuedl" := Bool(true)] else opts
  }

  /** The audio branch: the shared dictionary with the audio selector, the
      extraction post-processor, and the resume and output settings applied again. */
  function AudioUpdate(opts: Options, audioFormat: string, resume: bool, outputPath: string): (r: Options)
    ensures "format" in r && r["format"] == Str(AudioSelector)
    ensures "postprocessors" in r && r["postprocessors"] == PostProcessors([ExtractAudio(audioFormat, Some("192"))])
    ensures resume ==> "continuedl" in r && r["continuedl"] == Bool(true)
    ensures outputPath != "" ==> "outtmpl" in r && r["outtmpl"] == Template(OutputTemplate(outputPath))
    ensures forall k :: k in opts && !AudioKey(k) ==> k in r && r[k] == opts[k]
    ensures forall k :: k in r ==> k in opts || AudioKey(k)
  {
    var o := opts["format" := Str(AudioSelector)]["postprocessors" := PostProcessors([ExtractAudio(audioFormat, Some("192"))])];
    var o := if resume then o["continuedl" := Bool(true)] else o;
    if outputPath != "" then o["outtmpl" := Template(PathJoin(outputPath, TitleTemplate))] else o
  }
}
