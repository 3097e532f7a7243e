/** The plain command line front end: the same option dictionaries without
    pass-through arguments, and a stricter dispatch. */
module Lite {
  import opened Wrappers
  import opened YdlOptions
  import Media

  /** The known options as the argument parser leaves them (`""` for an absent one). */
  datatype Namespace = Namespace(
    video: string, audio: string, format: string, output: string, listFormats: string, resume: bool)

  datatype Action =
    | LaunchGui
    | ListFormats(url: string, options: Options)
    | Download(videoOptions: Option<Options>, audioOptions: Option<Options>)
    | Fail(message: string)

  const NeedVideoOrAudio: string := "At least one of --video or --audio must be provided"

  /** `main`: `argv` is the full `sys.argv`, `ns` the parsed known options. */
  method Dispatch(argv: seq<string>, ns: Namespace) returns (act: Action)
    ensures "--gui" in argv <==> act == LaunchGui
    ensures act.ListFormats? <==> "--gui" !in argv && ns.listFormats != ""
    ensures act.ListFormats? ==> act.options == map["quiet" := Bool(true)]
    ensures act.Fail? <==> "--gui" !in argv && ns.listFormats == "" && ns.video == "" && ns.audio == ""
    ensures act.Fail? ==> act.message == NeedVideoOrAudio
    ensures act.Download? ==>
              (act.videoOptions.Some? <==> ns.video != "") && (act.audioOptions.Some? <==> ns.audio != "")
    // --format picks the video selector when a video is asked for
    ensures act.Download? && act.videoOptions.Some? ==>
              "format" in act.videoOptions.value &&
              act.videoOptions.value["format"] == Str(Media.VideoSelector(if ns.format != "" then ns.format else "mp4"))
    // ... and otherwise the extracted audio codec
    ensures act.Download? && act.audioOptions.Some? ==>
              "postprocessors" in act.audioOptions.value &&
              act.audioOptions.value["postprocessors"] ==
                PostProcessors([ExtractAudio(if ns.format != "" && ns.video == "" then ns.format else "mp3", Some("192"))])
    ensures act.Download? && ns.resume ==>
              (act.videoOptions.Some? ==> "continuedl" in act.videoOptions.value && act.videoOptions.value["continuedl"] == Bool(true)) &&
              (act.audioOptions.Some? ==> "continuedl" in act.audioOptions.value && act.audioOptions.value["continuedl"] == Bool(true))
    ensures act.Download? && act.videoOptions.Some? ==>
              "outtmpl" in act.videoOptions.value && act.videoOptions.value["outtmpl"] == Template(Media.OutputTemplate(ns.output))
    ensures act.Download? && act.audioOptions.Some? ==>
              "outtmpl" in act.audioOptions.value && act.audioOptions.value["outtmpl"] == Template(Media.OutputTemplate(ns.output))
  {
    if "--gui" in argv {
      return LaunchGui;
    }
    if ns.listFormats != "" {
      return ListFormats(ns.listFormats, map["quiet" := Bool(true)]);
    }
    if ns.video == "" && ns.audio == "" {
      return Fail(NeedVideoOrAudio);
    }
    var formats := Media.ChooseFormats(ns.video, ns.audio, ns.format);
    var v, a := Media.DownloadMedia(ns.video, ns.audio, formats.0, formats.1, ns.output, ns.resume, map[]);
    return Download(v, a);
  }
}
