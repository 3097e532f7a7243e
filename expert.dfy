/** The expert front end (`expert.py`): a typed yt-dlp command turned into a
    token list and run with its output template, and an ffmpeg converter
    whose targets and arguments follow the probed input. */
module Expert {
  import opened Wrappers
  import opened Text
  import opened YdlOptions
  import opened Clock
  import Liteg

  // ---------------------------------------------------------------------
  // Command assembly
  // ---------------------------------------------------------------------

  const Placeholder: string := "paste or write yt-dlp command here"
  const Program: string := "yt-dlp"

  predicate IsOutputFlag(t: string)
  {
    t == "-o" || t == "--output"
  }

  /** Some `-o`/`--output` token is followed by another token. */
  predicate HasOutput(cmd: seq<string>)
  {
    exists i :: 0 <= i < |cmd| - 1 && IsOutputFlag(cmd[i])
  }

  const ProgramPrefix: string := Program + " "

  /** The token list of a typed command: stripped, a leading `yt-dlp ` dropped,
      split at blanks and headed by the program name. */
  function Arguments(entry: string): (r: seq<string>)
    ensures |r| >= 1 && r[0] == Program
    ensures forall t :: t in r[1..] ==> IsWord(t)
  {
    var command := Strip(entry);
    var command := if StartsWith(command, ProgramPrefix) then Strip(command[|ProgramPrefix|..]) else command;
    var r := [Program] + SplitWs(command);
    assert r[1..] == SplitWs(command);
    r
  }

  /** Typing the program name in front of a command makes no difference. */
  lemma ProgramNameOptional(rest: string)
    requires rest != [] && Strip(rest) == rest && !StartsWith(rest, ProgramPrefix)
    ensures Arguments(ProgramPrefix + rest) == Arguments(rest)
  {
    var c := ProgramPrefix + rest;
    assert !IsSpace(ProgramPrefix[0]) by {
      assert ProgramPrefix[0] == Program[0] == 'y';
    }
    StripOfJoin(ProgramPrefix, rest);
    assert c[..|ProgramPrefix|] == ProgramPrefix;
    assert c[|ProgramPrefix|..] == rest;
  }

  /** A word in front of a stripped string leaves it stripped. */
  lemma StripOfJoin(a: string, b: string)
    requires a != [] && !IsSpace(a[0]) && b != [] && Strip(b) == b
    ensures Strip(a + b) == a + b
  {
    assert StripLeft(b) == b by {
      assert |StripRight(StripLeft(b))| <= |StripLeft(b)| <= |b|;
    }
    assert !IsSpace(b[|b| - 1]);
    assert (a + b)[0] == a[0];
    assert StripLeft(a + b) == a + b;
    assert (a + b)[|a + b| - 1] == b[|b| - 1];
  }

  /** The full command `execute_command` starts: the template under the save
      folder is added when no output flag with a value was typed. */
  function FullCommand(entry: string, saveLocation: string): seq<string>
  {
    var args := Arguments(entry);
    if HasOutput(args) then args else args + ["-o", PathJoin(saveLocation, TitleTemplate)]
  }

  /** The full command names the program and always carries an output flag
      with a value; what was typed comes first, unchanged. */
  lemma FullCommandHasOutput(entry: string, saveLocation: string)
    ensures var r := FullCommand(entry, saveLocation);
            |r| >= 1 && r[0] == Program && HasOutput(r) && r[..|Arguments(entry)|] == Arguments(entry)
  {
    var args := Arguments(entry);
    var r := FullCommand(entry, saveLocation);
    if !HasOutput(args) {
      assert IsOutputFlag(r[|args|]);
    }
  }

  /** The scan of `execute_command` for an output flag with a value. */
  method ScanForOutput(cmd: seq<string>) returns (has: bool)
    ensures has <==> HasOutput(cmd)
  {
    var i := 0;
    while i < |cmd|
      invariant 0 <= i <= |cmd|
      invariant forall j :: 0 <= j < i && j < |cmd| - 1 ==> !IsOutputFlag(cmd[j])
    {
      if IsOutputFlag(cmd[i]) && i + 1 < |cmd| {
        return true;
      }
      i := i + 1;
    }
    return false;
  }

  /** The command `execute_command` assembles, the output scan done by its loop. */
  method BuildCommand(entry: string, saveLocation: string) returns (full: seq<string>)
    ensures full == FullCommand(entry, saveLocation)
  {
    full := Arguments(entry);
    var has := ScanForOutput(full);
    if !has {
      full := full + ["-o", PathJoin(saveLocation, TitleTemplate)];
    }
  }

  /** `re.match(r'https?://', t)`. */
  predicate IsUrl(t: string)
  {
    StartsWith(t, "http://") || StartsWith(t, "https://")
  }

  /** The first URL token of a command. */
  function FirstUrl(cmd: seq<string>): (r: Option<nat>)
    ensures r.Some? ==> r.value < |cmd| && IsUrl(cmd[r.value]) && forall j :: 0 <= j < r.value ==> !IsUrl(cmd[j])
    ensures r.None? ==> forall j :: 0 <= j < |cmd| ==> !IsUrl(cmd[j])
  {
    if cmd == [] then None
    else if IsUrl(cmd[0]) then Some(0)
    else
      match FirstUrl(cmd[1..])
      case Some(i) => Some(i + 1)
      case None => None
  }

  /** The position of the last output flag among the first `n` tokens, the
      program name excepted, that has a token after it. */
  function LastOutputFlag(cmd: seq<string>, n: nat): (r: Option<nat>)
    requires n <= |cmd|
    ensures r.Some? ==> 1 <= r.value < n && r.value + 1 < |cmd| && IsOutputFlag(cmd[r.value])
    ensures r.Some? ==> forall k :: r.value < k < n && k + 1 < |cmd| ==> !IsOutputFlag(cmd[k])
    ensures r.None? ==> forall j :: 1 <= j < n && j + 1 < |cmd| ==> !IsOutputFlag(cmd[j])
  {
    if n <= 1 then None
    else if IsOutputFlag(cmd[n - 1]) && n < |cmd| then Some(n - 1)
    else LastOutputFlag(cmd, n - 1)
  }

  /** The value after that flag. */
  function OutputValueUpTo(cmd: seq<string>, n: nat): Option<string>
    requires n <= |cmd|
  {
    match LastOutputFlag(cmd, n)
    case Some(j) => Some(cmd[j + 1])
    case None => None
  }

  /** The `outtmpl` `run_command` takes from a command. */
  function OutputValue(cmd: seq<string>): Option<string>
  {
    OutputValueUpTo(cmd, |cmd|)
  }

  /** The template `execute_command` adds is the one `run_command` takes, and
      the command always carries one. */
  lemma {:induction false} AddedTemplateIsUsed(entry: string, saveLocation: string)
    ensures OutputValue(FullCommand(entry, saveLocation)).Some?
    ensures !HasOutput(Arguments(entry)) ==> OutputValue(FullCommand(entry, saveLocation)) == Some(PathJoin(saveLocation, TitleTemplate))
  {
    var args := Arguments(entry);
    var cmd := FullCommand(entry, saveLocation);
    if HasOutput(args) {
      var i :| 0 <= i < |args| - 1 && IsOutputFlag(args[i]);
      assert i != 0 by {
        assert args[0] == Program;
        assert Program != "-o" && Program != "--output" by {
          assert |Program| == 6;
        }
      }
      assert cmd == args;
      assert 1 <= i && i + 1 < |cmd| && IsOutputFlag(cmd[i]);
    } else {
      var p := PathJoin(saveLocation, TitleTemplate);
      assert cmd == args + ["-o", p];
      assert cmd[|cmd| - 1] == p && cmd[|cmd| - 2] == "-o";
      assert LastOutputFlag(cmd, |cmd| - 1) == Some(|cmd| - 2);
      assert LastOutputFlag(cmd, |cmd|) == LastOutputFlag(cmd, |cmd| - 1);
    }
  }

  // ---------------------------------------------------------------------
  // Converter targets
  // ---------------------------------------------------------------------

  const AudioTargets: seq<string> := ["mp3", "m4a", "aac", "opus", "ogg", "flac", "wav"]
  const VideoTargets: seq<string> := ["mp4", "mkv", "mov", "webm", "avi", "gif"]

  /** The formats whose names do not occur in the probed input format. */
  function Unprobed(fs: seq<string>, inputFormat: string): (r: seq<string>)
    ensures forall t :: t in r <==> t in fs && !Contains(inputFormat, t)
    ensures |r| <= |fs|
  {
    if fs == [] then []
    else (if Contains(inputFormat, fs[0]) then [] else [fs[0]]) + Unprobed(fs[1..], inputFormat)
  }

  /** Dropping the probed formats keeps the order of the others. */
  lemma {:induction false} UnprobedOrder(a: seq<string>, b: seq<string>, inputFormat: string)
    ensures Unprobed(a + b, inputFormat) == Unprobed(a, inputFormat) + Unprobed(b, inputFormat)
    decreases |a|
  {
    if a != [] {
      var h: seq<string> := if Contains(inputFormat, a[0]) then [] else [a[0]];
      assert (a + b)[0] == a[0];
      assert (a + b)[1..] == a[1..] + b;
      UnprobedOrder(a[1..], b, inputFormat);
      calc {
        Unprobed(a + b, inputFormat);
        h + Unprobed(a[1..] + b, inputFormat);
        h + (Unprobed(a[1..], inputFormat) + Unprobed(b, inputFormat));
        { AppendAssoc(h, Unprobed(a[1..], inputFormat), Unprobed(b, inputFormat)); }
        (h + Unprobed(a[1..], inputFormat)) + Unprobed(b, inputFormat);
      }
    } else {
      assert a + b == b;
    }
  }

  /** The targets offered for an input: video inputs may become video or
      audio, audio-only inputs only audio; a format the input already is
      (by name) is not offered, unless nothing would be left. */
  function Targets(hasVideo: bool, inputFormat: string): (r: seq<string>)
    ensures r != []
    // in the order of the offered list, video formats before audio ones
    ensures var offered := if hasVideo then VideoTargets + AudioTargets else AudioTargets;
            Unprobed(offered, inputFormat) != [] ==> r == Unprobed(offered, inputFormat)
    ensures !hasVideo ==> forall t :: t in r ==> t in AudioTargets
    ensures var offered := if hasVideo then VideoTargets + AudioTargets else AudioTargets;
            (exists t :: t in offered && !Contains(inputFormat, t)) ==>
              forall t :: t in r <==> t in offered && !Contains(inputFormat, t)
    ensures var offered := if hasVideo then VideoTargets + AudioTargets else AudioTargets;
            (forall t :: t in offered ==> Contains(inputFormat, t)) ==>
              r == (if hasVideo then (if Contains(inputFormat, "mp4") then ["mkv"] else ["mp4"])
                    else (if Contains(inputFormat, "mp3") then ["m4a"] else ["mp3"]))
  {
    var offered := if hasVideo then VideoTargets + AudioTargets else AudioTargets;
    var all := Unprobed(offered, inputFormat);
    if all != [] then
      assert all[0] in all;
      all
    else if hasVideo then (if Contains(inputFormat, "mp4") then ["mkv"] else ["mp4"])
    else (if Contains(inputFormat, "mp3") then ["m4a"] else ["mp3"])
  }

  /** For a video input the unprobed video formats come first, in their own
      order, and the unprobed audio formats after them. */
  lemma TargetsVideoFirst(inputFormat: string)
    requires Unprobed(VideoTargets + AudioTargets, inputFormat) != []
    ensures Targets(true, inputFormat) == Unprobed(VideoTargets, inputFormat) + Unprobed(AudioTargets, inputFormat)
  {
    UnprobedOrder(VideoTargets, AudioTargets, inputFormat);
  }

  /** The kept or the first target. */
  function Choice(current: string, targets: seq<string>): (r: string)
    requires targets != []
    ensures r in targets
    ensures current in targets ==> r == current
    ensures current !in targets ==> r == targets[0]
  {
    if current in targets then current else targets[0]
  }

  // ---------------------------------------------------------------------
  // ffmpeg arguments
  // ---------------------------------------------------------------------

  predicate IsAudioFormat(f: string)
  {
    f in AudioTargets
  }

  /** The quality presets; any name other than High and Medium is Low. */
  datatype Preset = High | Medium | Low

  function PresetOf(name: string): (r: Preset)
    ensures r == High <==> name == "High"
    ensures r == Medium <==> name == "Medium"
  {
    if name == "High" then High else if name == "Medium" then Medium else Low
  }

  /** The argument of a preset. */
  function ByPreset(preset: Preset, high: string, medium: string, low: string): string
  {
    match preset
    case High => high
    case Medium => medium
    case Low => low
  }

  /** The audio encoder arguments of an audio output. */
  function AudioArgs(format: string, preset: Preset): seq<string>
  {
    if format == "mp3" then
      ["-c:a", "libmp3lame", "-ar", ByPreset(preset, "48000", "44100", "44100"), "-ac", "2", "-b:a", ByPreset(preset, "320k", "192k", "128k")]
    else if format == "aac" || format == "m4a" then
      ["-c:a", "aac", "-ar", ByPreset(preset, "48000", "44100", "44100"), "-ac", "2", "-b:a", ByPreset(preset, "256k", "192k", "128k")]
    else if format == "opus" then
      ["-c:a", "libopus", "-ar", "48000", "-ac", "2", "-b:a", ByPreset(preset, "192k", "128k", "96k")]
    else if format == "ogg" then
      ["-c:a", "libvorbis", "-ar", ByPreset(preset, "48000", "44100", "44100"), "-ac", "2", "-b:a", ByPreset(preset, "256k", "192k", "128k")]
    else if format == "flac" then
      ["-c:a", "flac", "-ar", ByPreset(preset, "96000", "48000", "44100"), "-ac", "2", "-sample_fmt", ByPreset(preset, "s32", "s24", "s16")]
    else if format == "wav" then
      ["-c:a", ByPreset(preset, "pcm_s24le", "pcm_s16le", "pcm_s16le"), "-ar", ByPreset(preset, "96000", "48000", "44100"), "-ac", "2"]
    else []
  }

  /** The aac arguments that keep the sound of a video output. */
  function KeepAudioArgs(hasAudio: bool, preset: Preset): seq<string>
  {
    if hasAudio then ["-c:a", "aac", "-b:a", ByPreset(preset, "320k", "192k", "128k"), "-ar", ByPreset(preset, "48000", "44100", "44100")]
    else []
  }

  /** The video encoder arguments of a video output. */
  function VideoArgs(format: string, preset: Preset): seq<string>
  {
    if format == "mp4" || format == "mkv" || format == "mov" then
      ["-c:v", "libx264", "-crf", ByPreset(preset, "18", "23", "28"), "-preset", ByPreset(preset, "slow", "medium", "fast"),
       "-profile:v", ByPreset(preset, "high", "main", "main")]
    else if format == "webm" then
      ["-c:v", "libvpx-vp9", "-crf", ByPreset(preset, "30", "32", "34"), "-b:v", "0", "-deadline", ByPreset(preset, "good", "good", "realtime")]
    else if format == "avi" then
      ["-c:v", "mpeg4", "-q:v", ByPreset(preset, "3", "5", "7")]
    else []
  }

  /** The arguments between `-y` and the output path. */
  function EncoderArgs(format: string, preset: string, hasAudio: bool): seq<string>
  {
    var p := PresetOf(preset);
    if IsAudioFormat(format) then ["-vn"] + AudioArgs(format, p)
    else KeepAudioArgs(hasAudio, p) + VideoArgs(format, p)
  }

  predicate AllSlashes(s: string)
  {
    forall k :: 0 <= k < |s| ==> s[k] == '/'
  }

  /** `os.path.dirname` on POSIX paths: the path up to its last slash, with
      the slashes that end it dropped unless it is made of slashes only, and
      `""` for a path without a slash. */
  function DirName(p: string): (r: string)
    ensures StartsWith(p, r)
    ensures '/' !in p ==> r == ""
    ensures '/' in p ==> r != []
    ensures AllSlashes(r) ==> forall k :: |r| <= k < |p| ==> p[k] != '/'
    ensures !AllSlashes(r) ==>
              r[|r| - 1] != '/' && |r| < |p| && p[|r|] == '/' &&
              forall k, m :: |r| <= m < k < |p| && p[k] == '/' ==> p[m] == '/'
  {
    match Liteg.LastIndexOfChar(p, '/')
    case None => ""
    case Some(i) =>
      var head := p[..i + 1];
      if AllSlashes(head) then head
      else
        var r := StripSlashes(head);
        assert p[..|r|] == head[..|r|];
        assert forall m :: |r| <= m < i + 1 ==> p[m] == head[m] == '/';
        r
  }

  /** `s.rstrip('/')`: the longest prefix not ending in a slash, all that
      follows it being slashes. */
  function StripSlashes(s: string): (r: string)
    ensures StartsWith(s, r)
    ensures r == [] || r[|r| - 1] != '/'
    ensures forall k :: |r| <= k < |s| ==> s[k] == '/'
  {
    if s != [] && s[|s| - 1] == '/' then StripSlashes(s[..|s| - 1]) else s
  }

  const PaletteFilter: string := "fps=10,scale=320:-1:flags=lanczos,palettegen"
  const PaletteUse: string := "fps=10,scale=320:-1:flags=lanczos[x];[x][1:v]paletteuse"

  function PalettePath(output: string): string
  {
    PathJoin(DirName(output), "palette.png")
  }

  /** The first gif pass, which writes the palette next to the output. */
  function PaletteCommand(input: string, output: string): seq<string>
  {
    ["ffmpeg", "-i", input, "-vf", PaletteFilter, "-y", PalettePath(output)]
  }

  /** The second gif pass, which uses the palette. */
  function GifCommand(input: string, output: string): seq<string>
  {
    ["ffmpeg", "-i", input, "-i", PalettePath(output), "-filter_complex", PaletteUse, "-y", output]
  }

  /** The ffmpeg command of `convert_file`, built as it builds it, with the
      palette pass that runs first for a gif. */
  method ConvertCommand(input: string, output: string, format: string, preset: string, hasVideo: bool, hasAudio: bool)
    returns (cmd: seq<string>, palette: Option<seq<string>>)
    ensures palette.Some? <==> format == "gif"
    ensures format == "gif" ==> cmd == GifCommand(input, output) && palette == Some(PaletteCommand(input, output))
    ensures format != "gif" ==> cmd == ["ffmpeg", "-i", input, "-y"] + EncoderArgs(format, preset, hasAudio) + [output]
  {
    var head := ["ffmpeg", "-i", input, "-y"];
    cmd := head;
    palette := None;
    var p := PresetOf(preset);
    var isAudioOutput := format in AudioTargets;
    if isAudioOutput && !hasVideo {
      cmd := cmd + ["-vn"];
    }
    if isAudioOutput && hasVideo {
      cmd := cmd + ["-vn"];
    }
    if isAudioOutput {
      var audio := AudioArgs(format, p);
      AppendAssoc(head, ["-vn"], audio);
      cmd := cmd + audio;
    } else {
      var keep := KeepAudioArgs(hasAudio, p);
      cmd := cmd + keep;
      if format == "gif" {
        palette := Some(PaletteCommand(input, output));
        cmd := GifCommand(input, output);
        return;
      }
      var video := VideoArgs(format, p);
      AppendAssoc(head, keep, video);
      cmd := cmd + video;
    }
    assert cmd == head + EncoderArgs(format, preset, hasAudio);
    cmd := cmd + [output];
  }

  /** The encoder arguments open with `-vn` (drop the video stream) exactly
      for an audio output. */
  lemma NoVideoFlagLeads(format: string, preset: string, hasAudio: bool)
    ensures IsAudioFormat(format) <==> var e := EncoderArgs(format, preset, hasAudio); e != [] && e[0] == "-vn"
  {
    var e := EncoderArgs(format, preset, hasAudio);
    if !IsAudioFormat(format) && e != [] {
      assert e[0] == "-c:a" || e[0] == "-c:v";
      assert |e[0]| == 4;
    }
  }

  /** `-vn` occurs once in the arguments of an audio output and not at all
      in those of a video output: the two appends of `convert_file` exclude
      each other. */
  lemma VideoFlagOnce(format: string, preset: string, hasAudio: bool)
    ensures multiset(EncoderArgs(format, preset, hasAudio))["-vn"] == if IsAudioFormat(format) then 1 else 0
  {
    var p := PresetOf(preset);
    NoFlagInArgs(format, p, hasAudio);
    if IsAudioFormat(format) {
      CountAfterFlag("-vn", AudioArgs(format, p));
    } else {
      CountAbsent("-vn", KeepAudioArgs(hasAudio, p) + VideoArgs(format, p));
    }
  }

  lemma CountAfterFlag(x: string, s: seq<string>)
    requires x !in s
    ensures multiset([x] + s)[x] == 1
  {
    assert multiset([x] + s) == multiset{x} + multiset(s);
  }

  lemma CountAbsent(x: string, s: seq<string>)
    requires x !in s
    ensures multiset(s)[x] == 0
  {
  }

  /** None of the audio, kept-audio and video arguments is `-vn`. */
  lemma NoFlagInArgs(format: string, p: Preset, hasAudio: bool)
    ensures "-vn" !in AudioArgs(format, p) && "-vn" !in KeepAudioArgs(hasAudio, p) && "-vn" !in VideoArgs(format, p)
  {
    NoFlagInAudioArgs(format, p);
    NoFlagInPresetArgs(format, p, hasAudio);
  }

  lemma NoFlagInAudioArgs(format: string, p: Preset)
    ensures "-vn" !in AudioArgs(format, p)
  {
    var a := AudioArgs(format, p);
    forall k | 0 <= k < |a| ensures a[k] != "-vn" {
      if |a[k]| == 3 && a[k][0] == '-' {
        assert a[k][2] != 'n';
      }
    }
  }

  lemma NoFlagInPresetArgs(format: string, p: Preset, hasAudio: bool)
    ensures "-vn" !in KeepAudioArgs(hasAudio, p) && "-vn" !in VideoArgs(format, p)
  {
    var a := KeepAudioArgs(hasAudio, p) + VideoArgs(format, p);
    forall k | 0 <= k < |a| ensures a[k] != "-vn" {
      if |a[k]| == 3 && a[k][0] == '-' {
        assert a[k][2] != 'n';
      }
    }
  }

  /** Any preset other than High and Medium gets the Low settings. */
  lemma LowIsDefault(format: string, preset: string, hasAudio: bool)
    requires preset != "High" && preset != "Medium"
    ensures EncoderArgs(format, preset, hasAudio) == EncoderArgs(format, "Low", hasAudio)
  {
  }

  /** A video output carries audio arguments exactly when the input has audio. */
  lemma AudioKeptOnlyWithAudio(format: string, preset: string, hasAudio: bool)
    requires !IsAudioFormat(format)
    ensures "-c:a" in EncoderArgs(format, preset, hasAudio) <==> hasAudio
  {
    var e := EncoderArgs(format, preset, hasAudio);
    if hasAudio {
      assert e[0] == "-c:a";
    } else {
      assert e == VideoArgs(format, PresetOf(preset));
      assert "-c:a" !in VideoArgs(format, PresetOf(preset));
    }
  }

  /** mp4, mkv and mov outputs use libx264 with crf 18, 23 or 28. */
  lemma X264Quality(format: string, preset: string, hasAudio: bool)
    requires format == "mp4" || format == "mkv" || format == "mov"
    ensures var e := EncoderArgs(format, preset, hasAudio);
            var v := |KeepAudioArgs(hasAudio, PresetOf(preset))|;
            e[v..v + 4] == ["-c:v", "libx264", "-crf", if preset == "High" then "18" else if preset == "Medium" then "23" else "28"]
  {
    var p := PresetOf(preset);
    var k, w := KeepAudioArgs(hasAudio, p), VideoArgs(format, p);
    assert EncoderArgs(format, preset, hasAudio) == k + w;
    X264Head(format, p);
    assert (k + w)[|k|..|k| + 4] == w[..4];
  }

  lemma X264Head(format: string, p: Preset)
    requires format == "mp4" || format == "mkv" || format == "mov"
    ensures |VideoArgs(format, p)| >= 4
    ensures VideoArgs(format, p)[..4] == ["-c:v", "libx264", "-crf", ByPreset(p, "18", "23", "28")]
  {
  }

  /** The input's base name without its extension, with the target's extension. */
  function OutputName(input: string, format: string): (r: string)
    ensures EndsWith(r, "." + format)
  {
    var stem := AfterLast(Liteg.SplitExt(input).0, '/');
    EndsWithOfJoin(stem, "." + format);
    stem + "." + format
  }

  /** The output path: the output name in the output directory. */
  function ConversionOutput(input: string, outputDir: string, format: string): (r: string)
    ensures EndsWith(r, OutputName(input, format))
    ensures EndsWith(r, "." + format)
  {
    var name := OutputName(input, format);
    EndsWithTrans(PathJoin(outputDir, name), name, "." + format);
    PathJoin(outputDir, name)
  }

  // ---------------------------------------------------------------------
  // Conversion progress
  // ---------------------------------------------------------------------

  const DurationMarker: string := "Duration: "
  const TimeMarker: string := "time="

  /** A progress report: the position reached and the total, both in seconds. */
  datatype Report = Report(current: nat, total: nat)

  /** The total after one line of ffmpeg output. */
  function TotalAfter(total: Option<nat>, line: string): Option<nat>
  {
    match SearchStamp(line, DurationMarker, 0)
    case Some(d) => Some(d)
    case None => total
  }

  /** The report a line gives, when it holds a position and the total is known and positive. */
  function ReportOf(total: Option<nat>, line: string): (r: Option<Report>)
    ensures r.Some? ==> total.Some? && r.value.total == total.value > 0
    ensures r.Some? <==> total.Some? && total.value > 0 && SearchStamp(line, TimeMarker, 0).Some?
  {
    match SearchStamp(line, TimeMarker, 0)
    case Some(c) => if total.Some? && total.value > 0 then Some(Report(c, total.value)) else None
    case None => None
  }

  function Listed(o: Option<Report>): (r: seq<Report>)
    ensures o.Some? ==> r == [o.value]
    ensures o.None? ==> r == []
  {
    if o.Some? then [o.value] else []
  }

  /** The total and the reports after one more line: the line's duration,
      if any, replaces the total before its position is looked at. */
  function Step(st: (Option<nat>, seq<Report>), line: string): (r: (Option<nat>, seq<Report>))
    ensures |st.1| <= |r.1| <= |st.1| + 1 && r.1[..|st.1|] == st.1
    ensures |r.1| > |st.1| ==> r.1[|st.1|].total > 0
    ensures SearchStamp(line, DurationMarker, 0).None? ==> r.0 == st.0
    ensures r.0.None? ==> st.0.None?
  {
    var t := TotalAfter(st.0, line);
    (t, st.1 + Listed(ReportOf(t, line)))
  }

  /** The total and the reports after a run of lines. */
  function Scan(total: Option<nat>, lines: seq<string>): (r: (Option<nat>, seq<Report>))
    ensures |r.1| <= |lines|
    ensures forall k :: 0 <= k < |r.1| ==> r.1[k].total > 0
    ensures r.0.None? ==> total.None?
    decreases |lines|
  {
    if lines == [] then (total, [])
    else
      var prev := Scan(total, lines[..|lines| - 1]);
      var r := Step(prev, lines[|lines| - 1]);
      assert forall k :: 0 <= k < |lines| - 1 ==> lines[k] == lines[..|lines| - 1][k];
      assert forall k :: 0 <= k < |prev.1| ==> r.1[k] == prev.1[k];
      r
  }

  /** Without a `Duration:` line the total stays what it was. */
  lemma {:induction false} TotalWithoutDuration(total: Option<nat>, lines: seq<string>)
    requires forall k :: 0 <= k < |lines| ==> SearchStamp(lines[k], DurationMarker, 0).None?
    ensures Scan(total, lines).0 == total
    decreases |lines|
  {
    if lines != [] {
      var init := lines[..|lines| - 1];
      assert forall k :: 0 <= k < |init| ==> init[k] == lines[k];
      TotalWithoutDuration(total, init);
    }
  }

  /** The percentage a report shows, floored. */
  function PercentOf(rep: Report): nat
    requires rep.total > 0
  {
    Percent(rep.current, rep.total)
  }

  /** The percentage the bar shows after some reports, `shown` before any. */
  function LastShown(shown: nat, reports: seq<Report>): nat
  {
    if reports == [] || reports[|reports| - 1].total == 0 then shown else PercentOf(reports[|reports| - 1])
  }

  /** A new report is the one the bar shows; no report leaves it as it was. */
  lemma LastShownStep(shown: nat, reports: seq<Report>, rep: Option<Report>)
    requires rep.Some? ==> rep.value.total > 0
    ensures LastShown(shown, reports + Listed(rep)) ==
            if rep.Some? then PercentOf(rep.value) else LastShown(shown, reports)
  {
  }

  lemma ScanStep(total: Option<nat>, lines: seq<string>, i: nat)
    requires i < |lines|
    ensures Scan(total, lines[..i + 1]) == Step(Scan(total, lines[..i]), lines[i])
  {
    assert lines[..i + 1][..i] == lines[..i];
  }

  /** The loop of `monitor_process` over ffmpeg's output: the total it ends
      with, the reports it makes and the percentage the bar shows last. */
  method ReadProgress(total0: Option<nat>, shown0: nat, lines: seq<string>)
    returns (total: Option<nat>, reports: seq<Report>, shown: nat)
    ensures (total, reports) == Scan(total0, lines)
    ensures shown == LastShown(shown0, reports)
  {
    total, reports, shown := total0, [], shown0;
    var i := 0;
    while i < |lines|
      invariant 0 <= i <= |lines|
      invariant (total, reports) == Scan(total0, lines[..i])
      invariant shown == LastShown(shown0, reports)
    {
      var line := lines[i];
      ScanStep(total0, lines, i);
      ghost var before := (total, reports);
      total := TotalAfter(total, line);
      var rep := ReportOf(total, line);
      LastShownStep(shown0, reports, rep);
      reports := reports + Listed(rep);
      assert (total, reports) == Step(before, line);
      if rep.Some? {
        shown := PercentOf(rep.value);
      }
      i := i + 1;
    }
    assert lines[..|lines|] == lines;
  }

  /** A `Duration:` line followed by a `time=` line gives one report of the
      position against the duration. */
  lemma DurationThenTime(l1: string, l2: string, d: nat, c: nat)
    requires SearchStamp(l1, DurationMarker, 0) == Some(d) && d > 0 && SearchStamp(l1, TimeMarker, 0).None?
    requires SearchStamp(l2, DurationMarker, 0).None? && SearchStamp(l2, TimeMarker, 0) == Some(c)
    ensures Scan(None, [l1, l2]) == (Some(d), [Report(c, d)])
  {
    var lines := [l1, l2];
    assert lines[..1] == [l1];
    assert [l1][..0] == [];
    assert Scan(None, [l1]) == Step((None, []), l1);
    assert Step((None, []), l1) == (Some(d), []);
    assert Step((Some(d), []), l2) == (Some(d), [Report(c, d)]);
  }

  // ---------------------------------------------------------------------
  // Window state
  // ---------------------------------------------------------------------

  /** The status line of the expert window. */
  datatype Status =
    | Ready
    | Starting
    | NoUrl
    | Downloading
    | DownloadFinished
    | DownloadCompleted
    | DownloadCancelled
    | DownloadError(message: string)
    | CancelledOperation
    | Converting
    | ConversionDone(output: string)
    | ConversionFailed
    | ConversionCancelled

  /** What `execute_command` does with a typed command. */
  datatype Submit = Ignored | Busy | NoCommand | Started(command: seq<string>)

  /** What `execute_command` decides: the placeholder text is ignored as it
      stands, a running download refuses a second one, a blank entry is an
      error, and anything else starts the full command. */
  function Submission(entry: string, saveLocation: string, busy: bool): (r: Submit)
    ensures entry == Placeholder ==> r == Ignored
    ensures entry != Placeholder && busy ==> r == Busy
    ensures entry != Placeholder && !busy && Strip(entry) == [] ==> r == NoCommand
    ensures r.Started? <==> entry != Placeholder && !busy && Strip(entry) != []
    ensures r.Started? ==> r.command == FullCommand(entry, saveLocation)
  {
    if entry == Placeholder then Ignored
    else if busy then Busy
    else if Strip(entry) == [] then NoCommand
    else Started(FullCommand(entry, saveLocation))
  }

  /** How `ydl.download` ends: normally, normally after a cancel request came
      in, or by raising an exception with a message. */
  datatype DownloadEnd = Completed | CompletedAfterCancel | Raised(message: string)

  /** What `start_conversion` does. */
  datatype Conversion = ConversionBusy | MissingInput | ConversionStarted(output: string)

  /** What `start_conversion` decides: one conversion at a time, an existing
      input required, and the output named after the input in the output folder. */
  function ConversionRequest(busy: bool, inputGiven: bool, input: string, outputDir: string, format: string): (r: Conversion)
    ensures busy ==> r == ConversionBusy
    ensures !busy && !inputGiven ==> r == MissingInput
    ensures r.ConversionStarted? <==> !busy && inputGiven
    ensures r.ConversionStarted? ==> r.output == ConversionOutput(input, outputDir, format)
  {
    if busy then ConversionBusy
    else if !inputGiven then MissingInput
    else ConversionStarted(ConversionOutput(input, outputDir, format))
  }

  const CancelMessage: string := "Download cancelled by user"

  /** The text of the TypeError that `None > 0` raises. */
  const NoneComparisonError: string := "'>' not supported " + "between instances of " + "'NoneType' and 'int'"

  /** The status a download that was not cancelled beforehand ends with: a
      raised cancellation counts as a cancel; a normal end after a cancel
      request leaves the status as it was. */
  function EndStatus(end: DownloadEnd, before: Status): (r: Status)
    ensures end.Completed? ==> r == DownloadCompleted
    ensures end.CompletedAfterCancel? ==> r == before
    ensures end.Raised? ==> (r == DownloadCancelled <==> Contains(end.message, CancelMessage))
    ensures end.Raised? && !Contains(end.message, CancelMessage) ==> r == DownloadError(end.message)
  {
    match end
    case Completed => DownloadCompleted
    case CompletedAfterCancel => before
    case Raised(m) => if Contains(m, CancelMessage) then DownloadCancelled else DownloadError(m)
  }

  /** A progress entry holding `None` ends the download with its TypeError
      shown as an error, not as a cancellation. */
  lemma NoneTotalShowsError(before: Status)
    ensures EndStatus(Raised(NoneComparisonError), before) == DownloadError(NoneComparisonError)
  {
    var p1, p2, p3 := "'>' not supported ", "between instances of ", "'NoneType' and 'int'";
    assert 'D' !in p1 && 'D' !in p2 && 'D' !in p3;
    assert NoneComparisonError == p1 + p2 + p3;
    CharAbsent(NoneComparisonError, 'D');
    assert OccursAt(CancelMessage, "D", 0);
    ContainsAt(CancelMessage, "D", 0);
    if Contains(NoneComparisonError, CancelMessage) {
      ContainsTrans(NoneComparisonError, CancelMessage, "D");
    }
  }

  class Gui {
    var downloadInProgress: bool
    var conversionInProgress: bool
    var cancellationRequested: bool
    /** `current_process is not None`. */
    var processActive: bool
    var bar: nat
    var status: Status
    var formatValues: seq<string>
    var outputFormat: string
    /** `total_duration`, absent until a `Duration:` line was read. */
    var totalDuration: Option<nat>
    /** `current_output_file`, the path the running conversion writes. */
    var currentOutputFile: string

    constructor()
      ensures !downloadInProgress && !conversionInProgress && !cancellationRequested && !processActive
      ensures bar == 0 && status == Ready && outputFormat == "mp4" && totalDuration == None
      ensures formatValues == VideoTargets + AudioTargets && outputFormat in formatValues
      ensures currentOutputFile == ""
    {
      currentOutputFile := "";
      downloadInProgress, conversionInProgress, cancellationRequested, processActive := false, false, false, false;
      bar, status, formatValues, outputFormat, totalDuration := 0, Ready, VideoTargets + AudioTargets, "mp4", None;
    }

    /** `execute_command`: the decision is `Submission`'s; a started download
        resets the bar and the cancel flag and marks a download in progress. */
    method ExecuteCommand(entry: string, saveLocation: string) returns (submit: Submit)
      modifies this
      ensures submit == Submission(entry, saveLocation, old(downloadInProgress))
      ensures !submit.Started? ==> unchanged(this)
      ensures submit.Started? ==> bar == 0 && status == Starting && !cancellationRequested && downloadInProgress
      ensures unchanged(this`conversionInProgress, this`processActive, this`formatValues, this`outputFormat, this`totalDuration,
                        this`currentOutputFile)
    {
      submit := Submission(entry, saveLocation, downloadInProgress);
      if submit.Started? {
        bar := 0;
        status := Starting;
        cancellationRequested := false;
        downloadInProgress := true;
      }
    }

    /** The first URL token, found as `run_command`'s loop finds it. */
    method FindUrl(cmd: seq<string>) returns (url: Option<string>)
      ensures FirstUrl(cmd).None? ==> url.None?
      ensures FirstUrl(cmd).Some? ==> url == Some(cmd[FirstUrl(cmd).value])
    {
      var i := 0;
      while i < |cmd|
        invariant 0 <= i <= |cmd|
        invariant forall j :: 0 <= j < i ==> !IsUrl(cmd[j])
      {
        if IsUrl(cmd[i]) {
          assert FirstUrl(cmd) == Some(i) by {
            FirstUrlAt(cmd, i);
          }
          return Some(cmd[i]);
        }
        i := i + 1;
      }
      return None;
    }

    /** The `outtmpl` loop of `run_command` (every later output flag with a value wins). */
    method FindOutput(cmd: seq<string>) returns (outtmpl: Option<string>)
      ensures outtmpl == OutputValue(cmd)
    {
      outtmpl := None;
      if |cmd| == 0 {
        return;
      }
      var i := 1;
      while i < |cmd|
        invariant 1 <= i <= |cmd|
        invariant outtmpl == OutputValueUpTo(cmd, i)
      {
        var arg := cmd[i];
        if IsOutputFlag(arg) {
          assert arg[0] == '-';
          assert |arg| >= 4 ==> arg[..4][0] == '-';
        }
        if StartsWith(arg, "-") && !StartsWith(arg, "http") {
          if IsOutputFlag(arg) && i + 1 < |cmd| {
            outtmpl := Some(cmd[i + 1]);
          }
        }
        i := i + 1;
      }
    }

    /** `run_command`: the URL and the template it passes to the downloader,
        the status it ends with, and the flags its `finally` clears. */
    method RunCommand(command: seq<string>, end: DownloadEnd) returns (url: Option<string>, outtmpl: Option<string>)
      modifies this
      ensures FirstUrl(command).None? ==> url.None? && outtmpl.None? && status == NoUrl && !downloadInProgress
      ensures FirstUrl(command).None? ==> cancellationRequested == old(cancellationRequested) && processActive == old(processActive)
      ensures FirstUrl(command).Some? ==> url == Some(command[FirstUrl(command).value]) && outtmpl == OutputValue(command)
      ensures FirstUrl(command).Some? ==> !downloadInProgress && !cancellationRequested && !processActive
      ensures FirstUrl(command).Some? && old(cancellationRequested) ==> status == DownloadCancelled
      ensures FirstUrl(command).Some? && !old(cancellationRequested) ==> status == EndStatus(end, old(status))
      ensures bar == old(bar) && conversionInProgress == old(conversionInProgress)
      ensures formatValues == old(formatValues) && outputFormat == old(outputFormat) && totalDuration == old(totalDuration) &&
              currentOutputFile == old(currentOutputFile)
    {
      url := FindUrl(command);
      outtmpl := None;
      if url.None? {
        status := NoUrl;
        downloadInProgress := false;
        return;
      }
      outtmpl := FindOutput(command);
      if cancellationRequested {
        status := DownloadCancelled;
      } else {
        processActive := true;
        match end
        case Completed =>
          status := DownloadCompleted;
        case CompletedAfterCancel =>
        case Raised(m) =>
          status := if Contains(m, CancelMessage) then DownloadCancelled else DownloadError(m);
      }
      processActive := false;
      downloadInProgress := false;
      cancellationRequested := false;
    }

    /** The download progress hook, given the `total_bytes` and
        `total_bytes_estimate` entries; `raised` is the message of the
        exception it raises: the cancellation, or the TypeError of comparing
        an entry holding `None` with `0`. `withTexts` says the percent, speed
        and ETA texts came along. */
    method ProgressHook(state: string, downloaded: nat, totalBytes: Field<nat>, estimate: Field<nat>, withTexts: bool)
      returns (raised: Option<string>)
      modifies this
      ensures old(cancellationRequested) ==> raised == Some(CancelMessage) && unchanged(this)
      ensures !old(cancellationRequested) && state == "downloading" ==>
        var byTotal := totalBytes.Present? && totalBytes.value > 0;
        var byEstimate := !byTotal && estimate.Present? && estimate.value > 0;
        var fails := totalBytes.Null? || (!byTotal && estimate.Null?);
        (fails ==> raised == Some(NoneComparisonError) && unchanged(this)) &&
        (!fails ==> raised.None? &&
                    status == (if withTexts then Downloading else old(status)) &&
                    bar == (if byTotal then Percent(downloaded, totalBytes.value)
                            else if byEstimate then Percent(downloaded, estimate.value)
                            else old(bar)))
      ensures !old(cancellationRequested) && state == "finished" ==> raised.None? && bar == 100 && status == DownloadFinished
      ensures !old(cancellationRequested) && state != "downloading" && state != "finished" ==> raised.None? && unchanged(this)
      ensures downloadInProgress == old(downloadInProgress) && cancellationRequested == old(cancellationRequested)
      ensures conversionInProgress == old(conversionInProgress) && processActive == old(processActive)
      ensures formatValues == old(formatValues) && outputFormat == old(outputFormat) && totalDuration == old(totalDuration) &&
              currentOutputFile == old(currentOutputFile)
    {
      if cancellationRequested {
        return Some(CancelMessage);
      }
      raised := None;
      if state == "downloading" {
        if totalBytes.Null? {
          return Some(NoneComparisonError);
        } else if totalBytes.Present? && totalBytes.value > 0 {
          bar := Percent(downloaded, totalBytes.value);
        } else if estimate.Null? {
          return Some(NoneComparisonError);
        } else if estimate.Present? && estimate.value > 0 {
          bar := Percent(downloaded, estimate.value);
        }
        if withTexts {
          status := Downloading;
        }
      } else if state == "finished" {
        bar := 100;
        status := DownloadFinished;
      }
    }

    /** The pass-through logger: debug and info messages raise the
        cancellation exception once a cancel was requested. */
    method LogMessage(level: string) returns (raised: bool)
      ensures raised <==> cancellationRequested && (level == "debug" || level == "info")
    {
      raised := (level == "debug" || level == "info") && cancellationRequested;
    }

    /** `cancel_operation`; `threadStuck` says the download thread was still
        alive after the two seconds it is given. */
    method CancelOperation(threadStuck: bool)
      modifies this
      ensures cancellationRequested && status == CancelledOperation && bar == 0
      ensures downloadInProgress == (old(downloadInProgress) && !threadStuck)
      ensures conversionInProgress == old(conversionInProgress) && processActive == old(processActive)
      ensures formatValues == old(formatValues) && outputFormat == old(outputFormat) && totalDuration == old(totalDuration) &&
              currentOutputFile == old(currentOutputFile)
    {
      cancellationRequested := true;
      if downloadInProgress && threadStuck {
        downloadInProgress := false;
      }
      status := CancelledOperation;
      bar := 0;
    }

    /** `update_format_options` with the probe results: the streams ffprobe
        lists and the container format it names. */
    method UpdateFormatOptions(inputGiven: bool, streams: seq<string>, probedFormat: string)
      modifies this
      ensures !inputGiven ==> unchanged(this)
      ensures inputGiven ==> (
        formatValues == Targets("video" in streams, Lower(Strip(probedFormat))) &&
        outputFormat == Choice(old(outputFormat), formatValues) && outputFormat in formatValues)
      ensures downloadInProgress == old(downloadInProgress) && conversionInProgress == old(conversionInProgress)
      ensures cancellationRequested == old(cancellationRequested) && processActive == old(processActive)
      ensures bar == old(bar) && status == old(status) && totalDuration == old(totalDuration) &&
              currentOutputFile == old(currentOutputFile)
    {
      if !inputGiven {
        return;
      }
      var hasVideo := "video" in streams;
      var inputFormat := Lower(Strip(probedFormat));
      var all := Targets(hasVideo, inputFormat);
      formatValues := all;
      outputFormat := Choice(outputFormat, all);
    }

    /** `start_conversion`; the output folder is created when missing. */
    method StartConversion(inputGiven: bool, input: string, outputDir: string) returns (c: Conversion)
      modifies this
      ensures c == ConversionRequest(old(conversionInProgress), inputGiven, input, outputDir, old(outputFormat))
      ensures c.ConversionStarted? ==> conversionInProgress && bar == 0 && status == Converting
      ensures !c.ConversionStarted? ==> conversionInProgress == old(conversionInProgress) && bar == old(bar) && status == old(status)
      ensures downloadInProgress == old(downloadInProgress) && cancellationRequested == old(cancellationRequested)
      ensures processActive == old(processActive) && formatValues == old(formatValues)
      ensures outputFormat == old(outputFormat) && totalDuration == old(totalDuration) &&
              currentOutputFile == old(currentOutputFile)
    {
      c := ConversionRequest(conversionInProgress, inputGiven, input, outputDir, outputFormat);
      if c.ConversionStarted? {
        bar := 0;
        status := Converting;
        conversionInProgress := true;
      }
    }

    /** `convert_file` up to the start of ffmpeg: the output path is recorded,
        the streams `ffprobe` listed decide whether the input has video and
        audio, and the command (with the palette pass of a gif) is the one
        `ConvertCommand` builds; a process is then running. */
    method ConvertFile(input: string, output: string, format: string, preset: string, streams: seq<string>)
      returns (cmd: seq<string>, palette: Option<seq<string>>)
      modifies this
      ensures currentOutputFile == output && processActive
      ensures palette.Some? <==> format == "gif"
      ensures format == "gif" ==> cmd == GifCommand(input, output) && palette == Some(PaletteCommand(input, output))
      ensures format != "gif" ==>
                cmd == ["ffmpeg", "-i", input, "-y"] + EncoderArgs(format, preset, "audio" in streams) + [output]
      ensures cmd[|cmd| - 1] == output
      ensures unchanged(this`downloadInProgress, this`conversionInProgress, this`cancellationRequested, this`bar,
                        this`status, this`formatValues, this`outputFormat, this`totalDuration)
    {
      currentOutputFile := output;
      var hasVideo := "video" in streams;
      var hasAudio := "audio" in streams;
      cmd, palette := ConvertCommand(input, output, format, preset, hasVideo, hasAudio);
      processActive := true;
    }

    /** `monitor_process` over the lines ffmpeg wrote and its return code,
        followed by `cleanup_conversion`; the answer is the reports made. */
    method MonitorProcess(lines: seq<string>, returnCode: int) returns (reports: seq<Report>)
      modifies this
      ensures (totalDuration, reports) == Scan(old(totalDuration), lines)
      ensures returnCode == 0 ==> bar == 100 && status == ConversionDone(old(currentOutputFile))
      ensures returnCode != 0 ==> (
        status == ConversionFailed && bar == LastShown(old(bar), reports))
      ensures !processActive && !conversionInProgress
      ensures unchanged(this`downloadInProgress, this`cancellationRequested, this`formatValues, this`outputFormat,
                        this`currentOutputFile)
    {
      var total, shown;
      total, reports, shown := ReadProgress(totalDuration, bar, lines);
      totalDuration, bar := total, shown;
      if returnCode == 0 {
        status := ConversionDone(currentOutputFile);
        bar := 100;
      } else {
        status := ConversionFailed;
      }
      processActive := false;
      conversionInProgress := false;
    }

    /** `cancel_conversion`: only a running conversion with a process is stopped. */
    method CancelConversion()
      modifies this
      ensures old(processActive) && old(conversionInProgress) ==> (
        status == ConversionCancelled && !processActive && !conversionInProgress)
      ensures !(old(processActive) && old(conversionInProgress)) ==> unchanged(this)
      ensures bar == old(bar) && downloadInProgress == old(downloadInProgress)
      ensures cancellationRequested == old(cancellationRequested)
      ensures formatValues == old(formatValues) && outputFormat == old(outputFormat) && totalDuration == old(totalDuration) &&
              currentOutputFile == old(currentOutputFile)
    {
      if processActive && conversionInProgress {
        status := ConversionCancelled;
        processActive := false;
        conversionInProgress := false;
      }
    }
  }

  /** The first URL is at `i` when none comes before it. */
  lemma {:induction false} FirstUrlAt(cmd: seq<string>, i: nat)
    requires i < |cmd| && IsUrl(cmd[i]) && forall j :: 0 <= j < i ==> !IsUrl(cmd[j])
    ensures FirstUrl(cmd) == Some(i)
    decreases i
  {
    if i > 0 {
      FirstUrlAt(cmd[1..], i - 1);
    }
  }
}
