/** The pass-through command line front end: the hand-written translation of
    yt-dlp style arguments into an option dictionary, and the dispatch of the
    parsed command line. */
module Dlitec {
  import opened Wrappers
  import opened Text
  import opened YdlOptions
  import Media

  type Entry = (string, Value)

  /** The assignment one option makes: `no-playlist` sets `noplaylist`,
      any other `no-X` clears `X`, everything else stores its value. */
  function EntryFor(key: string, v: Value): Entry
  {
    if key == "no-playlist" then ("noplaylist", Bool(true))
    else if StartsWith(key, "no-") then (key[3..], Bool(false))
    else (key, v)
  }

  /** The long key a one-letter option stands for. */
  function ShortKey(c: char): Option<string>
  {
    match c
    case 'f' => Some("format")
    case 'o' => Some("output")
    case 'x' => Some("extract-audio")
    case 'i' => Some("ignore-errors")
    case 'v' => Some("verbose")
    case 'q' => Some("quiet")
    case _ => None
  }

  /** The one-letter options that take no value. */
  predicate IsShortFlag(c: char)
  {
    c == 'x' || c == 'i' || c == 'v' || c == 'q'
  }

  /** `key` of `--key=value`: the text between `--` and the first `=`. */
  function EqKey(a: string): (k: string)
    requires StartsWith(a, "--") && Contains(a, "=")
  {
    var b := Before(a, "=");
    assert a[|b|] == '=' by {
      assert a[|b|..|b| + 1] == "=";
    }
    assert a[0] == '-' && a[1] == '-' by {
      assert a[..2] == "--";
    }
    b[2..]
  }

  /** The assignments the argument loop performs, in the order it performs them. */
  function Scan(args: seq<string>): seq<Entry>
    decreases |args|
  {
    if args == [] then []
    else
      var a := args[0];
      if Contains(a, "=") && StartsWith(a, "--") then
        [EntryFor(EqKey(a), Str(After(a, "=")))] + Scan(args[1..])
      else if StartsWith(a, "--") && |args| > 1 && !StartsWith(args[1], "--") then
        [EntryFor(a[2..], Str(args[1]))] + Scan(args[2..])
      else if StartsWith(a, "--") then
        [EntryFor(a[2..], Bool(true))] + Scan(args[1..])
      else if StartsWith(a, "-") && |a| == 2 && ShortKey(a[1]).Some? then
        if IsShortFlag(a[1]) then [(ShortKey(a[1]).value, Bool(true))] + Scan(args[1..])
        else if |args| > 1 && !StartsWith(args[1], "-") then [(ShortKey(a[1]).value, Str(args[1]))] + Scan(args[2..])
        else Scan(args[1..])
      else Scan(args[1..])
  }

  /** The dictionary `parse_yt_dlp_args` returns. */
  function ParsedArgs(args: seq<string>): Options
  {
    Apply(map[], Scan(args))
  }

  /** `parse_yt_dlp_args`: the index loop, which skips the value an option consumes. */
  method ParseYtDlpArgs(args: seq<string>) returns (opts: Options)
    ensures opts == ParsedArgs(args)
  {
    opts := map[];
    var i := 0;
    while i < |args|
      invariant 0 <= i <= |args|
      invariant Apply(opts, Scan(args[i..])) == ParsedArgs(args)
      decreases |args| - i
    {
      var arg := args[i];
      var rest := args[i..];
      assert rest[0] == arg && rest[1..] == args[i + 1..];
      if Contains(arg, "=") && StartsWith(arg, "--") {
        var e := EntryFor(EqKey(arg), Str(After(arg, "=")));
        opts := opts[e.0 := e.1];
      } else if StartsWith(arg, "--") && i + 1 < |args| && !StartsWith(args[i + 1], "--") {
        assert rest[1] == args[i + 1] && rest[2..] == args[i + 2..];
        var e := EntryFor(arg[2..], Str(args[i + 1]));
        opts := opts[e.0 := e.1];
        i := i + 1;
      } else if StartsWith(arg, "--") {
        var e := EntryFor(arg[2..], Bool(true));
        opts := opts[e.0 := e.1];
      } else if StartsWith(arg, "-") && |arg| == 2 {
        var key := ShortKey(arg[1]);
        if key.Some? {
          if IsShortFlag(arg[1]) {
            opts := opts[key.value := Bool(true)];
          } else if i + 1 < |args| && !StartsWith(args[i + 1], "-") {
            assert rest[1] == args[i + 1] && rest[2..] == args[i + 2..];
            opts := opts[key.value := Str(args[i + 1])];
            i := i + 1;
          }
        }
      }
      i := i + 1;
    }
  }

  /** Text that has no `=` stays free of it once prefixed with `--`. */
  lemma NoEqualsInKey(k: string)
    requires !Contains(k, "=")
    ensures !Contains("--" + k, "=")
  {
    CharAbsent("--", '=');
    if Contains("--" + k, "=") {
      ContainsInConcat("--", k, "=");
      assert false;
    }
  }

  /** `--key=value` splits at the first `=`, whatever the value holds. */
  lemma ScanEqualsForm(k: string, v: string, rest: seq<string>)
    requires !Contains(k, "=")
    ensures Scan(["--" + k + "=" + v] + rest) == [EntryFor(k, Str(v))] + Scan(rest)
  {
    var a := "--" + k + "=" + v;
    NoEqualsInKey(k);
    BeforeOfJoin("--" + k, "=", v);
    assert a == ("--" + k) + "=" + v;
    ContainsAt(a, "=", |k| + 2);
    assert StartsWith(a, "--") by { assert a[..2] == "--"; }
    assert EqKey(a) == k by { assert ("--" + k)[2..] == k; }
    assert (["--" + k + "=" + v] + rest)[1..] == rest;
  }

  /** `--key value` consumes the value when it does not start with `--`,
      also for `--no-X`, where the value is dropped. */
  lemma ScanSpacedForm(k: string, v: string, rest: seq<string>)
    requires !Contains(k, "=") && !StartsWith(v, "--")
    ensures Scan(["--" + k, v] + rest) == [EntryFor(k, Str(v))] + Scan(rest)
  {
    NoEqualsInKey(k);
    var a := "--" + k;
    assert StartsWith(a, "--") by { assert a[..2] == "--"; }
    assert a[2..] == k;
    assert (["--" + k, v] + rest)[2..] == rest;
  }

  /** A `--flag` that is last or is followed by another `--` argument stands for True. */
  lemma ScanLoneFlag(k: string, rest: seq<string>)
    requires !Contains(k, "=")
    requires rest == [] || StartsWith(rest[0], "--")
    ensures Scan(["--" + k] + rest) == [EntryFor(k, Bool(true))] + Scan(rest)
  {
    NoEqualsInKey(k);
    var a := "--" + k;
    assert StartsWith(a, "--") by { assert a[..2] == "--"; }
    assert a[2..] == k;
    assert (["--" + k] + rest)[1..] == rest;
  }

  /** `-x`, `-i`, `-v` and `-q` set their long key to True and consume nothing. */
  lemma ScanShortFlag(c: char, rest: seq<string>)
    requires IsShortFlag(c)
    ensures Scan([['-', c]] + rest) == [(ShortKey(c).value, Bool(true))] + Scan(rest)
  {
    var a := ['-', c];
    CharAbsent(a, '=');
    assert a[..2] == a && a[1] == c;
    assert !StartsWith(a, "--");
    assert ([a] + rest)[1..] == rest;
  }

  /** `-f` and `-o` take the next argument only when it does not start with `-`;
      otherwise they are ignored. */
  lemma ScanShortValue(c: char, rest: seq<string>)
    requires c == 'f' || c == 'o'
    ensures rest != [] && !StartsWith(rest[0], "-") ==>
              Scan([['-', c]] + rest) == [(ShortKey(c).value, Str(rest[0]))] + Scan(rest[1..])
    ensures rest == [] || StartsWith(rest[0], "-") ==> Scan([['-', c]] + rest) == Scan(rest)
  {
    if rest != [] && !StartsWith(rest[0], "-") {
      assert [['-', c]] + rest == [['-', c], rest[0]] + rest[1..];
      ScanShortTakes(c, rest[0], rest[1..]);
    } else {
      ScanShortAlone(c, rest);
    }
  }

  /** The one-dash shape of a valued one-letter option. */
  lemma ShortValueShape(c: char)
    requires c == 'f' || c == 'o'
    ensures !Contains(['-', c], "=") && !StartsWith(['-', c], "--") && StartsWith(['-', c], "-")
  {
    var a := ['-', c];
    CharAbsent(a, '=');
    assert a[..2] == a && a[..1] == "-";
  }

  lemma ScanShortTakes(c: char, v: string, rest: seq<string>)
    requires c == 'f' || c == 'o'
    requires !StartsWith(v, "-")
    ensures Scan([['-', c], v] + rest) == [(ShortKey(c).value, Str(v))] + Scan(rest)
  {
    ShortValueShape(c);
    var args := [['-', c], v] + rest;
    assert args[0] == ['-', c] && args[1] == v && args[2..] == rest;
  }

  lemma ScanShortAlone(c: char, rest: seq<string>)
    requires c == 'f' || c == 'o'
    requires rest == [] || StartsWith(rest[0], "-")
    ensures Scan([['-', c]] + rest) == Scan(rest)
  {
    ShortValueShape(c);
    var args := [['-', c]] + rest;
    assert args[0] == ['-', c] && args[1..] == rest;
  }

  /** Arguments that start with no `-`, and one-dash arguments that are not
      a known one-letter option, assign nothing. */
  lemma ScanIgnores(a: string, rest: seq<string>)
    requires !StartsWith(a, "-") || (!StartsWith(a, "--") && (|a| != 2 || ShortKey(a[1]).None?))
    ensures Scan([a] + rest) == Scan(rest)
  {
    DashDash(a);
    assert ([a] + rest)[1..] == rest;
  }

  lemma DashDash(a: string)
    ensures StartsWith(a, "--") ==> StartsWith(a, "-")
  {
    if |a| >= 2 {
      assert a[..1] == a[..2][..1];
    }
  }

  /** The arguments of a list that do not start with `-`, in order. */
  function Positional(args: seq<string>): (r: seq<string>)
    ensures forall a :: a in r <==> a in args && !StartsWith(a, "-")
    ensures |r| <= |args|
  {
    if args == [] then []
    else if StartsWith(args[0], "-") then Positional(args[1..])
    else [args[0]] + Positional(args[1..])
  }

  /** The command line as the argument parser leaves it: the known options
      (`""` for an absent one) and the positional URLs. */
  datatype Namespace = Namespace(
    video: string, audio: string, format: string, output: string, listFormats: string,
    resume: bool, help: bool, urls: seq<string>)

  /** What `main` goes on to do. */
  datatype Action =
    | LaunchGui
    | ShowHelp
    | ListFormats(url: string, options: Options)
    | Download(videoOptions: Option<Options>, audioOptions: Option<Options>)
    | DirectDownload(urls: seq<string>, options: Options)
    | Fail(message: string)

  const NoUrls: string := "No URLs provided. Pass a URL to download or use --help to see available options."
  const NoArguments: string := "No URLs or recognized arguments provided. Pass a URL or use --help to see available options."

  /** Everything after the program name. */
  function AllArgs(argv: seq<string>): seq<string>
  {
    if argv == [] then [] else argv[1..]
  }

  /** `main`: `argv` is the full `sys.argv`, `ns` and `unknown` what
      `parse_known_args` returns for it. */
  method Dispatch(argv: seq<string>, ns: Namespace, unknown: seq<string>) returns (act: Action)
    ensures "--gui" in argv <==> act == LaunchGui
    ensures "--gui" !in argv && ns.help && unknown == [] ==> act == ShowHelp
    ensures act.ListFormats? <==> "--gui" !in argv && !(ns.help && unknown == []) && ns.listFormats != ""
    ensures act.ListFormats? ==> act == ListFormats(ns.listFormats, map["quiet" := Bool(true)] + ParsedArgs(unknown))
    ensures act.Download? <==>
              "--gui" !in argv && !(ns.help && unknown == []) && ns.listFormats == "" && (ns.video != "" || ns.audio != "")
    ensures act.Download? ==>
              (act.videoOptions.Some? <==> ns.video != "") && (act.audioOptions.Some? <==> ns.audio != "")
    // the whole command line is parsed again as extra options, so its own
    // --format reaches the video dictionary ahead of the selector table
    ensures act.Download? && act.videoOptions.Some? ==>
              var extra := ParsedArgs(AllArgs(argv));
              "format" in act.videoOptions.value &&
              act.videoOptions.value["format"] ==
                (if "format" in extra then extra["format"]
                 else Str(Media.VideoSelector(Media.ChooseFormats(ns.video, ns.audio, ns.format).0)))
    ensures act.Download? && act.audioOptions.Some? ==>
              "postprocessors" in act.audioOptions.value &&
              act.audioOptions.value["postprocessors"] ==
                PostProcessors([ExtractAudio(Media.ChooseFormats(ns.video, ns.audio, ns.format).1, Some("192"))])
    ensures act.Download? && act.audioOptions.Some? && ns.resume ==>
              "continuedl" in act.audioOptions.value && act.audioOptions.value["continuedl"] == Bool(true)
    ensures act.ShowHelp? <==> "--gui" !in argv && ns.help && unknown == []
    // with no --video and no --audio, the positional URLs and the unknown
    // arguments not starting with `-` decide between a direct download and failure
    ensures act.DirectDownload? <==>
              "--gui" !in argv && !(ns.help && unknown == []) && ns.listFormats == "" && ns.video == "" && ns.audio == "" &&
              ns.urls + Positional(unknown) != []
    ensures act.Fail? <==>
              "--gui" !in argv && !(ns.help && unknown == []) && ns.listFormats == "" && ns.video == "" && ns.audio == "" &&
              ns.urls + Positional(unknown) == []
    ensures act.DirectDownload? ==>
              act.urls == ns.urls + Positional(unknown) && act.urls != [] &&
              act.options == ParsedArgs(AllArgs(argv))
    ensures act.Fail? ==> act.message == (if ns.urls != [] || unknown != [] then NoUrls else NoArguments)
  {
    if "--gui" in argv {
      return LaunchGui;
    }
    if ns.help && unknown == [] {
      return ShowHelp;
    }
    if ns.listFormats != "" {
      var extra := ParseYtDlpArgs(unknown);
      return ListFormats(ns.listFormats, map["quiet" := Bool(true)] + extra);
    }
    var allArgs := AllArgs(argv);
    if ns.video != "" || ns.audio != "" {
      var formats := Media.ChooseFormats(ns.video, ns.audio, ns.format);
      var extra := ParseYtDlpArgs(allArgs);
      var v, a := Media.DownloadMedia(ns.video, ns.audio, formats.0, formats.1, ns.output, ns.resume, extra);
      return Download(v, a);
    }
    if ns.urls != [] || unknown != [] {
      var urls := ns.urls + Positional(unknown);
      if urls != [] {
        var opts := ParseYtDlpArgs(allArgs);
        return DirectDownload(urls, opts);
      }
      return Fail(NoUrls);
    }
    return Fail(NoArguments);
  }
}
