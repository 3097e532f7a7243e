# yt-dlite core, modelled in Dafny

yt-dlite is a set of front ends around the `yt_dlp` downloader and `ffmpeg`:

- two command-line scripts, `yt-dlitec.py` and `yt-lite.py`;
- two Tkinter windows, `yt-dlite.py` and `yt-liteg.py`, with a format table, download threads and progress hooks;
- a playlist helper, `misc.py`;
- a search-driven beginner window, `begginer.py`;
- an expert window, `expert.py`, that runs a typed `yt-dlp` command and converts files with `ffmpeg`.

Each front end turns what the user typed or picked into the option dictionary it hands to the downloader. It then follows the download through hooks that update a bar, a status line and the path of the finished file.

The model keeps one module per script (`Dlitec`, `Lite`, `Dlite`, `Liteg`, `Playlist`, `Beginner`, `Expert`). Shared modules hold what the scripts have in common:

- `Sanitize`: the file-name cleaner, identical in both command-line scripts;
- `YdlOptions` and `Media`: the option dictionaries of `download_media`;
- `Formats`: format records, filtering, sorting and the merge selector of both Tkinter windows;
- `Hooks`: the progress and post-processor hooks of both Tkinter windows;
- `Clock`: `h:mm:ss` durations;
- `Text`: the Python string operations the scripts use;
- `Wrappers`: `Option`, for a value that may be `None`, and `Field`, for a dictionary entry that may be missing, hold `None` or hold a value.

Pure computations are functions with lemmas. Objects whose methods update fields (the windows, the hook state, the playlist handler) are classes whose methods state their whole new state.

Calls into `yt_dlp`, `ffprobe`/`ffmpeg`, the file system, the clock and Tk become parameters or oracle functions:

- the result of `extract_info`;
- the set of existing paths;
- the lines `ffmpeg` writes and its return code;
- whether a thread is still alive.

The model follows the code. The code keeps no job store, derives no job id from a URL hash and has no weighted progress bands across phases; each window keeps a single bar driven by the hook it installs.

## Model

| member | source | states |
|---|---|---|
| Sanitize.SanitizeFilename | yt-dlitec.py:8-24 | the result is at most 255 characters, holds only characters of the class `[\w\-_\. ]`, and is never blank |
| Sanitize.Substitute | yt-dlitec.py:13 | one character out for one in, each kept when allowed and replaced by `_` otherwise |
| Sanitize.SanitizeIsTruncatedSubstitution | yt-lite.py:13-22 | unless the fallback name is used, the result is the substituted name cut to 255 characters; a short name keeps its length and every allowed character |
| Sanitize.SanitizeFallbackIffBlank | yt-dlitec.py:20-22 | `downloaded_media` is used exactly when the cut, substituted name is made of blanks only |
| Sanitize.SubstituteFixed | yt-dlitec.py:13 | a name made of allowed characters is left unchanged by the substitution |
| Sanitize.SanitizeIdempotent | yt-dlitec.py:8-24 | sanitising a sanitised name changes nothing |
| YdlOptions.Apply | yt-dlitec.py:28-88 | a run of dictionary assignments keeps every key that was already there |
| YdlOptions.ApplyLastWins | yt-dlitec.py:35-84 | the last assignment to a key decides its value |
| YdlOptions.ApplyUntouched | yt-dlitec.py:35-84 | a key that no assignment names keeps its old value, or stays absent |
| Media.ChooseFormats | yt-dlitec.py:304-313 | `--format` sets the video format when a video URL is given, else the audio format; the defaults are mp4 and mp3 |
| Media.DownloadMedia | yt-dlitec.py:90-175 | the video dictionary exists iff a video URL is given and is `VideoOptions`; the audio dictionary exists iff an audio URL is given and is `AudioOptions`, the same dictionary updated in place |
| Media.VideoOptions | yt-dlitec.py:93-129 | extra options win over the defaults; the selector table fills `format` only for a video download without an extra format; the title template, resume and safe file names are set; no other key appears |
| Media.AudioOptions | yt-dlitec.py:144-163 | `format` is `bestaudio/best` and the extract-audio post-processor at quality 192 is set, resume and the output template are applied again, and every other key of the video dictionary is carried over |
| Media.BaseOptions | yt-dlitec.py:93-113 | the base dictionary: own keys only, the title template (joined to the output directory when one is given), safe file names, `continuedl` exactly when resuming, and no format or post-processor |
| Media.ResumeOptions | yt-lite.py:29-42 | the literal dictionary with `continuedl` present exactly when resuming |
| Media.AudioUpdate | yt-lite.py:74-93 | the audio branch forces the audio selector and the post-processor, re-applies resume and the output directory, and keeps every other key |
| Dlitec.ParseYtDlpArgs | yt-dlitec.py:26-88 | the index loop computes the dictionary `ParsedArgs`, the assignments of `Scan` applied in order |
| Dlitec.ScanEqualsForm | yt-dlitec.py:35-43 | `--key=value` assigns `value` (split at the first `=`) to `key`, whatever the value holds |
| Dlitec.ScanSpacedForm | yt-dlitec.py:46-55 | `--key value` consumes the value when it does not start with `--` |
| Dlitec.ScanLoneFlag | yt-dlitec.py:58-65 | a `--flag` that is last, or followed by another `--` argument, stands for True |
| Dlitec.ScanShortFlag | yt-dlitec.py:68-81 | `-x`, `-i`, `-v` and `-q` set their long key to True and consume nothing |
| Dlitec.ScanShortValue | yt-dlitec.py:78-84 | `-f` and `-o` take the next argument only when it does not start with `-`, and are ignored otherwise |
| Dlitec.ScanIgnores | yt-dlitec.py:31-86 | an argument without a leading `-`, or an unknown one-letter option, assigns nothing |
| Dlitec.Positional | yt-dlitec.py:332 | the arguments that do not start with `-`, in order |
| Dlitec.Dispatch | yt-dlitec.py:215-344 | `--gui` anywhere wins; help exactly without `--gui` and with no unknown arguments; `--list-formats` gets `quiet` plus the parsed unknown arguments; a download exactly when a video or audio URL is given, with dictionaries for exactly those URLs and the whole command line parsed again as extra options; otherwise a direct download exactly when the known URLs and the unknown arguments not starting with `-` are not all empty, with those URLs; otherwise the matching error message |
| Lite.Dispatch | yt-lite.py:122-196 | `--gui` wins, `--list-formats` gets only `quiet`, no video and no audio URL is an error, and a download gets the selector of `--format` (or mp4) for the video and its codec (or mp3) for the audio, resume and the output template |
| Playlist.ListMarkerContainsList | misc.py:9-10 | a URL that `is_playlist` accepts through `&list=` or `?list=` also holds the plain `list=` marker |
| Playlist.ItemFor | misc.py:250-256 | an item's URL is the watch URL of the entry's id, with the chosen format and type |
| Playlist.ItemsOf | misc.py:266-275 | at most one item per entry, each with the chosen format and type and a watch URL |
| Playlist.ItemsOfPrefix | misc.py:237-257 | the limited item list is a prefix of the unlimited one and has at most as many items as entries let through |
| Playlist.ItemsOfAllIds | misc.py:266-275 | when every entry has an id, item `j` is the item of entry `j` |
| Playlist.ItemsOfSkipsMissingId | misc.py:268 | an entry without an id adds no item |
| Playlist.Zip | misc.py:170 | every display of the dialog is a key of the value table |
| Playlist.FirstDisplayListed | misc.py:152-170 | the entry shown first for either type has a format string |
| Playlist.ByteRate | misc.py:331-341 | 350000 or 200000 bytes per second for a 720p or other video, 24000 or 16000 for 192kbps or other audio |
| Playlist.SplitOn | misc.py:391-392 | the first part of the split is the text before the first separator |
| Playlist.AnyPartContains | misc.py:399-411 | a codec name is in some part of the ` --` split exactly when it is in the whole format string |
| Playlist.ItemOptions | misc.py:374-419 | the template is under the output directory; a video item gets its format string unchanged and no post-processor; an audio item gets the selector before ` --` and `extract_audio` |
| Playlist.AudioCodecChoice | misc.py:399-416 | an audio item's post-processor is mp3 (quality 192 exactly when `192K` is named, else 128), else m4a, else vorbis at quality 0, else none |
| Playlist.Attempts | misc.py:430-466 | the item's own dictionary first; a second try with `bestaudio/best` exactly when an audio item failed with an unavailable format |
| Playlist.DownloadItemOutcome | misc.py:430-471 | the item succeeds exactly when its last try does, with that try's title and file name, and otherwise carries that try's error |
| Playlist.DownloadAll | misc.py:476-494 | one result per item |
| Playlist.DownloadAllEach | misc.py:480-490 | the result at position `i` is the outcome of item `i`, whatever happened to the others |
| Playlist.FetchItem | misc.py:365-471 | the method computes `DownloadItem`: one download, and one retry with the fallback selector for an unavailable audio format |
| Playlist.DownloadItems | misc.py:474-500 | the thread's results are `DownloadAll` of the items, and it reports `Preparing` for item `i` of `total` once per item, in order |
| Playlist.GetSize | misc.py:325 | `get('filesize', 0)`: 0 for a missing entry, none for an entry holding `None`, else the stored size |
| Playlist.FirstMatchSize | misc.py:322-326 | the size the first format whose id is the probe's own reports (none when it reports `None`, 0 when it has no size entry), and 0 when no format has that id |
| Playlist.PerVideoSizeCases | misc.py:322-341 | a truthy selected size is kept; the estimate is none exactly when nothing truthy was selected, the probe reports its size as `None` and has no duration, and 0 exactly when nothing truthy was selected, the size is missing or 0 and there is no duration |
| Playlist.PlaylistHandler.constructor | misc.py:22-33 | no playlist information, no entries, no chosen format, no limit, no cancellation and nothing logged |
| Playlist.PlaylistHandler.FetchPlaylistInfo | misc.py:51-73 | succeeds exactly when the extraction returned a result with entries, which become the entries; any result is kept as the playlist information; the number of entries found is logged at INFO, a result without entries or the raised error at ERROR |
| Playlist.PlaylistHandler.OnFormatTypeSelected | misc.py:148-182 | the dialog shows the displays of the chosen type with the first selected, the value table is that type's, and a new estimate starts uncancelled |
| Playlist.PlaylistHandler.OnCancelButton | misc.py:185-189 | the choice is cleared and the estimate cancelled; entries and limit are kept |
| Playlist.PlaylistHandler.OnDownloadButton | misc.py:192-234 | the shown display's format string (none when absent) and the type are recorded; the limit is the parsed number when limited and readable, else the whole playlist; the items handed on are those of the limited entries, and their number is logged at INFO when there are any |
| Playlist.PlaylistHandler.VideoCount | misc.py:245-248 | `min(limit, len(videos))`, none for a negative limit, all entries without a limit |
| Playlist.PlaylistHandler.GetDownloadItemsWithLimit | misc.py:237-257 | nothing without information or a format, else the items of the entries before the limit, entries without id counting against it |
| Playlist.PlaylistHandler.GetDownloadItems | misc.py:260-275 | nothing without information or a format, else the items of all entries |
| Playlist.PlaylistHandler.SelectedFormatSize | misc.py:322-326 | the loop finds `FirstMatchSize` of the probe's formats |
| Playlist.PlaylistHandler.CalculatePlaylistSize | misc.py:278-354 | an estimate is made exactly when there is information, a first entry with an id, no cancellation, a display and an extraction that did not return nothing; it is the per-entry size times the number of entries; the estimation fails, with the error logged at ERROR, when the extraction raises or when that size is `None` and the multiplication raises |
| Formats.ResolutionOf | yt-dlite.py:959-961 | a resolution is stored exactly when both width and height are known |
| Formats.Normalize | yt-dlite.py:956-965 | keeps exactly the formats with an id, each with its resolution set, and drops no format that has one |
| Formats.NormalizeIdempotent | yt-dlite.py:956-965 | normalising the stored formats again changes nothing |
| Formats.HasCodecCases | yt-dlite.py:1102-1112 | `get(codec, 'none') != 'none'`: a missing codec counts as none, a codec entry holding `None` counts as a codec, a stored codec counts unless it is `none` |
| Formats.Kept | yt-dlite.py:1098-1115 | the formats kept are exactly those of the input that pass the codec test, in order |
| Formats.FilterFormats | yt-dlite.py:1095-1115 | the loop keeps the formats with a video codec (video) or an audio codec (audio), and in video mode also collects those that carry audio |
| Formats.Insert | yt-dlite.py:1133 | inserting adds the one format and keeps every other |
| Formats.SortFormats | yt-dlite.py:1118-1134 | the sort is a permutation of its input |
| Formats.SortFormatsSorted | yt-dlite.py:1118-1134 | the sorted list is in descending order of height (video) or bit rate (audio), then size |
| Formats.InsertSorted | yt-dlite.py:1133 | inserting into a descending list keeps it descending |
| Formats.SortFormatsMembers | yt-dlite.py:1133-1134 | the sorted list has exactly the formats of the input |
| Formats.SortFormatsOfSorted | yt-dlite.py:1133-1134 | a list already in descending order is left unchanged |
| Formats.WithKey | yt-dlite.py:1118-1131 | the formats of a list with a given key are exactly those of the list that have it |
| Formats.InsertWithKey | yt-dlite.py:1133 | inserting puts the new format ahead of every format with its key and moves no other format of any key |
| Formats.SortFormatsStable | yt-dlite.py:1133-1134 | the sort is stable: for every key, the formats with that key appear in the sorted list in their input order |
| Formats.SizeOf | yt-dlite.py:1182-1187 | the size column is unknown exactly when neither the size nor the approximate size is known |
| Formats.RowFor | yt-dlite.py:1161-1207 | a row carries its format's id and size |
| Formats.Mp3Row | yt-dlite.py:1140-1159 | the virtual first row of the audio table is called `mp3` |
| Formats.RowsOf | yt-dlite.py:1161-1208 | at most one row per sorted format |
| Formats.RowsOfAll | yt-liteg.py:873-920 | without dropping, row `k` is the row of sorted format `k` |
| Formats.RowsOfSized | yt-dlite.py:1182-1187 | with dropping, no row has an unknown size |
| Formats.Sized | yt-dlite.py:1182-1187 | the formats that get a row are exactly those with a known size |
| Formats.RowsOfDropped | yt-dlite.py:1161-1208 | with dropping, the rows are the rows of the sized formats, in order |
| Formats.LastIndexOf | yt-dlite.py:1208 | `format_items[id]` names the last row with that id, and is missing when no row has it |
| Formats.AutoSelect | yt-dlite.py:1210-1239 | an empty table selects nothing; the audio table with the mp3 row selects it; video selects the row of the best format with audio, or the first row when it has none; otherwise the first row |
| Formats.AppendRows | yt-dlite.py:1161-1208 | the table loop appends `RowsOf` of the sorted formats to the head rows |
| Formats.HeadRows | yt-dlite.py:1140-1159 | the table starts with the mp3 row exactly for a non-empty audio list in the variant that has one |
| Formats.UpdateFormatList | yt-dlite.py:1084-1239 | the table is the head rows and the rows of the filtered, sorted formats, and the selection is `AutoSelect` of it |
| Formats.RowsOfIds | yt-dlite.py:1161-1208 | the table loop introduces no row id that no format has |
| Formats.Mp3RowSelected | yt-dlite.py:1140-1217 | with audio formats and none called `mp3`, the table starts with the mp3 row and selects it |
| Formats.Mp3HeadSelected | yt-dlite.py:1212-1217 | an `mp3` head row before rows of other ids is the one selected |
| Formats.LastIndexOfOnlyFirst | yt-dlite.py:1208 | an id that only the first row carries names the first row |
| Formats.FirstWithId | yt-dlite.py:1278-1283 | the first format with the selected id, or nothing when none has it |
| Formats.FindFormat | yt-liteg.py:985-990 | the loop that stops at the first match finds `FirstWithId` |
| Formats.MergeSelector | yt-liteg.py:1016-1024 | the merging selector starts with the format id followed by `+bestaudio` |
| Formats.MergeOutputFormat | yt-dlite.py:1594 | the merge container is webm exactly when the selector names webm in any case, else mp4 |
| Formats.WebmMergesToWebm | yt-dlite.py:1341-1343 | a webm format merged with audio is written as webm |
| Formats.OtherMergesToMp4 | yt-dlite.py:1338-1346 | any other container merges into mp4 unless the format id itself names webm |
| Hooks.PercentOf | yt-dlite.py:1516-1534 | a percent exists exactly when bytes are downloaded and a total or estimate is known; it is taken against the total when there is one, else the estimate, and is the floor of downloaded times 100 over it |
| Hooks.PercentBounded | yt-dlite.py:1516-1534 | while the download is within its size the percent is at most 100, and it is 100 exactly when all bytes are in |
| Hooks.FlooredPercent | yt-dlite.py:1517 | a floored percent of a part is at most 100 and is 100 exactly for the whole |
| Hooks.DecadesGrow | yt-dlite.py:1529-1531 | the `k`-th logged percent is in ten-percent step `k` or later |
| Hooks.AppendDecade | yt-dlite.py:1529-1531 | logging a percent of a later ten-percent step keeps the log climbing |
| Hooks.LogLinesBounded | yt-dlite.py:1528-1531 | a download logs at most eleven progress lines |
| Hooks.DownloadHooks.constructor | yt-dlite.py:1497-1503 | a thread starts with no path, nothing reported, the bar at 0 and an empty progress log |
| Hooks.DownloadHooks.ProgressHook | yt-dlite.py:1505-1568 | after cancellation nothing changes; a downloading report moves the bar to the percent, writes the status only when the percent changed, logs an exact percent once per ten-percent step, and shows the speed when no percent can be taken; a finished report fills the bar and records the file with the merging, processing or converting status; an error report shows the error; the log keeps climbing by ten-percent steps; taken together, the new fields are `ProgressStep` of the old ones |
| Hooks.DownloadHooks.PostProcessHook | yt-dlite.py:1570-1581 | only the first finished MoveFiles event of a combined download with a non-empty destination records that destination, once; no other field changes and the progress-log invariant is kept |
| Hooks.FirstNonEmpty | yt-dlite.py:1576-1581 | the index of the first non-empty destination, and none when every destination is empty |
| Dlite.Toggle | yt-dlite.py:741-746 | a click makes the column the sorted one; the sorted column flips from ascending to descending and back, any other column starts ascending |
| Dlite.ToggleAlternates | yt-dlite.py:741-752 | repeated clicks on one header alternate the direction, so a third click equals the first |
| Dlite.ColumnTitle | yt-dlite.py:712-736 | the title carries an up arrow when its tree is sorted ascending on the column, a down arrow when sorted otherwise on it, and no arrow when another column is sorted |
| Dlite.ArrowOnlyOnSorted | yt-dlite.py:748-749 | after a click on a format column every other format column shows its plain title |
| Dlite.Admit | yt-dlite.py:2058-2066 | an unknown level is written as INFO; at level ERROR only errors pass, at INFO everything but DEBUG, at DEBUG everything |
| Dlite.RemoveFirst | yt-dlite.py:2033-2034 | removing drops one occurrence of a listed path, keeps every other path and adds none |
| Dlite.RemoveFirstAll | yt-dlite.py:2048-2049 | from a list without duplicates the removed path is gone altogether and the list stays duplicate-free |
| Dlite.App.constructor | yt-dlite.py:88-103 | no sort column on either tree, log level INFO with the start message logged, no downloaded files, no cancellation |
| Dlite.App.Log | yt-dlite.py:2058-2073 | a message is appended under its level exactly when `Admit` lets it through; nothing else changes |
| Dlite.InfoLines | yt-dlite.py:2058-2066 | messages sent at INFO are all written, in order, under any log level but ERROR, and none under ERROR |
| Dlite.App.LogInfo | yt-dlite.py:2058-2073 | logging messages one after another at INFO appends exactly their `InfoLines`; nothing else changes |
| Dlite.App.SetLogLevel | yt-dlite.py:2075-2078 | a known level is set and the change logged at INFO (dropped under ERROR); any other value changes nothing |
| Dlite.App.SortTreeview | yt-dlite.py:738-752 | only the clicked tree's sort state changes, by `Toggle`, and the rows are reversed exactly when it is descending |
| Dlite.App.AddDownloaded | yt-dlite.py:1662-1665 | a path is appended only when it is not listed yet, so the list stays duplicate-free and then holds it |
| Dlite.App.RemoveDownloaded | yt-dlite.py:2044-2050 | deleting drops the path from the list |
| Dlite.App.CancelDownload | yt-dlite.py:1491-1495 | the flag is raised and the request logged only while a download thread runs (`cancel_download` of yt-liteg.py, lines 1049-1054, is the same method) |
| Dlite.App.StartDownload | yt-dlite.py:1259-1361 | no selection, no information, an empty or non-directory save path each stop with their error; otherwise the flag is cleared, `mp3` starts the MP3 thread, a video-only format in video mode asks and aborts on Cancel or merges by container on Yes, and anything else downloads the id as it is; the error stops log nothing, and each started branch logs its INFO lines (the MP3 start, the Cancel, the Yes or No choice, then the format specification) |
| Dlite.App.BeginFormatThread | yt-dlite.py:1589-1608 | the thread's dictionary is `ThreadOptions` of the format and path; the log gains, at INFO, the format specification and then the merge format (webm exactly when the lowered format names webm), then the printed dictionary at DEBUG, each only when the level lets it through; nothing else changes |
| Dlite.App.BeginMp3Thread | yt-dlite.py:1435-1451 | the MP3 thread's dictionary is `Mp3Options` of the path, and the log gains the `Starting MP3 download with options:` line at INFO when the level lets it through; nothing else changes |
| Dlite.App.FinishMp3 | yt-dlite.py:1453-1490 | a raised cancel flag ends cancelled and logs the cancel at INFO, whether the download raised or not; otherwise a raised error ends failed and logs `MP3 download failed:` with its message at ERROR; a normal end is a completion that records a non-empty path once and logs nothing; the list stays free of repeats |
| Dlite.App.FinishDownload | yt-dlite.py:1614-1687 | a raised flag ends cancelled and logs the cancel at INFO; otherwise a raised error ends failed with its message, logged at ERROR; both leave the list alone; a completion records a non-empty path once and logs nothing (the end of `_download_thread` of yt-liteg.py, lines 1208-1243, is the same) |
| Dlite.ThreadOptions | yt-dlite.py:1589-1606 | the download thread's dictionary: the selector, the title-and-id template under the save path, merging into webm exactly when the selector names webm, overwriting on |
| Dlite.MergedContainer | yt-dlite.py:1338-1346 | a merged webm download merges into webm, and any other container into mp4 unless the format id names webm |
| Dlite.Mp3Options | yt-dlite.py:1435-1449 | the MP3 thread's dictionary: `bestaudio/best`, the title-and-id template, and conversion to mp3 at quality 192 |
| Liteg.DurationLine | yt-liteg.py:721-732 | `Unknown` for a missing duration; otherwise a clock text that reads back as the duration |
| Liteg.LastIndexOfChar | yt-liteg.py:1155 | the last position of the character, or none when it does not occur |
| Liteg.SplitExt | yt-liteg.py:1155 | `splitext` cuts the path into a name and an extension that start with a dot and hold no other dot or slash, and the two join back to the path |
| Liteg.CandidateInjective | yt-liteg.py:1158-1162 | different counters give different candidate names |
| Liteg.GetUniqueFilename | yt-liteg.py:1150-1162 | the answer is a free name: the path itself when free, otherwise the first free `name_n.ext` counting from 1 |
| Liteg.Disk.constructor | yt-liteg.py:1150-1162 | the set of existing files |
| Liteg.FilenameProgressHook | yt-liteg.py:1170-1188 | the shared hook runs first, so the hook fields become `ProgressStep` of the old ones (none change once cancelled); a finished file that exists is moved to a free name, which the reported progress then carries, while the recorded download path still names the moved-away file |
| Liteg.FilenameProgressHookFixed | yt-liteg.py:1170-1188 | the same move and the same `ProgressStep` update, except that a recorded path naming the moved file follows it to the free name, so that the path names a file that exists |
| Liteg.FirstCandidate | yt-liteg.py:1156-1161 | the free name of an existing file is its `_1` candidate when that one is free |
| Liteg.RenamedExample | yt-liteg.py:1150-1162 | `video.mp4` splits into `video` and `.mp4`, and its first candidate is `video_1.mp4` |
| Liteg.StartDownload | yt-liteg.py:966-1045 | the same error checks as the full front end; a video-only format in video mode is always merged by container, anything else downloads the id; the flag is cleared only when a thread starts; the error stops log nothing, a started download logs the auto-combine line when merging and then the format specification, at INFO |
| Liteg.BeginThread | yt-liteg.py:1165-1200 | the thread's dictionary is `ThreadOptions` of the format and path; the log gains the format specification at INFO and then the printed dictionary at DEBUG, each only when the level lets it through; nothing else changes |
| Liteg.ThreadOptions | yt-liteg.py:1190-1198 | the full front end's dictionary without overwriting and with the merge container fixed to mp4 |
| Liteg.MergeContainersAgree | yt-liteg.py:1197 | the two front ends choose the same merge container exactly when the selector does not name webm |
| Clock.ClockText | yt-dlite.py:1011-1016 | below an hour the text is the minutes and the two-digit seconds |
| Clock.DurationText | yt-dlite.py:1009-1019 | a zero or missing duration shows the placeholder, any other the clock text |
| Clock.ParseClockText | yt-dlite.py:1011-1016 | the clock text reads back as the number of seconds it shows |
| Clock.ClockTextInjective | yt-liteg.py:724-729 | different durations show different clock texts |
| Clock.ParseShort | yt-dlite.py:1016 | `m:ss` reads back as `m*60 + s` |
| Clock.ParseLong | yt-dlite.py:1014 | `h:mm:ss` reads back as `h*3600 + m*60 + s` |
| Clock.SexagesimalOfPad2 | yt-dlite.py:1014-1016 | a padded field below 60 reads back as itself |
| Clock.SplitsAgree | begginer.py:451-453 | the beginner front end's hours and minutes are those of the divmod chain |
| Clock.TwoDigitsAt | expert.py:933 | two ASCII digits read as a number below 100 |
| Clock.StampAt | expert.py:933-936 | a stamp is read only where two colons separate the digit pairs |
| Clock.StampAtOfStamp | expert.py:935-936 | a stamp `HH:MM:SS` reads as `h*3600 + m*60 + s` |
| Clock.Digits2 | expert.py:933 | two digits that read back as the number |
| Clock.SearchStampFinds | expert.py:933 | a line that holds a marked stamp yields a stamp |
| Clock.SearchStampOfLine | expert.py:933-941 | a marked stamp at the start of a line is the one found, read as its seconds |
| Beginner.RouteQuery | begginer.py:142-175 | a blank query or a pending stop does nothing; a query starting with `http` is a URL, a playlist exactly when it holds `list=`; anything else is a search |
| Beginner.PlaylistMarkersAgree | begginer.py:163 | every URL the playlist helper recognises by `&list=` or `?list=` is routed as a playlist here too |
| Beginner.PopupUrl | begginer.py:532-546 | as written, the popup opens exactly for a result dictionary, for its `url` entry or the empty string |
| Beginner.SingleVideoNoPopup | begginer.py:172-174 | a single-video URL from the search box reaches the button as a string and opens no popup |
| Beginner.PopupUrlFixed | begginer.py:538-546 | as intended, a dictionary opens the popup for its `url` entry and a string for itself |
| Beginner.SingleVideoPopupFixed | begginer.py:153-174 | with the intended fix a single-video URL opens the popup for the stripped query |
| Beginner.TitleLine | begginer.py:425 | `No title` when missing; a title of at most 60 characters as it is; a longer one cut to its first 60 characters followed by `...` |
| Beginner.DurationLine | begginer.py:449-460 | the same clock text as the other front ends, with `N/A` for a missing duration |
| Beginner.SubtitleLang | begginer.py:873-881 | the code of the first entry with the selected name, auto-generated English turned into its flag, and `en` when no entry has the name |
| Beginner.FormatString | begginer.py:856-866 | a video choice with the subtitle flags when the box is checked, else the audio choice |
| Beginner.AudioCodec | begginer.py:1018-1058 | mp3 whenever `mp3` is named, at 320, 192 or 128 by the quality named; otherwise m4a, vorbis, opus, flac or wav by first match; no post-processor exactly when none is named |
| Beginner.BaseOptions | begginer.py:1004-1009 | the base dictionary has the template, `verbose` and `quiet` |
| Beginner.Assemble | begginer.py:1014-1063 | the base entries are kept, `format` is set, and the post-processor comes with the `extractaudio` flag or neither is present |
| Beginner.DownloadOptions | begginer.py:1014-1063 | as written: any format string naming `audio` takes the audio branch with the stripped text before the first ` --` as selector and the codec of `AudioCodec`; any other string drops a leading `-f ` and gets no post-processor |
| Beginner.DropFlag | begginer.py:1061-1062 | a leading `-f ` is removed, and nothing else changes |
| Beginner.Mp4BestWords | begginer.py:580 | the "MP4 - Best Quality" choice names `audio` and `m4a` but not `mp3` |
| Beginner.VideoChoiceExtractsAudio | begginer.py:1015-1032 | as written, the "MP4 - Best Quality" video choice takes the audio branch and is converted to m4a |
| Beginner.Mp3HighSplits | begginer.py:598 | the "MP3 - 192kbps" choice splits at its first ` --` into its `-f` selector |
| Beginner.Mp3HighFlagged | begginer.py:598 | the "MP3 - 192kbps" choice names `audio` and `--extract-audio` |
| Beginner.AudioSelectorKeepsFlag | begginer.py:1015-1017 | as written, the audio selector passed on for "MP3 - 192kbps" still starts with `-f ` |
| Beginner.BeforeOfPrefix | begginer.py:1017 | the split at a separator is the head when the separator occurs neither in it nor across its end |
| Beginner.DownloadOptionsFixed | begginer.py:1014-1063 | as intended: the audio branch only for the audio table's strings, and the `-f ` flag dropped in both branches |
| Beginner.VideoChoiceFixed | begginer.py:580 | with the intended test the "MP4 - Best Quality" choice keeps its selector and is not converted |
| Beginner.UnflaggedChoiceFixed | begginer.py:1059-1063 | with the intended test a choice without `-` is passed on unchanged and not converted |
| Beginner.AudioSelectorFixed | begginer.py:1015-1017 | with the intended fix the "MP3 - 192kbps" selector is `ba[ext=m4a]/ba/best` |
| Beginner.BaseName | begginer.py:935 | the name is a tail of the path with no `/` or `\` in it |
| Beginner.ShortName | begginer.py:936-937 | a name longer than 30 characters shows its first 27 and `...`, any other as it is; never more than 30 |
| Beginner.PhaseStep | begginer.py:1132-1141 | only the preparing phase changes, and it becomes waiting exactly from 30 seconds on |
| Beginner.PhaseRun | begginer.py:1121-1161 | over any run of ticks the preparing phase lasts exactly while every tick came before 30 seconds and is left only for waiting; other phases never change |
| Beginner.ProgressView | begginer.py:929-978 | downloading with a known total shows the floored percent of the total (else the estimate), at most 100 within the size, and the short name; with no total, the byte count; finished resets the bar and shows processing; other states change nothing |
| Beginner.Session.constructor | begginer.py:20-29 | no cancellation, no timer, no phase, an empty bar |
| Beginner.Session.StartDownload | begginer.py:903-909 | both cancellation flags are cleared and the bar reset before the thread starts |
| Beginner.Session.BeginThread | begginer.py:993-1001 | the timer is on, in the preparing phase, and the immediate first tick has already replaced "Preparing for download..." by the preparing message at 0 seconds with its elapsed suffix |
| Beginner.Session.InfoExtracted | begginer.py:1071-1077 | once the information is extracted the phase is downloading and the status shows `Starting download:` with the title; from then on no run of timer ticks leaves the downloading phase, so no preparing, processing or taking-longer message is written again; the flags, the timer and the bar are untouched |
| Beginner.Session.CancelDownload | begginer.py:980-985 | both flags are raised and the status shows cancelling |
| Beginner.Session.UpdateDownloadProgress | begginer.py:923-978 | a pending cancellation raises and changes nothing; otherwise the bar and the status are those of `ProgressView` |
| Beginner.Session.ScheduleStatusUpdate | begginer.py:1121-1161 | without the timer nothing happens; the phase moves by `PhaseStep`; the preparing phase shows its message by elapsed time with the elapsed suffix and the waiting phase the final message, both written to the status line; in the downloading phase a text holding `elapsed:` gets the new suffix after its part before ` (elapsed:` |
| Beginner.Session.OnDownloadComplete | begginer.py:1163-1176 | the bar is 100 with the complete status unless the download was cancelled, when it is 0; both flags are cleared |
| Beginner.Session.EndThread | begginer.py:1079-1117 | as written: a cancellation shows the cancelled status with an empty bar; a finished download completes; a failure that is not a cancellation ends reported as complete at 100 |
| Beginner.Session.EndThreadFixed | begginer.py:1099-1117 | as intended: a failure keeps its error message visible with an empty bar, and is not reported as complete |
| Expert.Arguments | expert.py:417-436 | the token list starts with `yt-dlp` and every later token is a non-empty blank-free word of the stripped entry |
| Expert.ProgramNameOptional | expert.py:421-423 | typing `yt-dlp ` in front of a command gives the same token list as leaving it out |
| Expert.FullCommandHasOutput | expert.py:438-446 | the command that is started names the program, always carries an output flag with a value, and begins with the typed tokens unchanged |
| Expert.ScanForOutput | expert.py:438-442 | the scan answers true exactly when some `-o`/`--output` token has a token after it |
| Expert.BuildCommand | expert.py:417-446 | the assembled command is the typed token list, with `-o <save folder>/%(title)s.%(ext)s` appended exactly when no output flag was typed |
| Expert.FirstUrl | expert.py:467-471 | the index found holds an `http://` or `https://` token and no earlier token is one; none is found only when no token is a URL |
| Expert.LastOutputFlag | expert.py:540-543 | the flag found is an output flag after the program name with a token after it, and no later such flag exists; none is found only when there is none |
| Expert.AddedTemplateIsUsed | expert.py:444-446 | the started command always yields an `outtmpl`, and it is the added save-folder template when none was typed |
| Expert.Unprobed | expert.py:278-281 | a target is kept exactly when it is listed and its name does not occur in the probed input format |
| Expert.UnprobedOrder | expert.py:278-281 | the filter works element by element: filtering a concatenation concatenates the filtered parts, so the kept targets keep their order |
| Expert.Targets | expert.py:277-289 | the offered targets are never empty, audio-only input gets only audio targets, the input's own formats are left out with the others in the offered order, and the mkv/mp4 or m4a/mp3 default is used when nothing is left |
| Expert.TargetsVideoFirst | expert.py:278-279 | for a video input the remaining video formats come first, in their order, then the remaining audio formats |
| Expert.Choice | expert.py:294-299 | the selection stays when it is still offered and becomes the first target otherwise |
| Expert.PresetOf | expert.py:738-822 | `High` and `Medium` select their settings; every other preset name gets the Low settings |
| Expert.DirName | expert.py:827 | the folder is the prefix of the path up to its last slash, with that prefix's ending slashes dropped unless it is made of slashes only, and empty for a path without a slash |
| Expert.StripSlashes | expert.py:827 | removing trailing slashes leaves a prefix that does not end in `/`, followed in the string only by slashes |
| Expert.ConvertCommand | expert.py:724-856 | a gif runs the palette pass first and then the palette command; any other format runs `ffmpeg -i <input> -y`, the encoder arguments and the output path |
| Expert.NoVideoFlagLeads | expert.py:727-735 | the encoder arguments start with `-vn` exactly when the output is an audio format |
| Expert.VideoFlagOnce | expert.py:729-735 | `-vn` occurs exactly once in the arguments of an audio output and never in those of a video output |
| Expert.LowIsDefault | expert.py:744-822 | any preset other than High and Medium gives the same arguments as Low |
| Expert.AudioKeptOnlyWithAudio | expert.py:788-795 | a video output carries `-c:a` exactly when the input has an audio stream |
| Expert.X264Quality | expert.py:798-804 | mp4, mkv and mov outputs use libx264 with crf 18, 23 or 28 for High, Medium and the rest |
| Expert.OutputName | expert.py:683 | the output name ends in `.` and the chosen target format |
| Expert.ConversionOutput | expert.py:683-684 | the output path ends in the output name and so in the target extension |
| Expert.ReportOf | expert.py:938-943 | a line gives a report exactly when it holds a `time=` stamp and a positive total is known, and the report is taken against that total |
| Expert.Step | expert.py:932-943 | one more line adds at most one report, with a positive total, and changes the total only through a `Duration:` stamp |
| Expert.Scan | expert.py:929-943 | the lines give at most one report each, every report has a positive total, and a known total stays known |
| Expert.TotalWithoutDuration | expert.py:933-936 | without a `Duration:` line the total stays what it was |
| Expert.LastShownStep | expert.py:942-943 | a new report decides the percentage the bar shows; a line without one leaves it |
| Expert.ReadProgress | expert.py:929-943 | the loop over ffmpeg's output ends with the total and reports of the line-by-line scan, the bar showing the last report's floored percentage |
| Expert.DurationThenTime | expert.py:933-943 | a `Duration:` line and then a `time=` line give exactly one report of the position against the duration |
| Expert.Submission | expert.py:407-419 | the placeholder is ignored, a running download refuses a new one, a blank entry is an error, and only otherwise is the full command started |
| Expert.ConversionRequest | expert.py:666-684 | a running conversion refuses a new one, a missing input is an error, and otherwise the conversion starts with the output named after the input in the output folder |
| Expert.EndStatus | expert.py:555-570 | a normal end shows completion, a normal end after a cancel request leaves the status, and a raised error counts as a cancel exactly when its message contains the cancel message |
| Expert.Gui.constructor | expert.py:89-211 | no download, conversion, cancel request or process at start; the bar at 0, the target box offering the video then the audio formats, mp4 selected, no total duration and no output file |
| Expert.Gui.ExecuteCommand | expert.py:407-461 | the decision is the submission rule; only a started download resets the bar and the cancel flag and marks a download in progress |
| Expert.Gui.FindUrl | expert.py:466-471 | the URL found is the first `http(s)://` token, or none when there is none |
| Expert.Gui.FindOutput | expert.py:540-543 | the template taken is the value after the last output flag that has one |
| Expert.Gui.RunCommand | expert.py:463-591 | without a URL the download ends at once; otherwise the URL and template are passed on, the status follows the cancel flag and the way the download ended, and the flags are cleared |
| Expert.Gui.ProgressHook | expert.py:502-522 | a pending cancel raises and changes nothing; a download reading whose `total_bytes` holds `None`, or that falls back to a `total_bytes_estimate` holding `None`, raises the `NoneType` comparison error and changes nothing; otherwise it sets the floored percent against a positive total, else against a positive estimate, else leaves the bar; a finished download sets 100 and the finished status |
| Expert.NoneTotalShowsError | expert.py:555-570 | the `NoneType` comparison error does not contain the cancel message, so the run ends with `Error:` and that message |
| Expert.Gui.LogMessage | expert.py:484-499 | debug and info messages raise exactly when a cancel was requested; warnings and errors never do |
| Expert.Gui.CancelOperation | expert.py:594-646 | the cancel flag is set, the bar reset and the status shows the cancel; the download flag is cleared only for a thread that did not stop |
| Expert.Gui.UpdateFormatOptions | expert.py:243-299 | with an input file the offered targets follow its streams and probed format and the selection stays one of them; without one nothing changes |
| Expert.Gui.StartConversion | expert.py:666-708 | the decision is the conversion rule; only a started conversion resets the bar, shows converting and marks a conversion in progress |
| Expert.Gui.ConvertFile | expert.py:710-916 | the output path is recorded, the probed streams decide video and audio, the command is `ConvertCommand`'s with the output path last, and a process is then running; nothing else changes |
| Expert.Gui.MonitorProcess | expert.py:926-969 | the total and reports follow the line scan; success shows the recorded output file with the bar at 100, failure keeps the last shown percentage; the process and conversion flags are cleared |
| Expert.Gui.CancelConversion | expert.py:971-978 | only a running conversion with a process is stopped and shown as cancelled; otherwise nothing changes |
| Text.FindFrom | misc.py:10 | a match found from an index lies at or after it and really holds the word |
| Text.FindFirst | misc.py:10 | no occurrence comes before the one found, and none exists when none is found |
| Text.ContainsInConcat | misc.py:10 | a word occurring in a concatenation occurs in one part or straddles the joint |
| Text.Before | begginer.py:1017 | the text before the first separator is a prefix free of the separator, and is the whole string exactly when the separator is absent |
| Text.After | begginer.py:1151 | the head, the separator and the tail put back together give the string |
| Text.BeforeOfJoin | misc.py:305 | a head free of a one-character separator splits back into the head and the rest |
| Text.StripEmptyIffBlank | expert.py:417-419 | a string strips to nothing exactly when every character is a blank |
| Text.Lower | expert.py:261 | lowering keeps the length and lowers each ASCII letter in place |
| Text.LowerOfLower | expert.py:261 | a string without upper-case letters is its own lower-case form |
| Text.NatToString | yt-liteg.py:1159 | a printed number is a non-empty run of digits |
| Text.ParseNat | misc.py:200 | a string reads as a number exactly when it is a non-empty run of digits |
| Text.ParseNatToString | misc.py:200 | printing a number and reading it back gives the number |
| Text.NatToStringInjective | yt-liteg.py:1159 | different numbers print differently |
| Text.ParseIntOfNat | misc.py:200 | every printed number reads back through `int()` |
| Text.Pad2 | begginer.py:456 | two-digit padding gives at least two digits |
| Text.Pad2Value | begginer.py:456-458 | the padded digits still read as the number |
| Text.TokenLength | expert.py:435 | the leading run of non-blanks stops at the first blank |
| Text.SplitWs | expert.py:435 | splitting on whitespace gives non-empty blank-free words |
| Text.SplitWsOfJoined | expert.py:431-435 | words joined by single spaces split back into the same words |
| Text.AfterLast | begginer.py:935 | the text after the last separator is a suffix free of the separator, and is the whole string when there is none |
| Text.PercentIsFloor | yt-dlite.py:1517 | the percentage is the floor of a hundred times the ratio, and at most 100 while the part is within the whole |
| Text.PathJoin | expert.py:445 | joining keeps the second part at the end, and the first part in front unless the second is absolute |

## Left out

- Tkinter widgets, layout, styles, message boxes, clipboard, context menus and `after` scheduling: these are presentation. Only the bar value, the status text and the flags the code reads back are modelled.
- Threads, queues, the stdout redirection, `process_lock`, `search_event` and `join` timeouts are left out. The flags are plain fields, updated one method call at a time, and "thread still alive" is a parameter.
- `yt_dlp` (`extract_info`, `download`, `prepare_filename`) is a foreign library. Its answers are parameters: the information dictionary, whether an extraction raised and with what message, and how a download ended.
- `ffprobe`, `ffmpeg`, `osascript`, `xterm`, `os.kill` and `terminate` are left out. The probed streams and format, the lines `ffmpeg` writes and its return code are parameters. The gif palette pass is returned as a command, not run.
- The file system is a set of existing paths. `os.walk`, `stat`, modification-time ordering, `makedirs`, `os.remove` failures and `os.rename` failures are not modelled.
- Thumbnails, `urllib`, `requests`, PIL and `webbrowser` are network and image I/O.
- `time.time` and the clock are parameters (elapsed seconds per tick). The fetch timeout and the five-second `force_complete` heuristic of `yt-dlite.py` are not modelled.
- Dlite.App.FinishDownload: the timeout path that looks the finished file up through `prepare_filename` and a directory listing is not modelled; a completion carries the file name as a parameter.
- Floating point: `int(part / whole * 100)` is modelled as the integer floor of `100 * part / whole`. The two can differ when the float product rounds just below an integer.
- `format_file_size`, `format_size`, `parse_filesize`, view counts, `.1f` percentages and speed texts are display formatting. A row's size is kept as the integer the code formats, and the sort of the downloads list by parsed size is not modelled.
- Dlite.App.SortTreeview: only the sort state and the reverse flag are modelled, not the reordered rows of the Tk tree.
- Playlist.PlaylistHandler.OnDownloadButton: starting the download thread is taken to succeed, so the `Error starting download` path of `start_download` is not modelled.
- Expert.Arguments: `shlex.split` is modelled by the whitespace split, which is the code's own fallback. Quoting is not modelled.
- Regular-expression classes: `\w` is taken as ASCII letters, digits and `_`, and `\d` as ASCII digits. `str.lower` lowers ASCII letters only.
- Hooks.DownloadHooks.ProgressHook: a missing `error` entry and an empty one both show `Unknown error`.
- Hooks.DownloadHooks.ProgressHook: the `Download started`, `Component download finished`, `Download finished` and `Download error` lines it writes to the application log are not modelled; only its own progress log is.
- Hooks.DownloadHooks.PostProcessHook: the `Combined download finished` line it writes to the application log is not modelled.
- Liteg.FilenameProgressHook: the `Renamed output file to avoid conflict` and `Error renaming file` log lines are not modelled, and neither is a failing rename.
- Liteg.FilenameProgressHookFixed: as `Liteg.FilenameProgressHook`, the rename log lines are not modelled.
- Dlite.App.BeginFormatThread: the dictionary as Python prints it is a parameter, not derived from the options.
- Dlite.App.BeginMp3Thread: as `Dlite.App.BeginFormatThread`, the printed dictionary is a parameter.
- Dlite.App.FinishMp3: the MP3 progress hook's own `MP3 download finished` and `MP3 download error` log lines, the elapsed time in the status text and the selection of the new file are not modelled.
- Liteg.BeginThread: as `Dlite.App.BeginFormatThread`, the printed dictionary is a parameter.
- Beginner.Session.ScheduleStatusUpdate: in the downloading phase only a timed text is looked at for `elapsed:`; the download, size-unknown, error and `Starting download:` texts are taken not to contain it, which fails only when a title, a file name or an error message does.
- Beginner.Session.InfoExtracted: the title is a parameter; a `title` entry holding `None` (shown as `None`) is not told apart from a string.
- The MP3 file name after conversion, the downloads tab refresh, open-folder actions and thumbnail caching are not modelled.
- Formats.Key: a bit rate is kept as its integer part, so two audio formats whose `abr` differ only after the point compare as equal and are ordered by size and then by input order.
- Formats.SortFormats: sorts on that integer key; `Formats.SortFormatsSorted` and `Formats.SortFormatsStable` are stated for it.
- Formats.Mp3Row: shows the integer part of the best format's bit rate, where Python prints the float (`128.0 kbps`).
- Formats.RowFor: the frame rate is its integer part, so a fractional `fps` is shown without its fraction.
- Beginner.ProgressView: the bar holds the floor of the float percentage the code computes; the status text shows that integer.
- Beginner.Session.UpdateDownloadProgress: as `Beginner.ProgressView`, the bar is the floored percentage.
- Expert.Gui.ProgressHook: `downloaded_bytes` is taken to hold a number; the `Downloading:` status is one value, without the percent, speed and ETA texts it shows, and `withTexts` says whether those three entries are present.
- Expert.Gui.ProgressHook: the bar is the floored percentage; the registered hook sets the float `downloaded_bytes / total_bytes * 100` (or against `total_bytes_estimate`).
- Expert.ReadProgress: the percentage of a conversion report is the floor of the float `current_time / total_duration * 100`.
- Expert.Gui.MonitorProcess: the bar is that floored percentage.
- Expert.Gui.CancelConversion: `cancel_conversion` is not reachable from the window (the Cancel button runs `cancel_operation`, expert.py:356); it is modelled as written.
- Expert.Gui.ConvertFile: the exception path that shows `Error: …` and cleans up is not modelled; `ffprobe` answers with its list of stream types.
- Text.IsSpace: Python's `str.strip` and `str.split` treat every Unicode whitespace character as blank; the model takes the six ASCII blanks.
- Text.ParseInt: Python's `int()` also accepts `_` between digits; the model accepts a stripped, optionally signed run of ASCII digits only.
- Liteg.DurationLine: a float duration strictly between 0 and 1 second is `Unknown` here, where Python shows `0:00`.
- Playlist: `format_size` divides a float in a loop and is display text, so it is left out. Only the integer byte estimate is modelled.
- Lite: `main` is modelled as `Lite.Dispatch`, over the parsed flags; `argparse` itself is not modelled.

## Findings

| source | as written | input that shows it | evidently intended | confidence | as-written member | corrected member |
|---|---|---|---|---|---|---|
| begginer.py:1015 | any format string that contains `audio` takes the audio branch | the "MP4 - Best Quality" choice, whose selector names `bestaudio`, is downloaded as audio and converted to m4a | only the audio table's choices take the audio branch | not executed | Beginner.VideoChoiceExtractsAudio | Beginner.VideoChoiceFixed |
| begginer.py:1017 | the audio selector is the text before the first ` --`, which still starts with `-f ` | "MP3 - 192kbps" gives the selector `-f ba[ext=m4a]/ba/best` | the `-f ` flag is dropped, as in the video branch | not executed | Beginner.AudioSelectorKeepsFlag | Beginner.AudioSelectorFixed |
| yt-liteg.py:1172-1188 | on `finished` the hook renames the existing file to a free name but leaves the recorded path naming the old one | a finished `video.mp4` that exists is moved to `video_1.mp4` while the recorded path stays `video.mp4` | the recorded path follows the rename | not executed | Liteg.FilenameProgressHook | Liteg.FilenameProgressHookFixed |
| begginer.py:1113-1117 | a failed download shows its error, and then the completion handler shows it as complete at 100 | a download that raises any error other than the cancel message | the error stays visible with an empty bar | not executed | Beginner.Session.EndThread | Beginner.Session.EndThreadFixed |
| begginer.py:540-546 | the popup is opened only inside the dictionary branch | a single-video URL typed in the search box reaches the button as a string and opens no popup | a string opens the popup for itself | not executed | Beginner.SingleVideoNoPopup | Beginner.SingleVideoPopupFixed |
