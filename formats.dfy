/** The format list of the two graphical front ends: normalisation of the
    fetched formats, the video/audio filter, the quality ordering, the rows of
    the format table with their auto-selection, and the selector that merges
    a video-only format with the best audio. */
module Formats {
  import opened Wrappers
  import opened Text

  /** One entry of `info['formats']`. Numbers are `0` and strings `""` when
      missing or `None`; the codecs keep a missing key and a key holding `None`
      apart, and the extension and the audio bit rate are `None` only when the
      key is missing. */
  datatype Format = Format(
    formatId: string, ext: Option<string>, vcodec: Field<string>, acodec: Field<string>,
    width: nat, height: nat, abr: Option<nat>, fps: nat, filesize: nat, filesizeApprox: nat,
    formatNote: string, resolution: Option<string>)

  /** The `resolution` the fetch thread stores: `"WxH"` when both are known. */
  function ResolutionOf(f: Format): (r: Option<string>)
    ensures r.Some? <==> f.width != 0 && f.height != 0
  {
    if f.width != 0 && f.height != 0 then Some(NatToString(f.width) + "x" + NatToString(f.height)) else None
  }

  /** The fetch thread's comprehension: formats with an id, with `resolution` set. */
  function Normalize(raw: seq<Format>): (r: seq<Format>)
    ensures |r| <= |raw|
    ensures forall k :: 0 <= k < |r| ==> r[k].formatId != "" && r[k].resolution == ResolutionOf(r[k])
    ensures forall f :: f in raw && f.formatId != "" ==> f.(resolution := ResolutionOf(f)) in r
    decreases |raw|
  {
    if raw == [] then []
    else
      var init := Normalize(raw[..|raw| - 1]);
      var f := raw[|raw| - 1];
      assert forall g :: g in raw ==> g in raw[..|raw| - 1] || g == f;
      if f.formatId != "" then init + [f.(resolution := ResolutionOf(f))] else init
  }

  /** Normalising normalised formats changes nothing. */
  lemma {:induction false} NormalizeIdempotent(raw: seq<Format>)
    ensures Normalize(Normalize(raw)) == Normalize(raw)
    decreases |raw|
  {
    if raw != [] {
      var init := Normalize(raw[..|raw| - 1]);
      NormalizeIdempotent(raw[..|raw| - 1]);
      var f := raw[|raw| - 1];
      if f.formatId != "" {
        var g := f.(resolution := ResolutionOf(f));
        assert ResolutionOf(g) == ResolutionOf(f);
        assert (init + [g])[..|init|] == init;
      }
    }
  }

  /** `fmt.get(key, 'none') != 'none'`: a missing key counts as `'none'`,
      a key holding `None` does not. */
  predicate HasCodec(c: Field<string>)
  {
    c.Get("none") != Some("none")
  }

  /** A codec entry holding `None` passes the test, a missing one does not. */
  lemma HasCodecCases(c: Field<string>)
    ensures c.Missing? ==> !HasCodec(c)
    ensures c.Null? ==> HasCodec(c)
    ensures c.Present? ==> (HasCodec(c) <==> c.value != "none")
  {
  }

  /** The filter: video mode keeps formats with a video codec, any other mode
      those with an audio codec. */
  predicate Keeps(mode: string, f: Format)
  {
    if mode == "video" then HasCodec(f.vcodec) else HasCodec(f.acodec)
  }

  /** The formats that pass a test, in order. */
  function Kept(fs: seq<Format>, mode: string, needAudio: bool): (r: seq<Format>)
    ensures |r| <= |fs|
    ensures forall k :: 0 <= k < |r| ==> Keeps(mode, r[k]) && (needAudio ==> HasCodec(r[k].acodec))
    ensures forall f :: f in r <==> f in fs && Keeps(mode, f) && (needAudio ==> HasCodec(f.acodec))
    decreases |fs|
  {
    if fs == [] then []
    else
      var init := Kept(fs[..|fs| - 1], mode, needAudio);
      var f := fs[|fs| - 1];
      assert forall g :: g in fs <==> g in fs[..|fs| - 1] || g == f;
      if Keeps(mode, f) && (needAudio ==> HasCodec(f.acodec)) then init + [f] else init
  }

  /** The filter loop: the formats the mode keeps and, in video mode, those
      of them that also carry audio. */
  method FilterFormats(formats: seq<Format>, mode: string) returns (filtered: seq<Format>, withAudio: seq<Format>)
    ensures filtered == Kept(formats, mode, false)
    ensures withAudio == if mode == "video" then Kept(formats, mode, true) else []
  {
    filtered, withAudio := [], [];
    var i := 0;
    while i < |formats|
      invariant 0 <= i <= |formats|
      invariant filtered == Kept(formats[..i], mode, false)
      invariant withAudio == if mode == "video" then Kept(formats[..i], mode, true) else []
    {
      var f := formats[i];
      assert formats[..i + 1][..i] == formats[..i] && formats[..i + 1][i] == f;
      if mode == "video" {
        if !HasCodec(f.vcodec) {
          i := i + 1;
          continue;
        }
        if HasCodec(f.acodec) {
          withAudio := withAudio + [f];
        }
      } else {
        if !HasCodec(f.acodec) {
          i := i + 1;
          continue;
        }
      }
      filtered := filtered + [f];
      i := i + 1;
    }
    assert formats[..i] == formats;
  }

  /** `filesize or filesize_approx or 0`. */
  function SortSize(f: Format): nat
  {
    if f.filesize != 0 then f.filesize else f.filesizeApprox
  }

  /** The quality key: height (video) or audio bit rate, then size. */
  function Key(mode: string, f: Format): (nat, nat)
  {
    (if mode == "video" then f.height else f.abr.GetOr(0), SortSize(f))
  }

  /** `a` sorts no later than `b` under the descending key order. */
  predicate KeyGe(a: (nat, nat), b: (nat, nat))
  {
    a.0 > b.0 || (a.0 == b.0 && a.1 >= b.1)
  }

  predicate SortedDesc(fs: seq<Format>, mode: string)
  {
    forall i, j :: 0 <= i < j < |fs| ==> KeyGe(Key(mode, fs[i]), Key(mode, fs[j]))
  }

  /** Places `x` before the first element it does not sort after; a tie puts
      `x` first, which keeps the sort stable for an `x` taken from the front. */
  function Insert(x: Format, s: seq<Format>, mode: string): (r: seq<Format>)
    ensures |r| == |s| + 1
    ensures multiset(r) == multiset(s) + multiset{x}
    decreases |s|
  {
    if s == [] || KeyGe(Key(mode, x), Key(mode, s[0])) then [x] + s
    else
      assert s == [s[0]] + s[1..];
      [s[0]] + Insert(x, s[1..], mode)
  }

  /** `list.sort(key=format_sort_key)`: a stable sort on the descending key. */
  function SortFormats(fs: seq<Format>, mode: string): (r: seq<Format>)
    ensures |r| == |fs|
    ensures multiset(r) == multiset(fs)
    decreases |fs|
  {
    if fs == [] then []
    else
      assert fs == [fs[0]] + fs[1..];
      Insert(fs[0], SortFormats(fs[1..], mode), mode)
  }

  lemma {:induction false} InsertSorted(x: Format, s: seq<Format>, mode: string)
    requires SortedDesc(s, mode)
    ensures SortedDesc(Insert(x, s, mode), mode)
    decreases |s|
  {
    if s == [] || KeyGe(Key(mode, x), Key(mode, s[0])) {
    } else {
      InsertSorted(x, s[1..], mode);
      var t := Insert(x, s[1..], mode);
      assert forall k :: 0 <= k < |t| ==> t[k] in multiset(s[1..]) + multiset{x};
      forall k | 0 <= k < |t| ensures KeyGe(Key(mode, s[0]), Key(mode, t[k])) {
        assert t[k] in multiset(t);
        if t[k] != x {
          assert t[k] in s[1..];
        }
      }
    }
  }

  lemma SortFormatsMembers(fs: seq<Format>, mode: string)
    ensures forall f :: f in SortFormats(fs, mode) <==> f in fs
  {
    var r := SortFormats(fs, mode);
    forall f ensures f in r <==> f in fs {
      assert f in r <==> f in multiset(r);
      assert f in fs <==> f in multiset(fs);
    }
  }

  /** Sorting yields the descending order. */
  lemma {:induction false} SortFormatsSorted(fs: seq<Format>, mode: string)
    ensures SortedDesc(SortFormats(fs, mode), mode)
    decreases |fs|
  {
    if fs != [] {
      SortFormatsSorted(fs[1..], mode);
      InsertSorted(fs[0], SortFormats(fs[1..], mode), mode);
    }
  }

  /** A list already in descending order is left as it is. */
  lemma {:induction false} SortFormatsOfSorted(fs: seq<Format>, mode: string)
    requires SortedDesc(fs, mode)
    ensures SortFormats(fs, mode) == fs
    decreases |fs|
  {
    if fs != [] {
      assert SortedDesc(fs[1..], mode);
      SortFormatsOfSorted(fs[1..], mode);
      if |fs| > 1 {
        assert KeyGe(Key(mode, fs[0]), Key(mode, fs[1]));
      }
    }
  }

  /** The formats of a list whose key is `k`, in list order. */
  function WithKey(fs: seq<Format>, mode: string, k: (nat, nat)): (r: seq<Format>)
    ensures forall f :: f in r <==> f in fs && Key(mode, f) == k
  {
    if fs == [] then []
    else (if Key(mode, fs[0]) == k then [fs[0]] else []) + WithKey(fs[1..], mode, k)
  }

  lemma WithKeyCons(h: Format, t: seq<Format>, mode: string, k: (nat, nat))
    ensures WithKey([h] + t, mode, k) == (if Key(mode, h) == k then [h] else []) + WithKey(t, mode, k)
  {
    assert ([h] + t)[1..] == t;
  }

  lemma SwapDisjoint(a: seq<Format>, b: seq<Format>, t: seq<Format>)
    requires a == [] || b == []
    ensures a + (b + t) == b + (a + t)
  {
    if a == [] {
      assert a + (b + t) == b + t;
      assert a + t == t;
    } else {
      assert b + t == t;
      assert b + (a + t) == a + t;
    }
  }

  /** Inserting places `x` ahead of every format with its key. */
  lemma {:induction false} InsertWithKey(x: Format, s: seq<Format>, mode: string, k: (nat, nat))
    ensures WithKey(Insert(x, s, mode), mode, k) == (if Key(mode, x) == k then [x] else []) + WithKey(s, mode, k)
    decreases |s|
  {
    if s == [] || KeyGe(Key(mode, x), Key(mode, s[0])) {
      WithKeyCons(x, s, mode, k);
    } else {
      var h, t := s[0], s[1..];
      assert s == [h] + t;
      var hk: seq<Format> := if Key(mode, h) == k then [h] else [];
      var xk: seq<Format> := if Key(mode, x) == k then [x] else [];
      InsertWithKey(x, t, mode, k);
      WithKeyCons(h, Insert(x, t, mode), mode, k);
      WithKeyCons(h, t, mode, k);
      assert Key(mode, h) != Key(mode, x);
      assert Insert(x, s, mode) == [h] + Insert(x, t, mode);
      SwapDisjoint(hk, xk, WithKey(t, mode, k));
    }
  }

  /** The sort is stable: formats with equal keys keep their order. */
  lemma {:induction false} SortFormatsStable(fs: seq<Format>, mode: string, k: (nat, nat))
    ensures WithKey(SortFormats(fs, mode), mode, k) == WithKey(fs, mode, k)
    decreases |fs|
  {
    if fs != [] {
      SortFormatsStable(fs[1..], mode, k);
      InsertWithKey(fs[0], SortFormats(fs[1..], mode), mode, k);
    }
  }

  /** The size column of a row. */
  datatype RowSize = Exact(bytes: nat) | Approx(bytes: nat) | Unknown

  function SizeOf(f: Format): (s: RowSize)
    ensures s.Unknown? <==> SortSize(f) == 0
  {
    if f.filesize != 0 then Exact(f.filesize)
    else if f.filesizeApprox != 0 then Approx(f.filesizeApprox)
    else Unknown
  }

  /** One row of the format table; the notes are the parts joined with `, `. */
  datatype Row = Row(formatId: string, ext: string, resolution: string, size: RowSize, notes: seq<string>)

  function ResolutionText(f: Format, mode: string): string
  {
    if mode == "video" then
      if f.resolution.Some? then f.resolution.value
      else if f.width != 0 && f.height != 0 then NatToString(f.width) + "x" + NatToString(f.height)
      else "N/A"
    else if f.abr.Some? && f.abr.value != 0 then NatToString(f.abr.value) + " kbps"
    else "N/A"
  }

  /** `fmt.get(key) and fmt.get(key) != 'none'`: a codec name worth a note. */
  predicate Named(c: Field<string>)
  {
    c.Present? && c.value != "" && c.value != "none"
  }

  function Notes(f: Format, mode: string): seq<string>
  {
    (if f.formatNote != "" then [f.formatNote] else []) +
    (if Named(f.vcodec) then ["Video: " + f.vcodec.value] else []) +
    (if Named(f.acodec) then ["Audio: " + f.acodec.value] else if mode == "video" then ["No Audio"] else []) +
    (if f.fps != 0 then [NatToString(f.fps) + " fps"] else [])
  }

  function RowFor(f: Format, mode: string): (r: Row)
    ensures r.formatId == f.formatId && r.size == SizeOf(f)
  {
    Row(f.formatId, f.ext.GetOr("N/A"), ResolutionText(f, mode), SizeOf(f), Notes(f, mode))
  }

  /** The virtual first row of the audio table, built from the best audio format. */
  function Mp3Row(best: Format): (r: Row)
    ensures r.formatId == "mp3"
  {
    Row("mp3", "mp3", (if best.abr.Some? then NatToString(best.abr.value) else "best") + " kbps",
        Unknown, ["MP3 conversion from best audio"])
  }

  /** The two front ends differ in two places: whether sizeless formats are
      dropped from the table, and whether the audio table starts with the
      virtual mp3 row (which then also wins the auto-selection). */
  datatype Variant = Variant(dropSizeless: bool, mp3Row: bool)

  /** The rows the table loop appends for the sorted formats. */
  function RowsOf(sorted: seq<Format>, mode: string, dropSizeless: bool): (r: seq<Row>)
    ensures |r| <= |sorted|
    decreases |sorted|
  {
    if sorted == [] then []
    else
      var init := RowsOf(sorted[..|sorted| - 1], mode, dropSizeless);
      var f := sorted[|sorted| - 1];
      if dropSizeless && SortSize(f) == 0 then init else init + [RowFor(f, mode)]
  }

  /** Without dropping, there is one row per format, in order. */
  lemma {:induction false} RowsOfAll(sorted: seq<Format>, mode: string)
    ensures |RowsOf(sorted, mode, false)| == |sorted|
    ensures forall k :: 0 <= k < |sorted| ==> RowsOf(sorted, mode, false)[k] == RowFor(sorted[k], mode)
    decreases |sorted|
  {
    if sorted != [] {
      var init := sorted[..|sorted| - 1];
      RowsOfAll(init, mode);
      assert forall k :: 0 <= k < |init| ==> init[k] == sorted[k];
    }
  }

  /** With dropping, every row has a known size. */
  lemma {:induction false} RowsOfSized(sorted: seq<Format>, mode: string)
    ensures forall k :: 0 <= k < |RowsOf(sorted, mode, true)| ==> !RowsOf(sorted, mode, true)[k].size.Unknown?
    decreases |sorted|
  {
    if sorted != [] {
      RowsOfSized(sorted[..|sorted| - 1], mode);
    }
  }

  /** The formats that get a row when sizeless ones are dropped. */
  function Sized(fs: seq<Format>): (r: seq<Format>)
    ensures forall f :: f in r <==> f in fs && SortSize(f) != 0
    decreases |fs|
  {
    if fs == [] then []
    else
      var init := Sized(fs[..|fs| - 1]);
      var f := fs[|fs| - 1];
      assert forall g :: g in fs <==> g in fs[..|fs| - 1] || g == f;
      if SortSize(f) != 0 then init + [f] else init
  }

  /** With sizeless formats dropped, the rows are those of the sized formats,
      in the same order. */
  lemma {:induction false} RowsOfDropped(sorted: seq<Format>, mode: string)
    ensures RowsOf(sorted, mode, true) == RowsOf(Sized(sorted), mode, false)
    decreases |sorted|
  {
    if sorted != [] {
      var init := sorted[..|sorted| - 1];
      RowsOfDropped(init, mode);
      var f := sorted[|sorted| - 1];
      if SortSize(f) != 0 {
        var s := Sized(init) + [f];
        assert s[..|s| - 1] == Sized(init);
      }
    }
  }

  /** The index `format_items[id]` ends up naming: the last row with that id. */
  function LastIndexOf(rows: seq<Row>, id: string): (r: Option<nat>)
    ensures r.Some? ==> r.value < |rows| && rows[r.value].formatId == id &&
                        forall j :: r.value < j < |rows| ==> rows[j].formatId != id
    ensures r.None? ==> forall j :: 0 <= j < |rows| ==> rows[j].formatId != id
    decreases |rows|
  {
    if rows == [] then None
    else if rows[|rows| - 1].formatId == id then Some(|rows| - 1)
    else LastIndexOf(rows[..|rows| - 1], id)
  }

  /** The auto-selection after the table is filled; `None` for an empty table. */
  function AutoSelect(rows: seq<Row>, mode: string, mp3Row: bool, withAudioSorted: seq<Format>): (r: Option<nat>)
    ensures r.None? <==> rows == []
    ensures r.Some? ==> r.value < |rows|
    ensures rows != [] && mp3Row && mode == "audio" && LastIndexOf(rows, "mp3").Some? ==> r == LastIndexOf(rows, "mp3")
    ensures rows != [] && !(mp3Row && mode == "audio" && LastIndexOf(rows, "mp3").Some?) && mode == "video" && withAudioSorted != [] ==>
              r == (if LastIndexOf(rows, withAudioSorted[0].formatId).Some? then LastIndexOf(rows, withAudioSorted[0].formatId) else Some(0))
    ensures rows != [] && !(mp3Row && mode == "audio" && LastIndexOf(rows, "mp3").Some?) && !(mode == "video" && withAudioSorted != []) ==>
              r == Some(0)
  {
    if rows == [] then None
    else if mp3Row && mode == "audio" && LastIndexOf(rows, "mp3").Some? then LastIndexOf(rows, "mp3")
    else if mode == "video" && withAudioSorted != [] then
      var best := LastIndexOf(rows, withAudioSorted[0].formatId);
      if best.Some? then best else Some(0)
    else Some(0)
  }

  /** The table loop: one row per sorted format, sizeless ones skipped when
      the variant drops them. */
  method AppendRows(head: seq<Row>, sorted: seq<Format>, mode: string, dropSizeless: bool) returns (rows: seq<Row>)
    ensures rows == head + RowsOf(sorted, mode, dropSizeless)
  {
    rows := head;
    var i := 0;
    while i < |sorted|
      invariant 0 <= i <= |sorted|
      invariant rows == head + RowsOf(sorted[..i], mode, dropSizeless)
    {
      var f := sorted[i];
      RowsOfStep(sorted, i, mode, dropSizeless);
      if dropSizeless && f.filesize == 0 && f.filesizeApprox == 0 {
        i := i + 1;
        continue;
      }
      rows := rows + [RowFor(f, mode)];
      i := i + 1;
    }
    assert sorted[..i] == sorted;
  }

  /** One more format adds its row, unless it is dropped for having no size. */
  lemma RowsOfStep(sorted: seq<Format>, i: nat, mode: string, dropSizeless: bool)
    requires i < |sorted|
    ensures dropSizeless && sorted[i].filesize == 0 && sorted[i].filesizeApprox == 0 ==>
              RowsOf(sorted[..i + 1], mode, dropSizeless) == RowsOf(sorted[..i], mode, dropSizeless)
    ensures !(dropSizeless && sorted[i].filesize == 0 && sorted[i].filesizeApprox == 0) ==>
              RowsOf(sorted[..i + 1], mode, dropSizeless) == RowsOf(sorted[..i], mode, dropSizeless) + [RowFor(sorted[i], mode)]
  {
    assert sorted[..i + 1][..i] == sorted[..i];
  }

  /** The first row of a table: the virtual mp3 row when the variant has one. */
  function HeadRows(sorted: seq<Format>, mode: string, mp3Row: bool): (r: seq<Row>)
    ensures r != [] <==> mp3Row && mode == "audio" && sorted != []
    ensures r != [] ==> r == [Mp3Row(sorted[0])]
  {
    if mp3Row && mode == "audio" && sorted != [] then [Mp3Row(sorted[0])] else []
  }

  /** `update_format_list`: filter, sort, fill the table, select. */
  method UpdateFormatList(formats: seq<Format>, mode: string, variant: Variant)
    returns (rows: seq<Row>, selected: Option<nat>)
    ensures var sorted := SortFormats(Kept(formats, mode, false), mode);
            rows == HeadRows(sorted, mode, variant.mp3Row) + RowsOf(sorted, mode, variant.dropSizeless)
    ensures selected == AutoSelect(rows, mode, variant.mp3Row, SortFormats(if mode == "video" then Kept(formats, mode, true) else [], mode))
  {
    var filtered, withAudio := FilterFormats(formats, mode);
    filtered := SortFormats(filtered, mode);
    withAudio := SortFormats(withAudio, mode);
    var head := HeadRows(filtered, mode, variant.mp3Row);
    rows := AppendRows(head, filtered, mode, variant.dropSizeless);
    selected := AutoSelect(rows, mode, variant.mp3Row, withAudio);
  }

  /** No row of the table loop is called `mp3` unless a format is. */
  lemma {:induction false} RowsOfIds(sorted: seq<Format>, mode: string, dropSizeless: bool, id: string)
    requires forall k :: 0 <= k < |sorted| ==> sorted[k].formatId != id
    ensures forall k :: 0 <= k < |RowsOf(sorted, mode, dropSizeless)| ==> RowsOf(sorted, mode, dropSizeless)[k].formatId != id
    decreases |sorted|
  {
    if sorted != [] {
      RowsOfIds(sorted[..|sorted| - 1], mode, dropSizeless, id);
    }
  }

  /** In the audio table with the virtual row, and no real format called
      `mp3`, the virtual row comes first and is the one selected. */
  lemma Mp3RowSelected(formats: seq<Format>)
    requires Kept(formats, "audio", false) != []
    requires forall f :: f in formats ==> f.formatId != "mp3"
    ensures var sorted := SortFormats(Kept(formats, "audio", false), "audio");
            var rows := HeadRows(sorted, "audio", true) + RowsOf(sorted, "audio", true);
            rows != [] && rows[0].formatId == "mp3" && AutoSelect(rows, "audio", true, []) == Some(0)
  {
    var kept := Kept(formats, "audio", false);
    var sorted := SortFormats(kept, "audio");
    SortedIdsFrom(formats, kept, sorted);
    RowsOfIds(sorted, "audio", true, "mp3");
    var tail := RowsOf(sorted, "audio", true);
    assert HeadRows(sorted, "audio", true) == [Mp3Row(sorted[0])];
    Mp3HeadSelected(Mp3Row(sorted[0]), tail);
  }

  lemma SortedIdsFrom(formats: seq<Format>, kept: seq<Format>, sorted: seq<Format>)
    requires kept == Kept(formats, "audio", false) && sorted == SortFormats(kept, "audio")
    requires forall f :: f in formats ==> f.formatId != "mp3"
    ensures forall k :: 0 <= k < |sorted| ==> sorted[k].formatId != "mp3"
  {
    SortFormatsMembers(kept, "audio");
    forall k | 0 <= k < |sorted| ensures sorted[k].formatId != "mp3" {
      assert sorted[k] in sorted;
    }
  }

  /** A head row called `mp3` before rows of other ids is the one selected. */
  lemma Mp3HeadSelected(head: Row, tail: seq<Row>)
    requires head.formatId == "mp3"
    requires forall k :: 0 <= k < |tail| ==> tail[k].formatId != "mp3"
    ensures AutoSelect([head] + tail, "audio", true, []) == Some(0)
  {
    var rows := [head] + tail;
    assert forall j :: 0 < j < |rows| ==> rows[j] == tail[j - 1];
    LastIndexOfOnlyFirst(rows, "mp3");
  }

  /** A row id that only the first row carries names the first row. */
  lemma {:induction false} LastIndexOfOnlyFirst(rows: seq<Row>, id: string)
    requires rows != [] && rows[0].formatId == id
    requires forall j :: 0 < j < |rows| ==> rows[j].formatId != id
    ensures LastIndexOf(rows, id) == Some(0)
    decreases |rows|
  {
    if |rows| > 1 {
      LastIndexOfOnlyFirst(rows[..|rows| - 1], id);
    }
  }

  /** The first format with the given id. */
  function FirstWithId(formats: seq<Format>, id: string): (r: Option<Format>)
    ensures r.Some? ==> r.value.formatId == id && exists i :: 0 <= i < |formats| && formats[i] == r.value &&
                                                   forall j :: 0 <= j < i ==> formats[j].formatId != id
    ensures r.None? ==> forall j :: 0 <= j < |formats| ==> formats[j].formatId != id
  {
    if formats == [] then None
    else if formats[0].formatId == id then Some(formats[0])
    else
      var r := FirstWithId(formats[1..], id);
      assert r.Some? ==> exists i :: 0 < i < |formats| && formats[i] == r.value && forall j :: 0 <= j < i ==> formats[j].formatId != id by {
        if r.Some? {
          var i :| 0 <= i < |formats[1..]| && formats[1..][i] == r.value && forall j :: 0 <= j < i ==> formats[1..][j].formatId != id;
          assert formats[i + 1] == r.value;
        }
      }
      r
  }

  /** The search loop of `start_download`, which stops at the first match. */
  method FindFormat(formats: seq<Format>, id: string) returns (found: Option<Format>)
    ensures found == FirstWithId(formats, id)
  {
    var i := 0;
    while i < |formats|
      invariant 0 <= i <= |formats|
      invariant FirstWithId(formats, id) == FirstWithId(formats[i..], id)
    {
      assert formats[i..][1..] == formats[i + 1..];
      if formats[i].formatId == id {
        return Some(formats[i]);
      }
      i := i + 1;
    }
    return None;
  }

  const BestAudio := "+bestaudio"
  const M4aFallback := "[ext=m4a]/bestaudio"
  const Mp3Fallback := "[ext=mp3]/bestaudio"
  const WebmFallback := "[ext=webm]/bestaudio"

  /** The audio half of the merging selector, by container. */
  function AudioHalf(container: string): string
  {
    if container == "mp4" then BestAudio + M4aFallback + Mp3Fallback
    else if container == "webm" then BestAudio + WebmFallback
    else BestAudio
  }

  /** The selector that merges a video-only format with audio, by container. */
  function MergeSelector(formatId: string, container: string): (r: string)
    ensures StartsWith(r, formatId + BestAudio)
  {
    assert (formatId + AudioHalf(container))[..|formatId + BestAudio|] == formatId + BestAudio;
    formatId + AudioHalf(container)
  }

  /** `merge_output_format`: webm when the selector names webm in any case. */
  function MergeOutputFormat(selector: string): (r: string)
    ensures r == "webm" || r == "mp4"
    ensures r == "webm" <==> Contains(Lower(selector), "webm")
  {
    if Contains(Lower(selector), "webm") then "webm" else "mp4"
  }

  lemma LowerConcat(a: string, b: string)
    ensures Lower(a + b) == Lower(a) + Lower(b)
  {
  }

  /** A word whose first character a string lacks does not occur in it. */
  lemma NoFirstChar(s: string, w: string)
    requires w != [] && w[0] !in s
    ensures !Contains(s, w)
  {
    forall j ensures !OccursAt(s, w, j) {
      if 0 <= j && j + |w| <= |s| {
        assert s[j..j + |w|][0] == s[j];
      }
    }
  }

  /** Lowering changes only the capitals A to Z. */
  lemma LowerOfUpperFree(s: string)
    requires forall c :: 'A' <= c <= 'Z' ==> c !in s
    ensures Lower(s) == s
  {
    forall k | 0 <= k < |s| ensures !('A' <= s[k] <= 'Z') {
      assert s[k] in s;
    }
    LowerOfLower(s);
  }

  /** A webm container merges into webm. */
  lemma WebmMergesToWebm(formatId: string)
    ensures MergeOutputFormat(MergeSelector(formatId, "webm")) == "webm"
  {
    var tail := AudioHalf("webm");
    LowerConcat(formatId, tail);
    LowerOfUpperFree(BestAudio);
    LowerOfUpperFree(WebmFallback);
    LowerConcat(BestAudio, WebmFallback);
    assert WebmFallback[5..9] == "webm";
    ContainsAt(WebmFallback, "webm", 5);
    ContainsInSuffix(BestAudio, WebmFallback, "webm");
    ContainsInSuffix(Lower(formatId), tail, "webm");
  }

  /** The facts about the non-webm audio halves that the lemma below needs. */
  lemma PlainHalf(container: string)
    requires container != "webm"
    ensures var tail := AudioHalf(container);
            Lower(tail) == tail && tail[0] == '+' && 'w' !in tail
  {
    LowerOfUpperFree(BestAudio);
    assert 'w' !in BestAudio;
    if container == "mp4" {
      LowerOfUpperFree(M4aFallback);
      LowerOfUpperFree(Mp3Fallback);
      LowerConcat(BestAudio, M4aFallback);
      LowerConcat(BestAudio + M4aFallback, Mp3Fallback);
      assert 'w' !in M4aFallback && 'w' !in Mp3Fallback;
    }
  }

  /** A word that occurs in neither half, nor across the seam, is absent from the join. */
  lemma NotInConcat(a: string, b: string, w: string)
    requires !Contains(a, w) && !Contains(b, w)
    requires forall k :: 0 < k < |w| ==> !StartsWith(b, w[k..])
    ensures !Contains(a + b, w)
  {
    if Contains(a + b, w) {
      ContainsInConcat(a, b, w);
    }
  }

  /** Any other container merges into mp4, unless the format id itself names webm. */
  lemma OtherMergesToMp4(formatId: string, container: string)
    requires container != "webm" && !Contains(Lower(formatId), "webm")
    ensures MergeOutputFormat(MergeSelector(formatId, container)) == "mp4"
  {
    var tail := AudioHalf(container);
    LowerConcat(formatId, tail);
    PlainHalf(container);
    NoFirstChar(tail, "webm");
    forall k | 0 < k < 4 ensures !StartsWith(tail, "webm"[k..]) {
      assert tail[0] == '+';
    }
    NotInConcat(Lower(formatId), tail, "webm");
  }
}
