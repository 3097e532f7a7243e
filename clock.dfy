/** Durations as clock text: `h:mm:ss` or `m:ss`, and the two-digit
    `HH:MM:SS` stamps that ffmpeg prints. */
module Clock {
  import opened Wrappers
  import opened Text

  /** `divmod(secs, 60)` and then `divmod(minutes, 60)`, printed with the
      minutes and seconds padded to two digits; hours only when there are any. */
  function ClockText(secs: nat): (r: string)
    ensures secs < 3600 ==> r == NatToString(secs / 60) + ":" + Pad2(secs % 60)
  {
    var minutes, seconds := secs / 60, secs % 60;
    var hours, mins := minutes / 60, minutes % 60;
    if hours > 0 then NatToString(hours) + ":" + Pad2(mins) + ":" + Pad2(seconds)
    else NatToString(mins) + ":" + Pad2(seconds)
  }

  /** The duration line: clock text, or the placeholder for a zero or missing duration. */
  function DurationText(duration: nat, missing: string): (r: string)
    ensures duration == 0 ==> r == missing
    ensures duration != 0 ==> r == ClockText(duration)
  {
    if duration == 0 then missing else ClockText(duration)
  }

  /** A two-digit field below 60. */
  function Sexagesimal(t: string): (r: Option<nat>)
    ensures r.Some? ==> r.value < 60
  {
    if |t| == 2 then
      match ParseNat(t)
      case Some(v) => if v < 60 then Some(v) else None
      case None => None
    else None
  }

  /** Reads clock text back: `h:mm:ss` or `m:ss`. */
  function ParseClock(s: string): (r: Option<nat>)
  {
    if !Contains(s, ":") then None else ParseFields(Before(s, ":"), After(s, ":"))
  }

  /** The fields after the first colon: `mm:ss`, or a lone `ss`. */
  function ParseFields(first: string, rest: string): Option<nat>
  {
    if Contains(rest, ":") then
      Seconds(ParseNat(first), Sexagesimal(Before(rest, ":")), Sexagesimal(After(rest, ":")))
    else Seconds(Some(0), ParseNat(first), Sexagesimal(rest))
  }

  /** `h*3600 + m*60 + s` when every field reads. */
  function Seconds(h: Option<nat>, m: Option<nat>, sec: Option<nat>): Option<nat>
  {
    if h.Some? && m.Some? && sec.Some? then Some(h.value * 3600 + m.value * 60 + sec.value) else None
  }

  lemma DigitsHaveNoColon(s: string)
    requires forall k :: 0 <= k < |s| ==> IsDigit(s[k])
    ensures !Contains(s, ":")
  {
    forall k | 0 <= k < |s| ensures s[k] != ':' {
      assert IsDigit(s[k]);
    }
    CharAbsent(s, ':');
  }

  /** A padded field below 60 reads back as itself. */
  lemma SexagesimalOfPad2(n: nat)
    requires n < 60
    ensures Sexagesimal(Pad2(n)) == Some(n)
  {
    Pad2Value(n);
    if n >= 10 {
      assert NatToString(n) == NatToString(n / 10) + [DigitChar(n % 10)];
      assert |NatToString(n / 10)| == 1;
    }
    assert |Pad2(n)| == 2;
  }

  /** A colon-free head followed by a colon: the fields are the head and the rest. */
  lemma ParseClockSplit(a: string, b: string)
    requires !Contains(a, ":")
    ensures ParseClock(a + ":" + b) == ParseFields(a, b)
  {
    BeforeOfJoin(a, ":", b);
    ContainsMiddle(a, ":", b);
  }

  /** A second colon after a colon-free middle field: hours, minutes, seconds. */
  lemma ParseFieldsLong(first: string, a: string, b: string)
    requires !Contains(a, ":")
    ensures ParseFields(first, a + ":" + b) == Seconds(ParseNat(first), Sexagesimal(a), Sexagesimal(b))
  {
    BeforeOfJoin(a, ":", b);
    ContainsMiddle(a, ":", b);
  }

  /** `m:ss` reads back as `m*60 + s`. */
  lemma ParseShort(t: string, m: nat, sec: nat, n: nat)
    requires sec < 60 && t == NatToString(m) + ":" + Pad2(sec) && n == m * 60 + sec
    ensures ParseClock(t) == Some(n)
  {
    var ms, ps := NatToString(m), Pad2(sec);
    SexagesimalOfPad2(sec);
    DigitsHaveNoColon(ms);
    DigitsHaveNoColon(ps);
    ParseNatToString(m);
    ParseClockSplit(ms, ps);
  }

  /** `h:mm:ss` reads back as `h*3600 + m*60 + s`. */
  lemma ParseLong(t: string, h: nat, m: nat, sec: nat, n: nat)
    requires m < 60 && sec < 60 && t == NatToString(h) + ":" + Pad2(m) + ":" + Pad2(sec) && n == h * 3600 + m * 60 + sec
    ensures ParseClock(t) == Some(n)
  {
    var hs, pm, ps := NatToString(h), Pad2(m), Pad2(sec);
    SexagesimalOfPad2(m);
    SexagesimalOfPad2(sec);
    DigitsHaveNoColon(hs);
    DigitsHaveNoColon(pm);
    ParseNatToString(h);
    assert Seconds(ParseNat(hs), Sexagesimal(pm), Sexagesimal(ps)) == Seconds(Some(h), Some(m), Some(sec));
    SecondsOf(h, m, sec, n);
    ReadsBackLong(t, hs, pm, ps, n);
  }

  /** Three colon-separated fields that read read back as their seconds. */
  lemma ReadsBackLong(t: string, a: string, b: string, c: string, n: nat)
    requires !Contains(a, ":") && !Contains(b, ":") && t == a + ":" + b + ":" + c
    requires Seconds(ParseNat(a), Sexagesimal(b), Sexagesimal(c)) == Some(n)
    ensures ParseClock(t) == Some(n)
  {
    JoinAssoc(a, b, c);
    ParseClockSplit(a, b + ":" + c);
    ParseFieldsLong(a, b, c);
  }

  lemma SecondsOf(h: nat, m: nat, sec: nat, n: nat)
    requires n == h * 3600 + m * 60 + sec
    ensures Seconds(Some(h), Some(m), Some(sec)) == Some(n)
  {
  }

  lemma JoinAssoc(a: string, b: string, c: string)
    ensures a + ":" + b + ":" + c == a + ":" + (b + ":" + c)
  {
  }

  /** Clock text reads back as the number of seconds it shows. */
  lemma ParseClockText(secs: nat)
    ensures ParseClock(ClockText(secs)) == Some(secs)
  {
    var minutes, seconds := secs / 60, secs % 60;
    var hours, mins := minutes / 60, minutes % 60;
    DivModChain(secs, minutes, seconds, hours, mins);
    ClockTextParts(secs, hours, mins, seconds);
    if hours > 0 {
      ParseLong(ClockText(secs), hours, mins, seconds, secs);
    } else {
      ParseShort(ClockText(secs), mins, seconds, secs);
    }
  }

  /** The pieces `ClockText` prints for a given split. */
  lemma ClockTextParts(secs: nat, hours: nat, mins: nat, seconds: nat)
    requires hours == secs / 60 / 60 && mins == secs / 60 % 60 && seconds == secs % 60
    ensures hours > 0 ==> ClockText(secs) == NatToString(hours) + ":" + Pad2(mins) + ":" + Pad2(seconds)
    ensures hours == 0 ==> ClockText(secs) == NatToString(mins) + ":" + Pad2(seconds)
  {
  }

  lemma DivModChain(secs: nat, minutes: nat, seconds: nat, hours: nat, mins: nat)
    requires minutes == secs / 60 && seconds == secs % 60 && hours == minutes / 60 && mins == minutes % 60
    ensures hours * 3600 + mins * 60 + seconds == secs
    ensures hours == 0 ==> mins * 60 + seconds == secs
  {
    assert secs == 60 * minutes + seconds;
    assert minutes == 60 * hours + mins;
    assert 60 * minutes == 3600 * hours + 60 * mins;
  }

  /** Different durations show different clock text. */
  lemma ClockTextInjective(a: nat, b: nat)
    requires ClockText(a) == ClockText(b)
    ensures a == b
  {
    ParseClockText(a);
    ParseClockText(b);
  }

  /** The beginner front end's `h = d // 3600`, `m = (d % 3600) // 60`, `s = d % 60`
      splits the duration exactly as the divmod chain above. */
  lemma SplitsAgree(d: nat)
    ensures d / 3600 == (d / 60) / 60
    ensures (d % 3600) / 60 == (d / 60) % 60
  {
    var q, r := d / 3600, d % 3600;
    assert d == 3600 * q + r && r < 3600;
    assert d / 60 == 60 * q + r / 60;
  }

  /** Two ASCII digits at `i` and `i + 1`. */
  function TwoDigitsAt(s: string, i: nat): (r: Option<nat>)
    ensures r.Some? ==> i + 2 <= |s| && r.value < 100
  {
    if i + 2 <= |s| && IsDigit(s[i]) && IsDigit(s[i + 1]) then Some(10 * DigitValue(s[i]) + DigitValue(s[i + 1]))
    else None
  }

  /** `(\d{2}):(\d{2}):(\d{2})` matched at `i`, read as `h*3600 + m*60 + s`. */
  function StampAt(s: string, i: nat): (r: Option<nat>)
    ensures r.Some? ==> i + 8 <= |s| && s[i + 2] == ':' && s[i + 5] == ':'
  {
    match (TwoDigitsAt(s, i), TwoDigitsAt(s, i + 3), TwoDigitsAt(s, i + 6))
    case (Some(h), Some(m), Some(sec)) =>
      if s[i + 2] == ':' && s[i + 5] == ':' then Some(h * 3600 + m * 60 + sec) else None
    case _ => None
  }

  /** A stamp `HH:MM:SS` reads as the seconds it names. */
  lemma StampAtOfStamp(h: nat, m: nat, sec: nat)
    requires h < 100 && m < 60 && sec < 60
    ensures StampAt(Digits2(h) + ":" + Digits2(m) + ":" + Digits2(sec), 0) == Some(h * 3600 + m * 60 + sec)
  {
    var s := Digits2(h) + ":" + Digits2(m) + ":" + Digits2(sec);
    assert s[0..2] == Digits2(h) && s[3..5] == Digits2(m) && s[6..8] == Digits2(sec);
  }

  /** Two digits for a number below 100. */
  function Digits2(n: nat): (r: string)
    requires n < 100
    ensures |r| == 2 && IsDigit(r[0]) && IsDigit(r[1])
    ensures 10 * DigitValue(r[0]) + DigitValue(r[1]) == n
  {
    [DigitChar(n / 10), DigitChar(n % 10)]
  }

  /** The first match of `marker` followed by a stamp, as `re.search` finds it. */
  function SearchStamp(s: string, marker: string, from: nat): (r: Option<nat>)
    requires from <= |s|
    decreases |s| - from
  {
    if OccursAt(s, marker, from) && StampAt(s, from + |marker|).Some? then StampAt(s, from + |marker|)
    else if from == |s| then None
    else SearchStamp(s, marker, from + 1)
  }

  /** A line that holds a marked stamp yields it, or an earlier marked stamp. */
  lemma {:induction false} SearchStampFinds(s: string, marker: string, from: nat, i: nat)
    requires from <= i <= |s| && OccursAt(s, marker, i) && StampAt(s, i + |marker|).Some?
    ensures SearchStamp(s, marker, from).Some?
    decreases i - from
  {
    if !(OccursAt(s, marker, from) && StampAt(s, from + |marker|).Some?) {
      SearchStampFinds(s, marker, from + 1, i);
    }
  }

  /** A marked stamp at the start of a line is the one found. */
  lemma SearchStampOfLine(marker: string, h: nat, m: nat, sec: nat, rest: string)
    requires h < 100 && m < 60 && sec < 60
    ensures SearchStamp(marker + Digits2(h) + ":" + Digits2(m) + ":" + Digits2(sec) + rest, marker, 0) == Some(h * 3600 + m * 60 + sec)
  {
    var stamp := Digits2(h) + ":" + Digits2(m) + ":" + Digits2(sec);
    var s := marker + stamp + rest;
    assert s[..|marker|] == marker;
    assert OccursAt(s, marker, 0);
    StampAtOfStamp(h, m, sec);
    assert forall k :: 0 <= k < 8 ==> s[|marker| + k] == stamp[k];
  }
}
