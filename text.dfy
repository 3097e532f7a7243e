/** The operations of Python's `str` that the downloader front ends rely on:
    substring and prefix tests, `split(sep)[0]`, `strip()`, `lower()`,
    `str.split()` on whitespace, decimal conversion of integers and
    `os.path.join` on POSIX paths. */
module Text {
  import opened Wrappers

  /** The characters Python's `str.strip()` and `str.split()` treat as
      blanks (the ASCII ones). */
  predicate IsSpace(c: char)
  {
    c == ' ' || c == '\t' || c == '\n' || c == '\r' || c == '\U{B}' || c == '\U{C}'
  }

  predicate IsDigit(c: char)
  {
    '0' <= c <= '9'
  }

  predicate StartsWith(s: string, p: string)
  {
    |p| <= |s| && s[..|p|] == p
  }

  predicate EndsWith(s: string, p: string)
  {
    |p| <= |s| && s[|s| - |p|..] == p
  }

  /** `w` occurs in `s` starting at index `i`. */
  predicate OccursAt(s: string, w: string, i: int)
  {
    0 <= i && i + |w| <= |s| && s[i..i + |w|] == w
  }

  /** The first index at or after `i` where `w` occurs in `s` (Python's `s.find(w, i)`). */
  function FindFrom(s: string, w: string, i: nat): (r: Option<nat>)
    requires i <= |s|
    ensures r.Some? ==> i <= r.value && OccursAt(s, w, r.value)
    decreases |s| - i
  {
    if OccursAt(s, w, i) then Some(i)
    else if i == |s| then None
    else FindFrom(s, w, i + 1)
  }

  /** No occurrence lies between `i` and the one found, and none at all
      after `i` when nothing is found. */
  lemma {:induction false} FindFromFirst(s: string, w: string, i: nat, j: nat)
    requires i <= |s| && i <= j
    ensures FindFrom(s, w, i).Some? && j < FindFrom(s, w, i).value ==> !OccursAt(s, w, j)
    ensures FindFrom(s, w, i).None? ==> !OccursAt(s, w, j)
    decreases |s| - i
  {
    if !OccursAt(s, w, i) && i < |s| && i < j {
      FindFromFirst(s, w, i + 1, j);
    }
  }

  function Find(s: string, w: string): (r: Option<nat>)
    ensures r.Some? ==> OccursAt(s, w, r.value)
  {
    FindFrom(s, w, 0)
  }

  /** No occurrence comes before the one `Find` gives, and none at all when it gives none. */
  lemma FindFirst(s: string, w: string, j: nat)
    ensures Find(s, w).Some? && j < Find(s, w).value ==> !OccursAt(s, w, j)
    ensures Find(s, w).None? ==> !OccursAt(s, w, j)
  {
    FindFromFirst(s, w, 0, j);
  }

  /** Python's `w in s`. */
  predicate Contains(s: string, w: string)
  {
    Find(s, w).Some?
  }

  lemma ContainsAt(s: string, w: string, i: int)
    requires OccursAt(s, w, i)
    ensures Contains(s, w)
  {
    FindFirst(s, w, i);
  }

  /** A word between two strings occurs in their concatenation. */
  lemma ContainsMiddle(a: string, w: string, b: string)
    ensures Contains(a + w + b, w)
  {
    assert (a + w + b)[|a|..|a| + |w|] == w;
    ContainsAt(a + w + b, w, |a|);
  }

  /** A character that appears nowhere in `s` is not a substring of it. */
  lemma CharAbsent(s: string, c: char)
    requires forall k :: 0 <= k < |s| ==> s[k] != c
    ensures !Contains(s, [c])
  {
    forall j | 0 <= j && j + 1 <= |s| ensures !OccursAt(s, [c], j) {
      assert s[j..j + 1][0] == s[j];
    }
  }

  /** A word found at the front of a suffix is found in the whole string. */
  lemma ContainsInSuffix(a: string, b: string, w: string)
    requires Contains(b, w)
    ensures Contains(a + b, w)
  {
    var i := Find(b, w).value;
    assert (a + b)[|a| + i..|a| + i + |w|] == b[i..i + |w|];
    ContainsAt(a + b, w, |a| + i);
  }

  lemma ContainsInPrefix(a: string, b: string, w: string)
    requires Contains(a, w)
    ensures Contains(a + b, w)
  {
    var i := Find(a, w).value;
    assert (a + b)[i..i + |w|] == a[i..i + |w|];
    ContainsAt(a + b, w, i);
  }

  /** Regrouping a concatenation, for sequences whose contents would be
      costly to compare element by element. */
  lemma AppendAssoc<T>(a: seq<T>, b: seq<T>, c: seq<T>)
    ensures a + b + c == a + (b + c)
  {
  }

  /** A word inside a part of `s` is inside `s`. */
  lemma ContainsTrans(s: string, t: string, w: string)
    requires Contains(s, t) && Contains(t, w)
    ensures Contains(s, w)
  {
    var i, j := Find(s, t).value, Find(t, w).value;
    assert OccursAt(s, t, i) && OccursAt(t, w, j);
    var u := s[i..i + |t|];
    assert u == t && t[j..j + |w|] == w;
    assert s[i + j..i + j + |w|] == u[j..j + |w|];
    assert OccursAt(s, w, i + j);
    ContainsAt(s, w, i + j);
  }

  /** A word that occurs in `a + b` occurs in `a`, or in `b`, or straddles the
      joint, in which case `b` starts with a proper, non-empty tail of the word. */
  lemma {:induction false} ContainsInConcat(a: string, b: string, w: string)
    requires Contains(a + b, w)
    ensures Contains(a, w) || Contains(b, w) || exists k :: 0 < k < |w| && StartsWith(b, w[k..]) && EndsWith(a, w[..k])
  {
    var i := Find(a + b, w).value;
    if i + |w| <= |a| {
      assert a[i..i + |w|] == (a + b)[i..i + |w|];
      ContainsAt(a, w, i);
    } else if |a| <= i {
      assert b[i - |a|..i - |a| + |w|] == (a + b)[i..i + |w|];
      ContainsAt(b, w, i - |a|);
    } else {
      Straddle(a, b, w, i);
    }
  }

  /** An occurrence across the joint of `a + b` leaves a head of the word at
      the end of `a` and the rest at the start of `b`. */
  lemma Straddle(a: string, b: string, w: string, i: nat)
    requires OccursAt(a + b, w, i) && i < |a| < i + |w|
    ensures var k := |a| - i; StartsWith(b, w[k..]) && EndsWith(a, w[..k])
  {
    var s, k := a + b, |a| - i;
    assert s[i..i + |w|] == w;
    assert b[..|w| - k] == s[|a|..i + |w|] == w[k..];
    assert a[|a| - k..] == s[i..|a|] == w[..k];
  }

  /** Python's `s.split(sep)[0]`: the text before the first `sep`. */
  function Before(s: string, sep: string): (r: string)
    requires sep != ""
    ensures StartsWith(s, r)
    ensures !Contains(r, sep)
    ensures Contains(s, sep) <==> r != s
    ensures Contains(s, sep) ==> OccursAt(s, sep, |r|)
  {
    match Find(s, sep)
    case Some(i) =>
      assert forall j :: 0 <= j < i ==> !OccursAt(s, sep, j) by {
        forall j | 0 <= j < i {
          FindFirst(s, sep, j);
        }
      }
      assert forall j :: OccursAt(s[..i], sep, j) ==> OccursAt(s, sep, j) by {
        forall j | OccursAt(s[..i], sep, j) ensures OccursAt(s, sep, j) {
          assert s[..i][j..j + |sep|] == s[j..j + |sep|];
        }
      }
      s[..i]
    case None => s
  }

  /** Python's `s.split(sep, 1)[1]` when `sep` occurs: the text after the first `sep`. */
  function After(s: string, sep: string): (r: string)
    requires sep != "" && Contains(s, sep)
    ensures EndsWith(s, r)
    ensures Before(s, sep) + sep + r == s
  {
    var i := Find(s, sep).value;
    assert s[..i] + sep + s[i + |sep|..] == s by {
      assert s[i..i + |sep|] == sep;
      assert s == s[..i] + s[i..i + |sep|] + s[i + |sep|..];
    }
    s[i + |sep|..]
  }

  /** A head free of a one-character separator, followed by the separator,
      splits back into the head and the rest. */
  lemma BeforeOfJoin(a: string, sep: string, b: string)
    requires |sep| == 1 && !Contains(a, sep)
    ensures Before(a + sep + b, sep) == a
    ensures After(a + sep + b, sep) == b
  {
    var s := a + sep + b;
    assert s[|a|..|a| + 1] == sep;
    ContainsAt(s, sep, |a|);
    forall j | 0 <= j < |a| ensures !OccursAt(s, sep, j) {
      assert s[j..j + 1] == a[j..j + 1];
      FindFirst(a, sep, j);
    }
    assert OccursAt(s, sep, |a|);
    FindFirst(s, sep, |a|);
    var i := Find(s, sep).value;
    assert !(i < |a|);
    assert i == |a|;
    assert s[..|a|] == a;
    assert s[|a| + 1..] == b;
  }

  /** Every character is a blank. */
  predicate Blank(s: string)
  {
    forall k :: 0 <= k < |s| ==> IsSpace(s[k])
  }

  function StripLeft(s: string): (r: string)
    ensures EndsWith(s, r)
    ensures r == [] || !IsSpace(r[0])
    ensures Blank(s[..|s| - |r|])
  {
    if s != [] && IsSpace(s[0]) then StripLeft(s[1..]) else s
  }

  function StripRight(s: string): (r: string)
    ensures StartsWith(s, r)
    ensures r == [] || !IsSpace(r[|r| - 1])
    ensures Blank(s[|r|..])
  {
    if s != [] && IsSpace(s[|s| - 1]) then StripRight(s[..|s| - 1]) else s
  }

  /** Python's `s.strip()`. */
  function Strip(s: string): string
  {
    StripRight(StripLeft(s))
  }

  /** A string is blank, in Python's sense `not s.strip()`, exactly when all
      its characters are blanks. */
  lemma {:induction false} StripEmptyIffBlank(s: string)
    ensures Strip(s) == [] <==> forall k :: 0 <= k < |s| ==> IsSpace(s[k])
  {
    var l := StripLeft(s);
    if l == [] {
      assert forall k :: 0 <= k < |s| ==> IsSpace(s[k]);
    } else {
      var r := StripRight(l);
      assert !IsSpace(l[0]);
      assert r != [];
      assert !IsSpace(s[|s| - |l|]);
    }
  }

  function LowerChar(c: char): char
  {
    if 'A' <= c <= 'Z' then (c as int - 'A' as int + 'a' as int) as char else c
  }

  /** Python's `s.lower()` on ASCII letters. */
  function Lower(s: string): (r: string)
    ensures |r| == |s|
    ensures forall k :: 0 <= k < |s| ==> r[k] == LowerChar(s[k])
  {
    seq(|s|, k requires 0 <= k < |s| => LowerChar(s[k]))
  }

  /** Lowering leaves a string that has no upper-case ASCII letter unchanged. */
  lemma LowerOfLower(s: string)
    requires forall k :: 0 <= k < |s| ==> !('A' <= s[k] <= 'Z')
    ensures Lower(s) == s
  {
  }

  function DigitChar(d: nat): (c: char)
    requires d < 10
    ensures IsDigit(c)
  {
    ('0' as int + d) as char
  }

  function DigitValue(c: char): (d: nat)
    requires IsDigit(c)
    ensures d < 10
  {
    c as int - '0' as int
  }

  /** Python's `str(n)` for a natural number. */
  function NatToString(n: nat): (r: string)
    ensures r != []
    ensures forall k :: 0 <= k < |r| ==> IsDigit(r[k])
    decreases n
  {
    if n < 10 then [DigitChar(n)] else NatToString(n / 10) + [DigitChar(n % 10)]
  }

  /** The value of a string of decimal digits, read left to right. */
  function DigitsValue(s: string): nat
    requires forall k :: 0 <= k < |s| ==> IsDigit(s[k])
  {
    if s == [] then 0
    else 10 * DigitsValue(s[..|s| - 1]) + DigitValue(s[|s| - 1])
  }

  /** Python's `int(s)` restricted to plain decimal digits: `None` for
      anything else (the `ValueError` path). */
  function ParseNat(s: string): (r: Option<nat>)
    ensures r.Some? <==> s != [] && forall k :: 0 <= k < |s| ==> IsDigit(s[k])
  {
    if s != [] && forall k :: 0 <= k < |s| ==> IsDigit(s[k]) then Some(DigitsValue(s)) else None
  }

  /** Printing a number and reading it back gives the number. */
  lemma {:induction false} ParseNatToString(n: nat)
    ensures ParseNat(NatToString(n)) == Some(n)
    decreases n
  {
    var s := NatToString(n);
    if n < 10 {
      assert s[..|s| - 1] == [];
      assert DigitsValue(s) == n;
    } else {
      ParseNatToString(n / 10);
      assert s[..|s| - 1] == NatToString(n / 10);
      assert DigitsValue(s) == 10 * (n / 10) + n % 10;
    }
  }

  /** Different numbers print differently. */
  lemma NatToStringInjective(m: nat, n: nat)
    requires NatToString(m) == NatToString(n)
    ensures m == n
  {
    ParseNatToString(m);
    ParseNatToString(n);
  }

  /** Python's `int(s)` for an optionally signed decimal number surrounded by
      blanks; `None` stands for `ValueError`. */
  function ParseInt(s: string): (r: Option<int>)
  {
    var t := Strip(s);
    if t != [] && t[0] == '-' then
      match ParseNat(t[1..])
      case Some(n) => Some(-(n as int))
      case None => None
    else if t != [] && t[0] == '+' then
      match ParseNat(t[1..])
      case Some(n) => Some(n)
      case None => None
    else
      match ParseNat(t)
      case Some(n) => Some(n)
      case None => None
  }

  /** Every number, printed, reads back through `int()`. */
  lemma ParseIntOfNat(n: nat)
    ensures ParseInt(NatToString(n)) == Some(n)
  {
    var s := NatToString(n);
    assert StripLeft(s) == s;
    assert StripRight(s) == s;
    ParseNatToString(n);
  }

  /** Python's `f"{n:02d}"`. */
  function Pad2(n: nat): (r: string)
    ensures |r| >= 2
    ensures forall k :: 0 <= k < |r| ==> IsDigit(r[k])
  {
    if n < 10 then "0" + NatToString(n) else NatToString(n)
  }

  lemma {:induction false} Pad2Value(n: nat)
    ensures DigitsValue(Pad2(n)) == n
  {
    ParseNatToString(n);
    if n < 10 {
      var r := Pad2(n);
      assert r[..1] == "0";
      assert r == [r[0], r[1]];
      assert DigitsValue(r[..1]) == 0 by {
        assert r[..1][..0] == [];
      }
    }
  }

  /** The number of leading characters of `s` that are not blanks. */
  function TokenLength(s: string): (k: nat)
    ensures k <= |s|
    ensures forall j :: 0 <= j < k ==> !IsSpace(s[j])
    ensures k < |s| ==> IsSpace(s[k])
  {
    if s == [] || IsSpace(s[0]) then 0 else 1 + TokenLength(s[1..])
  }

  /** A non-empty run of non-blank characters. */
  predicate IsWord(t: string)
  {
    t != [] && forall j :: 0 <= j < |t| ==> !IsSpace(t[j])
  }

  /** Python's `s.split()`: the maximal runs of non-blank characters, in order. */
  function SplitWs(s: string): (r: seq<string>)
    ensures forall t :: t in r ==> IsWord(t)
    decreases |s|
  {
    if s == [] then []
    else if IsSpace(s[0]) then SplitWs(s[1..])
    else
      var k := TokenLength(s);
      [s[..k]] + SplitWs(s[k..])
  }

  /** Joining the tokens with single spaces and splitting again gives the tokens back. */
  lemma {:induction false} SplitWsOfJoined(ts: seq<string>)
    requires forall t :: t in ts ==> IsWord(t)
    ensures SplitWs(JoinSpaces(ts)) == ts
  {
    if |ts| == 1 {
      assert ts[0] in ts;
      SplitWsOfWord(ts[0], "");
      assert ts[0] + "" == ts[0];
    } else if |ts| > 1 {
      var w, tail := ts[0], ts[1..];
      assert w in ts;
      assert forall t :: t in tail ==> t in ts;
      SplitWsOfJoined(tail);
      SplitWsOfSpaced(w, JoinSpaces(tail));
      assert ts == [w] + tail;
    }
  }

  /** A word and a space split off the word. */
  lemma SplitWsOfSpaced(w: string, rest: string)
    requires IsWord(w)
    ensures SplitWs(w + " " + rest) == [w] + SplitWs(rest)
  {
    var sr := " " + rest;
    SplitWsOfWord(w, sr);
    assert sr[1..] == rest;
    AppendAssoc(w, " ", rest);
  }

  /** A word followed by nothing or by a blank splits off as the first token. */
  lemma SplitWsOfWord(w: string, rest: string)
    requires IsWord(w)
    requires rest == [] || IsSpace(rest[0])
    ensures SplitWs(w + rest) == [w] + SplitWs(rest)
  {
    var s := w + rest;
    TokenLengthOfWord(w, rest);
    assert s[..|w|] == w;
    assert s[|w|..] == rest;
  }

  lemma {:induction false} TokenLengthOfWord(w: string, rest: string)
    requires forall j :: 0 <= j < |w| ==> !IsSpace(w[j])
    requires rest == [] || IsSpace(rest[0])
    ensures TokenLength(w + rest) == |w|
    decreases |w|
  {
    if w != [] {
      assert (w + rest)[1..] == w[1..] + rest;
      TokenLengthOfWord(w[1..], rest);
    } else {
      assert w + rest == rest;
    }
  }

  /** The inverse of `SplitWs` on well-formed tokens: `" ".join(ts)`. */
  function JoinSpaces(ts: seq<string>): string
  {
    if ts == [] then ""
    else if |ts| == 1 then ts[0]
    else ts[0] + " " + JoinSpaces(ts[1..])
  }

  /** `s.split(c)[-1]`: the text after the last `c`, or all of `s`. */
  function AfterLast(s: string, c: char): (r: string)
    ensures EndsWith(s, r)
    ensures forall k :: 0 <= k < |r| ==> r[k] != c
    ensures (forall k :: 0 <= k < |s| ==> s[k] != c) ==> r == s
    decreases |s|
  {
    if s == [] then []
    else if s[|s| - 1] == c then []
    else
      var r := AfterLast(s[..|s| - 1], c) + [s[|s| - 1]];
      assert EndsWith(s, r) by {
        var p := AfterLast(s[..|s| - 1], c);
        assert s[..|s| - 1][|s| - 1 - |p|..] == p;
        assert s[|s| - |r|..] == s[..|s| - 1][|s| - 1 - |p|..] + [s[|s| - 1]];
      }
      r
  }

  lemma EndsWithOfJoin(a: string, b: string)
    ensures EndsWith(a + b, b)
  {
    assert (a + b)[|a|..] == b;
  }

  /** A suffix of a suffix is a suffix. */
  lemma EndsWithTrans(s: string, t: string, u: string)
    requires EndsWith(s, t) && EndsWith(t, u)
    ensures EndsWith(s, u)
  {
    assert s[|s| - |u|..] == s[|s| - |t|..][|t| - |u|..];
  }

  /** `n // d`, by repeated subtraction. */
  function Quotient(n: nat, d: nat): nat
    requires d > 0
    decreases n
  {
    if n < d then 0 else 1 + Quotient(n - d, d)
  }

  /** `int(part / whole * 100)` on counts: the percentage of `whole` that
      `part` makes, rounded down. */
  function Percent(part: nat, whole: nat): nat
    requires whole > 0
  {
    Quotient(part * 100, whole)
  }

  /** The quotient is the floor of the exact ratio. */
  lemma {:induction false} QuotientIsFloor(n: nat, d: nat)
    requires d > 0
    ensures Quotient(n, d) * d <= n < (Quotient(n, d) + 1) * d
    decreases n
  {
    if n >= d {
      QuotientIsFloor(n - d, d);
      var q := Quotient(n - d, d);
      assert (q + 1) * d == q * d + d;
      assert (q + 2) * d == (q + 1) * d + d;
    }
  }

  /** The percentage is the floor of `100 * part / whole`, and a part no
      larger than the whole gives at most 100. */
  lemma PercentIsFloor(part: nat, whole: nat)
    requires whole > 0
    ensures Percent(part, whole) * whole <= part * 100 < (Percent(part, whole) + 1) * whole
    ensures part <= whole ==> Percent(part, whole) <= 100
  {
    QuotientIsFloor(part * 100, whole);
    var p := Percent(part, whole);
    if part <= whole {
      assert p * whole <= 100 * whole;
      CancelFactor(p, 100, whole);
    }
  }

  lemma CancelFactor(a: nat, b: nat, c: nat)
    requires c > 0 && a * c <= b * c
    ensures a <= b
  {
  }

  /** `os.path.join(a, b)` on POSIX paths. */
  function PathJoin(a: string, b: string): (r: string)
    ensures EndsWith(r, b)
    ensures !IsAbsolute(b) && a != [] ==> StartsWith(r, a)
  {
    if IsAbsolute(b) || a == [] then b
    else
      var r := if a[|a| - 1] == '/' then a + b else a + "/" + b;
      assert r[..|a|] == a && r[|r| - |b|..] == b;
      r
  }

  /** The path starts at the root. */
  predicate IsAbsolute(p: string)
  {
    p != [] && p[0] == '/'
  }
}
