/** The file-name filter shared, character for character, by the two command
    line front ends: a substitution of unsafe characters, a length cap and a
    fallback name for blank results. */
module Sanitize {
  import opened Text

  /** The longest name the filter lets through. */
  const MaxLength: nat := 255

  /** The name used when nothing printable is left. */
  const Fallback: string := "downloaded_media"

  /** A word character of the regular expression `\w`, in its ASCII reading. */
  predicate IsWordChar(c: char)
  {
    'a' <= c <= 'z' || 'A' <= c <= 'Z' || '0' <= c <= '9' || c == '_'
  }

  /** The characters the class `[\w\-_\. ]` keeps. */
  predicate Allowed(c: char)
  {
    IsWordChar(c) || c == '-' || c == '_' || c == '.' || c == ' '
  }

  /** The regular-expression substitution: every character outside the class
      becomes `_`, one character for one. */
  function Substitute(s: string): (r: string)
    ensures |r| == |s|
    ensures forall k :: 0 <= k < |s| ==> r[k] == (if Allowed(s[k]) then s[k] else '_')
  {
    seq(|s|, k requires 0 <= k < |s| => if Allowed(s[k]) then s[k] else '_')
  }

  /** The whole filter. */
  function SanitizeFilename(name: string): (r: string)
    ensures |r| <= MaxLength
    ensures forall k :: 0 <= k < |r| ==> Allowed(r[k])
    ensures Strip(r) != []
  {
    var t := Substitute(name);
    var cut := if |t| > MaxLength then t[..MaxLength] else t;
    if Strip(cut) == [] then Fallback else cut
  }

  /** Unless the fallback applies, the result is the substituted name cut to
      its first 255 characters, so a short name keeps its length and each of
      its allowed characters. */
  lemma SanitizeIsTruncatedSubstitution(name: string)
    ensures var n := if |name| > MaxLength then MaxLength else |name|;
            SanitizeFilename(name) == Fallback || SanitizeFilename(name) == Substitute(name)[..n]
    ensures |name| <= MaxLength && SanitizeFilename(name) != Fallback ==>
              |SanitizeFilename(name)| == |name| &&
              forall k :: 0 <= k < |name| && Allowed(name[k]) ==> SanitizeFilename(name)[k] == name[k]
  {
  }

  /** The fallback is taken exactly when the cut, substituted name is blank,
      that is, made of blanks only. */
  lemma {:induction false} SanitizeFallbackIffBlank(name: string)
    ensures var t := Substitute(name);
            var cut := if |t| > MaxLength then t[..MaxLength] else t;
            (forall k :: 0 <= k < |cut| ==> IsSpace(cut[k])) ==> SanitizeFilename(name) == Fallback
    ensures var t := Substitute(name);
            var cut := if |t| > MaxLength then t[..MaxLength] else t;
            (exists k :: 0 <= k < |cut| && !IsSpace(cut[k])) ==> SanitizeFilename(name) == cut
  {
    var t := Substitute(name);
    var cut := if |t| > MaxLength then t[..MaxLength] else t;
    StripEmptyIffBlank(cut);
  }

  /** A string the substitution leaves unchanged. */
  lemma SubstituteFixed(s: string)
    requires forall k :: 0 <= k < |s| ==> Allowed(s[k])
    ensures Substitute(s) == s
  {
  }

  /** Sanitising twice is sanitising once. */
  lemma SanitizeIdempotent(name: string)
    ensures SanitizeFilename(SanitizeFilename(name)) == SanitizeFilename(name)
  {
    var r := SanitizeFilename(name);
    SubstituteFixed(r);
  }
}
