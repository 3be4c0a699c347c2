/** Abbreviation of a string to a maximum length (pkg/strings/strings.go). */
module Strings {
  import opened Wrappers
  import opened StringOps

  /**
   * Ellipsis: `s` cut down to at most `max` characters. Up to four characters it is a plain
   * cut (Go's `s[:max]`, which panics unless 0 <= max <= len(s)); beyond that a string that
   * does not fit keeps its first max-3 characters followed by "...".
   */
  function Ellipsis(s: string, max: int): (r: string)
    requires max <= 4 ==> 0 <= max <= |s|
    ensures |r| == if |s| <= max then |s| else max
    ensures |s| <= max ==> r == s
    ensures max <= 4 ==> HasPrefix(s, r)
    ensures 4 < max < |s| ==> HasSuffix(r, "...") && HasPrefix(s, r[..max - 3])
  {
    if max <= 4 then s[..max]
    else if |s| <= max then s
    else
      var offset := max - 3;
      s[..offset] + "..."
  }

  /** Abbreviating an abbreviation with the same maximum changes nothing. */
  lemma EllipsisIdempotent(s: string, max: int)
    requires max <= 4 ==> 0 <= max <= |s|
    ensures var r := Ellipsis(s, max);
      (max <= 4 ==> 0 <= max <= |r|) && Ellipsis(r, max) == r
  {
  }

  /** The cases of the package's tests. */
  lemma EllipsisExamples()
    ensures Ellipsis("", 0) == ""
    ensures Ellipsis("12345", 4) == "1234"
    ensures Ellipsis("1234567890", 10) == "1234567890"
    ensures Ellipsis("1234", 10) == "1234"
    ensures Ellipsis("aaaaaaaaaa1", 10) == "aaaaaaa..."
    ensures Ellipsis("aaaaaaaaaa12", 10) == "aaaaaaa..."
    ensures Ellipsis("aaaaaaaaaa123", 10) == "aaaaaaa..."
    ensures Ellipsis("aaaaaaaaaa1234", 10) == "aaaaaaa..."
  {
  }

  /**
   * Ellipsis as Go runs it, with the panic of `s[:max]` made visible: None when Go panics,
   * which for max <= 4 happens whenever `s` is shorter than max (or max is negative).
   */
  function EllipsisAsWritten(s: string, max: int): (r: Option<string>)
    ensures r.None? <==> max <= 4 && !(0 <= max <= |s|)
    ensures r.Some? ==> r.value == Ellipsis(s, max)
  {
    if max <= 4 && !(0 <= max <= |s|) then None else Some(Ellipsis(s, max))
  }

  /** A two-character string abbreviated to three characters makes Go panic instead of fitting. */
  lemma ShortStringPanics()
    ensures EllipsisAsWritten("ab", 3) == None
    ensures EllipsisAsWritten("abcde", 3) == Some("abc")
  {
    assert "abcde"[..3] == "abc";
  }

  /**
   * The evident intent: a string that fits is returned unchanged whatever the maximum, so
   * only a string longer than max is cut.
   */
  function EllipsisFixed(s: string, max: nat): (r: string)
    ensures |r| <= max || r == s
    ensures |s| <= max ==> r == s
    ensures |s| > max ==> |r| == max
    ensures max <= 4 ==> HasPrefix(s, r)
    ensures 4 < max < |s| ==> HasSuffix(r, "...") && HasPrefix(s, r[..max - 3])
  {
    if |s| <= max then s
    else if max <= 4 then s[..max]
    else s[..max - 3] + "..."
  }

  /** The corrected function never fails and agrees with Go wherever Go does not panic. */
  lemma EllipsisFixedAgrees(s: string, max: nat)
    ensures EllipsisAsWritten(s, max).Some? ==> EllipsisFixed(s, max) == EllipsisAsWritten(s, max).value
    ensures EllipsisAsWritten(s, max).None? ==> EllipsisFixed(s, max) == s
  {
  }
}
