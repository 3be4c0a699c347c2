/** The JavaScript/JSON identifier check (pkg/check/check.go). */
module Check {
  import opened Wrappers

  /** The pattern the check matches against, anchored at both ends. */
  const JavaScriptIdentifierPattern := "^[a-zA-Z_$][a-zA-Z0-9_$]*$"

  /** The class [a-zA-Z_$]: what an identifier may start with. */
  predicate IsIdentStart(c: char) {
    ('a' <= c <= 'z') || ('A' <= c <= 'Z') || c == '_' || c == '$'
  }

  /** The class [a-zA-Z0-9_$]: what may follow. */
  predicate IsIdentPart(c: char) {
    IsIdentStart(c) || ('0' <= c <= '9')
  }

  /** The whole of `s` matches the pattern. */
  predicate MatchesPattern(s: string) {
    |s| > 0 && IsIdentStart(s[0]) && forall i :: 1 <= i < |s| ==> IsIdentPart(s[i])
  }

  /** The error raised for a value that does not match. */
  datatype InvalidJavaScriptIdentifier = InvalidJavaScriptIdentifier(text: string) {
    function Error(): string {
      "must be a valid JavaScript identifier, '" + text + "' does not match pattern '" + JavaScriptIdentifierPattern + "'"
    }
  }

  /** IsValidJavaScriptIdentifier: no error for a matching value, otherwise the error naming it. */
  function IsValidJavaScriptIdentifier(value: string): (r: Option<InvalidJavaScriptIdentifier>)
    ensures r.Some? ==> r.value.text == value
  {
    if !MatchesPattern(value) then Some(InvalidJavaScriptIdentifier(value)) else None
  }

  /**
   * An independent reading of the pattern: the three-state automaton a regular expression
   * engine would build for it (before the first character, inside an identifier, rejected).
   */
  datatype State = Start | Inside | Rejected

  function Step(q: State, c: char): State {
    match q
    case Start => if IsIdentStart(c) then Inside else Rejected
    case Inside => if IsIdentPart(c) then Inside else Rejected
    case Rejected => Rejected
  }

  /** The state reached after reading `s` from `q`. */
  function Run(q: State, s: string): State
    decreases |s|
  {
    if s == [] then q else Run(Step(q, s[0]), s[1..])
  }

  predicate Accepts(s: string) {
    Run(Start, s) == Inside
  }

  lemma {:induction false} RunRejected(s: string)
    ensures Run(Rejected, s) == Rejected
    decreases |s|
  {
    if s != [] {
      RunRejected(s[1..]);
    }
  }

  /** From inside an identifier the automaton stays there exactly while characters are [a-zA-Z0-9_$]. */
  lemma {:induction false} RunInside(s: string)
    ensures Run(Inside, s) == Inside <==> forall i :: 0 <= i < |s| ==> IsIdentPart(s[i])
    decreases |s|
  {
    if s != [] {
      RunInside(s[1..]);
      if !IsIdentPart(s[0]) {
        RunRejected(s[1..]);
      }
      assert forall i :: 1 <= i < |s| ==> s[1..][i - 1] == s[i];
    }
  }

  /** The check accepts exactly what the automaton accepts, in both directions. */
  lemma CheckIsAutomaton(value: string)
    ensures IsValidJavaScriptIdentifier(value).None? <==> Accepts(value)
  {
    if value != [] {
      RunInside(value[1..]);
      if !IsIdentStart(value[0]) {
        RunRejected(value[1..]);
      }
      assert forall i :: 1 <= i < |value| ==> value[1..][i - 1] == value[i];
    }
  }

  /** The values the package's tests accept. */
  lemma AcceptedExamples()
    ensures IsValidJavaScriptIdentifier("simpleName").None?
    ensures IsValidJavaScriptIdentifier("$").None?
    ensures IsValidJavaScriptIdentifier("_").None?
    ensures IsValidJavaScriptIdentifier("$_").None?
    ensures IsValidJavaScriptIdentifier("_$").None?
    ensures IsValidJavaScriptIdentifier("$$_1cOmPlEx0_$$_").None?
  {
  }

  /** The values the package's tests reject. */
  lemma RejectedExamples()
    ensures IsValidJavaScriptIdentifier("") == Some(InvalidJavaScriptIdentifier(""))
    ensures IsValidJavaScriptIdentifier("invalid-with-dash") == Some(InvalidJavaScriptIdentifier("invalid-with-dash"))
    ensures IsValidJavaScriptIdentifier("123notSoGood") == Some(InvalidJavaScriptIdentifier("123notSoGood"))
  {
    assert "invalid-with-dash"[7] == '-';
  }

  /** The error text, with the pattern written out. */
  lemma ErrorText(text: string)
    ensures InvalidJavaScriptIdentifier(text).Error()
         == "must be a valid JavaScript identifier, '" + text + "' does not match pattern '^[a-zA-Z_$][a-zA-Z0-9_$]*$'"
  {
    PatternText();
    assert InvalidJavaScriptIdentifier(text).Error()
        == "must be a valid JavaScript identifier, '" + text + ("' does not match pattern '" + (JavaScriptIdentifierPattern + "'"));
  }

  lemma PatternText()
    ensures "' does not match pattern '" + (JavaScriptIdentifierPattern + "'")
         == "' does not match pattern '^[a-zA-Z_$][a-zA-Z0-9_$]*$'"
  {
  }

  /** Any value holding '-' is rejected; so is any value starting with a digit. */
  lemma RejectsDashAndLeadingDigit(value: string)
    ensures (exists i :: 0 <= i < |value| && value[i] == '-') ==> IsValidJavaScriptIdentifier(value).Some?
    ensures |value| > 0 && '0' <= value[0] <= '9' ==> IsValidJavaScriptIdentifier(value).Some?
  {
  }
}
