/**
 * Error values with a cause chain (pkg/errors/format.go): the traced error's message
 * composition, the nil behaviour of the wrapping constructors, and Cause, which follows
 * cause links to the innermost error. An `error` that may be nil is an Option<Error>.
 */
module Errors {
  import opened Wrappers

  /**
   * An error: a tracedError of this package (an optional cause and a message, possibly empty),
   * or an error from elsewhere with its text and, when its type has a Cause method, what
   * that method returns.
   */
  datatype Error =
    | Traced(cause: Option<Error>, message: string)
    | Foreign(text: string, foreignCause: Option<Error>)
  {
    /** Error(): the message, then the cause's text, separated by ": " when both are there. */
    function Error(): string {
      match this
      case Foreign(text, _) => text
      case Traced(cause, message) =>
        var hasMessage := |message| > 0;
        var hasCause := cause.Some?;
        if hasMessage && hasCause then message + ": " + cause.value.Error()
        else if hasMessage && !hasCause then message
        else if !hasMessage && hasCause then cause.value.Error()
        else ""
    }

    /** What the WithCause interface reports; None for errors without a Cause method. */
    function Cause(): Option<Error> {
      match this
      case Traced(cause, _) => cause
      case Foreign(_, foreignCause) => foreignCause
    }
  }

  /** Wrapf: wraps a non-nil error with an (already formatted) message; nil stays nil. */
  function Wrapf(e: Option<Error>, message: string): (r: Option<Error>)
    ensures r.None? <==> e.None?
    ensures r.Some? ==> r.value.Cause() == e
    ensures r.Some? && message != "" ==> r.value.Error() == message + ": " + e.value.Error()
    ensures r.Some? && message == "" ==> r.value.Error() == e.value.Error()
  {
    if e.None? then None else Some(Traced(e, message))
  }

  /** Wrap: wraps a non-nil error without adding text; nil stays nil. */
  function Wrap(e: Option<Error>): (r: Option<Error>)
    ensures r.None? <==> e.None?
    ensures r.Some? ==> r.value.Cause() == e && r.value.Error() == e.value.Error()
  {
    if e.None? then None else Some(Traced(e, ""))
  }

  /** New: an error with the given message and no cause. */
  function New(message: string): (r: Error)
    ensures r.Cause() == None && r.Error() == message
  {
    Traced(None, message)
  }

  /**
   * Errorf: an error whose cause is the formatted error fmt.Errorf makes (it has no Cause
   * method) and whose own message is empty, so its text is the formatted text.
   */
  function Errorf(formatted: string): (r: Error)
    ensures r.Error() == formatted
    ensures r.Traced? && r.message == ""
    ensures r.Cause() == Some(Foreign(formatted, None))
    ensures r.Cause().value.Error() == formatted && r.Cause().value.Cause() == None
  {
    Traced(Some(Foreign(formatted, None)), "")
  }

  /** The end of the cause chain of `e`: the first error along it that reports no cause. */
  function Innermost(e: Error): (r: Error)
    ensures r.Cause() == None
  {
    match e.Cause()
    case None => e
    case Some(c) => Innermost(c)
  }

  /** Cause: follows cause links until an error without a cause; nil gives nil. */
  method Cause(err: Option<Error>) returns (r: Option<Error>)
    ensures r.None? <==> err.None?
    ensures r.Some? ==> r.value.Cause() == None
    ensures r.Some? ==> r.value == Innermost(err.value)
    ensures err.Some? && err.value.Cause() == None ==> r == err
  {
    r := err;
    while r.Some?
      invariant r.None? <==> err.None?
      invariant r.Some? ==> Innermost(r.value) == Innermost(err.value)
      decreases r
    {
      var cause := r.value.Cause();
      if cause.None? {
        break;
      }
      r := cause;
    }
  }

  /** `e` wrapped by Wrapf once per message, the first message innermost. */
  function WrapAll(e: Error, messages: seq<string>): Error
    decreases |messages|
  {
    if messages == [] then e
    else Wrapf(Some(WrapAll(e, messages[..|messages| - 1])), messages[|messages| - 1]).value
  }

  /** The messages outermost first, each followed by ": ". */
  function OutermostFirst(messages: seq<string>): string
    decreases |messages|
  {
    if messages == [] then ""
    else messages[|messages| - 1] + ": " + OutermostFirst(messages[..|messages| - 1])
  }

  /**
   * A chain of Wrapf calls with non-empty messages reads outermost message first, down to the
   * wrapped error's own text.
   */
  lemma {:induction false} WrapChain(e: Error, messages: seq<string>)
    requires forall i :: 0 <= i < |messages| ==> messages[i] != ""
    ensures WrapAll(e, messages).Error() == OutermostFirst(messages) + e.Error()
    decreases |messages|
  {
    if messages != [] {
      var init := messages[..|messages| - 1];
      forall i | 0 <= i < |init| ensures init[i] != "" {
        assert init[i] == messages[i];
      }
      WrapChain(e, init);
      assert WrapAll(e, messages).Error() == messages[|messages| - 1] + ": " + WrapAll(e, init).Error();
    }
  }

  /** Wrapping never changes the innermost cause. */
  lemma {:induction false} WrapChainInnermost(e: Error, messages: seq<string>)
    ensures Innermost(WrapAll(e, messages)) == Innermost(e)
    decreases |messages|
  {
    if messages != [] {
      WrapChainInnermost(e, messages[..|messages| - 1]);
    }
  }

  /** The package example: outer(middle(inner(New("error")))). */
  lemma WrapExample()
    ensures var e1 := New("error");
      var e := Wrapf(Wrapf(Wrapf(Some(e1), "inner"), "middle"), "outer");
      && e.Some?
      && e.value.Error() == "outer: middle: inner: error"
      && Innermost(e.value) == e1
  {
    var e1 := New("error");
    var inner := Wrapf(Some(e1), "inner");
    var middle := Wrapf(inner, "middle");
    var outer := Wrapf(middle, "outer");
    assert inner.value.Error() == "inner: error";
    assert middle.value.Error() == "middle: " + "inner: error";
    ExampleText();
    assert Innermost(inner.value) == e1;
  }

  lemma ExampleText()
    ensures "outer: " + ("middle: " + "inner: error") == "outer: middle: inner: error"
  {
  }
}
