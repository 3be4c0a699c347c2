/**
 * The template renderer's configuration (pkg/renderer/render.go, pkg/renderer/config/config.go):
 * default construction, ordered reconfiguration, validation, and the validation gate in front
 * of rendering. Parsing and executing the template belong to text/template and are a
 * parameter here.
 */
module Renderer {
  import opened Wrappers

  const MissingKeyInvalidOption := "missingkey=invalid"
  const MissingKeyErrorOption := "missingkey=error"
  const MissingKeyZeroOption := "missingkey=zero"
  const DefaultLeftDelim := "{{"
  const DefaultRightDelim := "}}"

  /** The renderer's configuration; the parameter map may be nil. */
  datatype Config = Config(
    parameters: Option<map<string, string>>,
    options: seq<string>,
    leftDelim: string,
    rightDelim: string)

  /** The configuration New starts from. */
  const Defaults := Config(Some(map[]), [MissingKeyErrorOption], DefaultLeftDelim, DefaultRightDelim)

  /**
   * A configurator, the `func(*config.Config)` New and Reconfigure take: one made by
   * WithParameters, WithOptions or WithDelim, or any other function of the caller's.
   */
  datatype Configurator =
    | WithParameters(parameters: Option<map<string, string>>)
    | WithOptions(options: seq<string>)
    | WithDelim(left: string, right: string)
    | Custom(update: Config -> Config)

  /**
   * What one configurator does to a configuration: a With* setter overwrites its own fields
   * only; any other configurator makes whatever change it makes.
   */
  function Apply(c: Config, f: Configurator): (r: Config)
    ensures f.WithParameters? ==> r == c.(parameters := f.parameters)
    ensures f.WithOptions? ==> r == c.(options := f.options)
    ensures f.WithDelim? ==> r == c.(leftDelim := f.left, rightDelim := f.right)
    ensures f.Custom? ==> r == f.update(c)
  {
    match f
    case WithParameters(p) => c.(parameters := p)
    case WithOptions(o) => c.(options := o)
    case WithDelim(l, r) => c.(leftDelim := l, rightDelim := r)
    case Custom(update) => update(c)
  }

  /** The configurators applied in argument order. */
  function ApplyAll(c: Config, fs: seq<Configurator>): Config
    decreases |fs|
  {
    if fs == [] then c else Apply(ApplyAll(c, fs[..|fs| - 1]), fs[|fs| - 1])
  }

  const NilParameters := "unexpected 'nil' parameters"
  const EmptyLeftDelim := "unexpected empty leftDelim"
  const EmptyRightDelim := "unexpected empty rightDelim"

  function UnexpectedOption(o: string): string {
    "unexpected option: '" + o + "', option must be in: '" + MissingKeyInvalidOption + ", " + MissingKeyErrorOption + "'"
  }

  predicate KnownOption(o: string) {
    o == MissingKeyErrorOption || o == MissingKeyInvalidOption
  }

  /** The complaint about the first option that is not a known one, if any. */
  function FirstBadOption(options: seq<string>): Option<string>
    decreases |options|
  {
    if options == [] then None
    else if KnownOption(options[0]) then FirstBadOption(options[1..])
    else Some(UnexpectedOption(options[0]))
  }

  /** The error Validate reports for a configuration, in the order the checks are made. */
  function Validation(c: Config): Option<string> {
    if c.parameters.None? then Some(NilParameters)
    else if |c.leftDelim| == 0 then Some(EmptyLeftDelim)
    else if |c.rightDelim| == 0 then Some(EmptyRightDelim)
    else FirstBadOption(c.options)
  }

  /** The template engine: parses and executes a named template under a configuration. */
  type Engine = (string, string, Config) -> Result<string, string>

  class Renderer {
    var config: Config

    /** New: the defaults, then the configurators in order. */
    constructor (configurators: seq<Configurator>)
      ensures config == ApplyAll(Defaults, configurators)
    {
      config := Defaults;
      new;
      Reconfigure(configurators);
    }

    /** Reconfigure: applies the configurators to the current configuration in argument order. */
    method Reconfigure(configurators: seq<Configurator>)
      modifies this
      ensures config == ApplyAll(old(config), configurators)
    {
      ghost var start := config;
      for i := 0 to |configurators|
        invariant config == ApplyAll(start, configurators[..i])
      {
        assert configurators[..i + 1][..i] == configurators[..i];
        config := Apply(config, configurators[i]);
      }
      assert configurators[..|configurators|] == configurators;
    }

    /** Validate: the parameters, then the delimiters, then each option in turn. */
    method Validate() returns (err: Option<string>)
      ensures err == Validation(config)
    {
      if config.parameters.None? {
        return Some(NilParameters);
      }
      if |config.leftDelim| == 0 {
        return Some(EmptyLeftDelim);
      }
      if |config.rightDelim| == 0 {
        return Some(EmptyRightDelim);
      }
      var options := config.options;
      for i := 0 to |options|
        invariant FirstBadOption(options) == FirstBadOption(options[i..])
      {
        assert options[i..][1..] == options[i + 1..];
        var o := options[i];
        if o != MissingKeyErrorOption && o != MissingKeyInvalidOption {
          return Some(UnexpectedOption(o));
        }
      }
      return None;
    }

    /** NamedRender: an invalid configuration fails before the engine is consulted. */
    method NamedRender(templateName: string, rawTemplate: string, engine: Engine) returns (out: string, err: Option<string>)
      ensures Validation(config).Some? ==> out == "" && err == Validation(config)
      ensures Validation(config).None? && engine(templateName, rawTemplate, config).Ok? ==>
        out == engine(templateName, rawTemplate, config).value && err.None?
      ensures Validation(config).None? && engine(templateName, rawTemplate, config).Err? ==>
        out == "" && err == Some(engine(templateName, rawTemplate, config).error)
    {
      var invalid := Validate();
      if invalid.Some? {
        return "", invalid;
      }
      match engine(templateName, rawTemplate, config)
      case Ok(text) => return text, None;
      case Err(e) => return "", Some(e);
    }

    /** Render: NamedRender under the name "nameless". */
    method Render(rawTemplate: string, engine: Engine) returns (out: string, err: Option<string>)
      ensures Validation(config).Some? ==> out == "" && err == Validation(config)
      ensures Validation(config).None? && engine("nameless", rawTemplate, config).Ok? ==>
        out == engine("nameless", rawTemplate, config).value && err.None?
      ensures Validation(config).None? && engine("nameless", rawTemplate, config).Err? ==>
        out == "" && err == Some(engine("nameless", rawTemplate, config).error)
    {
      out, err := NamedRender("nameless", rawTemplate, engine);
    }
  }

  /** Configuring in two steps is configuring once with both lists, in order. */
  lemma {:induction false} ApplyAllAppend(c: Config, a: seq<Configurator>, b: seq<Configurator>)
    ensures ApplyAll(c, a + b) == ApplyAll(ApplyAll(c, a), b)
    decreases |b|
  {
    if b == [] {
      assert a + b == a;
    } else {
      assert (a + b)[..|a + b| - 1] == a + b[..|b| - 1];
      ApplyAllAppend(c, a, b[..|b| - 1]);
    }
  }

  /** Two configurators set the same fields. */
  predicate SameSetter(f: Configurator, g: Configurator) {
    (f.WithParameters? && g.WithParameters?) || (f.WithOptions? && g.WithOptions?) || (f.WithDelim? && g.WithDelim?)
  }

  /** A field that neither a setter of the list nor a custom configurator in it sets keeps its value. */
  lemma {:induction false} ApplyAllKeeps(c: Config, fs: seq<Configurator>)
    ensures (forall i :: 0 <= i < |fs| ==> !fs[i].WithParameters? && !fs[i].Custom?) ==>
      ApplyAll(c, fs).parameters == c.parameters
    ensures (forall i :: 0 <= i < |fs| ==> !fs[i].WithOptions? && !fs[i].Custom?) ==>
      ApplyAll(c, fs).options == c.options
    ensures (forall i :: 0 <= i < |fs| ==> !fs[i].WithDelim? && !fs[i].Custom?) ==>
      ApplyAll(c, fs).leftDelim == c.leftDelim && ApplyAll(c, fs).rightDelim == c.rightDelim
    decreases |fs|
  {
    if fs != [] {
      ApplyAllKeeps(c, fs[..|fs| - 1]);
    }
  }

  /**
   * For each field the last configurator that sets it decides its value, as long as no
   * custom configurator comes after it.
   */
  lemma LastSetterWins(c: Config, before: seq<Configurator>, f: Configurator, after: seq<Configurator>)
    requires forall i :: 0 <= i < |after| ==> !SameSetter(after[i], f) && !after[i].Custom?
    ensures var r := ApplyAll(c, before + [f] + after);
      && (f.WithParameters? ==> r.parameters == f.parameters)
      && (f.WithOptions? ==> r.options == f.options)
      && (f.WithDelim? ==> r.leftDelim == f.left && r.rightDelim == f.right)
  {
    ApplyAllAppend(c, before + [f], after);
    assert (before + [f])[..|before + [f]| - 1] == before;
    ApplyAllKeeps(ApplyAll(c, before + [f]), after);
  }

  /** The options pass exactly when each one is missingkey=error or missingkey=invalid. */
  lemma {:induction false} FirstBadOptionNone(options: seq<string>)
    ensures FirstBadOption(options).None? <==> forall i :: 0 <= i < |options| ==> KnownOption(options[i])
    decreases |options|
  {
    if options != [] {
      FirstBadOptionNone(options[1..]);
      assert forall i :: 1 <= i < |options| ==> options[1..][i - 1] == options[i];
    }
  }

  /** A failing option check names the first option that is not a known one. */
  lemma {:induction false} FirstBadOptionNames(options: seq<string>)
    requires FirstBadOption(options).Some?
    ensures exists i :: (0 <= i < |options| && !KnownOption(options[i])
      && (forall j :: 0 <= j < i ==> KnownOption(options[j]))
      && FirstBadOption(options) == Some(UnexpectedOption(options[i])))
    decreases |options|
  {
    if KnownOption(options[0]) {
      FirstBadOptionNames(options[1..]);
      var i :| 0 <= i < |options[1..]| && !KnownOption(options[1..][i])
        && (forall j :: 0 <= j < i ==> KnownOption(options[1..][j]))
        && FirstBadOption(options[1..]) == Some(UnexpectedOption(options[1..][i]));
      assert forall j :: 1 <= j < i + 1 ==> options[j] == options[1..][j - 1];
      assert !KnownOption(options[i + 1]);
    } else {
      assert !KnownOption(options[0]);
    }
  }

  /**
   * Validate passes exactly a configuration with parameters, both delimiters and only known
   * options; nil parameters are reported before delimiters, an empty left delimiter before
   * an empty right one, and both before any option.
   */
  lemma ValidationRules(c: Config)
    ensures Validation(c).None? <==>
      c.parameters.Some? && |c.leftDelim| > 0 && |c.rightDelim| > 0
      && forall i :: 0 <= i < |c.options| ==> KnownOption(c.options[i])
    ensures c.parameters.None? ==> Validation(c) == Some(NilParameters)
    ensures c.parameters.Some? && |c.leftDelim| == 0 ==> Validation(c) == Some(EmptyLeftDelim)
    ensures c.parameters.Some? && |c.leftDelim| > 0 && |c.rightDelim| == 0 ==> Validation(c) == Some(EmptyRightDelim)
  {
    FirstBadOptionNone(c.options);
  }

  /** The list of accepted options as the complaint spells it. */
  lemma AcceptedOptionsText()
    ensures MissingKeyInvalidOption + ", " + MissingKeyErrorOption == "missingkey=invalid, missingkey=error"
  {
    assert MissingKeyInvalidOption + ", " == "missingkey=invalid, ";
  }

  /** The complaint about an option, with the list of accepted options written out. */
  lemma UnexpectedOptionText(o: string)
    ensures UnexpectedOption(o)
         == "unexpected option: '" + o + "', option must be in: '" + "missingkey=invalid, missingkey=error" + "'"
  {
    AcceptedOptionsText();
  }

  /**
   * missingkey=zero is an option of text/template, but not one the renderer accepts: after a
   * known option it is the one reported.
   */
  lemma ZeroOptionRejected(c: Config)
    requires Validation(c.(options := [])).None?
    ensures Validation(c.(options := [MissingKeyErrorOption, MissingKeyZeroOption]))
         == Some("unexpected option: '" + "missingkey=zero" + "', option must be in: '" + "missingkey=invalid, missingkey=error" + "'")
  {
    var o := [MissingKeyErrorOption, MissingKeyZeroOption];
    assert o[1..] == [MissingKeyZeroOption];
    assert FirstBadOption(o) == FirstBadOption(o[1..]);
    assert !KnownOption(MissingKeyZeroOption);
    UnexpectedOptionText(MissingKeyZeroOption);
  }

  /** The default configuration validates, so a renderer built without configurators does. */
  lemma DefaultsValidate()
    ensures Validation(ApplyAll(Defaults, [])).None?
  {
    assert ApplyAll(Defaults, []) == Defaults;
    assert KnownOption(Defaults.options[0]);
    assert Defaults.options[1..] == [];
    assert FirstBadOption(Defaults.options) == FirstBadOption([]);
  }
}
