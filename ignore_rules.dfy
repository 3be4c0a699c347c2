/**
 * The simple ignore rules of pkg/ignore/rules/simple: gitignore-like lines parsed into
 * "accepted" rules (lines starting with `!`) and "ignored" rules, and the matching of a
 * slash-separated relative path against them.
 */
module IgnoreRules {
  import opened Wrappers
  import opened StringOps

  /**
   * The glob engine the rules delegate to (filepath.Match). `matches(pattern, name)` is its
   * verdict and `wellFormed(pattern)` holds when it reports no ErrBadPattern for `pattern`.
   */
  datatype Glob = Glob(matches: (string, string) -> bool, wellFormed: string -> bool)

  /** The text of filepath.ErrBadPattern, the only error filepath.Match reports. */
  const BadPattern := "syntax error in pattern"

  /**
   * One parsed rule: the pattern without its surrounding slashes, whether it was anchored
   * at the root (leading `/`), whether it only applies to directories (trailing `/`), and
   * how many slashes a relative pattern contained.
   */
  datatype Rule = Rule(pattern: string, hasRootPrefix: bool, hasDirSuffix: bool, pathDepth: int)

  datatype Rules = Rules(accepted: seq<Rule>, ignored: seq<Rule>)

  /** parseRule: the rule for one pattern, together with the glob engine's verdict on it. */
  function ParseRule(pattern: string, glob: Glob): (Rule, Option<string>) {
    var hasRootPrefix := HasPrefix(pattern, "/");
    var hasDirSuffix := HasSuffix(pattern, "/");
    var pathDepth := if !hasRootPrefix then Count(pattern, '/') else 0;
    var trimmed := Trim(pattern, '/');
    (Rule(trimmed, hasRootPrefix, hasDirSuffix, pathDepth), ValidateMatch(trimmed, glob))
  }

  /**
   * What parseRule records: the root flag says the pattern starts with `/`, the directory flag
   * that it ends with `/`; a relative pattern's depth is one less than its number of segments
   * and a root-anchored one's is 0; the stored pattern is the original with its leading and
   * trailing slashes cut off; and the error is the glob engine's on that stored pattern.
   */
  lemma ParseRuleFields(pattern: string, glob: Glob)
    ensures var (rule, err) := ParseRule(pattern, glob);
      && (rule.hasRootPrefix <==> |pattern| > 0 && pattern[0] == '/')
      && (rule.hasDirSuffix <==> |pattern| > 0 && pattern[|pattern| - 1] == '/')
      && rule.pathDepth == (if rule.hasRootPrefix then 0 else |Split(pattern, '/')| - 1)
      && (|rule.pattern| > 0 ==> rule.pattern[0] != '/' && rule.pattern[|rule.pattern| - 1] != '/')
      && Frames(pattern, rule.pattern, |pattern| - |TrimLeftWhile(pattern, Is('/'))|, Is('/'))
      && (err == None <==> glob.wellFormed(rule.pattern))
      && (err != None ==> err == Some(BadPattern))
  {
    HasPrefixChar(pattern, '/');
    HasSuffixChar(pattern, '/');
    CountSplit(pattern, '/');
    TrimFrames(pattern, '/');
  }

  /** validateMatch: the glob engine's error for a pattern, if any. */
  function ValidateMatch(pattern: string, glob: Glob): Option<string> {
    if glob.wellFormed(pattern) then None else Some(BadPattern)
  }

  /** cutLastN: the last `n` slash-separated segments of `path`, joined by slashes. */
  function CutLastN(path: string, n: int): string {
    var parts := Split(path, '/');
    var count := |parts|;
    var keep := if n < 0 then 0 else n;
    if count > keep then Join(parts[count - keep..], '/') else path
  }

  /**
   * cutLastN keeps exactly the last min(n, segments) segments of the path and yields a
   * suffix of it: "" for n <= 0, the whole path once n reaches the segment count, and
   * otherwise a tail that the dropped head is joined to by one slash.
   */
  lemma CutLastNSegments(path: string, n: int)
    ensures var parts := Split(path, '/');
      var r := CutLastN(path, n);
      && (n <= 0 ==> r == "")
      && (n >= |parts| ==> r == path)
      && (n >= 1 ==> Split(r, '/') == parts[|parts| - Min(n, |parts|)..])
      && HasSuffix(path, r)
      && (1 <= n < |parts| ==> HasSuffix(path, ['/'] + r))
  {
    var parts := Split(path, '/');
    var count := |parts|;
    var r := CutLastN(path, n);
    if n >= count {
      assert r == path;
      assert parts[count - Min(n, count)..] == parts;
      assert path[0..] == path;
    } else if n <= 0 {
      assert parts[count..] == [];
      assert r == Join([], '/') == "";
    } else {
      CutLastNTail(path, n);
      CutLastNSuffix(path, n);
    }
  }

  /** The case of cutLastN that drops segments: the tail splits into the last n segments. */
  lemma CutLastNTail(path: string, n: int)
    requires 1 <= n < |Split(path, '/')|
    ensures Split(CutLastN(path, n), '/') == Split(path, '/')[|Split(path, '/')| - n..]
  {
    CutLastNDrops(path, n);
    SplitPieces(path, '/');
    TailSplits(Split(path, '/'), |Split(path, '/')| - n);
  }

  /** ... and it is joined to the dropped head by one slash. */
  lemma CutLastNSuffix(path: string, n: int)
    requires 1 <= n < |Split(path, '/')|
    ensures HasSuffix(path, ['/'] + CutLastN(path, n)) && HasSuffix(path, CutLastN(path, n))
  {
    CutLastNDrops(path, n);
    JoinTail(Split(path, '/'), |Split(path, '/')| - n);
    JoinSplit(path, '/');
    SuffixesTransfer(path, Join(Split(path, '/'), '/'), CutLastN(path, n),
      Join(Split(path, '/')[|Split(path, '/')| - n..], '/'));
  }

  lemma SuffixesTransfer(path: string, joined: string, cut: string, tail: string)
    requires joined == path && cut == tail
    requires HasSuffix(joined, ['/'] + tail) && HasSuffix(joined, tail)
    ensures HasSuffix(path, ['/'] + cut) && HasSuffix(path, cut)
  {
  }

  lemma CutLastNDrops(path: string, n: int)
    requires 0 <= n < |Split(path, '/')|
    ensures CutLastN(path, n) == Join(Split(path, '/')[|Split(path, '/')| - n..], '/')
  {
  }

  /** Past its first k pieces, a joined sequence ends with a slash and the join of the rest. */
  lemma JoinTail(parts: seq<string>, k: int)
    requires 1 <= k < |parts|
    ensures var r := Join(parts[k..], '/');
      HasSuffix(Join(parts, '/'), ['/'] + r) && HasSuffix(Join(parts, '/'), r)
  {
    var head, tail := parts[..k], parts[k..];
    assert head + tail == parts;
    JoinAppend(head, tail, '/');
    SlashSuffixes(Join(head, '/'), Join(tail, '/'));
  }

  /** The join of the last pieces of slash-free pieces splits back into them. */
  lemma TailSplits(parts: seq<string>, k: int)
    requires 0 <= k <= |parts| - 1
    requires forall i :: 0 <= i < |parts| ==> '/' !in parts[i]
    ensures Split(Join(parts[k..], '/'), '/') == parts[k..]
  {
    var tail := parts[k..];
    forall i | 0 <= i < |tail| ensures '/' !in tail[i] {
      assert tail[i] == parts[k + i];
    }
    SplitJoin(tail, '/');
  }

  /** Both `/r` and `r` end `a/r`. */
  lemma SlashSuffixes(a: string, r: string)
    ensures HasSuffix(a + ['/'] + r, ['/'] + r) && HasSuffix(a + ['/'] + r, r)
  {
    var s := a + ['/'] + r;
    assert s[|a|..] == ['/'] + r;
    assert s[|a| + 1..] == r;
  }

  function Min(a: int, b: int): int {
    if a <= b then a else b
  }

  /** The path a rule's glob is compared with: the whole path, or its last pathDepth+1 segments. */
  function Target(rule: Rule, path: string): string {
    if rule.hasRootPrefix then path else CutLastN(path, rule.pathDepth + 1)
  }

  /** rule.match: a directory rule never matches a non-directory; otherwise the glob decides. */
  predicate RuleMatches(rule: Rule, path: string, isDir: bool, glob: Glob) {
    if rule.hasDirSuffix && !isDir then false else glob.matches(rule.pattern, Target(rule, path))
  }

  /**
   * What a rule parsed from `pattern` compares: a root-anchored one the whole path, a relative
   * one the tail of the path with as many segments as `pattern` has (or the whole path when
   * the path is shorter); a directory rule never matches a non-directory.
   */
  lemma RuleTarget(pattern: string, path: string, isDir: bool, glob: Glob)
    ensures var rule := ParseRule(pattern, glob).0;
      var t := Target(rule, path);
      && (rule.hasDirSuffix && !isDir ==> !RuleMatches(rule, path, isDir, glob))
      && (rule.hasRootPrefix ==> t == path)
      && (!rule.hasRootPrefix ==>
            HasSuffix(path, t)
            && |Split(t, '/')| == Min(|Split(pattern, '/')|, |Split(path, '/')|)
            && Split(t, '/') == Split(path, '/')[|Split(path, '/')| - Min(|Split(pattern, '/')|, |Split(path, '/')|)..]
            && (|Split(pattern, '/')| >= |Split(path, '/')| ==> t == path))
  {
    var rule := ParseRule(pattern, glob).0;
    ParseRuleFields(pattern, glob);
    if !rule.hasRootPrefix {
      var k := |Split(pattern, '/')|;
      assert Target(rule, path) == CutLastN(path, k);
      CutLastNSegments(path, k);
    }
  }

  /** Whether some rule of the set matches (the specification of ruleSet.match). */
  predicate AnyMatches(rs: seq<Rule>, path: string, isDir: bool, glob: Glob) {
    exists i :: 0 <= i < |rs| && RuleMatches(rs[i], path, isDir, glob)
  }

  /** ruleSet.match: scans the rules in order and stops at the first one that matches. */
  method RuleSetMatch(rs: seq<Rule>, path: string, isDir: bool, glob: Glob) returns (m: bool)
    ensures m <==> AnyMatches(rs, path, isDir, glob)
  {
    for i := 0 to |rs|
      invariant forall j :: 0 <= j < i ==> !RuleMatches(rs[j], path, isDir, glob)
    {
      if RuleMatches(rs[i], path, isDir, glob) {
        return true;
      }
    }
    return false;
  }

  /** The decision of rules.Match: ignored when no accepted rule matches and some ignored rule does. */
  predicate Ignores(rules: Rules, path: string, isDir: bool, glob: Glob) {
    !AnyMatches(rules.accepted, path, isDir, glob) && AnyMatches(rules.ignored, path, isDir, glob)
  }

  /** rules.Match: an accepting rule overrides every ignoring rule. */
  method Match(rules: Rules, path: string, isDir: bool, glob: Glob) returns (m: bool)
    ensures m == Ignores(rules, path, isDir, glob)
    ensures AnyMatches(rules.accepted, path, isDir, glob) ==> !m
    ensures !AnyMatches(rules.ignored, path, isDir, glob) ==> !m
  {
    var accepted := RuleSetMatch(rules.accepted, path, isDir, glob);
    if accepted {
      return false;
    }
    m := RuleSetMatch(rules.ignored, path, isDir, glob);
  }

  /** How Parse reads one line: skipped, an accepting rule, or an ignoring rule. */
  datatype Line = Skip | Accept(pattern: string) | Ignore(pattern: string)

  /**
   * A line is trimmed of white space; empty lines and `#` comments are skipped; a `!`
   * line accepts the pattern after the `!`; any other line ignores the whole trimmed line.
   */
  function Classify(raw: string): (l: Line)
    ensures l == Skip <==> TrimSpace(raw) == "" || TrimSpace(raw)[0] == '#'
    ensures l.Accept? ==> TrimSpace(raw) == "!" + l.pattern
    ensures l.Ignore? ==> l.pattern == TrimSpace(raw) && |l.pattern| > 0
                          && l.pattern[0] != '#' && l.pattern[0] != '!'
  {
    var line := TrimSpace(raw);
    TrimSpaceFrames(raw);
    HasPrefixChar(line, '#');
    HasPrefixChar(line, '!');
    if |line| == 0 || HasPrefix(line, "#") then Skip
    else if HasPrefix(line, "!") then Accept(TrimPrefix(line, "!"))
    else Ignore(line)
  }

  /** The error Parse reports for an invalid rule on the (trimmed) line `line`. */
  function InvalidRule(line: string, err: string): string {
    "rule '" + line + "' is invalid: " + err
  }

  /** The outcome of adding one line to the rules parsed so far. */
  function AddLine(rules: Rules, raw: string, glob: Glob): Result<Rules, string> {
    match Classify(raw)
    case Skip => Ok(rules)
    case Accept(p) =>
      var (rule, err) := ParseRule(p, glob);
      if err.Some? then Err(InvalidRule(TrimSpace(raw), err.value))
      else Ok(rules.(accepted := rules.accepted + [rule]))
    case Ignore(p) =>
      var (rule, err) := ParseRule(p, glob);
      if err.Some? then Err(InvalidRule(TrimSpace(raw), err.value))
      else Ok(rules.(ignored := rules.ignored + [rule]))
  }

  /** The result of parsing `lines` in order, stopping at the first invalid rule. */
  function ParseLines(lines: seq<string>, glob: Glob): Result<Rules, string>
    decreases |lines|
  {
    if lines == [] then Ok(Rules([], []))
    else
      match ParseLines(lines[..|lines| - 1], glob)
      case Err(e) => Err(e)
      case Ok(rules) => AddLine(rules, lines[|lines| - 1], glob)
  }

  /** Once a prefix of the lines fails, parsing the whole fails with the same error. */
  lemma {:induction false} ParseLinesErrSticks(lines: seq<string>, k: nat, glob: Glob)
    requires k <= |lines|
    requires ParseLines(lines[..k], glob).Err?
    ensures ParseLines(lines, glob) == ParseLines(lines[..k], glob)
  {
    if k < |lines| {
      assert lines[..|lines| - 1][..k] == lines[..k];
      ParseLinesErrSticks(lines[..|lines| - 1], k, glob);
    } else {
      assert lines[..k] == lines;
    }
  }

  /**
   * Parse: reads the content line by line, appending each rule to its set, and fails on
   * the first invalid rule.
   */
  method Parse(content: string, glob: Glob) returns (r: Result<Rules, string>)
    ensures r == ParseLines(Split(content, '\n'), glob)
  {
    r := ParseScanned(Split(content, '\n'), glob);
  }

  /** The loop of Parse over the lines the scanner yields. */
  method ParseScanned(lines: seq<string>, glob: Glob) returns (r: Result<Rules, string>)
    ensures r == ParseLines(lines, glob)
  {
    var accepted: seq<Rule> := [];
    var ignored: seq<Rule> := [];
    var i := 0;
    while i < |lines|
      invariant 0 <= i <= |lines|
      invariant ParseLines(lines[..i], glob) == Ok(Rules(accepted, ignored))
    {
      var rules := Rules(accepted, ignored);
      assert ParseLines(lines[..i + 1], glob) == AddLine(rules, lines[i], glob) by {
        assert lines[..i + 1][..i] == lines[..i];
      }
      var line := TrimSpace(lines[i]);
      if |line| == 0 || HasPrefix(line, "#") {
        assert AddLine(rules, lines[i], glob) == Ok(rules) by {
          AddLineSteps(rules, lines[i], glob);
        }
        i := i + 1;
        continue;
      }
      if HasPrefix(line, "!") {
        var (rule, err) := ParseRule(TrimPrefix(line, "!"), glob);
        assert AddLine(rules, lines[i], glob)
            == if err.Some? then Err(InvalidRule(line, err.value)) else Ok(rules.(accepted := accepted + [rule])) by {
          AddLineSteps(rules, lines[i], glob);
        }
        if err.Some? {
          ParseLinesErrSticks(lines, i + 1, glob);
          return Err(InvalidRule(line, err.value));
        }
        accepted := accepted + [rule];
      } else {
        var (rule, err) := ParseRule(line, glob);
        assert AddLine(rules, lines[i], glob)
            == if err.Some? then Err(InvalidRule(line, err.value)) else Ok(rules.(ignored := ignored + [rule])) by {
          AddLineSteps(rules, lines[i], glob);
        }
        if err.Some? {
          ParseLinesErrSticks(lines, i + 1, glob);
          return Err(InvalidRule(line, err.value));
        }
        ignored := ignored + [rule];
      }
      i := i + 1;
    }
    assert lines[..|lines|] == lines;
    return Ok(Rules(accepted, ignored));
  }

  /** AddLine by the tests Parse makes on the trimmed line. */
  lemma AddLineSteps(rules: Rules, raw: string, glob: Glob)
    ensures var line := TrimSpace(raw);
      && (|line| == 0 || HasPrefix(line, "#") ==> AddLine(rules, raw, glob) == Ok(rules))
      && (|line| > 0 && !HasPrefix(line, "#") && HasPrefix(line, "!") ==>
            var (rule, err) := ParseRule(TrimPrefix(line, "!"), glob);
            AddLine(rules, raw, glob)
              == if err.Some? then Err(InvalidRule(line, err.value)) else Ok(rules.(accepted := rules.accepted + [rule])))
      && (|line| > 0 && !HasPrefix(line, "#") && !HasPrefix(line, "!") ==>
            var (rule, err) := ParseRule(line, glob);
            AddLine(rules, raw, glob)
              == if err.Some? then Err(InvalidRule(line, err.value)) else Ok(rules.(ignored := rules.ignored + [rule])))
  {
    HasPrefixChar(TrimSpace(raw), '#');
    HasPrefixChar(TrimSpace(raw), '!');
  }

  /** A line Parse accepts: skipped, or with a pattern the glob engine takes. */
  predicate LineValid(raw: string, glob: Glob) {
    match Classify(raw)
    case Skip => true
    case Accept(p) => ParseRule(p, glob).1 == None
    case Ignore(p) => ParseRule(p, glob).1 == None
  }

  /** The patterns of the accepting (or of the ignoring) lines, in line order. */
  function Patterns(lines: seq<string>, accepting: bool): seq<string>
    decreases |lines|
  {
    if lines == [] then []
    else
      var last := match Classify(lines[|lines| - 1])
        case Skip => []
        case Accept(p) => if accepting then [p] else []
        case Ignore(p) => if accepting then [] else [p];
      Patterns(lines[..|lines| - 1], accepting) + last
  }

  /** The rules for a list of patterns, one per pattern, in order. */
  function RulesOf(patterns: seq<string>, glob: Glob): (rs: seq<Rule>)
    ensures |rs| == |patterns|
    ensures forall i :: 0 <= i < |rs| ==> rs[i] == ParseRule(patterns[i], glob).0
  {
    seq(|patterns|, i requires 0 <= i < |patterns| => ParseRule(patterns[i], glob).0)
  }

  lemma RulesOfAppend(patterns: seq<string>, p: string, glob: Glob)
    ensures RulesOf(patterns + [p], glob) == RulesOf(patterns, glob) + [ParseRule(p, glob).0]
  {
  }

  /** Adding a line succeeds exactly on a valid line, whatever was parsed before. */
  lemma AddLineOk(rules: Rules, raw: string, glob: Glob)
    ensures AddLine(rules, raw, glob).Ok? <==> LineValid(raw, glob)
  {
  }

  /** Parsing succeeds exactly when every line is valid. */
  lemma {:induction false} ParseLinesOk(lines: seq<string>, glob: Glob)
    ensures ParseLines(lines, glob).Ok? <==> forall i :: 0 <= i < |lines| ==> LineValid(lines[i], glob)
  {
    if ParseLines(lines, glob).Ok? {
      OkLinesValid(lines, glob);
    } else if forall i :: 0 <= i < |lines| ==> LineValid(lines[i], glob) {
      ValidLinesOk(lines, glob);
    }
  }

  /** A successful parse has only valid lines. */
  lemma {:induction false} OkLinesValid(lines: seq<string>, glob: Glob)
    requires ParseLines(lines, glob).Ok?
    ensures forall i :: 0 <= i < |lines| ==> LineValid(lines[i], glob)
    decreases |lines|
  {
    if lines != [] {
      var init := lines[..|lines| - 1];
      OkLinesValid(init, glob);
      AddLineOk(ParseLines(init, glob).value, lines[|lines| - 1], glob);
      forall i | 0 <= i < |lines| ensures LineValid(lines[i], glob) {
        if i < |init| {
          assert lines[i] == init[i];
        }
      }
    }
  }

  /** Lines that are all valid parse successfully. */
  lemma {:induction false} ValidLinesOk(lines: seq<string>, glob: Glob)
    requires forall i :: 0 <= i < |lines| ==> LineValid(lines[i], glob)
    ensures ParseLines(lines, glob).Ok?
    decreases |lines|
  {
    if lines != [] {
      var init := lines[..|lines| - 1];
      forall i | 0 <= i < |init| ensures LineValid(init[i], glob) {
        assert init[i] == lines[i];
      }
      ValidLinesOk(init, glob);
      AddLineOk(ParseLines(init, glob).value, lines[|lines| - 1], glob);
    }
  }

  /**
   * After a successful parse the accepted set holds the rules of the `!` lines and the ignored
   * set the rules of the other rule lines, each in line order.
   */
  lemma {:induction false} ParseLinesSets(lines: seq<string>, glob: Glob)
    requires ParseLines(lines, glob).Ok?
    ensures ParseLines(lines, glob).value.accepted == RulesOf(Patterns(lines, true), glob)
    ensures ParseLines(lines, glob).value.ignored == RulesOf(Patterns(lines, false), glob)
  {
    if lines != [] {
      var init, last := lines[..|lines| - 1], lines[|lines| - 1];
      var rules := ParseLines(init, glob).value;
      ParseLinesSets(init, glob);
      assert ParseLines(lines, glob) == AddLine(rules, last, glob);
      match Classify(last)
      case Skip =>
        assert Patterns(lines, true) == Patterns(init, true) + [];
        assert Patterns(lines, false) == Patterns(init, false) + [];
      case Accept(p) =>
        assert Patterns(lines, true) == Patterns(init, true) + [p];
        assert Patterns(lines, false) == Patterns(init, false) + [];
        RulesOfAppend(Patterns(init, true), p, glob);
      case Ignore(p) =>
        assert Patterns(lines, true) == Patterns(init, true) + [];
        assert Patterns(lines, false) == Patterns(init, false) + [p];
        RulesOfAppend(Patterns(init, false), p, glob);
    }
  }

  /**
   * A failed parse reports the first invalid line: every earlier line is valid, and the
   * error quotes that line (trimmed, with its `!`) and the glob engine's complaint.
   */
  lemma {:induction false} ParseLinesFirstError(lines: seq<string>, glob: Glob)
    requires ParseLines(lines, glob).Err?
    ensures exists i :: 0 <= i < |lines| && !LineValid(lines[i], glob)
              && (forall j :: 0 <= j < i ==> LineValid(lines[j], glob))
              && ParseLines(lines, glob).error == InvalidRule(TrimSpace(lines[i]), BadPattern)
  {
    var init := lines[..|lines| - 1];
    assert forall j :: 0 <= j < |init| ==> init[j] == lines[j];
    if ParseLines(init, glob).Err? {
      ParseLinesFirstError(init, glob);
    } else {
      ParseLinesOk(init, glob);
      var i := |lines| - 1;
      assert !LineValid(lines[i], glob);
    }
  }

  /**
   * A simplified stand-in for filepath.Match: `*` matches any run of characters other than
   * `/`, `?` one character other than `/`, and every other character itself.
   */
  predicate GlobMatch(pattern: string, name: string)
    decreases |pattern| + |name|
  {
    if pattern == [] then name == []
    else if pattern[0] == '*' then
      GlobMatch(pattern[1..], name) || (name != [] && name[0] != '/' && GlobMatch(pattern, name[1..]))
    else
      name != [] && (if pattern[0] == '?' then name[0] != '/' else pattern[0] == name[0])
      && GlobMatch(pattern[1..], name[1..])
  }

  /** A pattern without wildcards matches exactly itself. */
  lemma {:induction false} GlobMatchLiteral(pattern: string, name: string)
    requires '*' !in pattern && '?' !in pattern
    ensures GlobMatch(pattern, name) <==> name == pattern
  {
    if pattern != [] && name != [] {
      GlobMatchLiteral(pattern[1..], name[1..]);
      assert name == [name[0]] + name[1..] && pattern == [pattern[0]] + pattern[1..];
    }
  }

  /** The simplified glob engine; it takes every pattern. */
  const SimpleGlob := Glob((p, n) => GlobMatch(p, n), p => true)

  /** From the matching table: a root-anchored rule compares the whole path. */
  lemma RootRuleExample()
    ensures !RuleMatches(ParseRule("/a.txt", SimpleGlob).0, "dir/a.txt", false, SimpleGlob)
  {
    assert TrimLeftWhile("/a.txt", Is('/')) == TrimLeftWhile("a.txt", Is('/')) == "a.txt";
    assert TrimRightWhile("a.txt", Is('/')) == "a.txt";
    GlobMatchLiteral("a.txt", "dir/a.txt");
  }

  lemma GlobMatchDeepExample()
    ensures GlobMatch("dir2/a.txt", "dir2/a.txt")
  {
    GlobMatchLiteral("dir2/a.txt", "dir2/a.txt");
  }

  lemma DeepRuleParsed()
    ensures ParseRule("dir2/a.txt", SimpleGlob).0 == Rule("dir2/a.txt", false, false, 1)
  {
    HasPrefixChar("dir2/a.txt", '/');
    HasSuffixChar("dir2/a.txt", '/');
    assert TrimLeftWhile("dir2/a.txt", Is('/')) == "dir2/a.txt";
    assert TrimRightWhile("dir2/a.txt", Is('/')) == "dir2/a.txt";
    var tail := ["dir2", "a.txt"];
    assert Join(tail, '/') == "dir2/a.txt";
    SplitJoin(tail, '/');
    CountSplit("dir2/a.txt", '/');
  }

  lemma DeepPathCut()
    ensures CutLastN("dir1/dir2/a.txt", 2) == "dir2/a.txt"
  {
    DeepPathSplit();
    CutFromParts("dir1/dir2/a.txt", ["dir1", "dir2", "a.txt"], 2);
    DeepTailJoin();
  }

  lemma DeepTailJoin()
    ensures Join(["dir1", "dir2", "a.txt"][1..], '/') == "dir2/a.txt"
  {
    assert ["dir1", "dir2", "a.txt"][1..] == ["dir2", "a.txt"];
  }

  lemma CutFromParts(path: string, parts: seq<string>, n: int)
    requires Split(path, '/') == parts && 0 <= n < |parts|
    ensures CutLastN(path, n) == Join(parts[|parts| - n..], '/')
  {
    CutLastNDrops(path, n);
  }

  lemma DeepPathSplit()
    ensures Split("dir1/dir2/a.txt", '/') == ["dir1", "dir2", "a.txt"]
  {
    var parts := ["dir1", "dir2", "a.txt"];
    assert Join(parts, '/') == "dir1/dir2/a.txt";
    SplitJoin(parts, '/');
  }

  /** From the matching table: a relative rule with one slash compares the last two segments. */
  lemma RelativeRuleExample()
    ensures RuleMatches(ParseRule("dir2/a.txt", SimpleGlob).0, "dir1/dir2/a.txt", false, SimpleGlob)
  {
    DeepRuleParsed();
    DeepPathCut();
    GlobMatchDeepExample();
  }

  lemma FlatRuleParsed(pattern: string)
    requires pattern == "b.txt" || pattern == "*.txt"
    ensures ParseRule(pattern, SimpleGlob).0 == Rule(pattern, false, false, 0)
  {
    HasPrefixChar(pattern, '/');
    HasSuffixChar(pattern, '/');
    assert TrimLeftWhile(pattern, Is('/')) == pattern;
    assert TrimRightWhile(pattern, Is('/')) == pattern;
    SplitPlain(pattern, '/');
    CountSplit(pattern, '/');
  }

  lemma LastSegmentCut()
    ensures CutLastN("dir/b.txt", 1) == "b.txt"
  {
    TwoSegmentSplit("dir/b.txt", "dir", "b.txt");
    CutLastNDrops("dir/b.txt", 1);
    assert ["dir", "b.txt"][1..] == ["b.txt"];
  }

  /** A path of two slash-free segments splits into them. */
  lemma TwoSegmentSplit(path: string, first: string, last: string)
    requires '/' !in first && '/' !in last && path == first + ['/'] + last
    ensures Split(path, '/') == [first, last]
  {
    SplitAfterPlain(first, last, '/');
    SplitPlain(last, '/');
  }

  /** The accepting rule of the example matches dir/b.txt. */
  lemma AcceptedRuleMatches()
    ensures RuleMatches(Rule("b.txt", false, false, 0), "dir/b.txt", false, SimpleGlob)
  {
    LastSegmentCut();
    GlobMatchLiteral("b.txt", "b.txt");
    RelativeRuleMatch(Rule("b.txt", false, false, 0), "dir/b.txt", "b.txt");
  }

  lemma RelativeRuleMatch(rule: Rule, path: string, cut: string)
    requires !rule.hasRootPrefix && !rule.hasDirSuffix
    requires CutLastN(path, rule.pathDepth + 1) == cut && GlobMatch(rule.pattern, cut)
    ensures RuleMatches(rule, path, false, SimpleGlob)
  {
  }

  /** From the matching table: `!b.txt` overrides `*.txt` for dir/b.txt, whatever the order. */
  lemma AcceptOverridesExample()
    ensures var rules := Rules([ParseRule("b.txt", SimpleGlob).0], [ParseRule("*.txt", SimpleGlob).0]);
      !Ignores(rules, "dir/b.txt", false, SimpleGlob)
  {
    FlatRuleParsed("b.txt");
    AcceptedRuleMatches();
    var accepted := [ParseRule("b.txt", SimpleGlob).0];
    assert RuleMatches(accepted[0], "dir/b.txt", false, SimpleGlob);
    assert AnyMatches(accepted, "dir/b.txt", false, SimpleGlob);
  }

  /**
   * A relative directory rule counts its trailing `/` in its depth, so `dir/` compares the
   * last two segments of a path and misses a directory `dir` nested one level down.
   */
  lemma NestedDirRuleMissed()
    ensures var rule := ParseRule("dir/", SimpleGlob).0;
      rule.hasDirSuffix && rule.pathDepth == 1 && !RuleMatches(rule, "a/dir", true, SimpleGlob)
  {
    DirRuleParsed();
    TwoSegmentSplit("a/dir", "a", "dir");
    assert CutLastN("a/dir", 2) == "a/dir";
    GlobMatchLiteral("dir", "a/dir");
  }

  lemma DirRuleParsed()
    ensures ParseRule("dir/", SimpleGlob).0 == Rule("dir", false, true, 1)
  {
    HasPrefixChar("dir/", '/');
    HasSuffixChar("dir/", '/');
    assert TrimLeftWhile("dir/", Is('/')) == "dir/";
    assert TrimRightWhile("dir/", Is('/')) == TrimRightWhile("dir", Is('/')) == "dir";
    assert Count("dir/", '/') == 1;
  }

  /**
   * parseRule as evidently intended: a relative rule's depth counts the slashes of the stored
   * pattern, so a trailing `/` (which only says "directories only") adds no segment.
   */
  function ParseRuleIntended(pattern: string, glob: Glob): (r: (Rule, Option<string>))
    ensures r.0.pattern == ParseRule(pattern, glob).0.pattern && r.1 == ParseRule(pattern, glob).1
    ensures r.0.hasRootPrefix == ParseRule(pattern, glob).0.hasRootPrefix
    ensures r.0.hasDirSuffix == ParseRule(pattern, glob).0.hasDirSuffix
  {
    var (rule, err) := ParseRule(pattern, glob);
    (rule.(pathDepth := if rule.hasRootPrefix then 0 else Count(rule.pattern, '/')), err)
  }

  /** An intended relative rule compares as many segments as its stored pattern has. */
  lemma IntendedDepth(pattern: string, glob: Glob)
    ensures var rule := ParseRuleIntended(pattern, glob).0;
      !rule.hasRootPrefix ==> rule.pathDepth + 1 == |Split(rule.pattern, '/')|
  {
    CountSplit(ParseRule(pattern, glob).0.pattern, '/');
  }

  /** Without a trailing `/` the intended parse is the one the code makes. */
  lemma IntendedAgreesWithoutDirSuffix(pattern: string, glob: Glob)
    requires !HasSuffix(pattern, "/")
    ensures ParseRuleIntended(pattern, glob) == ParseRule(pattern, glob)
  {
    HasPrefixChar(pattern, '/');
    HasSuffixChar(pattern, '/');
    if |pattern| > 0 && pattern[0] != '/' {
      assert TrimLeftWhile(pattern, Is('/')) == pattern;
      assert TrimRightWhile(pattern, Is('/')) == pattern;
    }
  }

  /** Under the intended parse, `dir/` matches the nested directory `a/dir`. */
  lemma NestedDirRuleIntended()
    ensures RuleMatches(ParseRuleIntended("dir/", SimpleGlob).0, "a/dir", true, SimpleGlob)
  {
    IntendedDirRuleParsed();
    NestedDirCut();
    GlobMatchLiteral("dir", "dir");
    RelativeDirRuleMatch(Rule("dir", false, true, 0), "a/dir", "dir");
  }

  lemma NestedDirCut()
    ensures CutLastN("a/dir", 1) == "dir"
  {
    TwoSegmentSplit("a/dir", "a", "dir");
    CutFromParts("a/dir", ["a", "dir"], 1);
    assert ["a", "dir"][1..] == ["dir"];
  }

  lemma IntendedDirRuleParsed()
    ensures ParseRuleIntended("dir/", SimpleGlob).0 == Rule("dir", false, true, 0)
  {
    DirRuleParsed();
    assert Count("dir", '/') == 0;
  }

  lemma RelativeDirRuleMatch(rule: Rule, path: string, cut: string)
    requires !rule.hasRootPrefix
    requires CutLastN(path, rule.pathDepth + 1) == cut && GlobMatch(rule.pattern, cut)
    ensures RuleMatches(rule, path, true, SimpleGlob)
  {
  }
}
