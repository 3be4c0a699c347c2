/**
 * The Go standard-library string and path operations the modelled packages call:
 * strings.Split, strings.Join, strings.Count, strings.HasPrefix, strings.HasSuffix,
 * strings.TrimPrefix, strings.TrimSuffix, strings.Trim, strings.TrimSpace and filepath.Ext.
 * Each is specified by what it computes, so the packages above can be reasoned about
 * without unfolding these definitions.
 */
module StringOps {

  predicate HasPrefix(s: string, prefix: string) {
    |prefix| <= |s| && s[..|prefix|] == prefix
  }

  predicate HasSuffix(s: string, suffix: string) {
    |suffix| <= |s| && s[|s| - |suffix|..] == suffix
  }

  /** A one-character prefix is a test of the first character. */
  lemma HasPrefixChar(s: string, c: char)
    ensures HasPrefix(s, [c]) <==> |s| > 0 && s[0] == c
  {
    if |s| > 0 && s[0] == c {
      assert s[..1] == [c];
    }
  }

  /** A one-character suffix is a test of the last character. */
  lemma HasSuffixChar(s: string, c: char)
    ensures HasSuffix(s, [c]) <==> |s| > 0 && s[|s| - 1] == c
  {
    if |s| > 0 && s[|s| - 1] == c {
      assert s[|s| - 1..] == [c];
    }
  }

  /** strings.TrimPrefix: drops `prefix` once when `s` starts with it. */
  function TrimPrefix(s: string, prefix: string): (r: string)
    ensures HasPrefix(s, prefix) ==> prefix + r == s
    ensures !HasPrefix(s, prefix) ==> r == s
  {
    if HasPrefix(s, prefix) then s[|prefix|..] else s
  }

  /** strings.TrimSuffix: drops `suffix` once when `s` ends with it. */
  function TrimSuffix(s: string, suffix: string): (r: string)
    ensures HasSuffix(s, suffix) ==> r + suffix == s
    ensures !HasSuffix(s, suffix) ==> r == s
  {
    if HasSuffix(s, suffix) then s[..|s| - |suffix|] else s
  }

  /** strings.Count for a one-character separator. */
  function Count(s: string, c: char): nat
  {
    if s == [] then 0 else (if s[0] == c then 1 else 0) + Count(s[1..], c)
  }

  /** strings.Split with a one-character separator: never empty, "" gives [""]. */
  function Split(s: string, sep: char): (parts: seq<string>)
    ensures |parts| >= 1
  {
    if s == [] then [""]
    else
      var rest := Split(s[1..], sep);
      if s[0] == sep then [""] + rest
      else [[s[0]] + rest[0]] + rest[1..]
  }

  /** No piece of a split holds the separator. */
  lemma {:induction false} SplitPieces(s: string, sep: char)
    ensures forall i :: 0 <= i < |Split(s, sep)| ==> sep !in Split(s, sep)[i]
  {
    if s != [] {
      SplitPieces(s[1..], sep);
      var rest := Split(s[1..], sep);
      if s[0] == sep {
        assert forall i :: 1 <= i < |rest| + 1 ==> ([""] + rest)[i] == rest[i - 1];
      } else {
        var parts := [[s[0]] + rest[0]] + rest[1..];
        assert forall i :: 1 <= i < |parts| ==> parts[i] == rest[i];
      }
    }
  }

  /** strings.Join with a one-character separator. */
  function Join(parts: seq<string>, sep: char): string
  {
    if |parts| == 0 then ""
    else if |parts| == 1 then parts[0]
    else parts[0] + [sep] + Join(parts[1..], sep)
  }

  /** Joining the pieces of a split gives back the original string. */
  lemma {:induction false} JoinSplit(s: string, sep: char)
    ensures Join(Split(s, sep), sep) == s
  {
    if s != [] {
      var rest := Split(s[1..], sep);
      JoinSplit(s[1..], sep);
      if s[0] == sep {
        assert Split(s, sep) == [""] + rest;
        assert ([""] + rest)[1..] == rest;
      } else {
        var parts := Split(s, sep);
        assert parts == [[s[0]] + rest[0]] + rest[1..];
        if |rest| == 1 {
          assert parts == [[s[0]] + rest[0]];
        } else {
          assert parts[1..] == rest[1..];
          assert Join(rest, sep) == rest[0] + [sep] + Join(rest[1..], sep);
        }
      }
    }
  }

  /** Splitting a join of separator-free pieces gives back the pieces. */
  lemma {:induction false} SplitJoin(parts: seq<string>, sep: char)
    requires |parts| >= 1
    requires forall i :: 0 <= i < |parts| ==> sep !in parts[i]
    ensures Split(Join(parts, sep), sep) == parts
  {
    if |parts| == 1 {
      SplitPlain(parts[0], sep);
    } else {
      SplitJoin(parts[1..], sep);
      SplitAfterPlain(parts[0], Join(parts[1..], sep), sep);
      assert [parts[0]] + parts[1..] == parts;
    }
  }

  /** A string without the separator splits into itself. */
  lemma {:induction false} SplitPlain(w: string, sep: char)
    requires sep !in w
    ensures Split(w, sep) == [w]
  {
    if w != [] {
      SplitPlain(w[1..], sep);
      assert [w[0]] + w[1..] == w;
    }
  }

  /** Splitting `w + [sep] + t` for separator-free `w` puts `w` in front of the pieces of `t`. */
  lemma {:induction false} SplitAfterPlain(w: string, t: string, sep: char)
    requires sep !in w
    ensures Split(w + [sep] + t, sep) == [w] + Split(t, sep)
  {
    if w == [] {
      assert [sep] + t == w + [sep] + t;
      assert ([sep] + t)[1..] == t;
    } else {
      SplitAfterPlain(w[1..], t, sep);
      var s := w + [sep] + t;
      assert s[1..] == w[1..] + [sep] + t;
      assert [w[0]] + w[1..] == w;
      assert ([w[1..]] + Split(t, sep))[1..] == Split(t, sep);
    }
  }

  /** Joining two non-empty lists of pieces puts one separator between the two joins. */
  lemma {:induction false} JoinAppend(a: seq<string>, b: seq<string>, sep: char)
    requires |a| >= 1 && |b| >= 1
    ensures Join(a + b, sep) == Join(a, sep) + [sep] + Join(b, sep)
  {
    if |a| == 1 {
      assert (a + b)[1..] == b;
    } else {
      JoinAppend(a[1..], b, sep);
      assert (a + b)[1..] == a[1..] + b;
    }
  }

  /** There is one more piece than there are separators. */
  lemma {:induction false} CountSplit(s: string, sep: char)
    ensures |Split(s, sep)| == Count(s, sep) + 1
  {
    if s != [] {
      CountSplit(s[1..], sep);
    }
  }

  /** Drops the leading characters satisfying `drop` (the left half of strings.TrimFunc). */
  function TrimLeftWhile(s: string, drop: char -> bool): string
  {
    if |s| > 0 && drop(s[0]) then TrimLeftWhile(s[1..], drop) else s
  }

  /** TrimLeftWhile keeps a suffix of `s`: everything before it is dropped, its first character is not. */
  lemma {:induction false} TrimLeftWhileKeeps(s: string, drop: char -> bool)
    ensures var r := TrimLeftWhile(s, drop);
      && |r| <= |s| && r == s[|s| - |r|..]
      && (forall k :: 0 <= k < |s| - |r| ==> drop(s[k]))
      && (|r| > 0 ==> !drop(r[0]))
  {
    if |s| > 0 && drop(s[0]) {
      TrimLeftWhileKeeps(s[1..], drop);
    }
  }

  /** Drops the trailing characters satisfying `drop` (the right half of strings.TrimFunc). */
  function TrimRightWhile(s: string, drop: char -> bool): string
  {
    if |s| > 0 && drop(s[|s| - 1]) then TrimRightWhile(s[..|s| - 1], drop) else s
  }

  /** TrimRightWhile keeps a prefix of `s`: everything after it is dropped, its last character is not. */
  lemma {:induction false} TrimRightWhileKeeps(s: string, drop: char -> bool)
    ensures var r := TrimRightWhile(s, drop);
      && |r| <= |s| && r == s[..|r|]
      && (forall k :: |r| <= k < |s| ==> drop(s[k]))
      && (|r| > 0 ==> !drop(r[|r| - 1]))
  {
    if |s| > 0 && drop(s[|s| - 1]) {
      TrimRightWhileKeeps(s[..|s| - 1], drop);
    }
  }

  /** `r` is `s[i..i + |r|]`, and everything of `s` before and after it satisfies `drop`. */
  predicate Frames(s: string, r: string, i: int, drop: char -> bool) {
    0 <= i <= |s| - |r| && r == s[i..i + |r|]
    && (forall k :: 0 <= k < i ==> drop(s[k]))
    && (forall k :: i + |r| <= k < |s| ==> drop(s[k]))
  }

  /** The test "is the character `c`", as a cutset for the trimming functions. */
  function Is(c: char): char -> bool {
    (x: char) => x == c
  }

  /** strings.Trim with a one-character cutset: all leading and trailing copies of `c` go. */
  function Trim(s: string, c: char): string {
    TrimRightWhile(TrimLeftWhile(s, Is(c)), Is(c))
  }

  /** What Trim keeps: a slice of `s` with only copies of `c` around it, not itself starting or ending with `c`. */
  lemma TrimFrames(s: string, c: char)
    ensures var r := Trim(s, c);
      && (|r| > 0 ==> r[0] != c && r[|r| - 1] != c)
      && Frames(s, r, |s| - |TrimLeftWhile(s, Is(c))|, Is(c))
  {
    TrimLeftWhileKeeps(s, Is(c));
    TrimRightWhileKeeps(TrimLeftWhile(s, Is(c)), Is(c));
  }

  /**
   * unicode.IsSpace, the whitespace strings.TrimSpace removes: the ASCII spaces
   * '\t', '\n', '\v', '\f', '\r', ' ', and U+0085, U+00A0 and the other code points
   * with the Unicode White_Space property.
   */
  predicate IsSpace(c: char) {
    c == '\t' || c == '\n' || c == '\U{000B}' || c == '\U{000C}' || c == '\r' || c == ' '
    || c == '\U{0085}' || c == '\U{00A0}' || c == '\U{1680}'
    || ('\U{2000}' <= c <= '\U{200A}')
    || c == '\U{2028}' || c == '\U{2029}' || c == '\U{202F}' || c == '\U{205F}' || c == '\U{3000}'
  }

  /** strings.TrimSpace: drops leading and trailing white space. */
  function TrimSpace(s: string): string {
    TrimRightWhile(TrimLeftWhile(s, IsSpace), IsSpace)
  }

  /** What TrimSpace keeps: a slice of `s` with only white space around it and none at its ends. */
  lemma TrimSpaceFrames(s: string)
    ensures var r := TrimSpace(s);
      && (|r| > 0 ==> !IsSpace(r[0]) && !IsSpace(r[|r| - 1]))
      && Frames(s, r, |s| - |TrimLeftWhile(s, IsSpace)|, IsSpace)
  {
    TrimLeftWhileKeeps(s, IsSpace);
    TrimRightWhileKeeps(TrimLeftWhile(s, IsSpace), IsSpace);
  }

  /**
   * filepath.Ext on a Unix system: the suffix of `path` starting at the last '.' of
   * its final element, or "" when that element has no '.'.
   */
  function Ext(path: string): (e: string)
    ensures HasSuffix(path, e)
    ensures e == [] || e[0] == '.'
    ensures forall k :: 0 <= k < |e| ==> e[k] != '/'
    ensures forall k :: 1 <= k < |e| ==> e[k] != '.'
    ensures e == [] ==> forall k :: 0 <= k < |path| && '/' !in path[k..] ==> path[k] != '.'
  {
    if |path| == 0 || path[|path| - 1] == '/' then ""
    else if path[|path| - 1] == '.' then "."
    else
      var e := Ext(path[..|path| - 1]);
      if e == [] then
        assert forall k :: 0 <= k < |path| - 1 && '/' !in path[k..] ==> '/' !in path[..|path| - 1][k..] by {
          forall k | 0 <= k < |path| - 1 && '/' !in path[k..] ensures '/' !in path[..|path| - 1][k..] {
            assert path[..|path| - 1][k..] == path[k..|path| - 1];
            assert forall x :: x in path[k..|path| - 1] ==> x in path[k..];
          }
        }
        ""
      else e + [path[|path| - 1]]
  }
}
