/** The optional value the converter's lookups and regex searches return. */
module Wrappers {
  datatype Option<T> = None | Some(value: T)
}

/**
 * The Python `str` operations the converter relies on: `strip`, `strip(chars)`,
 * `startswith`/`endswith`, `split(sep)`, `sep.join`, `replace` and
 * `os.path.basename`, stated over `seq<char>`.
 */
module Strings {
  import opened Wrappers

  /** The characters for which Python's `str.isspace()` holds; `str.strip()` and the
      regex class `\s` on `str` patterns use this same set. */
  const Whitespace: set<char> := {
    '\t', '\n', '\U{000B}', '\U{000C}', '\r', '\U{001C}', '\U{001D}', '\U{001E}', '\U{001F}', ' ',
    '\U{0085}', '\U{00A0}', '\U{1680}', '\U{2000}', '\U{2001}', '\U{2002}', '\U{2003}', '\U{2004}',
    '\U{2005}', '\U{2006}', '\U{2007}', '\U{2008}', '\U{2009}', '\U{200A}', '\U{2028}', '\U{2029}',
    '\U{202F}', '\U{205F}', '\U{3000}'
  }

  predicate IsSpace(c: char) { c in Whitespace }

  /** A piece of `content.split('\n')`: the converter only ever classifies such lines. */
  predicate NoNewline(s: string) { '\n' !in s }

  predicate AllIn(s: string, cs: set<char>) { forall k :: 0 <= k < |s| ==> s[k] in cs }

  /** The first index at or after `i` whose character is not in `cs` (or `|s|`). */
  function SkipFrom(s: string, cs: set<char>, i: nat): (j: nat)
    requires i <= |s|
    decreases |s| - i
    ensures i <= j <= |s|
    ensures forall k :: i <= k < j ==> s[k] in cs
    ensures j < |s| ==> s[j] !in cs
  {
    if i == |s| || s[i] !in cs then i else SkipFrom(s, cs, i + 1)
  }

  /** The end of `s[..j]` once trailing characters of `cs` are dropped. */
  function TrimEndAt(s: string, cs: set<char>, j: nat): (e: nat)
    requires j <= |s|
    ensures e <= j
    ensures forall k :: e <= k < j ==> s[k] in cs
    ensures e > 0 ==> s[e - 1] !in cs
  {
    if j == 0 || s[j - 1] !in cs then j else TrimEndAt(s, cs, j - 1)
  }

  /** Python's `s.strip(chars)`: drop every leading and trailing character of `cs`. */
  function StripChars(s: string, cs: set<char>): string
  {
    var a := SkipFrom(s, cs, 0);
    if a == |s| then [] else s[a..TrimEndAt(s, cs, |s|)]
  }

  /** What `strip(chars)` keeps: the slice between the first and the last character not
      in `cs`, or nothing when every character is in `cs`. */
  lemma {:induction false} StripCharsMeaning(s: string, cs: set<char>)
    ensures StripChars(s, cs) == [] <==> AllIn(s, cs)
    ensures StripChars(s, cs) != [] ==>
      exists a, b :: (0 <= a < b <= |s| && StripChars(s, cs) == s[a..b]
                      && s[a] !in cs && s[b - 1] !in cs && AllIn(s[..a], cs) && AllIn(s[b..], cs))
  {
    var a := SkipFrom(s, cs, 0);
    if a < |s| {
      var b := TrimEndAt(s, cs, |s|);
      assert a < b;
      assert AllIn(s[..a], cs);
      assert AllIn(s[b..], cs);
    }
  }

  /** Python's `s.strip()`. */
  function Strip(s: string): string { StripChars(s, Whitespace) }

  /** Characters of `cs` in front of a string do not change what `strip` keeps. */
  lemma {:induction false} StripCharsSkipsPrefix(s: string, cs: set<char>, n: nat)
    requires n <= |s| && forall k :: 0 <= k < n ==> s[k] in cs
    ensures StripChars(s, cs) == StripChars(s[n..], cs)
  {
    var t := s[n..];
    SkipShift(s, cs, n, 0);
    var at := SkipFrom(t, cs, 0);
    StripCharsAt(t, cs);
    StripCharsAt(s, cs);
    if at < |t| {
      TrimShift(s, cs, n, |t|);
      var et := TrimEndAt(t, cs, |t|);
      assert n + |t| == |s|;
      assert TrimEndAt(s, cs, |s|) == n + et;
      SliceOfSuffix(s, n, at, et);
    }
  }

  lemma {:induction false} StripCharsAt(s: string, cs: set<char>)
    ensures var a := SkipFrom(s, cs, 0);
      StripChars(s, cs) == if a == |s| then [] else s[a..TrimEndAt(s, cs, |s|)]
    ensures SkipFrom(s, cs, 0) < |s| ==> SkipFrom(s, cs, 0) < TrimEndAt(s, cs, |s|)
  {
  }

  /** `strip()` keeps nothing exactly when every character is whitespace, and otherwise
      begins with the first character that is not. */
  lemma {:induction false} StripHead(s: string)
    ensures Strip(s) == [] <==> SkipFrom(s, Whitespace, 0) == |s|
    ensures Strip(s) != [] ==> Strip(s)[0] == s[SkipFrom(s, Whitespace, 0)]
  {
    StripCharsAt(s, Whitespace);
  }

  /** A string that neither begins nor ends with a character of `cs` is kept whole. */
  lemma {:induction false} StripCharsKeeps(s: string, cs: set<char>)
    requires |s| >= 1 && s[0] !in cs && s[|s| - 1] !in cs
    ensures StripChars(s, cs) == s
  {
    assert s[0..|s|] == s;
  }

  lemma {:induction false} SliceOfSuffix<T>(s: seq<T>, n: nat, i: nat, j: nat)
    requires n <= |s| && i <= j <= |s| - n
    ensures s[n..][i..j] == s[n + i..n + j]
  {
  }

  lemma {:induction false} SkipShift(s: string, cs: set<char>, n: nat, i: nat)
    requires n <= |s| && i <= |s| - n
    requires forall k :: 0 <= k < n ==> s[k] in cs
    ensures SkipFrom(s, cs, n + i) == n + SkipFrom(s[n..], cs, i)
    ensures i == 0 ==> SkipFrom(s, cs, 0) == SkipFrom(s, cs, n)
    decreases |s| - i
  {
    if n + i < |s| && s[n + i] in cs {
      SkipShift(s, cs, n, i + 1);
    }
    if i == 0 {
      SkipFromSkips(s, cs, 0, n);
    }
  }

  lemma {:induction false} SkipFromSkips(s: string, cs: set<char>, i: nat, n: nat)
    requires i <= n <= |s| && forall k :: i <= k < n ==> s[k] in cs
    ensures SkipFrom(s, cs, i) == SkipFrom(s, cs, n)
    decreases n - i
  {
    if i < n {
      SkipFromSkips(s, cs, i + 1, n);
    }
  }

  lemma {:induction false} TrimShift(s: string, cs: set<char>, n: nat, j: nat)
    requires n <= |s| && j <= |s| - n
    requires forall k :: 0 <= k < n ==> s[k] in cs
    ensures TrimEndAt(s, cs, n + j) == if TrimEndAt(s[n..], cs, j) == 0 then TrimEndAt(s, cs, n) else n + TrimEndAt(s[n..], cs, j)
  {
    if j > 0 && s[n + j - 1] in cs {
      TrimShift(s, cs, n, j - 1);
    }
  }

  predicate StartsWith(s: string, p: string) { |p| <= |s| && s[..|p|] == p }

  predicate EndsWith(s: string, p: string) { |p| <= |s| && s[|s| - |p|..] == p }

  predicate OccursAt(s: string, pat: string, j: nat) { j + |pat| <= |s| && s[j..j + |pat|] == pat }

  ghost predicate Contains(s: string, pat: string) { exists j: nat :: OccursAt(s, pat, j) }

  /** `s.find(pat, from)`: the first occurrence of `pat` starting at or after `from`. */
  function FindFrom(s: string, pat: string, from: nat): (r: Option<nat>)
    decreases |s| - from
    ensures r.Some? ==> from <= r.value && r.value + |pat| <= |s|
  {
    if from + |pat| > |s| then None
    else if s[from..from + |pat|] == pat then Some(from)
    else FindFrom(s, pat, from + 1)
  }

  /** `FindFrom` finds the first occurrence at or after `from`, and finds none only when
      there is none. */
  lemma {:induction false} FindFromMeaning(s: string, pat: string, from: nat)
    ensures FindFrom(s, pat, from).Some? ==> OccursAt(s, pat, FindFrom(s, pat, from).value)
    ensures FindFrom(s, pat, from).Some? ==> forall j: nat :: from <= j < FindFrom(s, pat, from).value ==> !OccursAt(s, pat, j)
    ensures FindFrom(s, pat, from).None? ==> forall j: nat :: from <= j ==> !OccursAt(s, pat, j)
    decreases |s| - from
  {
    if from + |pat| <= |s| && s[from..from + |pat|] != pat {
      FindFromMeaning(s, pat, from + 1);
    }
  }

  /** A match found in a prefix of `s` is the match found in `s`. */
  lemma {:induction false} FindFromPrefix(s: string, n: nat, pat: string, from: nat)
    requires n <= |s| && FindFrom(s[..n], pat, from).Some?
    ensures FindFrom(s, pat, from) == FindFrom(s[..n], pat, from)
  {
    var j := FindFrom(s[..n], pat, from).value;
    FindFromMeaning(s[..n], pat, from);
    assert s[j..j + |pat|] == s[..n][j..j + |pat|];
    forall t: nat | from <= t < j ensures !OccursAt(s, pat, t) {
      assert t + |pat| <= n;
      assert s[t..t + |pat|] == s[..n][t..t + |pat|];
      assert !OccursAt(s[..n], pat, t);
    }
    FindFromFirst(s, pat, from, j);
  }

  /** `FindFrom` returns exactly the first occurrence. */
  lemma {:induction false} FindFromFirst(s: string, pat: string, from: nat, j: nat)
    requires from <= j && OccursAt(s, pat, j)
    requires forall t: nat :: from <= t < j ==> !OccursAt(s, pat, t)
    ensures FindFrom(s, pat, from) == Some(j)
  {
    FindFromMeaning(s, pat, from);
  }

  /** Python's `s.split(sep)` for a non-empty separator: the pieces between the leftmost
      non-overlapping occurrences of `sep`. */
  function Split(s: string, sep: string): (parts: seq<string>)
    requires |sep| > 0
    decreases |s|
    ensures |parts| >= 1
  {
    match FindFrom(s, sep, 0)
    case None => [s]
    case Some(j) => [s[..j]] + Split(s[j + |sep|..], sep)
  }

  /** The text in front of the first occurrence of a pattern does not hold it. */
  lemma {:induction false} PrefixBeforeFirstLacks(s: string, pat: string, j: nat)
    requires |pat| > 0 && j <= |s| && forall t: nat :: t < j ==> !OccursAt(s, pat, t)
    ensures !Contains(s[..j], pat)
  {
    forall t: nat | OccursAt(s[..j], pat, t) ensures false {
      assert s[t..t + |pat|] == s[..j][t..t + |pat|];
      assert OccursAt(s, pat, t);
    }
  }

  /** No piece of a split holds the separator. */
  lemma {:induction false} SplitPiecesLackSeparator(s: string, sep: string)
    requires |sep| > 0
    ensures forall k :: 0 <= k < |Split(s, sep)| ==> !Contains(Split(s, sep)[k], sep)
    decreases |s|
  {
    match FindFrom(s, sep, 0)
    case None =>
      FindFromMeaning(s, sep, 0);
      assert Split(s, sep) == [s];
      assert !Contains(s, sep);
    case Some(j) =>
      var rest := s[j + |sep|..];
      FindFromMeaning(s, sep, 0);
      PrefixBeforeFirstLacks(s, sep, j);
      SplitPiecesLackSeparator(rest, sep);
      var tail := Split(rest, sep);
      assert Split(s, sep) == [s[..j]] + tail;
      forall k | 0 <= k < 1 + |tail| ensures !Contains(([s[..j]] + tail)[k], sep) {
        if k > 0 {
          assert ([s[..j]] + tail)[k] == tail[k - 1];
        }
      }
  }

  /** Python's `sep.join(parts)`. */
  function Join(parts: seq<string>, sep: string): string
  {
    if |parts| == 0 then "" else if |parts| == 1 then parts[0] else parts[0] + sep + Join(parts[1..], sep)
  }

  /** One step of a split: the text before the first separator, then the split of the rest. */
  lemma {:induction false} SplitStep(s: string, sep: string, j: nat)
    requires |sep| > 0 && FindFrom(s, sep, 0) == Some(j)
    ensures Split(s, sep) == [s[..j]] + Split(s[j + |sep|..], sep)
  {
  }

  /** A string is the text before an occurrence, the occurrence, and the text after it. */
  lemma {:induction false} AroundOccurrence(s: string, pat: string, j: nat)
    requires OccursAt(s, pat, j)
    ensures s == s[..j] + pat + s[j + |pat|..]
  {
    assert s == s[..j] + s[j..];
    assert s[j..] == s[j..j + |pat|] + s[j + |pat|..];
  }

  /** The separator found by a split's first step sits between its two parts. */
  lemma {:induction false} FoundSeparator(s: string, sep: string, j: nat)
    requires FindFrom(s, sep, 0) == Some(j)
    ensures s == s[..j] + sep + s[j + |sep|..]
  {
    FindFromMeaning(s, sep, 0);
    AroundOccurrence(s, sep, j);
  }

  lemma {:induction false} JoinStep(head: string, tail: seq<string>, sep: string)
    requires |tail| >= 1
    ensures Join([head] + tail, sep) == head + sep + Join(tail, sep)
  {
    assert ([head] + tail)[1..] == tail;
  }

  /** Joining the pieces of a split with the same separator gives the string back. */
  lemma {:induction false} JoinSplit(s: string, sep: string)
    requires |sep| > 0
    ensures Join(Split(s, sep), sep) == s
    decreases |s|
  {
    match FindFrom(s, sep, 0)
    case None =>
    case Some(j) =>
      var rest := s[j + |sep|..];
      SplitStep(s, sep, j);
      FoundSeparator(s, sep, j);
      JoinSplit(rest, sep);
      JoinStep(s[..j], Split(rest, sep), sep);
  }

  /** Python's `s.replace(pat, rep)` for a non-empty pattern: every leftmost non-overlapping
      occurrence is replaced, and the replaced text is not scanned again. */
  function ReplaceAll(s: string, pat: string, rep: string): string
    requires |pat| > 0
    decreases |s|
  {
    match FindFrom(s, pat, 0)
    case None => s
    case Some(j) => s[..j] + rep + ReplaceAll(s[j + |pat|..], pat, rep)
  }

  lemma {:induction false} ReplaceStep(s: string, pat: string, rep: string, j: nat)
    requires |pat| > 0 && FindFrom(s, pat, 0) == Some(j)
    ensures ReplaceAll(s, pat, rep) == s[..j] + rep + ReplaceAll(s[j + |pat|..], pat, rep)
  {
  }

  /** `s.replace(pat, rep) == rep.join(s.split(pat))`. */
  lemma {:induction false} ReplaceIsJoinOfSplit(s: string, pat: string, rep: string)
    requires |pat| > 0
    ensures ReplaceAll(s, pat, rep) == Join(Split(s, pat), rep)
    decreases |s|
  {
    match FindFrom(s, pat, 0)
    case None =>
    case Some(j) =>
      var rest := s[j + |pat|..];
      ReplaceIsJoinOfSplit(rest, pat, rep);
      ReplaceStep(s, pat, rep, j);
      SplitStep(s, pat, j);
      JoinStep(s[..j], Split(rest, pat), rep);
  }

  /** Replacing a pattern by itself changes nothing. */
  lemma {:induction false} ReplaceBySelf(s: string, pat: string)
    requires |pat| > 0
    ensures ReplaceAll(s, pat, pat) == s
  {
    ReplaceIsJoinOfSplit(s, pat, pat);
    JoinSplit(s, pat);
  }

  /** A string without the pattern is left as it is. */
  lemma {:induction false} ReplaceAbsent(s: string, pat: string, rep: string)
    requires |pat| > 0 && !Contains(s, pat)
    ensures ReplaceAll(s, pat, rep) == s
  {
    FindFromMeaning(s, pat, 0);
  }

  /** A single character occurs in a string only where the string holds it. */
  lemma {:induction false} NoCharNoOccurrence(s: string, c: char)
    requires c !in s
    ensures FindFrom(s, [c], 0).None?
  {
    forall j: nat | j + 1 <= |s| ensures !OccursAt(s, [c], j) {
      assert s[j..j + 1][0] == s[j];
    }
    FindFromMeaning(s, [c], 0);
  }

  /** Splitting pieces joined by a one-character separator they do not hold gives the
      pieces back. */
  lemma {:induction false} SplitJoinChar(parts: seq<string>, c: char)
    requires |parts| >= 1 && forall k :: 0 <= k < |parts| ==> c !in parts[k]
    ensures Split(Join(parts, [c]), [c]) == parts
    decreases |parts|
  {
    if |parts| == 1 {
      NoCharNoOccurrence(parts[0], c);
    } else {
      var head, rest := parts[0], Join(parts[1..], [c]);
      var s := head + [c] + rest;
      var n := |head|;
      assert Join(parts, [c]) == s;
      assert s[n..n + 1] == [c];
      forall t: nat | t < n ensures !OccursAt(s, [c], t) {
        assert s[t] == head[t];
        assert s[t..t + 1][0] == s[t];
      }
      FindFromFirst(s, [c], 0, n);
      SplitStep(s, [c], n);
      assert s[..n] == head && s[n + 1..] == rest;
      SplitJoinChar(parts[1..], c);
      assert parts == [head] + parts[1..];
    }
  }

  /** The first piece of a split is a prefix of the string. */
  lemma {:induction false} FirstPieceIsPrefix(s: string, sep: string)
    requires |sep| > 0
    ensures StartsWith(s, Split(s, sep)[0])
  {
  }

  /** The pieces of `content.split('\n')` are lines without a newline. */
  lemma {:induction false} SplitLinesHaveNoNewline(content: string)
    ensures forall k :: 0 <= k < |Split(content, "\n")| ==> NoNewline(Split(content, "\n")[k])
  {
    var lines := Split(content, "\n");
    SplitPiecesLackSeparator(content, "\n");
    forall k | 0 <= k < |lines| ensures NoNewline(lines[k]) {
      if '\n' in lines[k] {
        var t :| 0 <= t < |lines[k]| && lines[k][t] == '\n';
        assert lines[k][t..t + 1] == "\n";
        assert OccursAt(lines[k], "\n", t);
      }
    }
  }

  /** POSIX `os.path.basename`: what follows the last '/', or the whole path when it holds
      no '/'. */
  function Basename(path: string): (name: string)
    ensures '/' !in name
    ensures EndsWith(path, name)
    ensures |name| == |path| || path[|path| - |name| - 1] == '/'
    decreases |path|
  {
    if '/' !in path then path
    else
      var name := Basename(path[1..]);
      assert path == [path[0]] + path[1..];
      assert path[|path| - |name|..] == path[1..][|path| - 1 - |name|..];
      assert |name| == |path| - 1 ==> name == path[1..] && path[0] == '/';
      name
  }

  /** The three clauses of `Basename` fix its result: a '/'-free suffix that starts the
      path or follows a '/' is the basename. */
  lemma {:induction false} BasenameUnique(path: string, name: string)
    requires '/' !in name && EndsWith(path, name)
    requires |name| == |path| || path[|path| - |name| - 1] == '/'
    ensures name == Basename(path)
  {
    var b := Basename(path);
    assert path[|path| - |name|..] == name && path[|path| - |b|..] == b;
  }

}
