/**
 * The inline tokenizer of `convert_markdown_to_docx` (markdown_to_word.py:885-924, and
 * the same loop again at 1024-1063): a line of text is cut into runs that are plain,
 * bold, italic, inline code or link text.
 *
 * The four regular expressions are modelled by explicit matchers with the same meaning
 * on a line without '\n' (every line the converter tokenizes comes from
 * `content.split('\n')`, so the regex `.` matches every character of it).
 */
module Inline {
  import opened Wrappers
  import opened Strings

  /** The format tags of `formatted_runs`: 'normal', 'bold', 'italic', 'code', 'link'. */
  datatype Kind = Normal | Bold | Italic | Code | Link

  /** One entry of `formatted_runs`. */
  datatype Span = Span(kind: Kind, text: string)

  /** A regex match: where it starts, where it ends, and the group that becomes the run. */
  datatype Match = Match(kind: Kind, start: nat, end: nat, inner: string)

  /** The first position at or after `from` that holds `c`: where a lazy `.*?` followed
      by `c` stops. */
  function NextChar(s: string, c: char, from: nat): (r: Option<nat>)
    ensures r.Some? ==> from <= r.value < |s| && s[r.value] == c
    decreases |s| - from
  {
    if from >= |s| then None else if s[from] == c then Some(from) else NextChar(s, c, from + 1)
  }

  /** The first position at or after `from` where `c` is followed by `d`. */
  function NextPair(s: string, c: char, d: char, from: nat): (r: Option<nat>)
    ensures r.Some? ==> from <= r.value && r.value + 1 < |s| && s[r.value] == c && s[r.value + 1] == d
    decreases |s| - from
  {
    if from + 1 >= |s| then None
    else if s[from] == c && s[from + 1] == d then Some(from)
    else NextPair(s, c, d, from + 1)
  }

  /** `(\*\*|__)(.*?)(\1)` at `i`: a doubled delimiter, then everything up to the first
      later occurrence of the same delimiter; the inner text may be empty. */
  function BoldAt(s: string, i: nat): (r: Option<Match>)
    ensures r.Some? ==> r.value.kind == Bold && r.value.start == i && i + 4 <= r.value.end <= |s|
  {
    if i + 1 < |s| && (s[i] == '*' || s[i] == '_') && s[i + 1] == s[i] then
      match NextPair(s, s[i], s[i], i + 2)
      case Some(j) => Some(Match(Bold, i, j + 2, s[i + 2..j]))
      case None => None
    else None
  }

  /** `([*_])((?!\1).*?)(\1)` at `i`: a single delimiter not followed by itself, then
      everything up to the next occurrence of it. */
  function ItalicAt(s: string, i: nat): (r: Option<Match>)
    ensures r.Some? ==> r.value.kind == Italic && r.value.start == i && i + 2 <= r.value.end <= |s|
  {
    if i + 1 < |s| && (s[i] == '*' || s[i] == '_') && s[i + 1] != s[i] then
      match NextChar(s, s[i], i + 1)
      case Some(j) => Some(Match(Italic, i, j + 1, s[i + 1..j]))
      case None => None
    else None
  }

  /** `` `(.*?)` `` at `i`: a backtick, then everything up to the next backtick. */
  function CodeAt(s: string, i: nat): (r: Option<Match>)
    ensures r.Some? ==> r.value.kind == Code && r.value.start == i && i + 2 <= r.value.end <= |s|
  {
    if i < |s| && s[i] == '`' then
      match NextChar(s, '`', i + 1)
      case Some(j) => Some(Match(Code, i, j + 1, s[i + 1..j]))
      case None => None
    else None
  }

  /** `\[(.*?)\]\((.*?)\)` at `i`: the text up to the first "](" and then the target up to
      the first ')'; only the text is kept. A later "](" cannot help when no ')' follows
      the first one, so the first is the one the regex uses. */
  function LinkAt(s: string, i: nat): (r: Option<Match>)
    ensures r.Some? ==> r.value.kind == Link && r.value.start == i && i + 4 <= r.value.end <= |s|
  {
    if i < |s| && s[i] == '[' then
      match NextPair(s, ']', '(', i + 1)
      case Some(j) =>
        (match NextChar(s, ')', j + 2)
         case Some(k) => Some(Match(Link, i, k + 1, s[i + 1..j]))
         case None => None)
      case None => None
    else None
  }

  /** The pattern of a format tag matched exactly at `i`. */
  function MatchAt(k: Kind, s: string, i: nat): (r: Option<Match>)
    requires k != Normal
    ensures r.Some? ==> r.value.kind == k && r.value.start == i && i + 2 <= r.value.end <= |s|
  {
    match k
    case Bold => BoldAt(s, i)
    case Italic => ItalicAt(s, i)
    case Code => CodeAt(s, i)
    case Link => LinkAt(s, i)
  }

  /** `re.search` from position `from`: the match at the leftmost position that has one. */
  function Search(k: Kind, s: string, from: nat): (r: Option<Match>)
    requires k != Normal
    ensures r.Some? ==> r.value.kind == k && from <= r.value.start && r.value.start + 2 <= r.value.end <= |s|
    decreases |s| - from
  {
    if from >= |s| then None
    else if MatchAt(k, s, from).Some? then MatchAt(k, s, from)
    else Search(k, s, from + 1)
  }

  /** The head of a stable sort by start of two candidates: the second wins only when it
      starts strictly earlier. */
  function Earlier(a: Option<Match>, b: Option<Match>): (r: Option<Match>)
    ensures r == a || r == b
    ensures r.None? <==> a.None? && b.None?
    ensures r.Some? && a.Some? ==> r.value.start <= a.value.start
    ensures r.Some? && b.Some? ==> r.value.start <= b.value.start
  {
    if a.None? then b
    else if b.None? then a
    else if b.value.start < a.value.start then b
    else a
  }

  /** `valid_matches.sort(key=start)[0]` over the list (bold, italic, code, link). */
  function Choose(s: string): (r: Option<Match>)
    ensures r.Some? ==> r.value.kind != Normal && r.value.start + 2 <= r.value.end <= |s|
  {
    Earlier(Earlier(Earlier(Search(Bold, s, 0), Search(Italic, s, 0)), Search(Code, s, 0)), Search(Link, s, 0))
  }

  /** The runs one round emits for the match `m`: the plain text in front of it, when
      there is any, then the match's group with its format. */
  function Emitted(s: string, m: Match): seq<Span>
    requires m.start <= |s|
  {
    (if m.start > 0 then [Span(Normal, s[..m.start])] else []) + [Span(m.kind, m.inner)]
  }

  /** The runs the tokenizer produces for `s`. */
  function Spans(s: string): (r: seq<Span>)
    decreases |s|
  {
    if |s| == 0 then []
    else match Choose(s)
      case None => [Span(Normal, s)]
      case Some(m) => Emitted(s, m) + Spans(s[m.end..])
  }

  /** One round of the tokenizer, as an equation on `Spans`. */
  lemma {:induction false} SpansStep(s: string, m: Match)
    requires |s| > 0 && Choose(s) == Some(m)
    ensures Spans(s) == Emitted(s, m) + Spans(s[m.end..])
  {
  }

  /** Without any match the whole rest is one plain run. */
  lemma {:induction false} SpansLast(s: string)
    requires |s| > 0 && Choose(s).None?
    ensures Spans(s) == [Span(Normal, s)]
  {
  }

  lemma {:induction false} AppendAssoc<T>(a: seq<T>, b: seq<T>, c: seq<T>)
    ensures (a + b) + c == a + (b + c)
  {
  }

  /** The `while remaining_text` loop: search the four patterns, take the leftmost match,
      emit the plain text before it and the match's group, and go on after the match. */
  method Tokenize(text: string) returns (runs: seq<Span>)
    ensures runs == Spans(text)
  {
    runs := [];
    var remaining := text;
    while |remaining| > 0
      invariant runs + Spans(remaining) == Spans(text)
      decreases |remaining|
    {
      var boldMatch := Search(Bold, remaining, 0);
      var italicMatch := Search(Italic, remaining, 0);
      var codeMatch := Search(Code, remaining, 0);
      var linkMatch := Search(Link, remaining, 0);
      var best := Earlier(Earlier(Earlier(boldMatch, italicMatch), codeMatch), linkMatch);
      if best.None? {
        SpansLast(remaining);
        runs := runs + [Span(Normal, remaining)];
        break;
      }
      var m := best.value;
      SpansStep(remaining, m);
      AppendAssoc(runs, Emitted(remaining, m), Spans(remaining[m.end..]));
      var emitted: seq<Span> := [];
      if m.start > 0 {
        emitted := [Span(Normal, remaining[..m.start])];
      }
      emitted := emitted + [Span(m.kind, m.inner)];
      assert emitted == Emitted(remaining, m);
      runs := runs + emitted;
      remaining := remaining[m.end..];
    }
  }

  // ---------------------------------------------------------------------------
  // Which match a round takes

  /** The characters a match can open with. */
  const Special: set<char> := {'*', '_', '`', '['}

  /** Every pattern opens with its own delimiter: `**`/`__` for bold, a single `*`/`_`
      not doubled for italic, a backtick for code, '[' for a link. */
  lemma {:induction false} MatchOpens(k: Kind, s: string, i: nat)
    requires k != Normal
    ensures MatchAt(k, s, i).Some? ==> i + 1 < |s| && s[i] in Special
    ensures MatchAt(k, s, i).Some? && k == Bold ==> s[i] in {'*', '_'} && s[i + 1] == s[i]
    ensures MatchAt(k, s, i).Some? && k == Italic ==> s[i] in {'*', '_'} && s[i + 1] != s[i]
    ensures MatchAt(k, s, i).Some? && k == Code ==> s[i] == '`'
    ensures MatchAt(k, s, i).Some? && k == Link ==> s[i] == '['
  {
  }

  /** At most one pattern matches at a given position: the four candidates of a round
      never share a start, so the list order of the stable sort never decides. */
  lemma {:induction false} OnePatternAt(k1: Kind, k2: Kind, s: string, i: nat)
    requires k1 != Normal && k2 != Normal && k1 != k2
    ensures MatchAt(k1, s, i).None? || MatchAt(k2, s, i).None?
  {
    MatchOpens(k1, s, i);
    MatchOpens(k2, s, i);
  }

  /** `re.search` returns the match at the first position from `from` that has one, and
      nothing only when no position has one. */
  lemma {:induction false} SearchMeaning(k: Kind, s: string, from: nat)
    requires k != Normal
    ensures Search(k, s, from).Some? ==> MatchAt(k, s, Search(k, s, from).value.start) == Search(k, s, from)
    ensures Search(k, s, from).Some? ==> forall i :: from <= i < Search(k, s, from).value.start ==> MatchAt(k, s, i).None?
    ensures Search(k, s, from).None? ==> forall i :: from <= i ==> MatchAt(k, s, i).None?
    decreases |s| - from
  {
    if from >= |s| {
      forall i | from <= i ensures MatchAt(k, s, i).None? {
        MatchOpens(k, s, i);
      }
    } else if MatchAt(k, s, from).None? {
      SearchMeaning(k, s, from + 1);
    }
  }

  /** The match a round takes is one of the four searches' results, and there is one
      exactly when some search succeeds. */
  lemma {:induction false} ChooseIsCandidate(s: string)
    ensures Choose(s).None? <==>
      Search(Bold, s, 0).None? && Search(Italic, s, 0).None? && Search(Code, s, 0).None? && Search(Link, s, 0).None?
    ensures Choose(s).Some? ==> Search(Choose(s).value.kind, s, 0) == Choose(s)
  {
  }

  /** The match a round takes starts strictly before every other candidate: the
      leftmost start decides, and a tie cannot occur. */
  lemma {:induction false} ChooseLeftmost(s: string, k: Kind)
    requires k != Normal && Choose(s).Some? && k != Choose(s).value.kind && Search(k, s, 0).Some?
    ensures Choose(s).value.start < Search(k, s, 0).value.start
  {
    var m := Choose(s).value;
    ChooseIsCandidate(s);
    var c := Search(k, s, 0).value;
    assert m.start <= c.start;
    SearchMeaning(k, s, 0);
    SearchMeaning(m.kind, s, 0);
    OnePatternAt(k, m.kind, s, c.start);
  }

  /** No pattern matches anywhere before the match a round takes. */
  lemma {:induction false} NothingBeforeChoice(s: string, k: Kind, i: nat)
    requires k != Normal && Choose(s).Some? && i < Choose(s).value.start
    ensures MatchAt(k, s, i).None?
  {
    var m := Choose(s).value;
    ChooseIsCandidate(s);
    SearchMeaning(k, s, 0);
    if k != m.kind && Search(k, s, 0).Some? {
      ChooseLeftmost(s, k);
    }
  }

  /** A search from `from` that meets no match before `p` and one at `p` returns it. */
  lemma {:induction false} SearchFinds(k: Kind, s: string, from: nat, p: nat)
    requires k != Normal && from <= p
    requires forall i :: from <= i < p ==> MatchAt(k, s, i).None?
    requires MatchAt(k, s, p).Some?
    ensures Search(k, s, from) == MatchAt(k, s, p)
    decreases p - from
  {
    MatchOpens(k, s, p);
    if from < p {
      MatchOpens(k, s, from);
      SearchFinds(k, s, from + 1, p);
    }
  }

  /** The round takes `m` when its own search finds it and every other search finds
      nothing or something later. */
  lemma {:induction false} ChooseTakes(s: string, m: Match)
    requires m.kind != Normal && Search(m.kind, s, 0) == Some(m)
    requires forall k :: k != Normal && k != m.kind ==> Search(k, s, 0).None? || m.start < Search(k, s, 0).value.start
    ensures Choose(s) == Some(m)
  {
  }

  // ---------------------------------------------------------------------------
  // The shape of the runs

  /** Every plain run holds some text. */
  predicate PlainNonEmpty(r: seq<Span>)
  {
    forall k :: 0 <= k < |r| && r[k].kind == Normal ==> |r[k].text| > 0
  }

  /** A plain run is never followed by another plain run. */
  predicate NoAdjacentPlain(r: seq<Span>)
  {
    forall k :: 0 <= k < |r| - 1 && r[k].kind == Normal ==> r[k + 1].kind != Normal
  }

  lemma {:induction false} ShapeAppend(a: seq<Span>, b: seq<Span>)
    requires PlainNonEmpty(a) && PlainNonEmpty(b) && NoAdjacentPlain(a) && NoAdjacentPlain(b)
    requires |a| > 0 && a[|a| - 1].kind != Normal
    ensures PlainNonEmpty(a + b) && NoAdjacentPlain(a + b)
  {
    var c := a + b;
    forall k | 0 <= k < |c| - 1 && c[k].kind == Normal ensures c[k + 1].kind != Normal {
      if k >= |a| {
        assert c[k] == b[k - |a|] && c[k + 1] == b[k + 1 - |a|];
      }
    }
    forall k | 0 <= k < |c| && c[k].kind == Normal ensures |c[k].text| > 0 {
      if k >= |a| {
        assert c[k] == b[k - |a|];
      }
    }
  }

  /** The tokenizer emits a plain run only for a non-empty prefix or rest, and the text
      between two formatted runs is a single plain run; it emits nothing only for the
      empty text, and never more runs than the text has characters. */
  lemma {:induction false} SpansShape(s: string)
    ensures PlainNonEmpty(Spans(s)) && NoAdjacentPlain(Spans(s))
    ensures Spans(s) == [] <==> s == ""
    ensures |Spans(s)| <= |s|
    decreases |s|
  {
    if |s| > 0 {
      match Choose(s)
      case None =>
        SpansLast(s);
      case Some(m) =>
        SpansStep(s, m);
        SpansShape(s[m.end..]);
        ShapeAppend(Emitted(s, m), Spans(s[m.end..]));
    }
  }

  // ---------------------------------------------------------------------------
  // Writing runs back as Markdown

  /** Text with no character a pattern can open or close on. */
  predicate Inert(t: string)
  {
    forall j :: 0 <= j < |t| ==> t[j] !in Special && t[j] != ']'
  }

  /** A run as an author writes it: bold and italic with `*` or with `_`, and a link with
      its target. */
  datatype Written = Written(span: Span, underscore: bool, target: string)

  /** The delimiter a bold or italic run is written with. */
  function Delimiter(w: Written): (d: char)
    ensures d in Special && d != '`' && d != '['
  {
    if w.underscore then '_' else '*'
  }

  /** The Markdown for one run: `**t**` or `__t__`, `*t*` or `_t_`, `` `t` ``, `[t](u)`,
      or the text itself. */
  function Wrap(w: Written): (s: string)
    ensures |s| >= |w.span.text|
  {
    var t, d := w.span.text, Delimiter(w);
    match w.span.kind
    case Normal => t
    case Bold => [d, d] + t + [d, d]
    case Italic => [d] + t + [d]
    case Code => "`" + t + "`"
    case Link => "[" + t + "](" + w.target + ")"
  }

  /** The Markdown for a sequence of written runs. */
  function Markup(ws: seq<Written>): string
  {
    if |ws| == 0 then "" else Wrap(ws[0]) + Markup(ws[1..])
  }

  /** The runs a sequence of written runs stands for. */
  function SpansOf(ws: seq<Written>): (r: seq<Span>)
    ensures |r| == |ws| && forall k :: 0 <= k < |ws| ==> r[k] == ws[k].span
  {
    seq(|ws|, k requires 0 <= k < |ws| => ws[k].span)
  }

  /** A run written so that only its own pattern can read it: its text is inert, plain
      and italic texts are not empty, and a link target holds no ')'. */
  predicate WellWritten(w: Written)
  {
    Inert(w.span.text)
    && (w.span.kind == Normal || w.span.kind == Italic ==> |w.span.text| > 0)
    && (w.span.kind == Link ==> ')' !in w.target)
  }

  /** Written runs that `Markup` writes unambiguously: each one well written, and no two
      plain runs in a row. */
  predicate Writable(ws: seq<Written>)
  {
    (forall k :: 0 <= k < |ws| ==> WellWritten(ws[k]))
    && (forall k :: 0 <= k < |ws| - 1 && ws[k].span.kind == Normal ==> ws[k + 1].span.kind != Normal)
  }

  /** `NextChar` stops at the first `c`. */
  lemma {:induction false} NextCharFinds(s: string, c: char, from: nat, q: nat)
    requires from <= q < |s| && s[q] == c
    requires forall i :: from <= i < q ==> s[i] != c
    ensures NextChar(s, c, from) == Some(q)
    decreases q - from
  {
    if from < q {
      NextCharFinds(s, c, from + 1, q);
    }
  }

  /** `NextPair` stops at the first pair when no earlier position holds its first character. */
  lemma {:induction false} NextPairFinds(s: string, c: char, d: char, from: nat, q: nat)
    requires from <= q && q + 1 < |s| && s[q] == c && s[q + 1] == d
    requires forall i :: from <= i < q ==> s[i] != c
    ensures NextPair(s, c, d, from) == Some(q)
    decreases q - from
  {
    if from < q {
      NextPairFinds(s, c, d, from + 1, q);
    }
  }

  /** The characters of `a + w + tail` around the embedded `w`. */
  lemma {:induction false} Embedded(a: string, w: string, tail: string)
    ensures var s := a + w + tail;
      (forall j :: 0 <= j < |a| ==> s[j] == a[j]) && (forall j :: 0 <= j < |w| ==> s[|a| + j] == w[j])
      && s[..|a|] == a && s[|a|..|a| + |w|] == w && s[|a| + |w|..] == tail
  {
  }

  /** Nothing matches inside an inert prefix. */
  lemma {:induction false} NoMatchInInert(s: string, a: string)
    requires |a| <= |s| && Inert(a) && s[..|a|] == a
    ensures forall k, i :: k != Normal && 0 <= i < |a| ==> MatchAt(k, s, i).None?
  {
    forall k, i | k != Normal && 0 <= i < |a| ensures MatchAt(k, s, i).None? {
      MatchOpens(k, s, i);
      assert s[i] == s[..|a|][i] == a[i];
    }
  }

  /** The bold pattern at `p` when the doubled delimiter `d` opens there and the next
      doubled `d` is `n` characters on. */
  lemma {:induction false} BoldAtFacts(s: string, p: nat, n: nat, d: char)
    requires (d == '*' || d == '_') && p + n + 4 <= |s| && s[p] == d && s[p + 1] == d
    requires forall j :: p + 2 <= j < p + 2 + n ==> s[j] != d
    requires s[p + 2 + n] == d && s[p + 3 + n] == d
    ensures BoldAt(s, p) == Some(Match(Bold, p, p + 4 + n, s[p + 2..p + 2 + n]))
  {
    NextPairFinds(s, d, d, p + 2, p + 2 + n);
  }

  /** The italic pattern at `p` when a single delimiter `d` opens there and the next `d`
      is `n` characters on. */
  lemma {:induction false} ItalicAtFacts(s: string, p: nat, n: nat, d: char)
    requires (d == '*' || d == '_') && 0 < n && p + n + 2 <= |s| && s[p] == d
    requires forall j :: p + 1 <= j < p + 1 + n ==> s[j] != d
    requires s[p + 1 + n] == d
    ensures ItalicAt(s, p) == Some(Match(Italic, p, p + 2 + n, s[p + 1..p + 1 + n]))
  {
    NextCharFinds(s, d, p + 1, p + 1 + n);
  }

  /** The code pattern at `p` when a backtick opens there and the next one is `n`
      characters on. */
  lemma {:induction false} CodeAtFacts(s: string, p: nat, n: nat)
    requires p + n + 2 <= |s| && s[p] == '`'
    requires forall j :: p + 1 <= j < p + 1 + n ==> s[j] != '`'
    requires s[p + 1 + n] == '`'
    ensures CodeAt(s, p) == Some(Match(Code, p, p + 2 + n, s[p + 1..p + 1 + n]))
  {
    NextCharFinds(s, '`', p + 1, p + 1 + n);
  }

  /** The link pattern at `p` when '[' opens there, the first ']' is `n` characters on
      and is followed by '(', and the first ')' after that is `m` characters further. */
  lemma {:induction false} LinkAtFacts(s: string, p: nat, n: nat, m: nat)
    requires p + n + m + 4 <= |s| && s[p] == '['
    requires forall j :: p + 1 <= j < p + 1 + n ==> s[j] != ']'
    requires s[p + 1 + n] == ']' && s[p + 2 + n] == '('
    requires forall j :: p + 3 + n <= j < p + 3 + n + m ==> s[j] != ')'
    requires s[p + 3 + n + m] == ')'
    ensures LinkAt(s, p) == Some(Match(Link, p, p + 4 + n + m, s[p + 1..p + 1 + n]))
  {
    NextPairFinds(s, ']', '(', p + 1, p + 1 + n);
    NextCharFinds(s, ')', p + 3 + n, p + 3 + n + m);
  }

  /** `ddtdd` written at `p`, for a delimiter `d`, is matched by the bold pattern with
      group `t`. */
  lemma {:induction false} BoldWrapAt(s: string, p: nat, t: string, d: char)
    requires (d == '*' || d == '_') && Inert(t)
    requires p + |t| + 4 <= |s| && s[p..p + |t| + 4] == [d, d] + t + [d, d]
    ensures BoldAt(s, p) == Some(Match(Bold, p, p + 4 + |t|, t))
  {
    var n, w := |t|, [d, d] + t + [d, d];
    assert forall i :: 0 <= i < n ==> w[2 + i] == t[i];
    assert forall i :: 0 <= i < n + 4 ==> s[p + i] == s[p..p + n + 4][i] == w[i];
    assert s[p] == w[0] && s[p + 1] == w[1] && s[p + 2 + n] == w[2 + n] && s[p + 3 + n] == w[3 + n];
    forall j | p + 2 <= j < p + 2 + n ensures s[j] != d {
      assert s[j] == s[p + (j - p)] == w[j - p] == t[j - p - 2];
    }
    assert s[p + 2..p + 2 + n] == t;
    BoldAtFacts(s, p, n, d);
  }

  /** `dtd` written at `p`, for a delimiter `d` and a non-empty `t`, is matched by the
      italic pattern with group `t`. */
  lemma {:induction false} ItalicWrapAt(s: string, p: nat, t: string, d: char)
    requires (d == '*' || d == '_') && Inert(t) && |t| > 0
    requires p + |t| + 2 <= |s| && s[p..p + |t| + 2] == [d] + t + [d]
    ensures ItalicAt(s, p) == Some(Match(Italic, p, p + 2 + |t|, t))
  {
    var n, w := |t|, [d] + t + [d];
    assert forall i :: 0 <= i < n ==> w[1 + i] == t[i];
    assert forall i :: 0 <= i < n + 2 ==> s[p + i] == s[p..p + n + 2][i] == w[i];
    assert s[p] == w[0] && s[p + 1 + n] == w[1 + n];
    forall j | p + 1 <= j < p + 1 + n ensures s[j] != d {
      assert s[j] == s[p + (j - p)] == w[j - p] == t[j - p - 1];
    }
    assert s[p + 1..p + 1 + n] == t;
    ItalicAtFacts(s, p, n, d);
  }

  /** `` `t` `` written at `p` is matched by the code pattern with group `t`. */
  lemma {:induction false} CodeWrapAt(s: string, p: nat, t: string)
    requires Inert(t) && p + |t| + 2 <= |s| && s[p..p + |t| + 2] == "`" + t + "`"
    ensures CodeAt(s, p) == Some(Match(Code, p, p + 2 + |t|, t))
  {
    var n, w := |t|, "`" + t + "`";
    assert forall i :: 0 <= i < n ==> w[1 + i] == t[i];
    assert forall i :: 0 <= i < n + 2 ==> s[p + i] == s[p..p + n + 2][i] == w[i];
    assert s[p] == w[0] && s[p + 1 + n] == w[1 + n];
    forall j | p + 1 <= j < p + 1 + n ensures s[j] != '`' {
      assert s[j] == s[p + (j - p)] == w[j - p] == t[j - p - 1];
    }
    assert s[p + 1..p + 1 + n] == t;
    CodeAtFacts(s, p, n);
  }

  /** `[t](u)` written at `p`, with no ')' in the target `u`, is matched by the link
      pattern, and only the text `t` is kept. */
  lemma {:induction false} LinkWrapAt(s: string, p: nat, t: string, u: string)
    requires Inert(t) && ')' !in u
    requires p + |t| + |u| + 4 <= |s| && s[p..p + |t| + |u| + 4] == "[" + t + "](" + u + ")"
    ensures LinkAt(s, p) == Some(Match(Link, p, p + 4 + |t| + |u|, t))
  {
    var n, m, w := |t|, |u|, "[" + t + "](" + u + ")";
    assert forall i :: 0 <= i < n ==> w[1 + i] == t[i];
    assert forall i :: 0 <= i < m ==> w[3 + n + i] == u[i];
    assert forall i :: 0 <= i < n + m + 4 ==> s[p + i] == s[p..p + n + m + 4][i] == w[i];
    assert s[p] == w[0] && s[p + 1 + n] == w[1 + n] && s[p + 2 + n] == w[2 + n];
    assert s[p + 3 + n + m] == w[3 + n + m];
    forall j | p + 1 <= j < p + 1 + n ensures s[j] != ']' {
      assert s[j] == s[p + (j - p)] == w[j - p] == t[j - p - 1];
    }
    forall j | p + 3 + n <= j < p + 3 + n + m ensures s[j] != ')' {
      assert s[j] == s[p + (j - p)] == w[j - p] == u[j - p - 3 - n];
    }
    assert s[p + 1..p + 1 + n] == t;
    LinkAtFacts(s, p, n, m);
  }

  /** The markup of one well-written formatted run, written at `p`, is matched there by
      its own pattern with exactly the run's text as the group. */
  lemma {:induction false} WrapMatchesAt(s: string, p: nat, w: Written)
    requires w.span.kind != Normal && WellWritten(w)
    requires p + |Wrap(w)| <= |s| && s[p..p + |Wrap(w)|] == Wrap(w)
    ensures MatchAt(w.span.kind, s, p) == Some(Match(w.span.kind, p, p + |Wrap(w)|, w.span.text))
  {
    var t, d := w.span.text, Delimiter(w);
    match w.span.kind
    case Bold => BoldWrapAt(s, p, t, d);
    case Italic => ItalicWrapAt(s, p, t, d);
    case Code => CodeWrapAt(s, p, t);
    case Link => LinkWrapAt(s, p, t, w.target);
  }

  /** After an inert prefix, a match of any pattern is the match the round takes,
      whatever follows it. */
  lemma {:induction false} FirstAfterInert(s: string, a: string, m: Match)
    requires Inert(a) && |a| <= |s| && s[..|a|] == a
    requires m.kind != Normal && m.start == |a| && MatchAt(m.kind, s, |a|) == Some(m)
    ensures Choose(s) == Some(m)
  {
    var p := |a|;
    NoMatchInInert(s, a);
    SearchFinds(m.kind, s, 0, p);
    forall k2 | k2 != Normal && k2 != m.kind ensures Search(k2, s, 0).None? || p < Search(k2, s, 0).value.start {
      OnePatternAt(m.kind, k2, s, p);
      SearchMeaning(k2, s, 0);
    }
    ChooseTakes(s, m);
  }

  /** A text made of an inert prefix `a`, the markup of a formatted run and a rest is
      tokenized as `a` (when non-empty), the run, and then the rest's runs. */
  lemma {:induction false} SpansAfterFormatted(s: string, a: string, w: Written, rest: string)
    requires Inert(a) && w.span.kind != Normal && WellWritten(w)
    requires |s| == |a| + |Wrap(w)| + |rest|
    requires s[..|a|] == a && s[|a|..|a| + |Wrap(w)|] == Wrap(w) && s[|a| + |Wrap(w)|..] == rest
    ensures Spans(s) == (if |a| > 0 then [Span(Normal, a)] else []) + [w.span] + Spans(rest)
  {
    var m := Match(w.span.kind, |a|, |a| + |Wrap(w)|, w.span.text);
    FormattedChosen(s, a, w);
    SpansStep(s, m);
    assert s[m.end..] == rest;
    assert Emitted(s, m) == (if |a| > 0 then [Span(Normal, a)] else []) + [w.span];
  }

  /** The round on such a text takes the formatted run's markup. */
  lemma {:induction false} FormattedChosen(s: string, a: string, w: Written)
    requires Inert(a) && w.span.kind != Normal && WellWritten(w)
    requires |a| + |Wrap(w)| <= |s| && s[..|a|] == a && s[|a|..|a| + |Wrap(w)|] == Wrap(w)
    ensures Choose(s) == Some(Match(w.span.kind, |a|, |a| + |Wrap(w)|, w.span.text))
  {
    WrapMatchesAt(s, |a|, w);
    FirstAfterInert(s, a, Match(w.span.kind, |a|, |a| + |Wrap(w)|, w.span.text));
  }

  /** A non-empty inert text is one plain run. */
  lemma {:induction false} InertIsPlain(t: string)
    requires Inert(t) && |t| > 0
    ensures Spans(t) == [Span(Normal, t)]
  {
    NoMatchInInert(t, t);
    forall k | k != Normal ensures Search(k, t, 0).None? {
      SearchMeaning(k, t, 0);
    }
    SpansLast(t);
  }

  lemma {:induction false} MarkupStep(ws: seq<Written>)
    requires |ws| > 0
    ensures Markup(ws) == Wrap(ws[0]) + Markup(ws[1..])
  {
  }

  /** What follows the first runs of writable runs is writable. */
  lemma {:induction false} WritableSuffix(ws: seq<Written>, i: nat)
    requires Writable(ws) && i <= |ws|
    ensures Writable(ws[i..])
  {
    var q := ws[i..];
    assert forall j :: 0 <= j < |q| ==> q[j] == ws[i + j];
  }

  /** The first round on the markup of runs that open with a formatted run. */
  lemma {:induction false} FormattedHead(ws: seq<Written>)
    requires Writable(ws) && |ws| > 0 && ws[0].span.kind != Normal
    ensures Writable(ws[1..])
    ensures Spans(Markup(ws)) == [ws[0].span] + Spans(Markup(ws[1..]))
  {
    var w, rest := ws[0], Markup(ws[1..]);
    MarkupStep(ws);
    WritableSuffix(ws, 1);
    assert WellWritten(w);
    var m := Wrap(w);
    var s := m + rest;
    assert s[..0] == "" && s[0..|m|] == m && s[|m|..] == rest;
    SpansAfterFormatted(s, "", w, rest);
    assert Markup(ws) == s;
  }

  /** The first round on the markup of runs that open with a plain run and go on. */
  lemma {:induction false} PlainHead(ws: seq<Written>)
    requires Writable(ws) && |ws| > 1 && ws[0].span.kind == Normal
    ensures Writable(ws[2..])
    ensures Spans(Markup(ws)) == [ws[0].span, ws[1].span] + Spans(Markup(ws[2..]))
  {
    var a, w, rest := ws[0].span.text, ws[1], Markup(ws[2..]);
    MarkupStep2(ws);
    WritableSuffix(ws, 2);
    assert WellWritten(ws[0]) && WellWritten(w);
    assert Inert(a) && |a| > 0 && w.span.kind != Normal;
    var s, m := Markup(ws), Wrap(w);
    assert Wrap(ws[0]) == a;
    Embedded(a, m, rest);
    SpansAfterFormatted(s, a, w, rest);
    assert Spans(s) == [Span(Normal, a)] + [w.span] + Spans(rest);
    assert ws[0].span == Span(Normal, a);
  }

  lemma {:induction false} MarkupStep2(ws: seq<Written>)
    requires |ws| > 1
    ensures Markup(ws) == Wrap(ws[0]) + Wrap(ws[1]) + Markup(ws[2..])
  {
    assert ws[1..][1..] == ws[2..];
    MarkupStep(ws);
    MarkupStep(ws[1..]);
  }

  /** Tokenizing the Markdown written for a sequence of runs, with either delimiter for
      bold and italic and any target for a link, gives the runs back. */
  lemma {:induction false} TokenizeMarkup(ws: seq<Written>)
    requires Writable(ws)
    ensures Spans(Markup(ws)) == SpansOf(ws)
    decreases |ws|
  {
    if |ws| == 0 {
    } else if ws[0].span.kind == Normal && |ws| == 1 {
      MarkupStep(ws);
      assert Markup(ws[1..]) == "";
      assert WellWritten(ws[0]);
      assert Markup(ws) == ws[0].span.text;
      InertIsPlain(ws[0].span.text);
    } else if ws[0].span.kind == Normal {
      PlainHead(ws);
      TokenizeMarkup(ws[2..]);
      assert SpansOf(ws) == [ws[0].span, ws[1].span] + SpansOf(ws[2..]);
    } else {
      FormattedHead(ws);
      TokenizeMarkup(ws[1..]);
      assert SpansOf(ws) == [ws[0].span] + SpansOf(ws[1..]);
    }
  }

  /** A link keeps only its text, whatever its target is (when the target holds no ')'). */
  lemma {:induction false} LinkKeepsText(t: string, u: string, tail: string)
    requires Inert(t) && ')' !in u
    ensures Spans("[" + t + "](" + u + ")" + tail) == [Span(Link, t)] + Spans(tail)
  {
    var w := "[" + t + "](" + u + ")";
    var s := w + tail;
    var m := Match(Link, 0, |w|, t);
    assert s[0..|w|] == w && s[|w|..] == tail;
    LinkWrapAt(s, 0, t, u);
    FirstAfterInert(s, "", m);
    SpansStep(s, m);
  }

  /** The line "a **b** c" becomes a plain, a bold and a plain run. */
  lemma {:induction false} BoldExample()
    ensures Spans("a **b** c") == [Span(Normal, "a "), Span(Bold, "b"), Span(Normal, " c")]
  {
    var ws := [Written(Span(Normal, "a "), false, ""), Written(Span(Bold, "b"), false, ""),
               Written(Span(Normal, " c"), false, "")];
    assert WellWritten(ws[0]) && WellWritten(ws[1]) && WellWritten(ws[2]);
    assert Wrap(ws[1]) == "**b**";
    MarkupStep2(ws);
    MarkupStep(ws[2..]);
    assert ws[2..][1..] == [];
    assert Markup(ws) == "a **b** c";
    TokenizeMarkup(ws);
    assert SpansOf(ws) == [Span(Normal, "a "), Span(Bold, "b"), Span(Normal, " c")];
  }

  /** The underscore delimiters and a link with its target: "[d](u) __b__" is the link
      text alone, a plain run and a bold run. */
  lemma {:induction false} LinkAndUnderscoreExample()
    ensures Spans("[d](u) __b__") == [Span(Link, "d"), Span(Normal, " "), Span(Bold, "b")]
  {
    var ws := [Written(Span(Link, "d"), false, "u"), Written(Span(Normal, " "), false, ""),
               Written(Span(Bold, "b"), true, "")];
    assert WellWritten(ws[0]) && WellWritten(ws[1]) && WellWritten(ws[2]);
    assert Wrap(ws[0]) == "[d](u)";
    assert Wrap(ws[2]) == "__b__";
    MarkupStep(ws);
    MarkupStep2(ws[1..]);
    assert ws[1..][2..] == [];
    assert Markup(ws) == "[d](u) __b__";
    TokenizeMarkup(ws);
    assert SpansOf(ws) == [Span(Link, "d"), Span(Normal, " "), Span(Bold, "b")];
  }

  /** Four asterisks are a bold run with empty text. */
  lemma {:induction false} EmptyBoldExample()
    ensures Spans("****") == [Span(Bold, "")]
  {
    var ws := [Written(Span(Bold, ""), false, "")];
    assert WellWritten(ws[0]);
    assert Markup(ws) == "****";
    TokenizeMarkup(ws);
    assert SpansOf(ws) == [Span(Bold, "")];
  }

  /** Backquotes make a code run. */
  lemma {:induction false} CodeExample()
    ensures Spans("`x`") == [Span(Code, "x")]
  {
    var ws := [Written(Span(Code, "x"), false, "")];
    assert WellWritten(ws[0]);
    assert Markup(ws) == "`x`";
    TokenizeMarkup(ws);
    assert SpansOf(ws) == [Span(Code, "x")];
  }
}
