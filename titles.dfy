/**
 * The chapter title of a file (`extract_chapter_title`, markdown_to_word.py:649-664) and
 * the header and footer texts built from it (`add_header_footer`,
 * markdown_to_word.py:431-480).
 *
 * Unlike the line loop, the title search runs over the whole file: with
 * `re.MULTILINE`, `^` matches after every '\n', and `\s+` may run over '\n' too.
 */
module Titles {
  import opened Wrappers
  import opened Strings
  import Inline
  import Blocks

  /** The end of the line that holds position `p`: the next '\n', or the end. */
  function LineEnd(s: string, p: nat): (e: nat)
    requires p <= |s|
    ensures p <= e <= |s| && (e == |s| || s[e] == '\n')
  {
    match Inline.NextChar(s, '\n', p)
    case Some(e) => e
    case None => |s|
  }

  /** Where the group `(.+)` can start once `\s+` has given characters back: the last
      position of `[lo, q]` holding a character other than '\n'. */
  function TextStart(s: string, lo: nat, q: int): (r: Option<nat>)
    requires q < |s|
    ensures r.Some? ==> lo <= r.value <= q && s[r.value] != '\n'
    ensures r.Some? ==> forall k :: r.value < k <= q ==> s[k] == '\n'
    ensures r.None? ==> forall k :: lo <= k <= q ==> s[k] == '\n'
    decreases q - lo + 1
  {
    if q < lo then None
    else if s[q] != '\n' then Some(q)
    else TextStart(s, lo, q - 1)
  }

  /** `^#\s+(.+)$` tried at `p`: `p` starts a line and holds '#', whitespace follows, and
      the greedy `\s+` stops at the end of its run or, when the run reaches the end of
      the text, at the last position from which `.+` can still match. The group runs to
      the end of its line, where `$` matches. */
  function TitleAt(s: string, p: nat): (r: Option<string>)
    requires p < |s|
  {
    if (p == 0 || s[p - 1] == '\n') && s[p] == '#' && p + 1 < |s| && IsSpace(s[p + 1]) then
      var g := SkipFrom(s, Whitespace, p + 1);
      match TextStart(s, p + 2, if g < |s| then g else |s| - 1)
      case Some(q) => Some(s[q..LineEnd(s, q)])
      case None => None
    else None
  }

  /** `re.search` for the pattern from position `p` on: the first position where it
      matches. */
  function TitleFrom(s: string, p: nat): (r: Option<string>)
    decreases |s| - p
  {
    if p >= |s| then None
    else match TitleAt(s, p)
      case Some(t) => Some(t)
      case None => TitleFrom(s, p + 1)
  }

  /** `extract_chapter_title(md_content)`: the stripped group of the first match, or
      "Chapitre" when there is none. */
  function ChapterTitle(content: string): string
  {
    match TitleFrom(content, 0)
    case Some(t) => Strip(t)
    case None => "Chapitre"
  }

  /** The group the search finds holds no '\n' and is not empty. */
  lemma {:induction false} TitleGroupIsOneLine(s: string, p: nat)
    requires TitleFrom(s, p).Some?
    ensures NoNewline(TitleFrom(s, p).value) && |TitleFrom(s, p).value| >= 1
    decreases |s| - p
  {
    if TitleAt(s, p).Some? {
      var g := SkipFrom(s, Whitespace, p + 1);
      var q := TextStart(s, p + 2, if g < |s| then g else |s| - 1).value;
      var e := LineEnd(s, q);
      assert q < e by {
        assert s[q] != '\n';
      }
      LineEndHasNoNewline(s, q);
    } else {
      TitleGroupIsOneLine(s, p + 1);
    }
  }

  lemma {:induction false} LineEndHasNoNewline(s: string, p: nat)
    requires p <= |s|
    ensures NoNewline(s[p..LineEnd(s, p)])
  {
    var e := LineEnd(s, p);
    forall k | p <= k < e ensures s[k] != '\n' {
      NextCharSkips(s, '\n', p, k);
    }
    assert forall k :: 0 <= k < e - p ==> s[p..e][k] == s[p + k];
  }

  /** `NextChar` passes over no `c`. */
  lemma {:induction false} NextCharSkips(s: string, c: char, from: nat, k: nat)
    requires from <= k < |s|
    requires Inline.NextChar(s, c, from).None? || k < Inline.NextChar(s, c, from).value
    ensures s[k] != c
    decreases k - from
  {
    if from < k {
      NextCharSkips(s, c, from + 1, k);
    }
  }

  /** A text without '#' has no chapter title. */
  lemma {:induction false} NoHashNoTitle(s: string, p: nat)
    requires '#' !in s
    ensures TitleFrom(s, p).None?
    ensures p == 0 ==> ChapterTitle(s) == "Chapitre"
    decreases |s| - p
  {
    if p < |s| {
      assert s[p] != '#';
      NoHashNoTitle(s, p + 1);
    }
  }

  /** When the first line of a file is a level-1 heading with a non-empty title, that
      title is the chapter title, as the line loop reads it. */
  lemma {:induction false} FirstHeadingIsTitle(line: string, rest: string)
    requires NoNewline(line) && (rest == "" || rest[0] == '\n')
    requires Blocks.MatchHeading(line).Some? && Blocks.MatchHeading(line).value.level == 1
    requires Blocks.MatchHeading(line).value.title != ""
    ensures ChapterTitle(line + rest) == Blocks.MatchHeading(line).value.title
  {
    var s := line + rest;
    var n := |line|;
    HeadingTextStart(line);
    var g := SkipFrom(line, Whitespace, 1);
    SkipInPrefix(line, rest, Whitespace, 1);
    forall k | g <= k < n ensures s[k] != '\n' {
      assert s[k] == line[k];
    }
    assert n == |s| || s[n] == '\n';
    TitleAtStart(s, g, n);
    assert s[g..n] == line[g..];
  }

  /** In a level-1 heading line with a non-empty title, the whitespace after '#' stops
      before the end of the line, and the title is the rest of the line, stripped. */
  lemma {:induction false} HeadingTextStart(line: string)
    requires Blocks.MatchHeading(line).Some? && Blocks.MatchHeading(line).value.level == 1
    requires Blocks.MatchHeading(line).value.title != ""
    ensures line[0] == '#' && IsSpace(line[1])
    ensures 2 <= SkipFrom(line, Whitespace, 1) < |line|
    ensures Blocks.MatchHeading(line).value.title == Strip(line[SkipFrom(line, Whitespace, 1)..])
  {
    Blocks.HeadingMeaning(line, 1);
    assert line[..1][0] == line[0];
    var body := line[1..];
    var g := SkipFrom(line, Whitespace, 1);
    forall k | 0 <= k < g - 1 ensures body[k] in Whitespace {
      assert body[k] == line[k + 1];
    }
    StripCharsSkipsPrefix(body, Whitespace, g - 1);
    assert body[g - 1..] == line[g..];
    assert g == |line| ==> AllIn(body, Whitespace);
    StripCharsMeaning(body, Whitespace);
  }

  /** Skipping characters of `cs` that stop inside `a` stops at the same place in `a + b`. */
  lemma {:induction false} SkipInPrefix(a: string, b: string, cs: set<char>, i: nat)
    requires i <= |a| && SkipFrom(a, cs, i) < |a|
    ensures SkipFrom(a + b, cs, i) == SkipFrom(a, cs, i)
    decreases |a| - i
  {
    assert (a + b)[i] == a[i];
    if a[i] in cs {
      SkipInPrefix(a, b, cs, i + 1);
    }
  }

  /** The pattern matches at the start of a text that opens with '#' and whitespace,
      when the whitespace run stops before the end of the first line. */
  lemma {:induction false} TitleAtStart(s: string, g: nat, n: nat)
    requires 2 <= g < n <= |s| && s[0] == '#' && IsSpace(s[1])
    requires SkipFrom(s, Whitespace, 1) == g && s[g] !in Whitespace
    requires forall k :: g <= k < n ==> s[k] != '\n'
    requires n == |s| || s[n] == '\n'
    ensures TitleFrom(s, 0) == Some(s[g..n])
  {
    assert TextStart(s, 2, g) == Some(g);
    if n < |s| {
      Inline.NextCharFinds(s, '\n', g, n);
    } else {
      NoNewlineAfter(s, g);
    }
    assert LineEnd(s, g) == n;
  }

  lemma {:induction false} NoNewlineAfter(s: string, p: nat)
    requires p <= |s| && forall k :: p <= k < |s| ==> s[k] != '\n'
    ensures Inline.NextChar(s, '\n', p).None?
    decreases |s| - p
  {
    if p < |s| {
      NoNewlineAfter(s, p + 1);
    }
  }

  /** "## Intro" is a heading of level 2, not a chapter title. */
  lemma {:induction false} SubheadingIsNoTitle()
    ensures ChapterTitle("## Intro") == "Chapitre"
  {
    var s := "## Intro";
    forall p | 0 < p < |s| ensures TitleAt(s, p).None? {
      assert s[p - 1] != '\n';
    }
    assert TitleAt(s, 0).None? by {
      assert !IsSpace(s[1]);
    }
    assert TitleFrom(s, 8) == None;
    assert TitleFrom(s, 7) == None;
    assert TitleFrom(s, 6) == None;
    assert TitleFrom(s, 5) == None;
    assert TitleFrom(s, 4) == None;
    assert TitleFrom(s, 3) == None;
    assert TitleFrom(s, 2) == None;
    assert TitleFrom(s, 1) == None;
  }

  /** A '#' alone on its line takes its title from the next non-blank line, because
      `\s+` runs over the line breaks; the line loop reads the same '#' as a paragraph. */
  lemma {:induction false} TitleCrossesLines()
    ensures ChapterTitle("#\n\nIntro") == "Intro"
    ensures Blocks.MatchHeading("#").None?
  {
    var s := "#\n\nIntro";
    assert IsSpace(s[1]) && IsSpace(s[2]) && !IsSpace(s[3]);
    assert SkipFrom(s, Whitespace, 3) == 3;
    assert SkipFrom(s, Whitespace, 1) == 3;
    TitleAtStart(s, 3, 8);
    assert s[3..8] == "Intro";
    assert s[7] == 'o' && !IsSpace(s[7]);
    assert "Intro"[0] == s[3] && "Intro"[4] == s[7];
    StripCharsKeeps("Intro", Whitespace);
  }

  // ---------------------------------------------------------------------------
  // Header and footer texts

  /** `header_text.replace("{chapter}", chapter_title)`. */
  function HeaderText(content: string, title: string): string
  {
    ReplaceAll(content, "{chapter}", title)
  }

  /** `footer_text.replace("{page}", "")`; the page number itself is a PAGE field that
      follows this text. */
  function FooterText(content: string): string
  {
    ReplaceAll(content, "{page}", "")
  }

  /** The header is the content with every "{chapter}" written as the title, and a
      content without the placeholder is used as it is. */
  lemma {:induction false} HeaderTextMeaning(content: string, title: string)
    ensures HeaderText(content, title) == Join(Split(content, "{chapter}"), title)
    ensures !Contains(content, "{chapter}") ==> HeaderText(content, title) == content
    ensures HeaderText("{chapter}", title) == title
  {
    ReplaceIsJoinOfSplit(content, "{chapter}", title);
    if !Contains(content, "{chapter}") {
      ReplaceAbsent(content, "{chapter}", title);
    }
    ChapterPlaceholder(title);
  }

  lemma {:induction false} ChapterPlaceholder(title: string)
    ensures ReplaceAll("{chapter}", "{chapter}", title) == title
  {
    var p := "{chapter}";
    assert OccursAt(p, p, 0);
    FindFromFirst(p, p, 0, 0);
    ReplaceStep(p, p, title, 0);
    assert p[|p|..] == "";
    assert FindFrom("", p, 0).None?;
  }

  /** The default footer "Page {page}" leaves "Page " in front of the page number. */
  lemma {:induction false} DefaultFooter()
    ensures FooterText("Page {page}") == "Page "
  {
    var s := "Page {page}";
    var p := "{page}";
    assert OccursAt(s, p, 5);
    forall j: nat | j < 5 ensures !OccursAt(s, p, j) {
      assert s[j..j + |p|][0] == s[j];
    }
    FindFromFirst(s, p, 0, 5);
    ReplaceStep(s, p, "", 5);
    assert s[5 + |p|..] == "";
    assert FindFrom("", p, 0).None?;
  }
}
