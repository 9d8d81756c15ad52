/**
 * The line recognisers of the main loop of `convert_markdown_to_docx`
 * (markdown_to_word.py:800-1014): code fences, headings, list items, table rows,
 * images and blank lines.
 *
 * Every line the loop looks at is a piece of `md_content.split('\n')`, so it holds no
 * '\n' and the regex `.` matches each of its characters; the matchers below are
 * written for such lines.
 */
module Blocks {
  import opened Wrappers
  import opened Strings
  import Inline

  /** The characters `\d` is taken to match (see the README on Unicode digits). */
  const AsciiDigits: set<char> := {'0', '1', '2', '3', '4', '5', '6', '7', '8', '9'}

  /** The bullet markers of `[\*\-\+]`. */
  const Bullets: set<char> := {'*', '-', '+'}

  /** The first character of `line` that is not whitespace (or `|line|`). */
  function Indentation(line: string): nat
  {
    SkipFrom(line, Whitespace, 0)
  }

  // ---------------------------------------------------------------------------
  // `\s+(.+)$`, the tail shared by the heading and list patterns

  /** The last group of `\s+(.+)$` tried at `m`: there must be a whitespace character at
      `m` and at least one character after it. The greedy `\s+` takes the whole run of
      whitespace, giving back its last character when nothing else follows. */
  function GapThenText(line: string, m: nat): (r: Option<string>)
    requires m <= |line|
    ensures r.None? <==> !(m + 2 <= |line| && IsSpace(line[m]))
    ensures r.Some? ==> 1 <= |r.value| && m + 1 + |r.value| <= |line| && EndsWith(line, r.value)
    ensures r.Some? ==> AllIn(line[m..|line| - |r.value|], Whitespace)
    ensures r.Some? && !AllIn(line[m..], Whitespace) ==> !IsSpace(r.value[0])
    ensures r.Some? && AllIn(line[m..], Whitespace) ==> |r.value| == 1
  {
    if m + 2 <= |line| && IsSpace(line[m]) then
      var g := SkipFrom(line, Whitespace, m);
      if g < |line| then
        assert forall k :: m <= k < |line| && !IsSpace(line[k]) ==> g <= k;
        assert !IsSpace(line[m..][g - m]);
        Some(line[g..])
      else
        assert line[m..] == line[m..|line| - 1] + [line[|line| - 1]];
        Some(line[|line| - 1..])
    else None
  }

  /** Stripping the text the tail pattern keeps is stripping everything from `m` on. */
  lemma {:induction false} GapTextStrip(line: string, m: nat)
    requires m <= |line| && GapThenText(line, m).Some?
    ensures Strip(GapThenText(line, m).value) == Strip(line[m..])
  {
    var t := GapThenText(line, m).value;
    var rest := line[m..];
    var n := |rest| - |t|;
    assert rest[n..] == t;
    assert forall k :: 0 <= k < n ==> rest[k] == line[m..|line| - |t|][k];
    StripCharsSkipsPrefix(rest, Whitespace, n);
  }

  /** One whitespace character and then a non-blank one: the tail group starts there. */
  lemma {:induction false} GapAt(line: string, m: nat)
    requires m + 1 < |line| && IsSpace(line[m]) && !IsSpace(line[m + 1])
    ensures GapThenText(line, m) == Some(line[m + 1..])
  {
    assert SkipFrom(line, Whitespace, m + 1) == m + 1;
  }

  // ---------------------------------------------------------------------------
  // Headings: `^(#{1,6})\s+(.+)$`

  datatype Heading = Heading(level: nat, title: string)

  /** `re.match(r'^(#{1,6})\s+(.+)$', line)`, with the title `group(2).strip()`. Seven
      or more '#' never match: every shorter run of '#' is followed by another '#'. */
  function MatchHeading(line: string): (r: Option<Heading>)
    ensures r.Some? ==> 1 <= r.value.level <= 6 && r.value.level + 2 <= |line|
  {
    var h := SkipFrom(line, {'#'}, 0);
    if 1 <= h <= 6 then
      match GapThenText(line, h)
      case Some(text) => Some(Heading(h, Strip(text)))
      case None => None
    else None
  }

  /** A line is a heading of level `n` exactly when it opens with `n` (at most six) '#'
      followed by whitespace and at least one more character; the title is the rest
      of the line, stripped. */
  lemma {:induction false} HeadingMeaning(line: string, n: nat)
    ensures MatchHeading(line).Some? && MatchHeading(line).value.level == n <==>
      1 <= n <= 6 && n + 2 <= |line| && AllIn(line[..n], {'#'}) && IsSpace(line[n])
    ensures MatchHeading(line).Some? && MatchHeading(line).value.level == n ==>
      MatchHeading(line).value.title == Strip(line[n..])
  {
    var h := SkipFrom(line, {'#'}, 0);
    if 1 <= n <= 6 && n + 2 <= |line| && AllIn(line[..n], {'#'}) && IsSpace(line[n]) {
      assert forall k :: 0 <= k < n ==> line[k] == line[..n][k];
      assert h == n;
    }
    if MatchHeading(line).Some? && MatchHeading(line).value.level == n {
      assert forall k :: 0 <= k < n ==> line[..n][k] == line[k];
      GapTextStrip(line, h);
    }
  }

  /** Seven '#' in front are never a heading. */
  lemma {:induction false} SevenHashesNoHeading(line: string)
    requires 7 <= |line| && AllIn(line[..7], {'#'})
    ensures MatchHeading(line).None?
  {
    var h := SkipFrom(line, {'#'}, 0);
    assert forall k :: 0 <= k < 7 ==> line[k] == line[..7][k];
    assert h >= 7;
  }

  /** `n` '#' characters. */
  function Hashes(n: nat): (s: string)
    ensures |s| == n && AllIn(s, {'#'})
  {
    seq(n, _ => '#')
  }

  /** A heading written as `#`×n, a space and a non-empty text is read back with its
      level and the stripped text. */
  lemma {:induction false} HeadingRoundTrip(n: nat, t: string)
    requires 1 <= n <= 6 && |t| >= 1
    ensures MatchHeading(Hashes(n) + " " + t) == Some(Heading(n, Strip(t)))
  {
    var line := Hashes(n) + " " + t;
    assert line[..n] == Hashes(n);
    assert line[n] == ' ';
    HeadingMeaning(line, n);
    var h := SkipFrom(line, {'#'}, 0);
    assert h == n by {
      assert forall k :: 0 <= k < n ==> line[k] == line[..n][k];
    }
    assert line[n..][1..] == t;
    StripCharsSkipsPrefix(line[n..], Whitespace, 1);
  }

  // ---------------------------------------------------------------------------
  // List items: `^(\s*)([\*\-\+]|\d+\.)\s+(.+)$`

  datatype ListKind = Bullet | Numbered

  /** A list line: its kind ('ul' or 'ol'), the length of its leading whitespace, and
      the content group, which is not stripped. */
  datatype ListItem = ListItem(kind: ListKind, indentation: nat, content: string)

  /** `re.match(r'^(\s*)([\*\-\+]|\d+\.)\s+(.+)$', line)`. The whitespace group is the
      whole leading run, and a number is its whole run of digits, because the marker
      that must follow can be neither. */
  function MatchList(line: string): (r: Option<ListItem>)
    ensures r.Some? ==> r.value.indentation == Indentation(line) < |line|
    ensures r.Some? ==> 1 <= |r.value.content| && EndsWith(line, r.value.content)
  {
    var w := Indentation(line);
    if w < |line| && line[w] in Bullets then
      match GapThenText(line, w + 1)
      case Some(c) => Some(ListItem(Bullet, w, c))
      case None => None
    else
      var d := SkipFrom(line, AsciiDigits, w);
      if w < d < |line| && line[d] == '.' then
        match GapThenText(line, d + 1)
        case Some(c) => Some(ListItem(Numbered, w, c))
        case None => None
      else None
  }

  /** `indentation // 2`: two columns of whitespace per nesting level. */
  function IndentLevel(item: ListItem): (level: nat)
    ensures 2 * level <= item.indentation < 2 * level + 2
  {
    item.indentation / 2
  }

  /** What opens a list line after its indentation: a bullet for 'ul', a digit for 'ol'. */
  lemma {:induction false} ListMarker(line: string)
    requires MatchList(line).Some?
    ensures MatchList(line).value.kind == Bullet ==> line[Indentation(line)] in Bullets
    ensures MatchList(line).value.kind == Numbered ==> line[Indentation(line)] in AsciiDigits
  {
  }

  /** `n` spaces. */
  function Spaces(n: nat): (s: string)
    ensures |s| == n && AllIn(s, Whitespace)
  {
    seq(n, _ => ' ')
  }

  /** A bullet written after `n` spaces, with a space and a text that does not open with
      whitespace, is read back with its indentation and text. */
  lemma {:induction false} BulletRoundTrip(n: nat, b: char, c: string)
    requires b in Bullets && |c| >= 1 && !IsSpace(c[0])
    ensures MatchList(Spaces(n) + [b] + " " + c) == Some(ListItem(Bullet, n, c))
  {
    var line := Spaces(n) + [b] + " " + c;
    assert forall k :: 0 <= k < n ==> line[k] == Spaces(n)[k];
    assert line[n] == b && line[n + 1] == ' ' && line[n + 2] == c[0];
    assert line[n + 2..] == c;
    SkipFromSkips(line, Whitespace, 0, n);
    assert Indentation(line) == n;
    GapAt(line, n + 1);
  }

  /** A number, a dot, a space and a text that does not open with whitespace form a
      numbered item. */
  lemma {:induction false} NumberedRoundTrip(digits: string, c: string)
    requires |digits| >= 1 && AllIn(digits, AsciiDigits) && |c| >= 1 && !IsSpace(c[0])
    ensures MatchList(digits + ". " + c) == Some(ListItem(Numbered, 0, c))
  {
    var line := digits + ". " + c;
    var n := |digits|;
    assert forall k :: 0 <= k < n ==> line[k] == digits[k];
    assert line[n] == '.' && line[n + 1] == ' ' && line[n + 2] == c[0];
    assert line[n + 2..] == c;
    assert line[0] in AsciiDigits;
    assert Indentation(line) == 0;
    SkipFromSkips(line, AsciiDigits, 0, n);
    assert SkipFrom(line, AsciiDigits, 0) == n;
    GapAt(line, n + 1);
  }

  /** A line that opens with "**" (bold text) is not a bullet item: a bullet must be
      followed by whitespace. */
  lemma {:induction false} BoldLineIsNoBullet(line: string)
    requires 2 <= |line| && line[0] == '*' && line[1] == '*'
    ensures MatchList(line).None?
  {
    assert Indentation(line) == 0;
  }

  // ---------------------------------------------------------------------------
  // Tables, images, fences, blank lines

  /** `line.strip().startswith('|') and line.strip().endswith('|')`. */
  predicate IsTableLine(line: string)
  {
    StartsWith(Strip(line), "|") && EndsWith(Strip(line), "|")
  }

  datatype Image = Image(alt: string, path: string)

  /** `re.match(r'!\[(.*?)\]\((.*?)\)', line)`: "![" at the start of the line, the alt
      text up to the first "](", the path up to the next ')'. */
  function MatchImage(line: string): (r: Option<Image>)
    ensures r.Some? ==> 2 + |r.value.alt| + 2 + |r.value.path| + 1 <= |line|
  {
    if 2 <= |line| && line[0] == '!' && line[1] == '[' then
      match Inline.NextPair(line, ']', '(', 2)
      case Some(j) =>
        (match Inline.NextChar(line, ')', j + 2)
         case Some(k) => Some(Image(line[2..j], line[j + 2..k]))
         case None => None)
      case None => None
    else None
  }

  /** An image is a '!' followed by what the link pattern matches, with the alt text
      as the link's text. */
  lemma {:induction false} ImageIsBangLink(line: string)
    ensures MatchImage(line).Some? <==> 1 <= |line| && line[0] == '!' && Inline.LinkAt(line, 1).Some?
    ensures MatchImage(line).Some? ==> Inline.LinkAt(line, 1).value.inner == MatchImage(line).value.alt
  {
  }

  /** `![alt](path)` is read back as that image when the alt text holds no ']' and the
      path no ')', whatever follows on the line. */
  lemma {:induction false} ImageRoundTrip(alt: string, path: string, rest: string)
    requires ']' !in alt && ')' !in path
    ensures MatchImage("![" + alt + "](" + path + ")" + rest) == Some(Image(alt, path))
  {
    var line := "![" + alt + "](" + path + ")" + rest;
    var n, m := |alt|, |path|;
    assert forall k :: 0 <= k < n ==> line[2 + k] == alt[k];
    assert forall k :: 0 <= k < m ==> line[4 + n + k] == path[k];
    assert line[2 + n] == ']' && line[3 + n] == '(' && line[4 + n + m] == ')';
    forall k | 2 <= k < 2 + n ensures line[k] != ']' {
      assert line[k] == alt[k - 2];
    }
    forall k | 4 + n <= k < 4 + n + m ensures line[k] != ')' {
      assert line[k] == path[k - 4 - n];
    }
    Inline.NextPairFinds(line, ']', '(', 2, 2 + n);
    Inline.NextCharFinds(line, ')', 4 + n, 4 + n + m);
    assert line[2..2 + n] == alt;
    assert line[4 + n..4 + n + m] == path;
  }

  /** `line.strip().startswith('```')`. */
  predicate IsFence(line: string)
  {
    StartsWith(Strip(line), "```")
  }

  /** `line.strip()[3:].strip()`: the language named after an opening fence. */
  function FenceLang(line: string): (lang: string)
    requires IsFence(line)
  {
    Strip(Strip(line)[3..])
  }

  /** `not line.strip()`. */
  predicate IsBlank(line: string)
  {
    Strip(line) == ""
  }

  // ---------------------------------------------------------------------------
  // Which branch of the loop a line takes outside a code block

  datatype LineKind =
    | FenceLine(lang: string)
    | HeadingLine(heading: Heading)
    | ListLine(item: ListItem)
    | TableLine
    | ImageLine(image: Image)
    | BlankLine
    | TextLine

  /** The tests of the main loop in their order: fence, heading, list, table, image,
      blank, and otherwise a paragraph. */
  function Classify(line: string): LineKind
  {
    if IsFence(line) then FenceLine(FenceLang(line))
    else if MatchHeading(line).Some? then HeadingLine(MatchHeading(line).value)
    else if MatchList(line).Some? then ListLine(MatchList(line).value)
    else if IsTableLine(line) then TableLine
    else if MatchImage(line).Some? then ImageLine(MatchImage(line).value)
    else if IsBlank(line) then BlankLine
    else TextLine
  }

  /** The first character of a line that is not whitespace, if any. */
  function Opener(line: string): Option<char>
  {
    if Indentation(line) < |line| then Some(line[Indentation(line)]) else None
  }

  /** A fence opens with '`'. */
  lemma {:induction false} FenceOpener(line: string)
    ensures IsFence(line) ==> Opener(line) == Some('`')
  {
    StripHead(line);
    if IsFence(line) {
      assert Strip(line)[0] == Strip(line)[..3][0];
    }
  }

  /** A heading opens with '#' at column 0. */
  lemma {:induction false} HeadingOpener(line: string)
    ensures MatchHeading(line).Some? ==> Opener(line) == Some('#') && Indentation(line) == 0
  {
    if MatchHeading(line).Some? {
      assert SkipFrom(line, {'#'}, 0) >= 1;
    }
  }

  /** A list item opens with a bullet or a digit. */
  lemma {:induction false} ListOpener(line: string)
    ensures MatchList(line).Some? ==>
      Opener(line).Some? && (Opener(line).value in "*-+" || '0' <= Opener(line).value <= '9')
  {
    if MatchList(line).Some? {
      ListMarker(line);
    }
  }

  /** A table row opens with '|'. */
  lemma {:induction false} TableOpener(line: string)
    ensures IsTableLine(line) ==> Opener(line) == Some('|')
  {
    StripHead(line);
    if IsTableLine(line) {
      assert Strip(line)[0] == Strip(line)[..1][0];
    }
  }

  /** An image opens with '!' at column 0. */
  lemma {:induction false} ImageOpener(line: string)
    ensures MatchImage(line).Some? ==> Opener(line) == Some('!') && Indentation(line) == 0
  {
  }

  /** A blank line has no opener. */
  lemma {:induction false} BlankOpener(line: string)
    ensures IsBlank(line) <==> Opener(line).None?
  {
    StripHead(line);
  }

  /** Six tests that each pin down the opener differently: no two can hold together. */
  lemma {:induction false} DistinctOpeners(o: Option<char>, fence: bool, heading: bool, list: bool, table: bool, image: bool, blank: bool)
    requires fence ==> o == Some('`')
    requires heading ==> o == Some('#')
    requires list ==> o.Some? && (o.value in "*-+" || '0' <= o.value <= '9')
    requires table ==> o == Some('|')
    requires image ==> o == Some('!')
    requires blank <==> o.None?
    ensures fence ==> !(heading || list || table || image || blank)
    ensures heading ==> !(list || table || image || blank)
    ensures list ==> !(table || image || blank)
    ensures table ==> !(image || blank)
    ensures image ==> !(blank)
  {
  }

  /** At most one recogniser accepts a line: the order of the tests in the loop never
      decides which branch a line takes. */
  lemma {:induction false} RecognisersExclusive(line: string)
    ensures IsFence(line) ==> !(MatchHeading(line).Some? || MatchList(line).Some? || IsTableLine(line) || MatchImage(line).Some? || IsBlank(line))
    ensures MatchHeading(line).Some? ==> !(MatchList(line).Some? || IsTableLine(line) || MatchImage(line).Some? || IsBlank(line))
    ensures MatchList(line).Some? ==> !(IsTableLine(line) || MatchImage(line).Some? || IsBlank(line))
    ensures IsTableLine(line) ==> !(MatchImage(line).Some? || IsBlank(line))
    ensures MatchImage(line).Some? ==> !(IsBlank(line))
  {
    FenceOpener(line);
    HeadingOpener(line);
    ListOpener(line);
    TableOpener(line);
    ImageOpener(line);
    BlankOpener(line);
    DistinctOpeners(Opener(line), IsFence(line), MatchHeading(line).Some?, MatchList(line).Some?,
                    IsTableLine(line), MatchImage(line).Some?, IsBlank(line));
  }

  /** Each branch is taken exactly when its own recogniser accepts the line. */
  lemma {:induction false} ClassifyMeaning(line: string)
    ensures Classify(line).FenceLine? <==> IsFence(line)
    ensures Classify(line).HeadingLine? <==> MatchHeading(line).Some?
    ensures Classify(line).ListLine? <==> MatchList(line).Some?
    ensures Classify(line).TableLine? <==> IsTableLine(line)
    ensures Classify(line).ImageLine? <==> MatchImage(line).Some?
    ensures Classify(line).BlankLine? <==> IsBlank(line)
    ensures Classify(line).TextLine? <==>
      (!IsFence(line) && MatchHeading(line).None? && MatchList(line).None?
       && !IsTableLine(line) && MatchImage(line).None? && !IsBlank(line))
  {
    RecognisersExclusive(line);
  }
}
