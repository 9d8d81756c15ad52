/**
 * What the main loop of `convert_markdown_to_docx` (markdown_to_word.py:792-1084) adds
 * to the document for the lines of one file. The loop keeps a mode (outside or inside
 * a code fence) and, outside a fence, sends each line to the first branch whose test
 * accepts it. `Render` states the blocks appended for `lines[i..]` from a given mode;
 * the loop itself is `Assembly.Document.ConvertLines`. For a paragraph line these are
 * the blocks of the corrected program, which keeps the code font of inline code; the
 * paragraph as written is `TextUnitAsWritten`.
 */
module Render {
  import opened Wrappers
  import opened Strings
  import opened Styles
  import Inline
  import Blocks
  import Tables
  import Hex

  /** One block appended to the body of the document. */
  datatype Unit =
    | HeadingPara(level: nat, para: Paragraph)
    | ListPara(kind: Blocks.ListKind, para: Paragraph)
    | Para(para: Paragraph)
    | Table(cells: seq<seq<string>>, written: seq<nat>, headerRun: RunFormat, cellRun: RunFormat, headerFill: string)
    | ImageRef(alt: string, path: string)
    | TocField
    | PageBreak
    | SectionBreak

  /** `doc.add_paragraph()` with no text. */
  const EmptyPara := Para(Paragraph([], PlainPara))

  // ---------------------------------------------------------------------------
  // Runs

  /** The flag the loop over `formatted_runs` sets on a run before styling it. */
  function KindFormat(k: Inline.Kind): RunFormat
  {
    match k
    case Bold => PlainRun.(bold := Some(true))
    case Italic => PlainRun.(italic := Some(true))
    case Link => PlainRun.(underline := Some(true))
    case _ => PlainRun
  }

  /** `p.add_run(text)`, the flag of its kind, then the code style or the text style. */
  function StyledRun(sp: Inline.Span, textStyle: Style, codeStyle: Style): Run
  {
    Run(sp.text, ApplyStyle(KindFormat(sp.kind), if sp.kind == Inline.Code then codeStyle else textStyle))
  }

  function SpanTexts(spans: seq<Inline.Span>): (ts: seq<string>)
    ensures |ts| == |spans|
  {
    seq(|spans|, k requires 0 <= k < |spans| => spans[k].text)
  }

  /** The runs a paragraph gets for its spans, one per span and in order. */
  function SpanRuns(spans: seq<Inline.Span>, textStyle: Style, codeStyle: Style): (runs: seq<Run>)
    ensures |runs| == |spans|
  {
    seq(|spans|, k requires 0 <= k < |spans| => StyledRun(spans[k], textStyle, codeStyle))
  }

  /** Each run keeps its span's text; only links are underlined; a bold or italic span
      stays so unless the text style itself sets that key; a code run takes the code
      style's font and colour when it names them and any other run those of the text
      style. */
  lemma {:induction false} SpanRunsMeaning(spans: seq<Inline.Span>, textStyle: Style, codeStyle: Style, k: nat)
    requires k < |spans|
    ensures Texts(SpanRuns(spans, textStyle, codeStyle)) == SpanTexts(spans)
    ensures SpanRuns(spans, textStyle, codeStyle)[k].text == spans[k].text
    ensures (SpanRuns(spans, textStyle, codeStyle)[k].format.underline == Some(true)) <==> spans[k].kind == Inline.Link
    ensures spans[k].kind == Inline.Bold && textStyle.bold.None? ==> SpanRuns(spans, textStyle, codeStyle)[k].format.bold == Some(true)
    ensures spans[k].kind == Inline.Italic && textStyle.italic.None? ==> SpanRuns(spans, textStyle, codeStyle)[k].format.italic == Some(true)
    ensures spans[k].kind == Inline.Code && codeStyle.fontName.Some? ==> SpanRuns(spans, textStyle, codeStyle)[k].format.fontName == codeStyle.fontName
    ensures spans[k].kind != Inline.Code && textStyle.fontName.Some? ==> SpanRuns(spans, textStyle, codeStyle)[k].format.fontName == textStyle.fontName
    ensures spans[k].kind == Inline.Code && codeStyle.color.Some? ==> SpanRuns(spans, textStyle, codeStyle)[k].format.color == Some(ColorOf(codeStyle.color.value))
  {
    var runs := SpanRuns(spans, textStyle, codeStyle);
    assert runs[k] == StyledRun(spans[k], textStyle, codeStyle);
  }

  /** The loop `for format_type, text in formatted_runs` that adds the runs one by one. */
  method StyleSpans(spans: seq<Inline.Span>, textStyle: Style, codeStyle: Style) returns (runs: seq<Run>)
    ensures runs == SpanRuns(spans, textStyle, codeStyle)
  {
    runs := [];
    for k := 0 to |spans|
      invariant runs == SpanRuns(spans[..k], textStyle, codeStyle)
    {
      var sp := spans[k];
      var format := PlainRun;
      if sp.kind == Inline.Bold {
        format := format.(bold := Some(true));
      } else if sp.kind == Inline.Italic {
        format := format.(italic := Some(true));
      } else if sp.kind == Inline.Link {
        format := format.(underline := Some(true));
      }
      if sp.kind == Inline.Code {
        format := ApplyStyle(format, codeStyle);
      } else {
        format := ApplyStyle(format, textStyle);
      }
      runs := runs + [Run(sp.text, format)];
      assert spans[..k + 1][k] == sp;
    }
    assert spans[..|spans|] == spans;
  }

  // ---------------------------------------------------------------------------
  // Headings

  /** `f'h{level}'`. */
  function HeadingKey(level: nat): (key: string)
    requires 1 <= level <= 9
    ensures |key| == 2 && key[0] == 'h' && key[1] == Hex.DigitChar(level)
  {
    "h" + [Hex.DigitChar(level)]
  }

  /** Different levels look up different style keys. */
  lemma {:induction false} HeadingKeyDistinct(a: nat, b: nat)
    requires 1 <= a <= 9 && 1 <= b <= 9
    ensures HeadingKey(a) == HeadingKey(b) <==> a == b
  {
    if HeadingKey(a) == HeadingKey(b) {
      assert HeadingKey(a)[1] == HeadingKey(b)[1];
      Hex.DigitRoundTrip(a);
      Hex.DigitRoundTrip(b);
    }
  }

  /** Levels 1 to 6 look up the six heading entries of the configuration. */
  lemma {:induction false} HeadingKeyNames()
    ensures HeadingKey(1) == "h1" && HeadingKey(2) == "h2" && HeadingKey(3) == "h3"
    ensures HeadingKey(4) == "h4" && HeadingKey(5) == "h5" && HeadingKey(6) == "h6"
  {
    assert Hex.Digits[1] == '1' && Hex.Digits[2] == '2' && Hex.Digits[3] == '3';
    assert Hex.Digits[4] == '4' && Hex.Digits[5] == '5' && Hex.Digits[6] == '6';
  }

  /** `doc.add_heading(title_text, level)`, which holds one run with the title when the
      title is not empty, then `apply_heading_style` when the configuration has a style
      for the level. */
  function HeadingUnit(h: Blocks.Heading, theme: Theme): Unit
    requires 1 <= h.level <= 6
  {
    var p := Paragraph(if h.title == "" then [] else [Run(h.title, PlainRun)], PlainPara);
    var key := HeadingKey(h.level);
    HeadingPara(h.level, if key in theme.styles then ApplyHeadingStyle(p, theme.styles[key]) else p)
  }

  /** A heading keeps its level and its title as its only text; with a style for its
      level it is styled as `apply_para_style` styles it, and without one it keeps the
      plain formatting of the heading style. */
  lemma {:induction false} HeadingUnitMeaning(h: Blocks.Heading, theme: Theme)
    requires 1 <= h.level <= 6
    ensures HeadingUnit(h, theme).HeadingPara? && HeadingUnit(h, theme).level == h.level
    ensures Texts(HeadingUnit(h, theme).para.runs) == (if h.title == "" then [] else [h.title])
    ensures HeadingKey(h.level) in theme.styles ==>
      HeadingUnit(h, theme).para == ApplyParaStyle(Paragraph(if h.title == "" then [] else [Run(h.title, PlainRun)], PlainPara), theme.styles[HeadingKey(h.level)])
    ensures HeadingKey(h.level) !in theme.styles ==>
      HeadingUnit(h, theme).para.format == PlainPara && forall k :: 0 <= k < |HeadingUnit(h, theme).para.runs| ==> HeadingUnit(h, theme).para.runs[k].format == PlainRun
  {
    var p := Paragraph(if h.title == "" then [] else [Run(h.title, PlainRun)], PlainPara);
    var key := HeadingKey(h.level);
    if key in theme.styles {
      HeadingStyleIsParaStyle(p, theme.styles[key]);
      ParaStyleIdempotent(p, theme.styles[key]);
    }
  }

  /** With the default configuration, headings of level 5 and 6 get no style of their own. */
  lemma {:induction false} DeepHeadingsUnstyled(t: string, level: nat)
    requires level == 5 || level == 6
    ensures HeadingUnit(Blocks.Heading(level, t), DefaultTheme).para == Paragraph(if t == "" then [] else [Run(t, PlainRun)], PlainPara)
  {
    DefaultThemeValid();
    assert HeadingKey(level) == "h5" || HeadingKey(level) == "h6";
  }

  // ---------------------------------------------------------------------------
  // List items

  /** `steps * unit`, the left indent of a list item in inches. */
  function Indent(steps: nat, unit: real): real
  {
    steps as real * unit
  }

  /** A list item's paragraph (markdown_to_word.py:872-941): 'List Bullet' or 'List Number',
      no space after, indented by one `left_indent` per level plus one, and the runs of
      its content styled as list items. */
  function ListUnit(item: Blocks.ListItem, theme: Theme): Unit
    requires ValidTheme(theme)
  {
    var indent := Indent(Blocks.IndentLevel(item) + 1, theme.listIndent);
    var runs := SpanRuns(Inline.Spans(item.content), theme.styles["list_item"], theme.styles["code"]);
    ListPara(item.kind, Paragraph(runs, PlainPara.(spaceAfter := Some(0.0), leftIndent := Some(indent))))
  }

  /** A list item keeps its kind, is indented by one step more than its level, has no
      space after it, and its runs are those of its content. */
  lemma {:induction false} ListUnitMeaning(item: Blocks.ListItem, theme: Theme)
    requires ValidTheme(theme)
    ensures ListUnit(item, theme).kind == item.kind
    ensures ListUnit(item, theme).para.format.leftIndent == Some(Indent(Blocks.IndentLevel(item) + 1, theme.listIndent))
    ensures ListUnit(item, theme).para.format.spaceAfter == Some(0.0)
    ensures Texts(ListUnit(item, theme).para.runs) == SpanTexts(Inline.Spans(item.content))
  {
    SpanRunsLength(Inline.Spans(item.content), theme.styles["list_item"], theme.styles["code"]);
  }

  lemma {:induction false} SpanRunsLength(spans: seq<Inline.Span>, textStyle: Style, codeStyle: Style)
    ensures Texts(SpanRuns(spans, textStyle, codeStyle)) == SpanTexts(spans)
  {
    var runs := SpanRuns(spans, textStyle, codeStyle);
    forall k | 0 <= k < |spans| ensures Texts(runs)[k] == SpanTexts(spans)[k] {
      assert runs[k] == StyledRun(spans[k], textStyle, codeStyle);
    }
  }

  // ---------------------------------------------------------------------------
  // Paragraphs of text

  /** The runs of a paragraph of text, styled `code` or `normal` by kind. */
  function TextRuns(line: string, theme: Theme): seq<Run>
    requires ValidTheme(theme)
  {
    SpanRuns(Inline.Spans(line), theme.styles["normal"], theme.styles["code"])
  }

  /** The paragraph as markdown_to_word.py:1017-1082 builds it: the runs, then
      `apply_para_style(p, normal)`, whose loop over the runs applies the normal style to
      the code runs as well. */
  function TextUnitAsWritten(line: string, theme: Theme): Unit
    requires ValidTheme(theme)
  {
    Para(ApplyParaStyle(Paragraph(TextRuns(line, theme), PlainPara), theme.styles["normal"]))
  }

  /** The paragraph as corrected: the normal style's paragraph settings only, so that
      every run keeps the style the loop gave it. This, not `TextUnitAsWritten`, is what
      the rest of the model appends for a paragraph line. */
  function TextUnit(line: string, theme: Theme): Unit
    requires ValidTheme(theme)
  {
    Para(Paragraph(TextRuns(line, theme), ParaOverride(PlainPara, theme.styles["normal"])))
  }

  /** As written, every run of a paragraph ends up in the normal style's font (when it
      names one), inline code included. */
  lemma {:induction false} AsWrittenUsesNormalFont(line: string, theme: Theme, k: nat)
    requires ValidTheme(theme) && theme.styles["normal"].fontName.Some?
    requires k < |TextUnitAsWritten(line, theme).para.runs|
    ensures TextUnitAsWritten(line, theme).para.runs[k].format.fontName == theme.styles["normal"].fontName
  {
  }

  /** The two paragraphs have the same texts and paragraph format and differ only on
      code runs: every other run is already in the normal style, which applying again
      does not change. A code run keeps the code font and colour in `TextUnit`. */
  lemma {:induction false} TextUnitCorrection(line: string, theme: Theme, k: nat)
    requires ValidTheme(theme)
    requires k < |Inline.Spans(line)|
    ensures |TextUnit(line, theme).para.runs| == |TextUnitAsWritten(line, theme).para.runs| == |Inline.Spans(line)|
    ensures Texts(TextUnit(line, theme).para.runs) == Texts(TextUnitAsWritten(line, theme).para.runs) == SpanTexts(Inline.Spans(line))
    ensures TextUnit(line, theme).para.format == TextUnitAsWritten(line, theme).para.format
    ensures Inline.Spans(line)[k].kind != Inline.Code ==>
      TextUnit(line, theme).para.runs[k] == TextUnitAsWritten(line, theme).para.runs[k]
    ensures Inline.Spans(line)[k].kind == Inline.Code && theme.styles["code"].fontName.Some? ==>
      TextUnit(line, theme).para.runs[k].format.fontName == theme.styles["code"].fontName
  {
    var spans := Inline.Spans(line);
    var normal := theme.styles["normal"];
    var runs := TextRuns(line, theme);
    SpanRunsLength(spans, normal, theme.styles["code"]);
    ParaStyleIdempotent(Paragraph(runs, PlainPara), normal);
    assert runs[k] == StyledRun(spans[k], normal, theme.styles["code"]);
    if spans[k].kind != Inline.Code {
      ApplyStyleIdempotent(KindFormat(spans[k].kind), normal);
    }
  }

  /** With the default configuration, the inline code of "`x`" is set in Times New Roman
      as written, and in Consolas once corrected. */
  lemma {:induction false} InlineCodeFont()
    ensures TextUnitAsWritten("`x`", DefaultTheme).para.runs[0].format.fontName == Some("Times New Roman")
    ensures TextUnit("`x`", DefaultTheme).para.runs[0].format.fontName == Some("Consolas")
  {
    DefaultThemeValid();
    Inline.CodeExample();
    TextUnitCorrection("`x`", DefaultTheme, 0);
    AsWrittenUsesNormalFont("`x`", DefaultTheme, 0);
  }

  // ---------------------------------------------------------------------------
  // Code blocks

  /** What closing a fence appends (markdown_to_word.py:812-829): a bold "Code (lang):"
      paragraph when a language was named, the lines joined by '\n' in one run in the
      code block style, and an empty paragraph. */
  function CodeUnits(lang: string, body: seq<string>, theme: Theme): seq<Unit>
    requires ValidTheme(theme)
  {
    (if lang != "" then [Para(Paragraph([Run("Code (" + lang + "):", PlainRun.(bold := Some(true)))], PlainPara))] else [])
    + [Para(Paragraph([Run(Join(body, "\n"), ApplyStyle(PlainRun, theme.styles["code_block"]))], PlainPara)), EmptyPara]
  }

  /** A code block is two or three paragraphs, an empty fence included. A named language
      gives a first paragraph with the bold label "Code (lang):". The last paragraph is
      empty. The code paragraph holds one run in the code block style, and splitting its
      text at '\n' gives back the lines of a non-empty block. */
  lemma {:induction false} CodeTextKeepsLines(lang: string, body: seq<string>, theme: Theme)
    requires ValidTheme(theme)
    requires forall k :: 0 <= k < |body| ==> NoNewline(body[k])
    ensures |CodeUnits(lang, body, theme)| == if lang == "" then 2 else 3
    ensures lang != "" ==>
      CodeUnits(lang, body, theme)[0] == Para(Paragraph([Run("Code (" + lang + "):", PlainRun.(bold := Some(true)))], PlainPara))
    ensures CodeUnits(lang, body, theme)[|CodeUnits(lang, body, theme)| - 1] == EmptyPara
    ensures CodeUnits(lang, body, theme)[|CodeUnits(lang, body, theme)| - 2].Para?
    ensures |CodeUnits(lang, body, theme)[|CodeUnits(lang, body, theme)| - 2].para.runs| == 1
    ensures CodeUnits(lang, body, theme)[|CodeUnits(lang, body, theme)| - 2].para.runs[0].format ==
      ApplyStyle(PlainRun, theme.styles["code_block"])
    ensures |body| >= 1 ==>
      Split(CodeUnits(lang, body, theme)[|CodeUnits(lang, body, theme)| - 2].para.runs[0].text, "\n") == body
    ensures |body| == 0 ==> CodeUnits(lang, body, theme)[|CodeUnits(lang, body, theme)| - 2].para.runs[0].text == ""
  {
    if |body| >= 1 {
      SplitJoinChar(body, '\n');
    }
  }

  // ---------------------------------------------------------------------------
  // Tables

  /** The table `doc.add_table` makes and the loops fill (markdown_to_word.py:963-991):
      the cell texts, how many cells of each data row were written, the header runs
      (bold, table font), the data runs (table font and size), and the header shading. */
  function TableUnit(header: seq<string>, rows: seq<seq<string>>, theme: Theme): Unit
  {
    Table(
      Tables.TableGrid(header, rows),
      seq(|rows|, r requires 0 <= r < |rows| => if |rows[r]| < |header| then |rows[r]| else |header|),
      PlainRun.(bold := Some(true), fontName := Some(theme.tableFontName)),
      PlainRun.(fontName := Some(theme.tableFontName), fontSize := Some(theme.tableFontSize)),
      Hex.ShadeFill(theme.headerBg.r, theme.headerBg.g, theme.headerBg.b))
  }

  /** A run of table rows: nothing at all for fewer than three, otherwise the table and
      an empty paragraph. */
  function TableUnits(block: seq<string>, theme: Theme): seq<Unit>
  {
    if |block| >= 3 then [TableUnit(Tables.HeaderOf(block), Tables.DataOf(block), theme), EmptyPara] else []
  }

  /** Three or more rows give a table followed by an empty paragraph. The table has one
      row fewer than the block and as many columns as the header has cells, and its
      header row holds the header's cells (`TableDataCell` states the other rows). The
      header runs are bold in the table font, and the header cells are shaded with the
      configured colour. */
  lemma {:induction false} TableShape(block: seq<string>, theme: Theme)
    requires |block| >= 3
    ensures |TableUnits(block, theme)| == 2 && TableUnits(block, theme)[0].Table?
    ensures TableUnits(block, theme)[1] == EmptyPara
    ensures |TableUnits(block, theme)[0].cells| == |block| - 1
    ensures forall r :: 0 <= r < |block| - 1 ==> |TableUnits(block, theme)[0].cells[r]| == |Tables.Cells(block[0])|
    ensures TableUnits(block, theme)[0].cells[0] == Tables.Cells(block[0])
    ensures |TableUnits(block, theme)[0].written| == |block| - 2
    ensures TableUnits(block, theme)[0].headerRun.bold == Some(true)
    ensures TableUnits(block, theme)[0].headerRun.fontName == Some(theme.tableFontName)
    ensures TableUnits(block, theme)[0].headerFill == Hex.ShadeFill(theme.headerBg.r, theme.headerBg.g, theme.headerBg.b)
  {
  }

  /** Table row r (from 1) of a run of rows holds the cells of block row r + 1, so the
      separator line is skipped; a data row's missing cells are empty. */
  lemma {:induction false} TableDataCell(block: seq<string>, theme: Theme, r: nat, c: nat)
    requires |block| >= 3 && 1 <= r < |block| - 1 && c < |Tables.Cells(block[0])|
    ensures |TableUnits(block, theme)| == 2 && TableUnits(block, theme)[0].Table?
    ensures r < |TableUnits(block, theme)[0].cells| && c < |TableUnits(block, theme)[0].cells[r]|
    ensures TableUnits(block, theme)[0].cells[r][c] ==
      if c < |Tables.Cells(block[r + 1])| then Tables.Cells(block[r + 1])[c] else ""
  {
    var header, rows := Tables.HeaderOf(block), Tables.DataOf(block);
    var row := Tables.Cells(block[r + 1]);
    assert rows[r - 1] == row;
    Tables.TableGridCells(header, rows, r - 1, c);
    assert TableUnits(block, theme)[0].cells == Tables.TableGrid(header, rows);
  }

  // ---------------------------------------------------------------------------
  // The lines of one file

  /** Outside a fence, or inside one whose language and lines so far are given. */
  datatype Mode = Text | Code(lang: string, body: seq<string>)

  /** What a line outside a fence that is neither a fence nor a table row appends. A
      paragraph line appends the corrected paragraph `TextUnit`, not the one
      markdown_to_word.py:1082 builds (`TextUnitAsWritten`). */
  function LineUnits(kind: Blocks.LineKind, line: string, theme: Theme): seq<Unit>
    requires ValidTheme(theme) && kind == Blocks.Classify(line)
    requires !kind.FenceLine? && !kind.TableLine?
  {
    match kind
    case HeadingLine(h) => [HeadingUnit(h, theme)]
    case ListLine(item) => [ListUnit(item, theme)]
    case ImageLine(img) => [ImageRef(img.alt, img.path)]
    case BlankLine => [EmptyPara]
    case TextLine => [TextUnit(line, theme)]
  }

  /** The blocks one pass of the loop appends, and the line it goes on with. */
  datatype Step = Step(units: seq<Unit>, next: nat)

  /** One pass of the loop outside a fence on a line that is not a fence: a table row
      consumes the whole run of rows, any other line only itself. */
  function TextStep(lines: seq<string>, i: nat, theme: Theme): (st: Step)
    requires i < |lines| && ValidTheme(theme) && !Blocks.IsFence(lines[i])
    ensures i < st.next <= |lines|
  {
    var kind := Blocks.Classify(lines[i]);
    if kind.TableLine? then
      Blocks.ClassifyMeaning(lines[i]);
      var j := Tables.TableEnd(lines, i);
      Step(TableUnits(lines[i..j], theme), j)
    else Step(LineUnits(kind, lines[i], theme), i + 1)
  }

  /** The blocks the loop appends for `lines[i..]` when it reaches line `i` in `mode`.
      A fence toggles the mode whatever else is on its line; inside a fence every other
      line is kept as it is; a fence still open at the end appends nothing. */
  function Render(lines: seq<string>, i: nat, mode: Mode, theme: Theme): seq<Unit>
    requires i <= |lines| && ValidTheme(theme)
    decreases |lines| - i
  {
    if i == |lines| then []
    else if Blocks.IsFence(lines[i]) then
      if mode.Text? then Render(lines, i + 1, Code(Blocks.FenceLang(lines[i]), []), theme)
      else CodeUnits(mode.lang, mode.body, theme) + Render(lines, i + 1, Text, theme)
    else if mode.Code? then Render(lines, i + 1, Code(mode.lang, mode.body + [lines[i]]), theme)
    else
      var st := TextStep(lines, i, theme);
      st.units + Render(lines, st.next, Text, theme)
  }

  /** Outside a fence, a line that is not a fence appends the blocks of its step. */
  lemma {:induction false} RenderText(lines: seq<string>, i: nat, theme: Theme)
    requires i < |lines| && ValidTheme(theme) && !Blocks.IsFence(lines[i])
    ensures Render(lines, i, Text, theme) ==
      TextStep(lines, i, theme).units + Render(lines, TextStep(lines, i, theme).next, Text, theme)
  {
  }

  /** A fence that is never closed drops its lines: nothing is appended for them. */
  lemma {:induction false} OpenFenceDropped(lines: seq<string>, i: nat, lang: string, body: seq<string>, theme: Theme)
    requires i <= |lines| && ValidTheme(theme)
    requires forall k :: i <= k < |lines| ==> !Blocks.IsFence(lines[k])
    ensures Render(lines, i, Code(lang, body), theme) == []
    decreases |lines| - i
  {
    if i < |lines| {
      RenderInCode(lines, i, lang, body, theme);
      OpenFenceDropped(lines, i + 1, lang, body + [lines[i]], theme);
    }
  }

  /** A fence at `i` closed by the next fence at `j` appends the code block of the lines
      in between, whatever they look like (a "# title" inside is code, not a heading),
      and the loop goes on after the closing fence. */
  lemma {:induction false} FencedBlock(lines: seq<string>, i: nat, j: nat, theme: Theme)
    requires i < j < |lines| && ValidTheme(theme)
    requires Blocks.IsFence(lines[i]) && Blocks.IsFence(lines[j])
    requires forall k :: i < k < j ==> !Blocks.IsFence(lines[k])
    ensures Render(lines, i, Text, theme) ==
      CodeUnits(Blocks.FenceLang(lines[i]), lines[i + 1..j], theme) + Render(lines, j + 1, Text, theme)
  {
    RenderFenceOpen(lines, i, theme);
    InsideFence(lines, i + 1, j, Blocks.FenceLang(lines[i]), [], theme);
    assert [] + lines[i + 1..j] == lines[i + 1..j];
  }

  lemma {:induction false} InsideFence(lines: seq<string>, k: nat, j: nat, lang: string, body: seq<string>, theme: Theme)
    requires k <= j < |lines| && ValidTheme(theme) && Blocks.IsFence(lines[j])
    requires forall q :: k <= q < j ==> !Blocks.IsFence(lines[q])
    ensures Render(lines, k, Code(lang, body), theme) ==
      CodeUnits(lang, body + lines[k..j], theme) + Render(lines, j + 1, Text, theme)
    decreases j - k
  {
    if k == j {
      assert body + lines[k..j] == body;
      RenderFenceClose(lines, k, lang, body, theme);
    } else {
      RenderInCode(lines, k, lang, body, theme);
      InsideFence(lines, k + 1, j, lang, body + [lines[k]], theme);
      GrowBody(body, lines, k, j);
    }
  }

  lemma {:induction false} GrowBody(body: seq<string>, lines: seq<string>, k: nat, j: nat)
    requires k < j <= |lines|
    ensures body + [lines[k]] + lines[k + 1..j] == body + lines[k..j]
  {
    assert lines[k..j] == [lines[k]] + lines[k + 1..j];
  }

  /** Outside a fence, a fence opens a code block with the language of its line. */
  lemma {:induction false} RenderFenceOpen(lines: seq<string>, i: nat, theme: Theme)
    requires i < |lines| && ValidTheme(theme) && Blocks.IsFence(lines[i])
    ensures Render(lines, i, Text, theme) == Render(lines, i + 1, Code(Blocks.FenceLang(lines[i]), []), theme)
  {
  }

  /** Inside a fence, a fence closes the block and appends it. */
  lemma {:induction false} RenderFenceClose(lines: seq<string>, i: nat, lang: string, body: seq<string>, theme: Theme)
    requires i < |lines| && ValidTheme(theme) && Blocks.IsFence(lines[i])
    ensures Render(lines, i, Code(lang, body), theme) == CodeUnits(lang, body, theme) + Render(lines, i + 1, Text, theme)
  {
  }

  /** Inside a fence, any other line joins the block unexamined. */
  lemma {:induction false} RenderInCode(lines: seq<string>, i: nat, lang: string, body: seq<string>, theme: Theme)
    requires i < |lines| && ValidTheme(theme) && !Blocks.IsFence(lines[i])
    ensures Render(lines, i, Code(lang, body), theme) == Render(lines, i + 1, Code(lang, body + [lines[i]]), theme)
  {
  }

  /** A run of one or two table rows is consumed and appends nothing. */
  lemma {:induction false} ShortTableDropped(lines: seq<string>, i: nat, theme: Theme)
    requires i < |lines| && ValidTheme(theme) && Blocks.IsTableLine(lines[i])
    requires Tables.TableEnd(lines, i) < i + 3
    ensures Render(lines, i, Text, theme) == Render(lines, Tables.TableEnd(lines, i), Text, theme)
  {
    RenderTable(lines, i, theme);
  }

  /** Outside a fence, a table row starts a run that is rendered as one table. */
  lemma {:induction false} RenderTable(lines: seq<string>, i: nat, theme: Theme)
    requires i < |lines| && ValidTheme(theme) && Blocks.IsTableLine(lines[i])
    ensures Render(lines, i, Text, theme) ==
      TableUnits(lines[i..Tables.TableEnd(lines, i)], theme) + Render(lines, Tables.TableEnd(lines, i), Text, theme)
  {
    Blocks.RecognisersExclusive(lines[i]);
    Blocks.ClassifyMeaning(lines[i]);
  }

  /** Outside a fence, any other line appends the blocks of its own branch and nothing
      else, and the loop goes on with the next line. */
  lemma {:induction false} RenderLine(lines: seq<string>, i: nat, theme: Theme)
    requires i < |lines| && ValidTheme(theme)
    requires !Blocks.IsFence(lines[i]) && !Blocks.IsTableLine(lines[i])
    ensures !Blocks.Classify(lines[i]).FenceLine? && !Blocks.Classify(lines[i]).TableLine?
    ensures Render(lines, i, Text, theme) ==
      LineUnits(Blocks.Classify(lines[i]), lines[i], theme) + Render(lines, i + 1, Text, theme)
  {
    Blocks.ClassifyMeaning(lines[i]);
  }

  /** Every line outside a fence that is blank appends one empty paragraph. */
  lemma {:induction false} BlankLineIsEmptyPara(lines: seq<string>, i: nat, theme: Theme)
    requires i < |lines| && ValidTheme(theme) && Blocks.IsBlank(lines[i])
    ensures Render(lines, i, Text, theme) == [EmptyPara] + Render(lines, i + 1, Text, theme)
  {
    Blocks.ClassifyMeaning(lines[i]);
    Blocks.RecognisersExclusive(lines[i]);
  }
}
