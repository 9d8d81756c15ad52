/**
 * Style application (markdown_to_word.py:576-646): a style entry of the configuration
 * names some formatting keys, and applying it overrides exactly those keys of a run
 * or of a paragraph and leaves every other property as it was.
 */
module Styles {
  import opened Wrappers

  /** A colour as `RGBColor` holds it. */
  datatype Rgb = Rgb(r: int, g: int, b: int)

  /** A `"color"` entry; a missing component reads as 0 (`.get("r", 0)`). */
  datatype ColorSpec = ColorSpec(r: Option<int>, g: Option<int>, b: Option<int>)

  /** One entry of `config["styles"]`: every key is optional. */
  datatype Style = Style(
    fontName: Option<string>,
    fontSize: Option<real>,
    bold: Option<bool>,
    italic: Option<bool>,
    color: Option<ColorSpec>,
    spaceBefore: Option<real>,
    spaceAfter: Option<real>,
    lineSpacing: Option<real>,
    keepWithNext: Option<bool>,
    alignment: Option<string>)

  /** The direct formatting of a run; `None` is "inherited from the paragraph style". */
  datatype RunFormat = RunFormat(
    fontName: Option<string>,
    fontSize: Option<real>,
    bold: Option<bool>,
    italic: Option<bool>,
    underline: Option<bool>,
    color: Option<Rgb>)

  datatype Alignment = Left | Center | Right | Justify

  /** The direct formatting of a paragraph. */
  datatype ParaFormat = ParaFormat(
    spaceBefore: Option<real>,
    spaceAfter: Option<real>,
    lineSpacing: Option<real>,
    keepWithNext: Option<bool>,
    alignment: Option<Alignment>,
    leftIndent: Option<real>)

  datatype Run = Run(text: string, format: RunFormat)

  datatype Paragraph = Paragraph(runs: seq<Run>, format: ParaFormat)

  const EmptyStyle := Style(None, None, None, None, None, None, None, None, None, None)
  const PlainRun := RunFormat(None, None, None, None, None, None)
  const PlainPara := ParaFormat(None, None, None, None, None, None)

  function Or<T>(o: Option<T>, d: T): T { if o.Some? then o.value else d }

  /** The key of `s` if it has one, otherwise what was there. */
  function Override<T>(s: Option<T>, prev: Option<T>): (r: Option<T>)
    ensures s.Some? ==> r == s
    ensures s.None? ==> r == prev
  {
    if s.Some? then s else prev
  }

  function ColorOf(c: ColorSpec): Rgb { Rgb(Or(c.r, 0), Or(c.g, 0), Or(c.b, 0)) }

  /** `apply_style(run, style)`: font name, size, bold, italic and colour are set when the
      style names them; the underline is never touched. */
  function ApplyStyle(f: RunFormat, s: Style): (g: RunFormat)
    ensures g.underline == f.underline
    ensures s.fontName.None? && s.fontSize.None? && s.bold.None? && s.italic.None? && s.color.None? ==> g == f
  {
    RunFormat(
      Override(s.fontName, f.fontName),
      Override(s.fontSize, f.fontSize),
      Override(s.bold, f.bold),
      Override(s.italic, f.italic),
      f.underline,
      if s.color.Some? then Some(ColorOf(s.color.value)) else f.color)
  }

  /** `alignment_map`: the four alignment names the converter knows. */
  function AlignmentOf(name: string): Option<Alignment>
  {
    if name == "left" then Some(Left)
    else if name == "center" then Some(Center)
    else if name == "right" then Some(Right)
    else if name == "justify" then Some(Justify)
    else None
  }

  /** The paragraph half of `apply_para_style`: spacing, line spacing and keep-with-next
      when named, and the alignment only when its name is one of the four known ones. */
  function ParaOverride(p: ParaFormat, s: Style): (q: ParaFormat)
    ensures q.leftIndent == p.leftIndent
    ensures s.alignment.Some? && AlignmentOf(s.alignment.value).Some? ==> q.alignment == AlignmentOf(s.alignment.value)
    ensures (s.alignment.None? || AlignmentOf(s.alignment.value).None?) ==> q.alignment == p.alignment
  {
    ParaFormat(
      Override(s.spaceBefore, p.spaceBefore),
      Override(s.spaceAfter, p.spaceAfter),
      Override(s.lineSpacing, p.lineSpacing),
      Override(s.keepWithNext, p.keepWithNext),
      if s.alignment.Some? && AlignmentOf(s.alignment.value).Some? then AlignmentOf(s.alignment.value) else p.alignment,
      p.leftIndent)
  }

  /** `apply_style` on every run of a paragraph (the loop at the top of `apply_para_style`). */
  function StyleRuns(runs: seq<Run>, s: Style): (rs: seq<Run>)
    ensures |rs| == |runs|
    ensures forall k :: 0 <= k < |runs| ==> rs[k] == Run(runs[k].text, ApplyStyle(runs[k].format, s))
  {
    seq(|runs|, k requires 0 <= k < |runs| => Run(runs[k].text, ApplyStyle(runs[k].format, s)))
  }

  /** `apply_para_style(paragraph, style)`. */
  function ApplyParaStyle(p: Paragraph, s: Style): Paragraph
  {
    Paragraph(StyleRuns(p.runs, s), ParaOverride(p.format, s))
  }

  /** `apply_heading_style(heading, style)`: the paragraph style, then the run style on
      every run a second time. */
  function ApplyHeadingStyle(p: Paragraph, s: Style): Paragraph
  {
    var q := ApplyParaStyle(p, s);
    Paragraph(StyleRuns(q.runs, s), q.format)
  }

  /** The texts of a paragraph's runs. */
  function Texts(runs: seq<Run>): (ts: seq<string>)
    ensures |ts| == |runs|
  {
    seq(|runs|, k requires 0 <= k < |runs| => runs[k].text)
  }

  /** Applying a style twice is applying it once. */
  lemma {:induction false} ApplyStyleIdempotent(f: RunFormat, s: Style)
    ensures ApplyStyle(ApplyStyle(f, s), s) == ApplyStyle(f, s)
  {
  }

  /** Applying the empty style changes nothing. */
  lemma {:induction false} ApplyEmptyStyle(f: RunFormat)
    ensures ApplyStyle(f, EmptyStyle) == f
    ensures ParaOverride(PlainPara, EmptyStyle) == PlainPara
  {
  }

  /** The style `s1` overlaid by `s2`: what a user entry merged over a default entry holds. */
  function Overlay(s1: Style, s2: Style): (s: Style)
  {
    Style(
      Override(s2.fontName, s1.fontName), Override(s2.fontSize, s1.fontSize),
      Override(s2.bold, s1.bold), Override(s2.italic, s1.italic), Override(s2.color, s1.color),
      Override(s2.spaceBefore, s1.spaceBefore), Override(s2.spaceAfter, s1.spaceAfter),
      Override(s2.lineSpacing, s1.lineSpacing), Override(s2.keepWithNext, s1.keepWithNext),
      Override(s2.alignment, s1.alignment))
  }

  /** Applying `s1` then `s2` is applying their overlay: the later style wins key by key. */
  lemma {:induction false} ApplyStyleThen(f: RunFormat, s1: Style, s2: Style)
    ensures ApplyStyle(ApplyStyle(f, s1), s2) == ApplyStyle(f, Overlay(s1, s2))
  {
  }

  /** Styling every run of a paragraph with `s1` and then with `s2` is styling it once
      with their overlay, and the runs keep their texts. */
  lemma {:induction false} StyleRunsThen(runs: seq<Run>, s1: Style, s2: Style)
    ensures StyleRuns(StyleRuns(runs, s1), s2) == StyleRuns(runs, Overlay(s1, s2))
    ensures Texts(StyleRuns(runs, s1)) == Texts(runs)
  {
    forall k | 0 <= k < |runs|
      ensures StyleRuns(StyleRuns(runs, s1), s2)[k] == StyleRuns(runs, Overlay(s1, s2))[k]
    {
      ApplyStyleThen(runs[k].format, s1, s2);
    }
  }

  /** A style that names every run key fixes the run whatever it held before, except
      its underline. */
  lemma {:induction false} FullStyleDecides(f: RunFormat, f2: RunFormat, s: Style)
    requires s.fontName.Some? && s.fontSize.Some? && s.bold.Some? && s.italic.Some? && s.color.Some?
    requires f.underline == f2.underline
    ensures ApplyStyle(f, s) == ApplyStyle(f2, s)
  {
  }

  /** The colour of a style: missing components are 0. */
  lemma {:induction false} ColorDefaults(f: RunFormat, c: ColorSpec)
    ensures ApplyStyle(f, EmptyStyle.(color := Some(c))).color ==
      Some(Rgb(if c.r.Some? then c.r.value else 0, if c.g.Some? then c.g.value else 0, if c.b.Some? then c.b.value else 0))
  {
  }

  /** `apply_para_style` keeps the run texts and is idempotent. */
  lemma {:induction false} ParaStyleIdempotent(p: Paragraph, s: Style)
    ensures Texts(ApplyParaStyle(p, s).runs) == Texts(p.runs)
    ensures ApplyParaStyle(ApplyParaStyle(p, s), s) == ApplyParaStyle(p, s)
  {
    var q := ApplyParaStyle(p, s);
    forall k | 0 <= k < |p.runs| ensures StyleRuns(q.runs, s)[k] == q.runs[k] {
      ApplyStyleIdempotent(p.runs[k].format, s);
    }
  }

  /** The second run pass of `apply_heading_style` is redundant: a heading is styled
      exactly as `apply_para_style` alone would style it. */
  lemma {:induction false} HeadingStyleIsParaStyle(p: Paragraph, s: Style)
    ensures ApplyHeadingStyle(p, s) == ApplyParaStyle(p, s)
  {
    var q := ApplyParaStyle(p, s);
    forall k | 0 <= k < |p.runs| ensures StyleRuns(q.runs, s)[k] == q.runs[k] {
      ApplyStyleIdempotent(p.runs[k].format, s);
    }
  }

  /** An alignment name outside left/center/right/justify is ignored. */
  lemma {:induction false} UnknownAlignmentIgnored(p: ParaFormat, s: Style)
    requires s.alignment == Some("centre")
    ensures ParaOverride(p, s).alignment == p.alignment
  {
  }

  /** The styles and table settings the renderer reads from `config["styles"]`. */
  datatype Theme = Theme(
    styles: map<string, Style>,
    listIndent: real,
    tableFontName: string,
    tableFontSize: real,
    headerBg: Rgb)

  /** The style entries the renderer looks up without checking that they exist. */
  predicate ValidTheme(t: Theme)
  {
    "normal" in t.styles && "code" in t.styles && "code_block" in t.styles
    && "list_item" in t.styles && "toc_heading" in t.styles && "h1" in t.styles
  }

  function Rgbs(r: int, g: int, b: int): Option<ColorSpec> { Some(ColorSpec(Some(r), Some(g), Some(b))) }

  function HeadingStyle(size: real, c: Option<ColorSpec>, before: real, after: real): Style
  {
    Style(Some("Arial"), Some(size), Some(true), None, c, Some(before), Some(after), None, Some(true), None)
  }

  /** The style entries of `DEFAULT_CONFIG` (markdown_to_word.py:22-118) that apply_style
      and apply_para_style read. */
  const DefaultStyles: map<string, Style> := map[
    "h1" := HeadingStyle(18.0, Rgbs(0, 51, 102), 24.0, 12.0),
    "h2" := HeadingStyle(16.0, Rgbs(0, 102, 153), 18.0, 10.0),
    "h3" := HeadingStyle(14.0, Rgbs(0, 153, 204), 14.0, 8.0),
    "h4" := HeadingStyle(12.0, Rgbs(0, 153, 204), 12.0, 6.0),
    "normal" := Style(Some("Times New Roman"), Some(11.0), None, None, Rgbs(0, 0, 0), None, Some(8.0), Some(1.15), None, None),
    "code" := Style(Some("Consolas"), Some(10.0), None, None, Rgbs(128, 0, 128), None, Some(8.0), None, None, None),
    "code_block" := Style(Some("Consolas"), Some(10.0), None, None, Rgbs(0, 0, 0), Some(8.0), Some(8.0), None, None, None),
    "list_item" := Style(Some("Times New Roman"), Some(11.0), None, None, Rgbs(0, 0, 0), None, Some(0.0), None, None, None),
    "table" := Style(Some("Times New Roman"), Some(10.0), None, None, None, Some(12.0), Some(12.0), None, None, None),
    "caption" := Style(Some("Times New Roman"), Some(10.0), None, Some(true), Rgbs(80, 80, 80), Some(6.0), Some(12.0), None, None, Some("center")),
    "toc_heading" := Style(Some("Arial"), Some(16.0), Some(true), None, Rgbs(0, 0, 0), Some(24.0), Some(12.0), None, None, None),
    "toc_item" := Style(Some("Times New Roman"), Some(11.0), None, None, Rgbs(0, 0, 0), None, Some(3.0), None, None, None)
  ]

  const DefaultTheme := Theme(DefaultStyles, 0.5, "Times New Roman", 10.0, Rgb(240, 240, 240))

  /** The default configuration has every entry the renderer needs, and no style for
      headings of level 5 and 6. */
  lemma {:induction false} DefaultThemeValid()
    ensures ValidTheme(DefaultTheme)
    ensures "h5" !in DefaultTheme.styles && "h6" !in DefaultTheme.styles
  {
  }
}
