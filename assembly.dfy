/**
 * `convert_markdown_to_docx` (markdown_to_word.py:666-1084): the document it builds, as
 * the blocks appended to its body and the header, footer and first-page setting of each
 * of its sections. `Document.ConvertLines` is the main loop over the lines of one file,
 * proved to append what `Render.Render` states; `ConvertFiles` is the outer loop over
 * the input files, proved to build `Body` and `Sections`. Two corrections are built in:
 * a paragraph line appends `Render.TextUnit`, which keeps the code font of inline code,
 * and every section has a header of its own; the program as written is
 * `Render.TextUnitAsWritten` and `SharedHeader`.
 */
module Assembly {
  import opened Wrappers
  import opened Strings
  import opened Styles
  import Inline
  import Blocks
  import Tables
  import Hex
  import Render
  import Titles

  /** The entries of `config["document"]` (markdown_to_word.py:119-146) that decide the
      layout of the document. */
  datatype Settings = Settings(
    generateToc: bool,
    tocTitle: string,
    addFileHeaders: bool,
    pageBreakBetweenFiles: bool,
    headerEnabled: bool,
    headerContent: string,
    headerFirstDifferent: bool,
    footerEnabled: bool,
    footerContent: string,
    footerFirstDifferent: bool)

  const DefaultSettings := Settings(true, "Table des matières", true, true,
                                    true, "{chapter}", true, true, "Page {page}", true)

  /** A section of the document: whether its first page has its own header and footer,
      and the text of its header and footer once one has been written (the footer text
      is followed by a PAGE field). */
  datatype Section = Section(differentFirstPage: bool, header: Option<string>, footer: Option<string>)

  /** The one section of a new document. */
  const FirstSection := Section(false, None, None)

  /** An input file: its path and its text. */
  datatype SourceFile = SourceFile(path: string, content: string)

  /** `add_header_footer(section, header, footer, config, title)`, called when the header
      or the footer is enabled: each of the two that is enabled gets its text. */
  function HeaderFooter(sec: Section, settings: Settings, title: string): Section
  {
    if settings.headerEnabled || settings.footerEnabled then
      sec.(header := if settings.headerEnabled then Some(Titles.HeaderText(settings.headerContent, title)) else sec.header,
           footer := if settings.footerEnabled then Some(Titles.FooterText(settings.footerContent)) else sec.footer)
    else sec
  }

  /** A section's header and footer texts are the configured ones, with the title in the
      header, when they are enabled, and are left as they were when they are not. */
  lemma {:induction false} HeaderFooterMeaning(sec: Section, settings: Settings, title: string)
    ensures HeaderFooter(sec, settings, title).differentFirstPage == sec.differentFirstPage
    ensures settings.headerEnabled ==>
      HeaderFooter(sec, settings, title).header == Some(Join(Split(settings.headerContent, "{chapter}"), title))
    ensures !settings.headerEnabled ==> HeaderFooter(sec, settings, title).header == sec.header
    ensures settings.footerEnabled ==> HeaderFooter(sec, settings, title).footer == Some(Titles.FooterText(settings.footerContent))
    ensures !settings.footerEnabled ==> HeaderFooter(sec, settings, title).footer == sec.footer
  {
    Titles.HeaderTextMeaning(settings.headerContent, title);
  }

  /** A file gets a section of its own unless it is the first and there is no table of
      contents. */
  predicate OpensSection(index: nat, settings: Settings)
  {
    index > 0 || settings.generateToc
  }

  /** What `doc.add_section` gives before its header and footer are written. */
  function NewSection(settings: Settings): Section
  {
    Section(settings.headerFirstDifferent || settings.footerFirstDifferent, None, None)
  }

  // ---------------------------------------------------------------------------
  // What the document holds

  /** `doc.add_heading(text, 1)` followed by `apply_heading_style(heading, style)`. */
  function TitleUnit(text: string, style: Style): Render.Unit
  {
    Render.HeadingPara(1, ApplyHeadingStyle(Paragraph(if text == "" then [] else [Run(text, PlainRun)], PlainPara), style))
  }

  /** The table of contents (markdown_to_word.py:691-737): its heading, the TOC field and
      a page break. */
  function TocUnits(settings: Settings, theme: Theme): seq<Render.Unit>
    requires ValidTheme(theme)
  {
    if settings.generateToc then
      [TitleUnit(settings.tocTitle, theme.styles["toc_heading"]), Render.TocField, Render.PageBreak]
    else []
  }

  /** The lines of a file: `md_content.split('\n')`. */
  function LinesOf(f: SourceFile): seq<string>
  {
    Split(f.content, "\n")
  }

  /** What the converter takes from one file: its name, its chapter title and the blocks
      of its lines. */
  datatype Chapter = Chapter(name: string, title: string, blocks: seq<Render.Unit>)

  function ChapterOf(f: SourceFile, theme: Theme): Chapter
    requires ValidTheme(theme)
  {
    Chapter(Basename(f.path), Titles.ChapterTitle(f.content), Render.Render(LinesOf(f), 0, Render.Text, theme))
  }

  function Chapters(files: seq<SourceFile>, theme: Theme): (cs: seq<Chapter>)
    requires ValidTheme(theme)
    ensures |cs| == |files|
  {
    seq(|files|, k requires 0 <= k < |files| => ChapterOf(files[k], theme))
  }

  /** What comes before the file at `index`: a page break when asked for and a section
      break, when the file opens a section. */
  function Lead(index: nat, settings: Settings): seq<Render.Unit>
  {
    if OpensSection(index, settings) then
      (if settings.pageBreakBetweenFiles then [Render.PageBreak] else []) + [Render.SectionBreak]
    else []
  }

  /** The "Fichier: name" heading, when file headers are on. */
  function FileHeader(name: string, settings: Settings, theme: Theme): seq<Render.Unit>
    requires ValidTheme(theme)
  {
    if settings.addFileHeaders then [TitleUnit("Fichier: " + name, theme.styles["h1"])] else []
  }

  /** What the file at `index` appends (markdown_to_word.py:740-1084): its lead, the
      "Fichier: name" heading when file headers are on, then the blocks of its lines. */
  function FileUnits(index: nat, c: Chapter, settings: Settings, theme: Theme): seq<Render.Unit>
    requires ValidTheme(theme)
  {
    Lead(index, settings) + FileHeader(c.name, settings, theme) + c.blocks
  }

  /** The body once the first `n` chapters are converted. */
  function Body(cs: seq<Chapter>, n: nat, settings: Settings, theme: Theme): seq<Render.Unit>
    requires n <= |cs| && ValidTheme(theme)
  {
    if n == 0 then TocUnits(settings, theme)
    else Body(cs, n - 1, settings, theme) + FileUnits(n - 1, cs[n - 1], settings, theme)
  }

  /** The sections before any file: the first one, set up for the table of contents
      when there is one. */
  function InitialSections(settings: Settings): (secs: seq<Section>)
    ensures |secs| == 1
  {
    if settings.generateToc then [HeaderFooter(NewSection(settings), settings, settings.tocTitle)]
    else [FirstSection]
  }

  /** The sections once the file at `index`, of chapter title `title`, is converted:
      either a new section or, for the first file without a table of contents, the first
      one, whose header and footer are written with the title. */
  function FileSections(prev: seq<Section>, index: nat, title: string, settings: Settings): (secs: seq<Section>)
    requires |prev| >= 1
    ensures |secs| == if OpensSection(index, settings) then |prev| + 1 else |prev|
  {
    if OpensSection(index, settings) then prev + [HeaderFooter(NewSection(settings), settings, title)]
    else prev[0 := HeaderFooter(prev[0], settings, title)]
  }

  /** The sections once the first `n` chapters are converted. */
  function Sections(cs: seq<Chapter>, n: nat, settings: Settings): (secs: seq<Section>)
    requires n <= |cs|
    ensures |secs| >= 1
  {
    if n == 0 then InitialSections(settings)
    else FileSections(Sections(cs, n - 1, settings), n - 1, cs[n - 1].title, settings)
  }

  /** The section whose header and footer carry the chapter title of file `k`. */
  function SectionOf(k: nat, settings: Settings): nat
  {
    if settings.generateToc then k + 1 else k
  }

  // ---------------------------------------------------------------------------
  // What the document promises

  /** One section per file, plus the one of the table of contents when there is one;
      without it the first file shares the document's first section. */
  lemma {:induction false} SectionCount(cs: seq<Chapter>, n: nat, settings: Settings)
    requires n <= |cs|
    ensures |Sections(cs, n, settings)| == if settings.generateToc then n + 1 else if n == 0 then 1 else n
  {
    if n > 0 {
      SectionCount(cs, n - 1, settings);
    }
  }

  /** The section of file `k` has the file's chapter title in its header when headers
      are on, the footer text when footers are on, and its own first page exactly when
      it is a new section and either first-page option is set. Later files do not change
      it. */
  lemma {:induction false} FileSection(cs: seq<Chapter>, n: nat, k: nat, settings: Settings)
    requires k < n <= |cs|
    ensures SectionOf(k, settings) < |Sections(cs, n, settings)|
    ensures Sections(cs, n, settings)[SectionOf(k, settings)].differentFirstPage ==
      (OpensSection(k, settings) && (settings.headerFirstDifferent || settings.footerFirstDifferent))
    ensures Sections(cs, n, settings)[SectionOf(k, settings)].header ==
      if settings.headerEnabled then Some(Titles.HeaderText(settings.headerContent, cs[k].title)) else None
    ensures Sections(cs, n, settings)[SectionOf(k, settings)].footer ==
      if settings.footerEnabled then Some(Titles.FooterText(settings.footerContent)) else None
    decreases n
  {
    var prev := Sections(cs, n - 1, settings);
    SectionCount(cs, n - 1, settings);
    if n - 1 == k {
      if OpensSection(k, settings) {
        HeaderFooterMeaning(NewSection(settings), settings, cs[k].title);
      } else {
        HeaderFooterMeaning(FirstSection, settings, cs[k].title);
      }
    } else {
      FileSection(cs, n - 1, k, settings);
    }
  }

  /** With a table of contents, the first section is its own: it has the table's title in
      its header and its own first page when either first-page option is set, whatever
      files follow. Without one, the first page of the document is never set apart. */
  lemma {:induction false} FirstSectionSetup(cs: seq<Chapter>, n: nat, settings: Settings)
    requires n <= |cs|
    ensures settings.generateToc ==> Sections(cs, n, settings)[0] == HeaderFooter(NewSection(settings), settings, settings.tocTitle)
    ensures settings.generateToc && settings.headerEnabled ==>
      Sections(cs, n, settings)[0].header == Some(Titles.HeaderText(settings.headerContent, settings.tocTitle))
    ensures settings.generateToc ==>
      Sections(cs, n, settings)[0].differentFirstPage == (settings.headerFirstDifferent || settings.footerFirstDifferent)
    ensures !settings.generateToc ==> !Sections(cs, n, settings)[0].differentFirstPage
    decreases n
  {
    HeaderFooterMeaning(NewSection(settings), settings, settings.tocTitle);
    if n > 0 {
      FirstSectionSetup(cs, n - 1, settings);
      HeaderFooterMeaning(Sections(cs, n - 1, settings)[0], settings, cs[n - 1].title);
    }
  }

  // ---------------------------------------------------------------------------
  // Header linking, as written

  /** The header text every section shows as the program is written. `doc.add_section`
      gives a section whose header is linked to the previous section's, and the source
      never unlinks it (markdown_to_word.py:758-781). python-docx then sends every write
      to `section.header` to the one header part of the document's first section, so
      that part holds the text written last, and every section shows it. */
  function SharedHeader(cs: seq<Chapter>, n: nat, settings: Settings): Option<string>
    requires n <= |cs|
  {
    if n == 0 then InitialSections(settings)[0].header
    else if settings.headerEnabled then Some(Titles.HeaderText(settings.headerContent, cs[n - 1].title))
    else SharedHeader(cs, n - 1, settings)
  }

  /** As written, the header file `k`'s section shows is the one it was given exactly
      when that text is also the last file's: an earlier chapter's title is lost
      whenever a later file's header differs. */
  lemma {:induction false} SharedHeaderLosesTitle(cs: seq<Chapter>, n: nat, k: nat, settings: Settings)
    requires k < n <= |cs| && settings.headerEnabled
    ensures SectionOf(k, settings) < |Sections(cs, n, settings)|
    ensures SharedHeader(cs, n, settings) == Sections(cs, n, settings)[SectionOf(k, settings)].header <==>
      Titles.HeaderText(settings.headerContent, cs[k].title) == Titles.HeaderText(settings.headerContent, cs[n - 1].title)
  {
    FileSection(cs, n, k, settings);
  }

  /** Two files titled "A" and "B" with the default settings: as written every section
      shows "B", while the section of the first file was given "A". */
  lemma {:induction false} SharedHeaderExample()
    ensures var cs := [Chapter("a.md", "A", []), Chapter("b.md", "B", [])];
      SharedHeader(cs, 2, DefaultSettings) == Some("B")
      && SectionOf(0, DefaultSettings) < |Sections(cs, 2, DefaultSettings)|
      && Sections(cs, 2, DefaultSettings)[SectionOf(0, DefaultSettings)].header == Some("A")
  {
    var cs := [Chapter("a.md", "A", []), Chapter("b.md", "B", [])];
    Titles.HeaderTextMeaning("{chapter}", "A");
    Titles.HeaderTextMeaning("{chapter}", "B");
    FileSection(cs, 2, 0, DefaultSettings);
  }

  /** The number of section breaks in a run of blocks. */
  function Breaks(units: seq<Render.Unit>): nat
    decreases |units|
  {
    if units == [] then 0 else (if units[0].SectionBreak? then 1 else 0) + Breaks(units[1..])
  }

  lemma {:induction false} BreaksAppend(a: seq<Render.Unit>, b: seq<Render.Unit>)
    ensures Breaks(a + b) == Breaks(a) + Breaks(b)
    decreases |a|
  {
    if a == [] {
      assert a + b == b;
    } else {
      assert (a + b)[1..] == a[1..] + b;
      BreaksAppend(a[1..], b);
    }
  }

  /** Blocks none of which is a section break hold no section break. */
  lemma {:induction false} NoBreaks(units: seq<Render.Unit>)
    requires forall k :: 0 <= k < |units| ==> !units[k].SectionBreak?
    ensures Breaks(units) == 0
    decreases |units|
  {
    if units != [] {
      assert forall k :: 0 <= k < |units| - 1 ==> units[1..][k] == units[k + 1];
      NoBreaks(units[1..]);
    }
  }

  /** The lines of a file never break a section. */
  lemma {:induction false} RenderHasNoBreak(lines: seq<string>, i: nat, mode: Render.Mode, theme: Theme)
    requires i <= |lines| && ValidTheme(theme)
    ensures Breaks(Render.Render(lines, i, mode, theme)) == 0
    decreases |lines| - i
  {
    if i < |lines| {
      if Blocks.IsFence(lines[i]) {
        if mode.Text? {
          Render.RenderFenceOpen(lines, i, theme);
          RenderHasNoBreak(lines, i + 1, Render.Code(Blocks.FenceLang(lines[i]), []), theme);
        } else {
          Render.RenderFenceClose(lines, i, mode.lang, mode.body, theme);
          RenderHasNoBreak(lines, i + 1, Render.Text, theme);
          CodeHasNoBreak(mode.lang, mode.body, theme);
          BreaksAppend(Render.CodeUnits(mode.lang, mode.body, theme), Render.Render(lines, i + 1, Render.Text, theme));
        }
      } else if mode.Code? {
        Render.RenderInCode(lines, i, mode.lang, mode.body, theme);
        RenderHasNoBreak(lines, i + 1, Render.Code(mode.lang, mode.body + [lines[i]]), theme);
      } else {
        var st := Render.TextStep(lines, i, theme);
        Render.RenderText(lines, i, theme);
        RenderHasNoBreak(lines, st.next, Render.Text, theme);
        StepHasNoBreak(lines, i, theme);
        BreaksAppend(st.units, Render.Render(lines, st.next, Render.Text, theme));
      }
    }
  }

  lemma {:induction false} CodeHasNoBreak(lang: string, body: seq<string>, theme: Theme)
    requires ValidTheme(theme)
    ensures Breaks(Render.CodeUnits(lang, body, theme)) == 0
  {
    var u := Render.CodeUnits(lang, body, theme);
    assert forall k :: 0 <= k < |u| ==> u[k].Para?;
    NoBreaks(u);
  }

  lemma {:induction false} StepHasNoBreak(lines: seq<string>, i: nat, theme: Theme)
    requires i < |lines| && ValidTheme(theme) && !Blocks.IsFence(lines[i])
    ensures Breaks(Render.TextStep(lines, i, theme).units) == 0
  {
    var u := Render.TextStep(lines, i, theme).units;
    var kind := Blocks.Classify(lines[i]);
    Blocks.ClassifyMeaning(lines[i]);
    if kind.TableLine? {
      var block := lines[i..Tables.TableEnd(lines, i)];
      assert u == Render.TableUnits(block, theme);
      assert forall k :: 0 <= k < |u| ==> u[k].Table? || u[k].Para?;
    } else {
      assert u == Render.LineUnits(kind, lines[i], theme);
      assert |u| == 1 && !u[0].SectionBreak?;
    }
    NoBreaks(u);
  }

  /** The body holds one section break for each section after the first, when the
      chapters' own blocks hold none. */
  lemma {:induction false} BreaksMatchSections(cs: seq<Chapter>, n: nat, settings: Settings, theme: Theme)
    requires n <= |cs| && ValidTheme(theme)
    requires forall k :: 0 <= k < |cs| ==> Breaks(cs[k].blocks) == 0
    ensures Breaks(Body(cs, n, settings, theme)) == |Sections(cs, n, settings)| - 1
    decreases n
  {
    if n == 0 {
      var t := TocUnits(settings, theme);
      assert forall k :: 0 <= k < |t| ==> !t[k].SectionBreak?;
      NoBreaks(t);
    } else {
      BreaksMatchSections(cs, n - 1, settings, theme);
      var c := cs[n - 1];
      var lead := Lead(n - 1, settings);
      var head := FileHeader(c.name, settings, theme);
      LeadBreaks(n - 1, settings);
      assert forall k :: 0 <= k < |head| ==> !head[k].SectionBreak?;
      NoBreaks(head);
      BreaksAppend(lead, head);
      BreaksAppend(lead + head, c.blocks);
      BreaksAppend(Body(cs, n - 1, settings, theme), FileUnits(n - 1, c, settings, theme));
    }
  }

  lemma {:induction false} LeadBreaks(index: nat, settings: Settings)
    ensures Breaks(Lead(index, settings)) == if OpensSection(index, settings) then 1 else 0
  {
    var lead := Lead(index, settings);
    if OpensSection(index, settings) {
      var pb: seq<Render.Unit> := if settings.pageBreakBetweenFiles then [Render.PageBreak] else [];
      assert forall k :: 0 <= k < |pb| ==> !pb[k].SectionBreak?;
      NoBreaks(pb);
      BreaksAppend(pb, [Render.SectionBreak]);
      assert [Render.SectionBreak][1..] == [];
    }
  }

  /** Every converted file's blocks are free of section breaks, so the document's
      section breaks are exactly those between its sections. */
  lemma {:induction false} DocumentBreaks(files: seq<SourceFile>, settings: Settings, theme: Theme)
    requires ValidTheme(theme)
    ensures Breaks(Body(Chapters(files, theme), |files|, settings, theme)) == |Sections(Chapters(files, theme), |files|, settings)| - 1
  {
    var cs := Chapters(files, theme);
    forall k | 0 <= k < |cs| ensures Breaks(cs[k].blocks) == 0 {
      RenderHasNoBreak(LinesOf(files[k]), 0, Render.Text, theme);
    }
    BreaksMatchSections(cs, |files|, settings, theme);
  }

  /** The table of contents, when there is one, opens the body. */
  lemma {:induction false} TocOpensBody(cs: seq<Chapter>, n: nat, settings: Settings, theme: Theme)
    requires n <= |cs| && ValidTheme(theme)
    ensures |TocUnits(settings, theme)| <= |Body(cs, n, settings, theme)|
    ensures Body(cs, n, settings, theme)[..|TocUnits(settings, theme)|] == TocUnits(settings, theme)
    decreases n
  {
    if n > 0 {
      TocOpensBody(cs, n - 1, settings, theme);
      var b := Body(cs, n - 1, settings, theme);
      var t := |TocUnits(settings, theme)|;
      assert Body(cs, n, settings, theme) == b + FileUnits(n - 1, cs[n - 1], settings, theme);
      assert (b + FileUnits(n - 1, cs[n - 1], settings, theme))[..t] == b[..t];
    }
  }

  // ---------------------------------------------------------------------------
  // The document being built

  class Document {
    var body: seq<Render.Unit>
    var sections: seq<Section>

    /** `Document()`: an empty body and one section. */
    constructor ()
      ensures body == [] && sections == [FirstSection]
    {
      body := [];
      sections := [FirstSection];
    }

    /** Appends blocks to the body. */
    method Add(units: seq<Render.Unit>)
      modifies this
      ensures body == old(body) + units && sections == old(sections)
    {
      body := body + units;
    }

    /** `doc.add_section(WD_SECTION.NEW_PAGE)` with the first-page setting. */
    method AddSection(sec: Section)
      modifies this
      ensures sections == old(sections) + [sec] && body == old(body)
    {
      sections := sections + [sec];
    }

    /** `add_header_footer` on section `s`, when the header or the footer is enabled,
        written to that section's own header and footer (as written, python-docx writes
        the shared header of `SharedHeader` instead). */
    method WriteHeaderFooter(s: nat, settings: Settings, title: string)
      requires s < |sections|
      modifies this
      ensures sections == old(sections)[s := HeaderFooter(old(sections)[s], settings, title)]
      ensures body == old(body)
    {
      if settings.headerEnabled || settings.footerEnabled {
        var sec := sections[s];
        if settings.headerEnabled {
          sec := sec.(header := Some(ReplaceAll(settings.headerContent, "{chapter}", title)));
        }
        if settings.footerEnabled {
          sec := sec.(footer := Some(ReplaceAll(settings.footerContent, "{page}", "")));
        }
        sections := sections[s := sec];
      }
    }

    /** `doc.add_heading(text, level=1)`, then `apply_heading_style` with `style`. */
    method AddTitle(text: string, style: Style)
      modifies this
      ensures body == old(body) + [TitleUnit(text, style)] && sections == old(sections)
    {
      var p := Paragraph([], PlainPara);
      if text != "" {
        p := p.(runs := [Run(text, PlainRun)]);
      }
      p := ApplyHeadingStyle(p, style);
      Add([Render.HeadingPara(1, p)]);
    }

    /** `section.different_first_page_header_footer = flag`. */
    method SetDifferentFirstPage(s: nat, flag: bool)
      requires s < |sections|
      modifies this
      ensures sections == old(sections)[s := old(sections)[s].(differentFirstPage := flag)]
      ensures body == old(body)
    {
      sections := sections[s := sections[s].(differentFirstPage := flag)];
    }

    /** One pass of the loop over the input files (markdown_to_word.py:740-1084), for the
        file at `index`. */
    method AddFile(index: nat, f: SourceFile, settings: Settings, theme: Theme)
      requires ValidTheme(theme) && |sections| >= 1
      modifies this
      ensures body == old(body) + FileUnits(index, ChapterOf(f, theme), settings, theme)
      ensures sections == FileSections(old(sections), index, ChapterOf(f, theme).title, settings)
    {
      var title := Titles.ChapterTitle(f.content);
      var name := Basename(f.path);
      ghost var b0, s0 := body, sections;
      var s := AddLead(index, settings);
      WriteHeaderFooter(s, settings, title);
      assert sections == FileSections(s0, index, title, settings);
      ghost var b1 := body;
      AddFileHeader(name, settings, theme);
      ghost var b2 := body;
      ConvertLines(Split(f.content, "\n"), theme);
      ghost var c := ChapterOf(f, theme);
      assert c.name == name && c.blocks == Render.Render(LinesOf(f), 0, Render.Text, theme);
      assert FileUnits(index, c, settings, theme) == Lead(index, settings) + FileHeader(name, settings, theme) + c.blocks;
      Inline.AppendAssoc(b0 + Lead(index, settings), FileHeader(name, settings, theme), c.blocks);
      Inline.AppendAssoc(b0, Lead(index, settings), FileHeader(name, settings, theme));
      Inline.AppendAssoc(b0, Lead(index, settings) + FileHeader(name, settings, theme), c.blocks);
    }

    /** The page break and the new section before a file that opens one; the section
        the file's header and footer go to. */
    method AddLead(index: nat, settings: Settings) returns (s: nat)
      requires |sections| >= 1
      modifies this
      ensures body == old(body) + Lead(index, settings)
      ensures OpensSection(index, settings) ==> sections == old(sections) + [NewSection(settings)] && s == |old(sections)|
      ensures !OpensSection(index, settings) ==> sections == old(sections) && s == 0
    {
      s := 0;
      if index > 0 || settings.generateToc {
        if settings.pageBreakBetweenFiles {
          Add([Render.PageBreak]);
        }
        Add([Render.SectionBreak]);
        AddSection(NewSection(settings));
        s := |sections| - 1;
      }
    }

    /** `doc.add_heading(f"Fichier: {file_name}", level=1)` and its h1 style, when file
        headers are on. */
    method AddFileHeader(name: string, settings: Settings, theme: Theme)
      requires ValidTheme(theme)
      modifies this
      ensures body == old(body) + FileHeader(name, settings, theme) && sections == old(sections)
    {
      if settings.addFileHeaders {
        AddTitle("Fichier: " + name, theme.styles["h1"]);
      }
    }

    /** The main loop over the lines of one file (markdown_to_word.py:792-1084). */
    method ConvertLines(lines: seq<string>, theme: Theme)
      requires ValidTheme(theme)
      modifies this
      ensures body == old(body) + Render.Render(lines, 0, Render.Text, theme)
      ensures sections == old(sections)
    {
      var i := 0;
      var inCode := false;
      var lang := "";
      var content: seq<string> := [];
      while i < |lines|
        invariant i <= |lines| && sections == old(sections)
        invariant body + Render.Render(lines, i, ModeOf(inCode, lang, content), theme) ==
          old(body) + Render.Render(lines, 0, Render.Text, theme)
        decreases |lines| - i
      {
        var line := lines[i];
        if Blocks.IsFence(line) {
          if !inCode {
            Render.RenderFenceOpen(lines, i, theme);
            inCode := true;
            lang := Blocks.FenceLang(line);
            content := [];
          } else {
            Render.RenderFenceClose(lines, i, lang, content, theme);
            ghost var before := body;
            inCode := false;
            AddCode(lang, content, theme);
            Inline.AppendAssoc(before, Render.CodeUnits(lang, content, theme), Render.Render(lines, i + 1, Render.Text, theme));
          }
          i := i + 1;
        } else if inCode {
          Render.RenderInCode(lines, i, lang, content, theme);
          content := content + [line];
          i := i + 1;
        } else {
          Render.RenderText(lines, i, theme);
          ghost var before, units := body, Render.TextStep(lines, i, theme).units;
          i := AddLine(lines, i, theme);
          Inline.AppendAssoc(before, units, Render.Render(lines, i, Render.Text, theme));
        }
      }
    }

    /** Closing a fence (markdown_to_word.py:812-829). */
    method AddCode(lang: string, content: seq<string>, theme: Theme)
      requires ValidTheme(theme)
      modifies this
      ensures body == old(body) + Render.CodeUnits(lang, content, theme)
      ensures sections == old(sections)
    {
      if lang != "" {
        Add([Render.Para(Paragraph([Run("Code (" + lang + "):", PlainRun.(bold := Some(true)))], PlainPara))]);
      }
      var codeText := Join(content, "\n");
      Add([Render.Para(Paragraph([Run(codeText, ApplyStyle(PlainRun, theme.styles["code_block"]))], PlainPara))]);
      Add([Render.EmptyPara]);
    }

    /** One pass of the loop outside a fence on a line that is not a fence: the first
        branch whose test accepts the line appends its blocks, and the loop goes on after
        the lines that branch consumed. */
    method AddLine(lines: seq<string>, i: nat, theme: Theme) returns (next: nat)
      requires i < |lines| && ValidTheme(theme) && !Blocks.IsFence(lines[i])
      modifies this
      ensures next == Render.TextStep(lines, i, theme).next
      ensures body == old(body) + Render.TextStep(lines, i, theme).units
      ensures sections == old(sections)
    {
      var line := lines[i];
      next := i + 1;
      Blocks.ClassifyMeaning(line);
      var heading := Blocks.MatchHeading(line);
      if heading.Some? {
        AddHeading(heading.value, theme);
        return;
      }
      var item := Blocks.MatchList(line);
      if item.Some? {
        AddListItem(item.value, theme);
        return;
      }
      if Blocks.IsTableLine(line) {
        next := AddTable(lines, i, theme);
        return;
      }
      var image := Blocks.MatchImage(line);
      if image.Some? {
        Add([Render.ImageRef(image.value.alt, image.value.path)]);
      } else if Strip(line) == "" {
        Add([Render.EmptyPara]);
      } else {
        AddText(line, theme);
      }
    }

    /** A heading line (markdown_to_word.py:840-854). */
    method AddHeading(h: Blocks.Heading, theme: Theme)
      requires 1 <= h.level <= 6
      modifies this
      ensures body == old(body) + [Render.HeadingUnit(h, theme)]
      ensures sections == old(sections)
    {
      var p := Paragraph([], PlainPara);
      if h.title != "" {
        p := p.(runs := [Run(h.title, PlainRun)]);
      }
      var key := "h" + [Hex.DigitChar(h.level)];
      if key in theme.styles {
        p := ApplyHeadingStyle(p, theme.styles[key]);
      }
      Add([Render.HeadingPara(h.level, p)]);
    }

    /** A list item (markdown_to_word.py:857-944). */
    method AddListItem(item: Blocks.ListItem, theme: Theme)
      requires ValidTheme(theme)
      modifies this
      ensures body == old(body) + [Render.ListUnit(item, theme)]
      ensures sections == old(sections)
    {
      var indentLevel := item.indentation / 2;
      var format := PlainPara.(spaceAfter := Some(0.0), leftIndent := Some(Render.Indent(indentLevel + 1, theme.listIndent)));
      var spans := Inline.Tokenize(item.content);
      var runs := Render.StyleSpans(spans, theme.styles["list_item"], theme.styles["code"]);
      Add([Render.ListPara(item.kind, Paragraph(runs, format))]);
    }

    /** A paragraph of text (markdown_to_word.py:1017-1082) as corrected, with the
        paragraph settings of the normal style and each run keeping the style the loop
        gave it. */
    method AddText(line: string, theme: Theme)
      requires ValidTheme(theme)
      modifies this
      ensures body == old(body) + [Render.TextUnit(line, theme)]
      ensures sections == old(sections)
    {
      var spans := Inline.Tokenize(line);
      var runs := Render.StyleSpans(spans, theme.styles["normal"], theme.styles["code"]);
      Add([Render.Para(Paragraph(runs, ParaOverride(PlainPara, theme.styles["normal"])))]);
    }

    /** A run of table rows (markdown_to_word.py:946-998): collected, then written as a
        table and an empty paragraph when it has three rows or more. */
    method AddTable(lines: seq<string>, i: nat, theme: Theme) returns (next: nat)
      requires i < |lines| && Blocks.IsTableLine(lines[i])
      modifies this
      ensures next == Tables.TableEnd(lines, i) && i < next
      ensures body == old(body) + Render.TableUnits(lines[i..next], theme)
      ensures sections == old(sections)
    {
      var block;
      block, next := Tables.CollectTableLines(lines, i);
      if |block| >= 3 {
        var table := BuildTable(block, theme);
        Add([table, Render.EmptyPara]);
      }
    }
  }

  /** The table of a run of three rows or more (markdown_to_word.py:955-991): the cells of
      the header and of every row after the separator, written into a new grid. */
  method BuildTable(block: seq<string>, theme: Theme) returns (table: Render.Unit)
    requires |block| >= 3
    ensures table == Render.TableUnit(Tables.HeaderOf(block), Tables.DataOf(block), theme)
  {
    var header := Tables.Cells(block[0]);
    var rows: seq<seq<string>> := [];
    for k := 2 to |block|
      invariant |rows| == k - 2
      invariant forall r :: 0 <= r < |rows| ==> rows[r] == Tables.Cells(block[r + 2])
    {
      rows := rows + [Tables.Cells(block[k])];
    }
    assert rows == Tables.DataOf(block);
    var grid := Tables.FillTable(header, rows);
    var cells := ReadGrid(grid);
    SameGrid(cells, Tables.TableGrid(header, rows));
    var written := seq(|rows|, r requires 0 <= r < |rows| => if |rows[r]| < |header| then |rows[r]| else |header|);
    var fill := Hex.ShadeFill(theme.headerBg.r, theme.headerBg.g, theme.headerBg.b);
    table := Render.Table(cells, written,
                          PlainRun.(bold := Some(true), fontName := Some(theme.tableFontName)),
                          PlainRun.(fontName := Some(theme.tableFontName), fontSize := Some(theme.tableFontSize)),
                          fill);
  }

  /** Two grids of the same shape with the same cells are equal. Like `ReadGrid`, this
      stands for no step of the source: it only lets the filled `array2` be turned into
      the table block. */
  lemma {:induction false} SameGrid(a: seq<seq<string>>, b: seq<seq<string>>)
    requires |a| == |b| && forall r :: 0 <= r < |a| ==> |a[r]| == |b[r]|
    requires forall r, c :: 0 <= r < |a| && 0 <= c < |a[r]| ==> a[r][c] == b[r][c]
    ensures a == b
  {
    forall r | 0 <= r < |a| ensures a[r] == b[r] {
      assert forall c :: 0 <= c < |a[r]| ==> a[r][c] == b[r][c];
    }
  }

  /** `convert_markdown_to_docx(input_files, ...)` once the configuration is loaded and
      the files are read: a new document, the table of contents when asked for, then
      each file in turn. */
  method ConvertFiles(files: seq<SourceFile>, settings: Settings, theme: Theme) returns (doc: Document)
    requires ValidTheme(theme)
    ensures fresh(doc)
    ensures doc.body == Body(Chapters(files, theme), |files|, settings, theme)
    ensures doc.sections == Sections(Chapters(files, theme), |files|, settings)
  {
    ghost var cs := Chapters(files, theme);
    doc := new Document();
    if settings.generateToc {
      doc.SetDifferentFirstPage(0, settings.headerFirstDifferent || settings.footerFirstDifferent);
      doc.WriteHeaderFooter(0, settings, settings.tocTitle);
      doc.AddTitle(settings.tocTitle, theme.styles["toc_heading"]);
      doc.Add([Render.TocField, Render.PageBreak]);
    }
    for index := 0 to |files|
      invariant doc.body == Body(cs, index, settings, theme)
      invariant doc.sections == Sections(cs, index, settings)
    {
      assert cs[index] == ChapterOf(files[index], theme);
      doc.AddFile(index, files[index], settings, theme);
      assert Body(cs, index + 1, settings, theme) == Body(cs, index, settings, theme) + FileUnits(index, cs[index], settings, theme);
      assert Sections(cs, index + 1, settings) == FileSections(Sections(cs, index, settings), index, cs[index].title, settings);
    }
  }

  /** The cell texts of a filled table, row by row. The source has no such step, since
      its table is the python-docx object itself; this only turns the filled `array2`
      into the table block the model appends. */
  method ReadGrid(grid: array2<string>) returns (cells: seq<seq<string>>)
    ensures |cells| == grid.Length0
    ensures forall r :: 0 <= r < |cells| ==> |cells[r]| == grid.Length1
    ensures forall r, c :: 0 <= r < grid.Length0 && 0 <= c < grid.Length1 ==> cells[r][c] == grid[r, c]
  {
    cells := [];
    for r := 0 to grid.Length0
      invariant |cells| == r
      invariant forall r2 :: 0 <= r2 < r ==> |cells[r2]| == grid.Length1
      invariant forall r2, c :: 0 <= r2 < r && 0 <= c < grid.Length1 ==> cells[r2][c] == grid[r2, c]
    {
      var row: seq<string> := [];
      for c := 0 to grid.Length1
        invariant |row| == c
        invariant forall c2 :: 0 <= c2 < c ==> row[c2] == grid[r, c2]
      {
        row := row + [grid[r, c]];
      }
      cells := cells + [row];
    }
  }

  /** The loop's mode as its three variables hold it. */
  function ModeOf(inCode: bool, lang: string, content: seq<string>): Render.Mode
  {
    if inCode then Render.Code(lang, content) else Render.Text
  }
}
