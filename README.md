# markdown_to_word — a verified model of the Markdown-to-Word conversion

`markdown_to_word.py` turns one or more Markdown files into a single Word document.
The model covers the part of that program that decides what goes into the document:

- the configuration merge;
- the per-file loop, which decides sections, header and footer text and file headings;
- the line-by-line state machine, with code fences, headings, list items, pipe tables,
  image lines, blank lines and paragraphs in that order;
- the inline tokenizer, which splits a line into plain, bold, italic, code and link runs;
- the style helpers, which override only the keys a style names;
- the chapter-title search;
- the hexadecimal cell shading.

The Word document is modelled as an append-only sequence of blocks (`Render.Unit`) and
a sequence of sections (`Assembly.Section`). Each `doc.add_*` call becomes one append.
Python's `str.strip`, `split`, `join`, `replace` and the regular expressions are written
out as explicit scanning functions in `Strings`, `Inline`, `Blocks` and `Titles`, and
lemmas prove what each one means.

Two places where the program does not do what it evidently means to are modelled both
ways (see "## Findings"). The whole-document model, `Render.Render` and
`Assembly.ConvertFiles`, is the corrected program: inline code in a paragraph keeps the
code font, and every section has a header of its own. The program as written is
`Render.TextUnitAsWritten` and `Assembly.SharedHeader`.

Modules, one file each:

| file | module | what it holds |
|---|---|---|
| strings.dfy | `Wrappers`, `Strings` | `Option`; strip, find, split, join, replace, basename |
| hex.dfy | `Hex` | the `{:02x}` formatting behind `shade_cell` |
| config.dfy | `Config` | the JSON tree and `merge_configs` |
| styles.dfy | `Styles` | run and paragraph formats, `apply_style`, `apply_para_style`, `apply_heading_style`, the default styles |
| inline.dfy | `Inline` | the four inline patterns, the leftmost choice, the tokenizer loop |
| blocks.dfy | `Blocks` | the line recognisers (fence, heading, list, table row, image, blank) and their precedence |
| tables.dfy | `Tables` | row splitting, collecting the run of rows, filling the grid |
| render.dfy | `Render` | what each kind of line appends; `Render` states the blocks of a whole file |
| titles.dfy | `Titles` | `extract_chapter_title` and the header and footer text |
| assembly.dfy | `Assembly` | the document object, the per-file loop, sections and the whole conversion |

The document the source builds is the `Assembly.Document` class. Its methods reassign
its fields `body` and `sections`, and the main `while i < len(lines)` loop is one of
them (`Assembly.Document.ConvertLines`). The other loops of the source are methods at
module level that return a value and touch no field:

- the table row collection (`Tables.CollectTableLines`);
- the cell filling (`Tables.FillTable`), which returns a new `array2`;
- the tokenizer's `while remaining_text` loop (`Inline.Tokenize`);
- the key-by-key update in `merge_configs` (`Config.MergeConfigs`).

Each method is proved against a specification function (`Render.Render`,
`Tables.TableEnd`, `Tables.TableGrid`, `Inline.Spans`, `Config.Merge`). The properties
are proved about those functions.

## Model

| member | source | states |
|---|---|---|
| Config.MergeConfigs | markdown_to_word.py:175-187 | the key-by-key loop returns exactly the merge `Config.Merge` of the defaults with the overrides |
| Config.MergeKeys | markdown_to_word.py:183-187 | the merged keys are the default keys together with the override keys |
| Config.MergeKeepsDefault | markdown_to_word.py:183-187 | a key the override does not name keeps its default value |
| Config.MergeOverrides | markdown_to_word.py:186-187 | an override key whose values are not both mappings takes the override's value |
| Config.MergeRecurses | markdown_to_word.py:184-185 | when both values are mappings, the key holds the recursive merge of the two |
| Config.MergeEmpty | markdown_to_word.py:175-187 | an empty override leaves the defaults unchanged |
| Config.MergeSelf | markdown_to_word.py:175-187 | merging a configuration with itself gives it back |
| Config.MergeIdempotent | markdown_to_word.py:175-187 | merging the same override twice is the same as merging it once |
| Config.MergeSingleLeaf | markdown_to_word.py:175-187 | overriding one nested leaf (e.g. `document.header.enabled`) sets that leaf; at every level along the path every other key keeps its default value, and the path stays an object down to the leaf |
| Config.OverlayEnd | markdown_to_word.py:183-187 | once every override key is done, the loop's running state is the merge |
| Hex.Format02x | markdown_to_word.py:379 | `{:02x}` gives at least two characters |
| Hex.ByteFormat | markdown_to_word.py:379 | a component from 0 to 255 gives exactly two hex digits whose value is the component |
| Hex.WideComponent | markdown_to_word.py:379 | a component of 256 or more gives three or more characters, so the fill is longer than six |
| Hex.HexDigitsRoundTrip | markdown_to_word.py:379 | the lower-case hex digits of a number read back to that number |
| Hex.DigitRoundTrip | markdown_to_word.py:379 | a hex digit character reads back to its value |
| Hex.ShadeFill | markdown_to_word.py:379 | the fill text has at least six characters |
| Hex.ShadeFillRoundTrip | markdown_to_word.py:370-380 | for components 0 to 255 the fill is six hex digits whose pairs read back to r, g and b |
| Hex.ShadeFillInjective | markdown_to_word.py:370-380 | different colours in range give different fills |
| Hex.DefaultHeaderFill | markdown_to_word.py:980-981 | the default table header colour (240, 240, 240) gives the fill "f0f0f0" |
| Hex.NegativeComponent | markdown_to_word.py:379 | a negative component is formatted with its sign, so (-1, 0, 0) gives "-10000" |
| Styles.ApplyStyle | markdown_to_word.py:576-600 | `apply_style` never touches the underline, and a style with none of its five keys leaves the run as it was |
| Styles.ApplyStyleIdempotent | markdown_to_word.py:576-600 | applying a style twice is applying it once |
| Styles.ApplyEmptyStyle | markdown_to_word.py:576-634 | the empty style changes neither a run nor a paragraph |
| Styles.ApplyStyleThen | markdown_to_word.py:576-600 | applying two styles in turn is applying their overlay, the second's keys winning |
| Styles.FullStyleDecides | markdown_to_word.py:576-600 | a style naming all five run keys fixes the run's format whatever it was before |
| Styles.ColorDefaults | markdown_to_word.py:596-600 | a colour missing r, g or b takes 0 for it |
| Styles.ParaOverride | markdown_to_word.py:614-634 | the left indent is kept; a known alignment name sets the alignment; an unknown or missing one keeps it |
| Styles.StyleRunsThen | markdown_to_word.py:611-612 | styling every run with one style and then another is styling it once with their overlay, and the runs keep their texts |
| Styles.ParaStyleIdempotent | markdown_to_word.py:602-634 | `apply_para_style` keeps the run texts and is idempotent |
| Styles.HeadingStyleIsParaStyle | markdown_to_word.py:637-647 | `apply_heading_style` gives the same result as `apply_para_style`, because its second pass re-applies the same run style |
| Styles.UnknownAlignmentIgnored | markdown_to_word.py:628-634 | an alignment name outside the four known ones ("centre") leaves the alignment unchanged |
| Styles.DefaultThemeValid | markdown_to_word.py:22-118 | the default styles hold every key the converter reads, and have no `h5` or `h6` |
| Inline.NextChar | markdown_to_word.py:889-891 | a found position is at or after the start and holds the character |
| Inline.Earlier | markdown_to_word.py:898-903 | the earlier of two optional matches: one of them, none only if both are none, never later than either |
| Inline.MatchAt | markdown_to_word.py:887-893 | a match of a pattern at i starts at i, has that pattern's kind and is at least two characters long |
| Inline.Search | markdown_to_word.py:887-893 | a match found from a position starts at or after it and spans at least two characters, so the rest is strictly shorter |
| Inline.Choose | markdown_to_word.py:896-903 | the chosen match is formatted and spans at least two characters |
| Inline.MatchOpens | markdown_to_word.py:887-893 | bold opens on a doubled `*` or `_`, italic on a single one, code on a backtick, link on `[` |
| Inline.OnePatternAt | markdown_to_word.py:896-903 | no two patterns match at the same position, so the stable sort's list order never decides |
| Inline.SearchMeaning | markdown_to_word.py:887-893 | `re.search`: the result matches at its start, nothing matches before it, and none means no position matches |
| Inline.SearchFinds | markdown_to_word.py:887-893 | the search returns the first position where the pattern matches |
| Inline.ChooseIsCandidate | markdown_to_word.py:896-903 | nothing is chosen exactly when all four searches fail; otherwise the choice is its own pattern's search result |
| Inline.ChooseLeftmost | markdown_to_word.py:896-903 | the chosen match starts strictly before every other pattern's match |
| Inline.NothingBeforeChoice | markdown_to_word.py:896-903 | no pattern matches anywhere before the chosen match |
| Inline.ChooseTakes | markdown_to_word.py:896-903 | a match that starts before every other pattern's match is the one chosen |
| Inline.SpansStep | markdown_to_word.py:905-920 | a chosen match contributes the plain text before it, if any, then its group, and tokenizing goes on after it |
| Inline.SpansLast | markdown_to_word.py:921-924 | with no match, the whole rest becomes one plain run |
| Inline.Tokenize | markdown_to_word.py:881-924 | the `while remaining_text` loop gives exactly the runs `Inline.Spans` describes |
| Inline.SpansShape | markdown_to_word.py:905-924 | every plain run is non-empty; two plain runs are never adjacent; the empty text gives no runs; there are never more runs than characters |
| Inline.TokenizeMarkup | markdown_to_word.py:881-924 | writing well-formed runs back as Markdown (`**b**` or `__b__`, `*i*` or `_i_`, `` `c` ``, and `[t](u)` for any target u without ')') and tokenizing gives the same runs back |
| Inline.LinkKeepsText | markdown_to_word.py:916-917 | "[t](u)" followed by anything gives one link run holding t alone, the URL dropped, then the runs of the rest |
| Inline.BoldExample | markdown_to_word.py:887 | "a **b** c" gives a plain "a ", a bold "b" and a plain " c" |
| Inline.LinkAndUnderscoreExample | markdown_to_word.py:887-893 | "[d](u) __b__" gives a link run "d", a plain " " and a bold "b" |
| Inline.EmptyBoldExample | markdown_to_word.py:887 | "****" gives one empty bold run |
| Inline.CodeExample | markdown_to_word.py:891 | "`x`" gives one code run holding "x" |
| Blocks.GapThenText | markdown_to_word.py:840-857 | `\s+(.+)$` after a position: whitespace, then at least one character ending the line |
| Blocks.MatchHeading | markdown_to_word.py:840-843 | a heading has level 1 to 6 and the line is longer than its hashes and the gap |
| Blocks.HeadingMeaning | markdown_to_word.py:840-843 | a line is a heading of level n exactly when it starts with n hashes (1 to 6), then whitespace, then text; its title is that text stripped |
| Blocks.SevenHashesNoHeading | markdown_to_word.py:840 | a line starting with seven hashes is no heading |
| Blocks.HeadingRoundTrip | markdown_to_word.py:840-843 | "#"×n + " " + t reads back as level n with title strip(t) |
| Blocks.MatchList | markdown_to_word.py:857-861 | a list item's indentation is the leading whitespace, and its content is a non-empty suffix of the line |
| Blocks.IndentLevel | markdown_to_word.py:870 | the nesting level is the indentation divided by two, rounded down |
| Blocks.ListMarker | markdown_to_word.py:857-867 | a bulleted item starts with `*`, `-` or `+`; a numbered one with a digit |
| Blocks.BulletRoundTrip | markdown_to_word.py:857-867 | n spaces, a bullet, a space and content read back as a bulleted item of indentation n with that content |
| Blocks.NumberedRoundTrip | markdown_to_word.py:857-867 | digits, ". " and content read back as a numbered item with that content |
| Blocks.BoldLineIsNoBullet | markdown_to_word.py:857 | a line starting with "**" is no list item |
| Blocks.MatchImage | markdown_to_word.py:1001-1004 | an image line holds "![", the alt text, "](", the path and ")" |
| Blocks.ImageIsBangLink | markdown_to_word.py:1001 | an image line is exactly a "!" followed by a link match, with the link text as alt text |
| Blocks.ImageRoundTrip | markdown_to_word.py:1001-1004 | "![alt](path)" followed by anything reads back as that alt text and path |
| Blocks.RecognisersExclusive | markdown_to_word.py:803-1011 | at most one of fence, heading, list item, table row, image and blank line accepts a line |
| Blocks.ClassifyMeaning | markdown_to_word.py:803-1017 | each line goes to the first test that accepts it, in the source's order, and is a paragraph when none does |
| Blocks.HeadingOpener | markdown_to_word.py:840 | a heading line starts with '#' |
| Blocks.BlankOpener | markdown_to_word.py:1011 | a line is blank exactly when it has no character outside whitespace |
| Tables.Cells | markdown_to_word.py:956-961 | a row always has at least one cell |
| Tables.RowRoundTrip | markdown_to_word.py:956-961 | a row written with a bar before, between and after its cells reads back as those cells, when they are stripped, hold no bar, and the outer two are non-empty |
| Tables.IndentedRowGainsEmptyCell | markdown_to_word.py:946-956 | an indented table row gets an empty first cell, because the bars are stripped from the unstripped line |
| Tables.TableEnd | markdown_to_word.py:949-951 | the run of rows ends at the first line that is not a table row, or at the end |
| Tables.CollectTableLines | markdown_to_word.py:948-951 | the loop collects exactly the lines from the start to `TableEnd` |
| Tables.Fit | markdown_to_word.py:984-988 | a data row takes the header's width: cut to it when longer, padded with empty cells when shorter |
| Tables.TableGrid | markdown_to_word.py:964-988 | the grid has one row more than the data and as many columns as the header |
| Tables.TableGridCells | markdown_to_word.py:964-988 | row 0 is the header; a data cell holds its row's cell, or "" when the row is shorter; extra cells are dropped |
| Tables.FillTable | markdown_to_word.py:964-988 | the filled `array2` holds exactly `TableGrid` |
| Render.SpanRuns | markdown_to_word.py:927-940 | one styled run per token |
| Render.SpanRunsMeaning | markdown_to_word.py:1066-1079 | each run keeps its text; underline exactly for links; bold and italic for their tokens unless the style overrides; code runs take the code style's font and colour, others the text style's font |
| Render.StyleSpans | markdown_to_word.py:927-940 | the `for format_type, text in formatted_runs` loop gives exactly `SpanRuns` |
| Render.HeadingKeyDistinct | markdown_to_word.py:849 | different levels look up different style keys |
| Render.HeadingKeyNames | markdown_to_word.py:849 | levels 1 to 6 look up the keys "h1" to "h6" |
| Render.HeadingUnitMeaning | markdown_to_word.py:840-852 | a heading keeps its level and title; it gets `apply_heading_style` when its `h{level}` key is in the styles, and plain formatting otherwise |
| Render.DeepHeadingsUnstyled | markdown_to_word.py:849-851 | with the default styles, level 5 and 6 headings stay unstyled |
| Render.ListUnitMeaning | markdown_to_word.py:873-940 | a list item keeps its kind and its token texts, has no space after it, and is indented by (level + 1) × the list indent |
| Render.AsWrittenUsesNormalFont | markdown_to_word.py:1066-1082 | as written, every run of a paragraph ends with the normal style's font, code runs included |
| Render.TextUnitCorrection | markdown_to_word.py:1066-1082 | the corrected paragraph has the same runs, texts and paragraph format as written; it differs only in giving code runs the code font |
| Render.InlineCodeFont | markdown_to_word.py:1077-1082 | for "`x`" with the default styles, the run is Times New Roman as written and Consolas once corrected |
| Render.CodeTextKeepsLines | markdown_to_word.py:812-829 | a closed fence, an empty one included, gives two blocks, or three when a language is named; the first is then the bold label "Code (lang):"; the code block is one run in the code block style, and splitting its text at '\n' gives back the lines (an empty fence gives the empty text); the last block is an empty paragraph |
| Render.TableShape | markdown_to_word.py:954-997 | three or more rows give a table one row shorter than the block, as wide as the header, with the header's cells in row 0, bold header runs in the table font and the configured header shading, followed by an empty paragraph |
| Render.TableDataCell | markdown_to_word.py:959-988 | table row r (from 1) holds the cells of block row r + 1, so the separator line is skipped, and a data row's missing cells are empty |
| Render.TextStep | markdown_to_word.py:840-1084 | one step outside a fence consumes at least one line and stays within the file |
| Render.RenderText | markdown_to_word.py:840-1084 | outside a fence, the blocks of the file are the ones of this step followed by those after it |
| Render.OpenFenceDropped | markdown_to_word.py:799-837 | a fence still open when the lines run out appends nothing |
| Render.FencedBlock | markdown_to_word.py:803-837 | a fence closed at line j gives the code blocks of the lines between, taken verbatim and not classified, followed by what comes after j |
| Render.InsideFence | markdown_to_word.py:833-837 | inside a fence, the lines up to the closing one are added to the code body unchanged |
| Render.RenderFenceOpen | markdown_to_word.py:803-809 | outside a fence, a fence line opens a code block with its language and an empty body |
| Render.RenderFenceClose | markdown_to_word.py:810-831 | inside a fence, a fence line appends the code blocks |
| Render.RenderInCode | markdown_to_word.py:833-837 | inside a fence, any other line is kept in the body |
| Render.ShortTableDropped | markdown_to_word.py:946-998 | a run of one or two table rows is consumed and appends nothing |
| Render.RenderTable | markdown_to_word.py:946-998 | a table row consumes the whole run of rows in one step |
| Render.RenderLine | markdown_to_word.py:840-1084 | any other line appends the blocks of its kind, the corrected paragraph for a paragraph line, and moves to the next line |
| Render.BlankLineIsEmptyPara | markdown_to_word.py:1011-1014 | a blank line appends one empty paragraph |
| Titles.LineEnd | markdown_to_word.py:661 | `$` in multiline mode: the end of the text or the next '\n' |
| Titles.TitleGroupIsOneLine | markdown_to_word.py:661 | a found title group is non-empty and within one line |
| Titles.NoHashNoTitle | markdown_to_word.py:661-664 | content without '#' has the title "Chapitre" |
| Titles.FirstHeadingIsTitle | markdown_to_word.py:661-663 | content that starts with a level-1 heading takes that heading's title |
| Titles.SubheadingIsNoTitle | markdown_to_word.py:661-664 | "## Intro" is no chapter title, because `^#\s+` needs whitespace right after one '#' |
| Titles.TitleCrossesLines | markdown_to_word.py:661 | "#\n\nIntro" has the title "Intro", because `\s+` crosses line ends, while the loop sees no heading in "#" |
| Titles.HeaderTextMeaning | markdown_to_word.py:448 | every "{chapter}" is replaced by the title; a header without it is unchanged |
| Titles.ChapterPlaceholder | markdown_to_word.py:448 | the default header "{chapter}" becomes the chapter title |
| Titles.DefaultFooter | markdown_to_word.py:463 | the default footer "Page {page}" becomes "Page ", followed by the PAGE field |
| Strings.JoinSplit | markdown_to_word.py:792 | joining the split pieces with the separator gives the text back |
| Strings.ReplaceIsJoinOfSplit | markdown_to_word.py:448 | `str.replace` is splitting at the pattern and joining with the replacement |
| Strings.ReplaceAbsent | markdown_to_word.py:463 | replacing an absent pattern changes nothing |
| Strings.SplitLinesHaveNoNewline | markdown_to_word.py:792 | no line of `split('\n')` holds a '\n' |
| Strings.StripCharsMeaning | markdown_to_word.py:1011 | `strip` gives the empty text exactly when every character is stripped; otherwise it starts and ends with kept characters |
| Strings.FindFromMeaning | markdown_to_word.py:448 | the first occurrence at or after a position, or none when there is none |
| Strings.Basename | markdown_to_word.py:747 | the name holds no '/', ends the path, and is either the whole path or follows a '/' |
| Strings.BasenameUnique | markdown_to_word.py:747 | those three properties fix the name: it is everything after the last '/' |
| Assembly.HeaderFooterMeaning | markdown_to_word.py:425-480 | the first-page flag is kept; an enabled header gets its text with "{chapter}" replaced; an enabled footer gets its text without "{page}"; a disabled one is left as it was |
| Assembly.Chapters | markdown_to_word.py:740-747 | one chapter per input file |
| Assembly.InitialSections | markdown_to_word.py:679-703 | the document starts with one section |
| Assembly.FileSections | markdown_to_word.py:752-781 | a file adds a section exactly when its index is above 0 or a TOC is generated |
| Assembly.SectionCount | markdown_to_word.py:691-781 | n files give n + 1 sections with a TOC, and n (at least one) without |
| Assembly.FileSection | markdown_to_word.py:752-781 | file k's section has the first-page flag set exactly when it is a new section and either header or footer asks for it; its header and footer carry file k's chapter title and its footer the footer text, each section having its own header as corrected |
| Assembly.FirstSectionSetup | markdown_to_word.py:691-703 | with a TOC, the first section has the TOC title in its header; without one, its first-page flag stays off |
| Assembly.SharedHeaderLosesTitle | markdown_to_word.py:758-781 | as written, the header file k's section shows is the one it was given exactly when the last file's header text is the same |
| Assembly.SharedHeaderExample | markdown_to_word.py:758-781 | as written, with files titled "A" then "B" every section shows "B", while the first file's section was given "A" |
| Assembly.BreaksAppend | markdown_to_word.py:740-781 | section breaks count additively over appended blocks |
| Assembly.RenderHasNoBreak | markdown_to_word.py:799-1084 | the blocks of a file's lines hold no section break |
| Assembly.StepHasNoBreak | markdown_to_word.py:840-1084 | one step of the line loop appends no section break |
| Assembly.LeadBreaks | markdown_to_word.py:752-758 | a file contributes one section break exactly when it opens a section |
| Assembly.BreaksMatchSections | markdown_to_word.py:691-781 | there is one section break in the body per section after the first |
| Assembly.DocumentBreaks | markdown_to_word.py:666-1084 | the section breaks of the whole document match its sections |
| Assembly.TocOpensBody | markdown_to_word.py:691-737 | the TOC heading, field and page break come before every file's blocks |
| Assembly.Document.constructor | markdown_to_word.py:679-682 | a new document has no blocks and one section |
| Assembly.Document.Add | markdown_to_word.py:666-1084 | each `doc.add_*` call of the conversion appends its blocks at the end; the sections are unchanged |
| Assembly.Document.AddSection | markdown_to_word.py:758 | the new section is appended |
| Assembly.Document.WriteHeaderFooter | markdown_to_word.py:425-480 | the section gets the header and footer text of `HeaderFooter`; nothing else changes |
| Assembly.Document.AddTitle | markdown_to_word.py:706-707 | a styled level-1 heading is appended |
| Assembly.Document.SetDifferentFirstPage | markdown_to_word.py:769-772 | only that section's first-page flag changes |
| Assembly.Document.AddLead | markdown_to_word.py:752-775 | a page break, when asked for, and a section break are appended exactly when the file opens a section; the index of the section to write is returned |
| Assembly.Document.AddFileHeader | markdown_to_word.py:787-789 | the "Fichier: name" heading is appended when file headers are on |
| Assembly.Document.AddFile | markdown_to_word.py:740-1084 | one file appends its lead, its file heading and the blocks of its lines (the corrected paragraph for paragraph lines), and adds and writes its section |
| Assembly.Document.ConvertLines | markdown_to_word.py:792-1084 | the line loop appends exactly `Render` of the file's lines from outside a fence, with the corrected paragraph for paragraph lines |
| Assembly.Document.AddCode | markdown_to_word.py:812-829 | closing a fence appends the code blocks |
| Assembly.Document.AddLine | markdown_to_word.py:840-1084 | one step outside a fence appends the step's blocks, the corrected paragraph for a paragraph line, and returns where the next step starts |
| Assembly.Document.AddHeading | markdown_to_word.py:840-854 | a heading appends its heading block |
| Assembly.Document.AddListItem | markdown_to_word.py:857-943 | a list line appends its list paragraph |
| Assembly.Document.AddText | markdown_to_word.py:1017-1084 | a paragraph line appends the corrected paragraph |
| Assembly.Document.AddTable | markdown_to_word.py:946-998 | a table row consumes the run of rows and appends the table and an empty paragraph, or nothing for fewer than three rows |
| Assembly.BuildTable | markdown_to_word.py:954-994 | the table built from the filled grid is the table of the block's header and data rows |
| Assembly.ConvertFiles | markdown_to_word.py:666-1084 | converting the files gives exactly the blocks `Body` and the sections `Sections` of their chapters, as corrected: paragraphs keep the code font and each section has its own header |

## Left out

- Images: `add_image_to_doc` and `download_image` do network and file I/O and read pixel sizes with PIL. An image line becomes the block `ImageRef(alt, path)`.
- python-docx itself: styles by name ("List Bullet", "List Number", "Table Grid"), the XML of the TOC and PAGE fields, and run and paragraph objects. These become abstract blocks (`TocField`, `PageBreak`, `SectionBreak`) and plain records of formats.
- Page geometry: page size, margins (`Cm`), the `Pt` and `Inches` conversions and the float image resize. Sizes are kept as `real` values with no unit conversion.
- Header linking: `doc.add_section` gives a section whose header and footer are linked to the previous section's, and writing to a linked header writes the header part of the first section. As written, every section therefore shows one shared header holding the last file's chapter title. `Assembly.SharedHeader` models this; the rest of the model gives each section its own header (see "## Findings"). The first-page headers the `different_first_page_header_footer` flag turns on are never written, and the model does not track them.
- `RGBColor` range checks: python-docx refuses components outside 0..255, and the model does not.
- File reading, `doc.save`, `print`, `main`, the argument parser and `create_default_config`: I/O and CLI plumbing. An input file is given as its path and text.
- `load_config`: the JSON parsing is I/O. Its merge is `Config.Merge`, but the model does not decode the merged tree into `Styles.Theme` and `Assembly.Settings`. Those are parameters, and `Styles.DefaultTheme` and `Assembly.DefaultSettings` mirror the defaults.
- `load_config` also starts from a shallow copy of `DEFAULT_CONFIG`, so nested merges also change the shared default. `Config.Merge` returns a new value instead.
- The functions the conversion never calls: `add_list_to_doc`, `add_table_to_doc`, `extract_image_caption`, `generate_toc` and `add_section_with_settings`. The TOC and section logic they duplicate is modelled where the conversion inlines it.
- Regular expressions: `\d` is taken as the ASCII digits, not every Unicode decimal digit. `\s` and `str.strip()` use Python's `isspace` set.
- `os.path.basename` is taken as the text after the last '/', as on POSIX.
- Render.TableUnit: records the header run format, data run format and header shading once per table, not per cell; every header and data cell gets the same ones in the source.
- Assembly.FileSection: states the header each section gets in the corrected program, where every section has its own header; as written, every section shows the shared header of `Assembly.SharedHeader` (see "## Findings").
- Render.LineUnits: a paragraph line appends the corrected paragraph `Render.TextUnit`, not the one built at markdown_to_word.py:1082 (`Render.TextUnitAsWritten`); see "## Findings".
- Assembly.Document.AddText: appends the corrected paragraph `Render.TextUnit`, for the same reason.
- Assembly.ConvertFiles: states the document of the corrected program, with both corrections of "## Findings"; the program as written differs in the code font of inline code and in the headers the sections show.

## Findings

| source | as written | input that shows it | evidently intended | confidence | as-written member | corrected member |
|---|---|---|---|---|---|---|
| markdown_to_word.py:1082 | after the runs of a paragraph are styled (inline code with the `code` style), `apply_para_style(p, normal)` applies the `normal` run style to every run again | the line "`x`" with the default styles: the code run ends in "Times New Roman" instead of "Consolas" | inline code in a paragraph keeps the code font, size and colour, as it does in list items | not executed | Render.AsWrittenUsesNormalFont | Render.TextUnitCorrection |
| markdown_to_word.py:758-781 | each new section's header stays linked to the previous section's, so every `add_header_footer` call rewrites the one shared header | two files titled "A" and "B" with the default settings: every section, the table of contents' included, shows "B" | each section shows its own chapter title, as the comment "pour cette section" at line 777 says; the missing call is `section.header.is_linked_to_previous = False` | not executed; python-docx's header linking taken from its documented behaviour | Assembly.SharedHeaderExample | Assembly.FileSection |
