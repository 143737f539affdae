# ILTCI slide compiler — a verified model

The ILTCI presentation generator turns a markdown deck into a PowerPoint file
built on a template. This project models its compiler core in Dafny and proves
what each step promises. The core is the `src/iltci_pptx` package and the
file-name helpers of the web front end.

## What is modelled

One Dafny module per source file.

- `LayoutDiscovery` (`layout_discovery.py`): the registry of template layouts, built by folding the layouts into a name-to-index map. Layouts without placeholders are skipped and the first layout of a name wins. Also the sorted name listing and the membership check.
- `MarkdownRegex` and `MarkdownParser` (`markdown_parser.py`):
  - document and slide frontmatter;
  - the line-by-line splitter that tells `---` slide separators from frontmatter delimiters;
  - the content-block parser (title, section comments, spacer markers);
  - image-reference extraction.

  The regular expressions are written out as scanning functions with Python's leftmost, lazy and greedy matching.
- `MarkdownSlides` (`markdown_parser.py`): the layout-checked slide list (`parse_slides`, strict and lenient) and the legacy dictionary parser.
- `PlaceholderResolver` (`placeholder_resolver.py`): the role enumeration and its alias table, and placeholder lookup by name or role, singly or for a whole field mapping.
- `RichText` (`rich_text.py`): the inline formatter as written, which splits a line into runs exactly as `re.split` does. Also the bullet and numbering markers. A paragraph is a class updated in place.
- `SlideBuilders` (`slide_builders.py`):
  - the content-line classifier that fills a text frame;
  - the subtitle loop of a title slide drawn in text boxes;
  - the assignment of texts to the shapes of a title slide;
  - the layout-index rules;
  - the subtitle of a title-on-background slide.
- `Images` (`images.py`):
  - picture placeholders in left-to-right order;
  - the three-layer image style;
  - contain and cover fit over `real`;
  - the assignment of images to placeholders;
  - caption geometry and caption lines.
- `HtmlMedia` (`html_media.py`): the HTML test and tag removal.
- `Config` (`config.py`):
  - the recursive dictionary merge;
  - dotted-key lookup;
  - path resolution and validation;
  - the choice of template configuration file.
- `Generator` (`generator.py`):
  - the legacy-dictionary conversion;
  - the choice between the parser and the legacy fallback;
  - the removal of template slides;
  - the per-slide error policy.
- `FsSafety` (`app/utils/fs_safety.py`): file-name safety and the stripping of the `assets/` prefix.

Helper modules hold no row of their own:
- `Wrappers` (Option and Result);
- `Text` (Python's `strip`, `split`, `join`, `replace`, `find`, and `str.split()` into words, with Python's whitespace set; `\d` and `int()` over the Unicode decimal digits);
- `Yaml` (loaded YAML values, a dictionary being an insertion-ordered list of entries).

Conventions:
- A Python exception is the `Err` case of a `Result`.
- Anything the program obtains from the outside world is a parameter: the YAML loader, whether a file exists, an image's natural size, and the outcome of building one slide.
- Objects the source updates in place are classes with `modifies` clauses: a paragraph, a text frame, the configuration and the presentation. Each method's postcondition is stated against a specification function, whose properties are proved as lemmas.

## Model

| member | source | states |
|---|---|---|
| FsSafety.IsSafeFilename | app/utils/fs_safety.py:18-25 | a name is unsafe exactly when it contains "..", starts with "/", or is longer than two characters with ':' second; every other name is safe |
| FsSafety.SafeNameStaysInside | app/utils/fs_safety.py:6-25 | a safe name is relative and none of its '/'-separated components is ".." |
| FsSafety.DrivePrefixExamples | app/utils/fs_safety.py:18-23 | "C:" alone is safe, "C:x" and "a/../b" are not |
| FsSafety.NormalizeSlashes | app/utils/fs_safety.py:43 | every backslash becomes '/', every other character and the length are kept, no backslash remains |
| FsSafety.StripAssetsPrefix | app/utils/fs_safety.py:28-54 | the result has no backslash; it is the slash-normalised input minus at most one leading "./" and then at most one leading "assets/", and equals the normalised input when neither prefix is present |
| HtmlMedia.HasHtmlContentIffTag | src/iltci_pptx/html_media.py:35-44 | the check holds exactly when some '<', followed by at least one character other than '>', is followed by '>' |
| HtmlMedia.TagLength | src/iltci_pptx/html_media.py:59 | a non-zero length is that of a `<[^>]+>` match at the start (at least three characters); 0 exactly when no match starts there, and every match has this length |
| HtmlMedia.DivLength | src/iltci_pptx/html_media.py:57 | a non-zero length is that of a `<div[^>]*>.*?</div>` match at the start, running to the first '>' and then to the nearest "</div>" with no "</div>" inside; 0 exactly when no match starts there |
| HtmlMedia.RemoveHtmlTagsLeavesNoTag | src/iltci_pptx/html_media.py:47-60 | after div blocks and tags are removed and the text is stripped, no tag is left |
| HtmlMedia.RemoveHtmlTagsPlainText | src/iltci_pptx/html_media.py:56-60 | text without '<' is only stripped |
| HtmlMedia.RemoveTagsChars | src/iltci_pptx/html_media.py:59 | tag removal only deletes characters: every character of the result occurs in the input |
| HtmlMedia.RemoveTagsLeavesNoTag | src/iltci_pptx/html_media.py:59 | after tag removal every '<' is last, directly followed by '>', or has no '>' after it |
| HtmlMedia.NoTagShapeHasNoTag | src/iltci_pptx/html_media.py:44 | text of that shape holds no `<[^>]+>` match |
| HtmlMedia.NoTagSlice | src/iltci_pptx/html_media.py:60 | that shape survives taking a slice, hence stripping |
| HtmlMedia.RemoveTagsWithoutLt | src/iltci_pptx/html_media.py:59 | text without '<' is unchanged by tag removal |
| HtmlMedia.RemoveDivBlocksWithoutLt | src/iltci_pptx/html_media.py:57 | text without '<' is unchanged by div-block removal |
| HtmlMedia.RemoveTagsAtTag | src/iltci_pptx/html_media.py:59 | a tag at the start is deleted whole and removal goes on after it |
| HtmlMedia.RemoveTagsNoTag | src/iltci_pptx/html_media.py:59 | a first character that opens no tag, '<' included, is kept |
| HtmlMedia.RemoveTagsPlainPrefix | src/iltci_pptx/html_media.py:59 | text before the first '<' is kept unchanged in front of the rest's result |
| HtmlMedia.RemoveTagBetween | src/iltci_pptx/html_media.py:59 | a tag between two stretches of plain text disappears and both stretches are kept |
| HtmlMedia.RemoveDivBlocksAtDiv | src/iltci_pptx/html_media.py:57 | a div block at the start is deleted with its contents and removal goes on after its "</div>" |
| HtmlMedia.RemoveDivBlocksNoDiv | src/iltci_pptx/html_media.py:57 | a first character that opens no div block is kept |
| HtmlMedia.RemoveDivBlocksPlainPrefix | src/iltci_pptx/html_media.py:57 | text before the first '<' is kept unchanged by div-block removal |
| LayoutDiscovery.LoadLayoutRegistry | src/iltci_pptx/layout_discovery.py:39-113 | a missing template fails with FileNotFoundError before any layout is read; otherwise the result is the registry folded over the layouts |
| LayoutDiscovery.RegistryAfterFacts | src/iltci_pptx/layout_discovery.py:81-100 | after any prefix of the layouts, each entry maps a name to the first layout with placeholders of that name, and every such layout's name is registered |
| LayoutDiscovery.RegistryExcludesEmptyLayouts | src/iltci_pptx/layout_discovery.py:20-36 | no entry points at a layout with no placeholders (or whose placeholder collection cannot be read) |
| LayoutDiscovery.RegistryKeepsFirst | src/iltci_pptx/layout_discovery.py:92-98 | of two usable layouts sharing a name, the later index is never kept |
| LayoutDiscovery.RegistryEntriesSound | src/iltci_pptx/layout_discovery.py:81-100 | each entry's index holds a usable layout of that name, and distinct names map to distinct indices |
| LayoutDiscovery.RegistryComplete | src/iltci_pptx/layout_discovery.py:81-100 | a name is a key exactly when some layout with placeholders carries it |
| LayoutDiscovery.StrLtIrreflexive | src/iltci_pptx/layout_discovery.py:127 | Python string order is irreflexive |
| LayoutDiscovery.StrLtTransitive | src/iltci_pptx/layout_discovery.py:127 | Python string order is transitive |
| LayoutDiscovery.StrLtTotal | src/iltci_pptx/layout_discovery.py:127 | any two distinct strings are ordered one way or the other |
| LayoutDiscovery.Insert | src/iltci_pptx/layout_discovery.py:127 | inserting a new name keeps the list strictly ascending and adds exactly that name |
| LayoutDiscovery.ListingUnique | src/iltci_pptx/layout_discovery.py:116-127 | there is only one ascending listing of a set of names |
| LayoutDiscovery.ListingEmptyIff | src/iltci_pptx/layout_discovery.py:116-127 | the listing is empty exactly when the registry is |
| LayoutDiscovery.ListingHeadNotLess | src/iltci_pptx/layout_discovery.py:116-127 | the first listed name is the least registered name |
| LayoutDiscovery.AvailableLayoutNames | src/iltci_pptx/layout_discovery.py:116-127 | the result lists exactly the registry keys in ascending order, each once |
| LayoutDiscovery.ListingCardinality | src/iltci_pptx/layout_discovery.py:116-127 | an ascending listing has as many entries as the key set |
| LayoutDiscovery.ValidateLayoutName | src/iltci_pptx/layout_discovery.py:130-160 | true iff the name is registered; when absent, a ValueError listing the sorted names if `raise_on_missing`, else false |
| MarkdownRegex.WsRun | src/iltci_pptx/markdown_parser.py:215 | the greedy `\s*` run from a position stays inside the line |
| MarkdownRegex.WsRunFacts | src/iltci_pptx/markdown_parser.py:215 | the run is all whitespace and stops at a non-space character or the end |
| MarkdownRegex.WsRunExact | src/iltci_pptx/markdown_parser.py:215 | a whitespace stretch ending at a non-space character is exactly the greedy run |
| MarkdownRegex.WsRunCovers | src/iltci_pptx/markdown_parser.py:215 | every whitespace stretch lies within the greedy run |
| MarkdownRegex.LazyEnd | src/iltci_pptx/markdown_parser.py:215 | the lazy `(.+?)` group end, when found, lies between its start and the end of the line |
| MarkdownRegex.LazyEndSound | src/iltci_pptx/markdown_parser.py:215 | the lazy end is followed by `\s*-->` and the group holds no newline |
| MarkdownRegex.LazyEndFinds | src/iltci_pptx/markdown_parser.py:215 | any admissible group end is found, and the lazy end is the smallest one |
| MarkdownRegex.GroupSearch | src/iltci_pptx/markdown_parser.py:215 | a start found by backtracking the `\s*` before the group lies in range and has a lazy end |
| MarkdownRegex.GroupSearchFinds | src/iltci_pptx/markdown_parser.py:215 | backtracking finds any group start that has a lazy end, or a later one |
| MarkdownRegex.GroupSearchPriority | src/iltci_pptx/markdown_parser.py:215 | backtracking prefers the latest group start, then the earliest end for it |
| MarkdownRegex.SectionSpan | src/iltci_pptx/markdown_parser.py:215 | a span is reported only for a line opening with "<!--", and the group is non-empty |
| MarkdownRegex.SectionSpanAt | src/iltci_pptx/markdown_parser.py:215 | a span found after "<!--" and its whitespace is a non-empty range of the line |
| MarkdownRegex.SectionMatch | src/iltci_pptx/markdown_parser.py:214-217 | a section name is read only from a line opening with "<!--", and it is never empty |
| MarkdownRegex.SectionSpanSound | src/iltci_pptx/markdown_parser.py:215 | the reported span is a match of `<!--\s*section:\s*(.+?)\s*-->` at the start of the line |
| MarkdownRegex.SectionSpanAtSound | src/iltci_pptx/markdown_parser.py:215 | after "<!--", a found span has "section:", whitespace, the group, whitespace and "-->" |
| MarkdownRegex.SectionAnchor | src/iltci_pptx/markdown_parser.py:215 | "section:" can only sit right after "<!--" and its greedy whitespace |
| MarkdownRegex.ClosesAtShape | src/iltci_pptx/markdown_parser.py:215 | whitespace then "-->" after the group is what the lazy group looks for |
| MarkdownRegex.SectionSpanPriority | src/iltci_pptx/markdown_parser.py:215 | every match of the pattern is found, and the reported span is the one Python's backtracking reaches first |
| MarkdownRegex.SectionSpanAtPriority | src/iltci_pptx/markdown_parser.py:215 | the search after "section:" prefers the latest group start, then the earliest end |
| MarkdownRegex.RunWithout | src/iltci_pptx/markdown_parser.py:172 | the greedy `[^c]*` run stays inside the string |
| MarkdownRegex.RunWithoutFacts | src/iltci_pptx/markdown_parser.py:172 | the run holds no stop character and ends at one or at the end |
| MarkdownRegex.RunWithoutExact | src/iltci_pptx/markdown_parser.py:172 | a stretch without the stop character that ends at one is exactly the greedy run |
| MarkdownRegex.RunWithoutCovers | src/iltci_pptx/markdown_parser.py:172 | every stretch without the stop character lies within the greedy run |
| MarkdownRegex.QuoteFreeRun | src/iltci_pptx/markdown_parser.py:167 | the greedy `[^"']*` run stays inside the string |
| MarkdownRegex.QuoteFreeRunFacts | src/iltci_pptx/markdown_parser.py:167 | the run holds no quote and ends at a quote or at the end |
| MarkdownRegex.SrcAt | src/iltci_pptx/markdown_parser.py:167 | a quoted `src=` value found at a position is a non-empty group starting five characters later |
| MarkdownRegex.SrcSearch | src/iltci_pptx/markdown_parser.py:167 | backtracking `[^>]+` finds a "src=" position in range, whose value is the one reported |
| MarkdownRegex.ImgAt | src/iltci_pptx/markdown_parser.py:167 | a match of the image pattern at a position has a non-empty group after "<img" and "src=" |
| MarkdownRegex.ImgAtSound | src/iltci_pptx/markdown_parser.py:167 | the span found is a match of `<img[^>]+src=["']([^"']+)["']` ignoring case |
| MarkdownRegex.SrcSearchFinds | src/iltci_pptx/markdown_parser.py:167 | the search finds any usable "src=" at or below its start, or a later one |
| MarkdownRegex.ImgAtPriority | src/iltci_pptx/markdown_parser.py:167 | every match at a position is found, and the greedy `[^>]+` takes the last "src=" any match could use |
| MarkdownRegex.ScanImg | src/iltci_pptx/markdown_parser.py:167-170 | every `<img src>` value found is non-empty and holds no quote |
| MarkdownRegex.MdAt | src/iltci_pptx/markdown_parser.py:172 | a markdown image match at a position has a non-empty group after "![" and "](" |
| MarkdownRegex.MdAtIffShape | src/iltci_pptx/markdown_parser.py:172 | the scanner reports a group exactly when `!\[[^\]]*\]\(([^)]+)\)` matches there with that group |
| MarkdownRegex.ScanMd | src/iltci_pptx/markdown_parser.py:172-175 | every `![..](..)` target found is non-empty and holds no ')' |
| MarkdownParser.LoadFrontmatter | src/iltci_pptx/markdown_parser.py:88-92 | the loaded frontmatter is a truthy value or the empty mapping (`or {}`, and a YAML error gives `{}`) |
| MarkdownParser.FindDelimiter | src/iltci_pptx/markdown_parser.py:75-79 | the index found is the first line at or after the start whose stripped form is the delimiter; with none found, no such line exists |
| MarkdownParser.ParseDocumentFrontmatter | src/iltci_pptx/markdown_parser.py:56-96 | without an opening delimiter on line 0 and a later closer, the input comes back unchanged with an empty mapping; otherwise the YAML text is the lines strictly between and the rest is the lines after the closer |
| MarkdownParser.DocumentFrontmatterRoundTrip | src/iltci_pptx/markdown_parser.py:69-96 | with frontmatter present, opener, YAML lines, closer and the rest joined back give the document, and no YAML line is the delimiter |
| MarkdownParser.ParseSlideFrontmatter | src/iltci_pptx/markdown_parser.py:99-150 | the same rule on the stripped slide with `---`: the slide as given without a complete block, else the YAML between the delimiters and the rest stripped |
| MarkdownParser.NextNonBlank | src/iltci_pptx/markdown_parser.py:281-284 | the line found is the first non-blank one at or after the start; with none, every later line is blank |
| MarkdownParser.LooksLikeYamlStart | src/iltci_pptx/markdown_parser.py:279-289 | true exactly when the next non-blank line after the separator contains ':' and does not start with '#' |
| MarkdownParser.SplitIntoSlides | src/iltci_pptx/markdown_parser.py:258-350 | the while loop over lines, with the frontmatter flag and the line buffer, yields the segments of the line-by-line state machine |
| MarkdownParser.AppendSegmentClean | src/iltci_pptx/markdown_parser.py:327-329 | flushing a buffer adds only a non-empty stripped segment |
| MarkdownParser.SplitRunClean | src/iltci_pptx/markdown_parser.py:295-342 | every segment emitted during the run is non-empty and stripped |
| MarkdownParser.SplitSegmentsClean | src/iltci_pptx/markdown_parser.py:327-348 | every segment returned is non-empty and has no leading or trailing whitespace |
| MarkdownParser.SeparatorStep | src/iltci_pptx/markdown_parser.py:301-338 | inside frontmatter a separator is buffered and closes it; on an all-blank buffer it opens frontmatter when YAML follows and is dropped otherwise; after content it flushes exactly one segment and opens the next frontmatter when YAML follows |
| MarkdownParser.SplitRunPlain | src/iltci_pptx/markdown_parser.py:340-342 | non-separator lines are buffered one by one, whatever the frontmatter flag |
| MarkdownParser.OpeningSeparator | src/iltci_pptx/markdown_parser.py:311-319 | a first separator followed by a YAML-looking line opens frontmatter with the separator buffered |
| MarkdownParser.PlainPrefix | src/iltci_pptx/markdown_parser.py:340-342 | buffering non-separator lines extends the buffer by exactly those lines |
| MarkdownParser.ClosingSeparator | src/iltci_pptx/markdown_parser.py:302-307 | a separator inside frontmatter is buffered and closes the block |
| MarkdownParser.FrontmatterSlideRun | src/iltci_pptx/markdown_parser.py:295-342 | a frontmatter-headed slide with no further separator ends with every line in one buffer and nothing emitted |
| MarkdownParser.FrontmatterSlideLines | src/iltci_pptx/markdown_parser.py:274 | the lines of `sep + yaml + sep + body` are those pieces, in order |
| MarkdownParser.FrontmatterSlideIsOneSegment | src/iltci_pptx/markdown_parser.py:325-348 | `---`, YAML lines, `---`, body with no other separator is exactly one segment: the whole text, stripped |
| MarkdownParser.HeadingPrefix | src/iltci_pptx/markdown_parser.py:222-236 | a title marker is "# " or "## " at the start of a line beginning with '#' |
| MarkdownParser.TrimSpacers | src/iltci_pptx/markdown_parser.py:252-253 | the result is a prefix of the blocks, does not end with a spacer marker, and only spacer markers were removed |
| MarkdownParser.FlushBlock | src/iltci_pptx/markdown_parser.py:195-201 | the open block, joined and stripped, is appended when not empty, and the open block is emptied |
| MarkdownParser.ParseContentBlocks | src/iltci_pptx/markdown_parser.py:179-255 | the line loop with its flags and lists, then the trailing-pop loop, computes the title, blocks and section name of the block state machine |
| MarkdownParser.AppendSegmentGood | src/iltci_pptx/markdown_parser.py:197-200 | flushing keeps every block a spacer marker or a non-empty stripped text |
| MarkdownParser.BlocksRunGood | src/iltci_pptx/markdown_parser.py:203-246 | the line loop keeps every block a spacer marker or a non-empty stripped text |
| MarkdownParser.BlockStepGood | src/iltci_pptx/markdown_parser.py:204-246 | one line keeps every block a spacer marker or a non-empty stripped text |
| MarkdownParser.ContentBlocksShape | src/iltci_pptx/markdown_parser.py:195-253 | no block is empty, every text block is stripped, and the list never ends with a spacer marker |
| MarkdownParser.BlocksRunTitle | src/iltci_pptx/markdown_parser.py:222-242 | a title once set is kept; otherwise the title comes from the first heading line still to come |
| MarkdownParser.ContentTitleIsFirstHeading | src/iltci_pptx/markdown_parser.py:222-242 | the title is the stripped text after the marker of the first "# " or "## " line |
| MarkdownParser.HeadingTitleNonEmpty | src/iltci_pptx/markdown_parser.py:224-236 | a heading line always gives a non-empty title |
| MarkdownParser.LastSectionCons | src/iltci_pptx/markdown_parser.py:214-219 | the last section comment of `x + rest` is the one of `rest`, else the one on `x` |
| MarkdownParser.BlocksRunSection | src/iltci_pptx/markdown_parser.py:214-219 | the section name after the loop is the one of the last section comment still to come, else the current one |
| MarkdownParser.ContentSectionIsLast | src/iltci_pptx/markdown_parser.py:214-219 | the section name is the one of the last section comment (last wins), "" without one |
| MarkdownParser.BlocksRunShift | src/iltci_pptx/markdown_parser.py:203 | running over a list from the end of a prefix is running over the list without the prefix |
| MarkdownParser.BlocksRunLeadingBlank | src/iltci_pptx/markdown_parser.py:207-212 | blank lines before any content leave the parser state unchanged |
| MarkdownParser.LeadingBlankLinesDropped | src/iltci_pptx/markdown_parser.py:207-212 | leading blank lines change neither title, blocks nor section name |
| MarkdownParser.BlocksRunSplit | src/iltci_pptx/markdown_parser.py:203 | the run over all lines is the run over a prefix followed by the run over the rest |
| MarkdownParser.BlocksRunPrefix | src/iltci_pptx/markdown_parser.py:203 | a run from any position splits at any later position |
| MarkdownParser.FlushedBlocks | src/iltci_pptx/markdown_parser.py:247-252 | the returned blocks are the flushed blocks with trailing spacer markers removed |
| MarkdownParser.FlushClean | src/iltci_pptx/markdown_parser.py:195-201 | an open block of non-empty stripped lines is emitted as their join, led by its first line |
| MarkdownParser.BlocksRunExtends | src/iltci_pptx/markdown_parser.py:195-248 | blocks are only ever appended: the final blocks extend those emitted at any earlier point |
| MarkdownParser.BlocksRunKeepsHead | src/iltci_pptx/markdown_parser.py:203-248 | an open block is emitted right after the blocks before it and keeps its first line |
| MarkdownParser.PrefixStep | src/iltci_pptx/markdown_parser.py:203 | the state after one more line is one step on |
| MarkdownParser.StepStarted | src/iltci_pptx/markdown_parser.py:207-245 | a line starts the content exactly when it is not blank, not a section comment and not the title heading |
| MarkdownParser.StartedIffContentLine | src/iltci_pptx/markdown_parser.py:192-245 | content has started after some lines exactly when one of them is a content line |
| MarkdownParser.SectionLineIgnored | src/iltci_pptx/markdown_parser.py:213-218 | a section comment never becomes content: deleting it changes neither the title nor the blocks |
| MarkdownParser.BlocksRunIgnoresSection | src/iltci_pptx/markdown_parser.py:213-218 | the section name never influences the title, the blocks or the open block |
| MarkdownParser.BlankLineAfterContent | src/iltci_pptx/markdown_parser.py:207-211 | a blank line after content closes the open block and puts a spacer marker right after it |
| MarkdownParser.LaterHeadingOpensBlock | src/iltci_pptx/markdown_parser.py:222-241 | once there is a title, a "# " or "## " line closes the open block and leads the next block |
| MarkdownSlides.ImageValues | src/iltci_pptx/markdown_parser.py:428-429 | the content's references become string values, one per reference, in order |
| MarkdownSlides.Outcomes | src/iltci_pptx/markdown_parser.py:384-449 | there is exactly one outcome per segment |
| MarkdownSlides.CheckSlideLayout | src/iltci_pptx/markdown_parser.py:398-419 | a falsy layout is a missing-layout error when strict and a skip when lenient; an unregistered one is an unknown-layout error when strict and a skip when lenient; an unhashable one is a TypeError in both modes |
| MarkdownSlides.BuildSlideData | src/iltci_pptx/markdown_parser.py:421-445 | builds the record from the layout name, frontmatter and body: content blocks, title priority, images and options |
| MarkdownSlides.AfterNothing | src/iltci_pptx/markdown_parser.py:381 | prefixing no built slides leaves the outcome unchanged |
| MarkdownSlides.AfterStep | src/iltci_pptx/markdown_parser.py:449 | prefixing built slides in two steps is prefixing them at once |
| MarkdownSlides.ParseSegment | src/iltci_pptx/markdown_parser.py:385-449 | a blank segment is skipped; otherwise the frontmatter is read, the layout checked and the slide built |
| MarkdownSlides.ParseSlides | src/iltci_pptx/markdown_parser.py:353-452 | the loop over the segments gives the kept slides in order or the first error, and `available` is the sorted registry keys |
| MarkdownSlides.CollectErr | src/iltci_pptx/markdown_parser.py:384-449 | parsing fails exactly when some segment fails, and then with the first failing segment's error |
| MarkdownSlides.CollectOk | src/iltci_pptx/markdown_parser.py:384-449 | on success every segment succeeded and the slides are exactly the kept outcomes, in order |
| MarkdownSlides.CollectCount | src/iltci_pptx/markdown_parser.py:384-449 | when every segment is kept there is one slide per segment |
| MarkdownSlides.CollectAgree | src/iltci_pptx/markdown_parser.py:384-449 | outcomes that agree wherever the first succeeds collect to the same slides |
| MarkdownSlides.CheckLayoutStrictLenient | src/iltci_pptx/markdown_parser.py:398-419 | a layout strict mode accepts is accepted alike in lenient mode |
| MarkdownSlides.SlideFromPartsStrictLenient | src/iltci_pptx/markdown_parser.py:394-449 | a slide strict mode builds is built alike in lenient mode |
| MarkdownSlides.SlideOfStrictLenient | src/iltci_pptx/markdown_parser.py:385-449 | a segment strict mode accepts gives the same outcome in lenient mode |
| MarkdownSlides.StrictSuccessMatchesLenient | src/iltci_pptx/markdown_parser.py:353-452 | when strict parsing succeeds, lenient parsing gives the same slides |
| MarkdownSlides.BuildSlideErr | src/iltci_pptx/markdown_parser.py:428 | building the record fails only on an `images` value that is not iterable |
| MarkdownSlides.SlideFromPartsErrors | src/iltci_pptx/markdown_parser.py:398-419 | a layout error carries the slide's number counted from 1 and the sorted names, and lenient mode raises no layout error |
| MarkdownSlides.SlideOfLenientErrors | src/iltci_pptx/markdown_parser.py:400-419 | in lenient mode a segment fails only on frontmatter of the wrong shape |
| MarkdownSlides.LenientSkipsLayoutErrors | src/iltci_pptx/markdown_parser.py:405-419 | lenient parsing never stops for a missing or unknown layout |
| MarkdownSlides.SlideOfErrorNumber | src/iltci_pptx/markdown_parser.py:401-417 | a strict layout error names the slide by its position plus one |
| MarkdownSlides.StrictStopsAtFirstBadSegment | src/iltci_pptx/markdown_parser.py:384-419 | strict parsing fails at a segment all of whose predecessors succeed, and a layout error names that segment's number |
| MarkdownSlides.SlidesUseRegisteredLayouts | src/iltci_pptx/markdown_parser.py:398-445 | every slide produced, in either mode, names a registered layout |
| MarkdownSlides.SlideOfStrictKeeps | src/iltci_pptx/markdown_parser.py:385-449 | in strict mode a non-blank segment that does not fail is kept |
| MarkdownSlides.StrictSuccessKeepsEverySegment | src/iltci_pptx/markdown_parser.py:384-449 | when strict parsing succeeds there is one slide per segment |
| MarkdownSlides.KeptSlideLayout | src/iltci_pptx/markdown_parser.py:394-419 | a kept slide comes from mapping frontmatter whose layout is a registered name |
| MarkdownSlides.SlideFromPartsKept | src/iltci_pptx/markdown_parser.py:394-445 | a kept slide has mapping frontmatter, a registered layout name, and is the record built from them |
| MarkdownSlides.BuildSlideLayout | src/iltci_pptx/markdown_parser.py:438 | the record keeps the layout name it is built with |
| MarkdownSlides.BuildSlideTitle | src/iltci_pptx/markdown_parser.py:424-425 | a truthy frontmatter title wins; otherwise the title is the body's first heading |
| MarkdownSlides.ImageValuesAppend | src/iltci_pptx/markdown_parser.py:429 | converting references distributes over concatenation |
| MarkdownSlides.BuildSlideImageField | src/iltci_pptx/markdown_parser.py:427-429 | images are the frontmatter list followed by the content's references |
| MarkdownSlides.BuildSlideImages | src/iltci_pptx/markdown_parser.py:427-429 | images are the frontmatter list, then the `<img src>` hits, then the `![..](..)` hits |
| MarkdownSlides.BuildSlideOptions | src/iltci_pptx/markdown_parser.py:432-435 | options are exactly the frontmatter entries other than layout, title and images |
| MarkdownSlides.ParseLegacySlideContent | src/iltci_pptx/markdown_parser.py:613-680 | the line loop routes each stripped line to the title, subtitle or content list, then trims trailing spacer markers from both |
| MarkdownSlides.LegacyTitleStepContent | src/iltci_pptx/markdown_parser.py:625-667 | on a title slide a line reaches the content list only when it is a "#### " or "##### " line |
| MarkdownSlides.LegacyRunTitleContent | src/iltci_pptx/markdown_parser.py:625-667 | on a title slide the content list grows by exactly the minor heading lines, in order |
| MarkdownSlides.MinorHeadingsNoSpacer | src/iltci_pptx/markdown_parser.py:658-660 | minor heading lines are non-empty and start with '#', so none is a spacer marker |
| MarkdownSlides.TitleSlideContentIsMinorHeadings | src/iltci_pptx/markdown_parser.py:613-680 | on a title slide the content is exactly the "#### " and "##### " lines, stripped, in order and newline-joined |
| MarkdownSlides.LegacyStepH1 | src/iltci_pptx/markdown_parser.py:639-640 | a level-1 heading overwrites the title, whatever the slide kind |
| MarkdownSlides.LegacyRunKeepsTitle | src/iltci_pptx/markdown_parser.py:639-648 | without a later level-1 heading a title survives when it is set or the slide is a title slide |
| MarkdownSlides.LegacyRunLastH1 | src/iltci_pptx/markdown_parser.py:639-648 | the last level-1 heading's text ends up as the title, when the slide is a title slide or that text is not empty |
| MarkdownSlides.LegacyTitleIsLastH1 | src/iltci_pptx/markdown_parser.py:639-640 | every "# " line overwrites the title: the last one wins (on a content slide an empty one lets a later "## " line supply the title) |
| MarkdownSlides.LegacyListsTrimmed | src/iltci_pptx/markdown_parser.py:669-672 | neither the content nor the subtitle list ends with a spacer marker |
| PlaceholderResolver.UpperName | src/iltci_pptx/placeholder_resolver.py:101 | the upper-cased name has the input's length and upper-cases each character in place |
| PlaceholderResolver.ResolvePhType | src/iltci_pptx/placeholder_resolver.py:81-111 | a member resolves to itself; an alias to its table entry; any other string to the member whose name is its upper-cased form, else an unknown-alias error; a value of another type is a type error |
| PlaceholderResolver.UpperIdentFixed | src/iltci_pptx/placeholder_resolver.py:101 | upper-casing leaves an upper-case member name unchanged |
| PlaceholderResolver.MemberNamedNameOf | src/iltci_pptx/placeholder_resolver.py:101 | every member is found by indexing the enumeration with its own name |
| PlaceholderResolver.MemberNamedInverse | src/iltci_pptx/placeholder_resolver.py:101 | a name finds a member only when it is exactly that member's name |
| PlaceholderResolver.NameAgreesGroup1 | src/iltci_pptx/placeholder_resolver.py:43-78 | TITLE, BODY, CENTER_TITLE: upper-case names, and an alias spelled like the member maps to that member |
| PlaceholderResolver.NameAgreesGroup2 | src/iltci_pptx/placeholder_resolver.py:43-78 | the same for SUBTITLE, DATE, SLIDE_NUMBER |
| PlaceholderResolver.NameAgreesGroup3 | src/iltci_pptx/placeholder_resolver.py:43-78 | the same for FOOTER, HEADER, OBJECT |
| PlaceholderResolver.NameAgreesGroup4 | src/iltci_pptx/placeholder_resolver.py:43-78 | the same for CHART, TABLE, ORG_CHART |
| PlaceholderResolver.NameAgreesGroup5 | src/iltci_pptx/placeholder_resolver.py:43-78 | the same for MEDIA_CLIP, BITMAP, PICTURE |
| PlaceholderResolver.NameAgreesGroup6 | src/iltci_pptx/placeholder_resolver.py:43-78 | the same for VERTICAL_BODY, MIXED |
| PlaceholderResolver.NameAgreesGroup7 | src/iltci_pptx/placeholder_resolver.py:43-78 | the same for VERTICAL_OBJECT, SLIDE_IMAGE |
| PlaceholderResolver.NameAgreesGroup8 | src/iltci_pptx/placeholder_resolver.py:43-78 | the same for VERTICAL_TITLE |
| PlaceholderResolver.MemberNameRoundTrip | src/iltci_pptx/placeholder_resolver.py:96-101 | the string spelling a member's name resolves to that member, whether or not it is also an alias |
| PlaceholderResolver.TypeSpecIffResolves | src/iltci_pptx/placeholder_resolver.py:355-372 | the test that treats a field spec as a role holds exactly when the spec resolves to a role |
| PlaceholderResolver.AllPlaceholders | src/iltci_pptx/placeholder_resolver.py:180-182 | lists the placeholders of the slide, in slide order |
| PlaceholderResolver.SelectPlaceholders | src/iltci_pptx/placeholder_resolver.py:188-211 | the loop keeps, in slide order, each placeholder whose name equals the name or whose role equals the role |
| PlaceholderResolver.GetPlaceholders | src/iltci_pptx/placeholder_resolver.py:150-211 | no criteria lists every placeholder; otherwise the role is resolved first (its error is returned) and the matching placeholders are listed |
| PlaceholderResolver.SelectedShapesMembers | src/iltci_pptx/placeholder_resolver.py:188-211 | a shape is kept exactly when it is on the slide and selected |
| PlaceholderResolver.SelectedShapesNone | src/iltci_pptx/placeholder_resolver.py:188-211 | no shape selected gives an empty list |
| PlaceholderResolver.PlaceholdersMembers | src/iltci_pptx/placeholder_resolver.py:180-182 | the full listing holds exactly the slide's placeholder shapes |
| PlaceholderResolver.GetPlaceholdersSelects | src/iltci_pptx/placeholder_resolver.py:180-211 | with criteria a shape is listed exactly when it is a placeholder matching the name or the resolved role; without, exactly when it is a placeholder; a non-placeholder is never listed |
| PlaceholderResolver.SelectedShapesFirst | src/iltci_pptx/placeholder_resolver.py:306 | the first kept shape is the first selected shape of the slide |
| PlaceholderResolver.GetPlaceholder | src/iltci_pptx/placeholder_resolver.py:259-306 | no criteria is an error; otherwise the first match, or None or PlaceholderNotFound (listing every placeholder) when nothing matches, as raise_on_missing says |
| PlaceholderResolver.RoleOf | src/iltci_pptx/placeholder_resolver.py:185-186 | a role is resolved exactly when a type was given |
| PlaceholderResolver.GetPlaceholderMissing | src/iltci_pptx/placeholder_resolver.py:259-288 | no criteria fails; with no selected placeholder the result is PlaceholderNotFound (listing every placeholder) when raise_on_missing is set, None otherwise |
| PlaceholderResolver.GetPlaceholderFirstMatch | src/iltci_pptx/placeholder_resolver.py:290-306 | when some placeholder matches, the result is the first matching one in slide order |
| PlaceholderResolver.FieldOutcomes | src/iltci_pptx/placeholder_resolver.py:355-382 | one outcome per field, in order, each the lookup its own spec makes (by role when it resolves, else by exact name) |
| PlaceholderResolver.ResolvePlaceholders | src/iltci_pptx/placeholder_resolver.py:355-389 | the loop resolves the fields in order, stopping at the first that fails, with the field-resolution result |
| PlaceholderResolver.ResolveFieldOutcome | src/iltci_pptx/placeholder_resolver.py:374-382 | a field resolves to a placeholder or fails with PlaceholderNotFound, never with None |
| PlaceholderResolver.ResolveFromKeys | src/iltci_pptx/placeholder_resolver.py:355-389 | a successful run adds every remaining field name to the dictionary and nothing else |
| PlaceholderResolver.FieldNamesFrom | src/iltci_pptx/placeholder_resolver.py:355 | the remaining field names are the current one plus those after it |
| PlaceholderResolver.ResolveFromFirstError | src/iltci_pptx/placeholder_resolver.py:383-387 | a failure names the first remaining field that does not resolve, every earlier one having resolved |
| PlaceholderResolver.FieldOutcomesLike | src/iltci_pptx/placeholder_resolver.py:374-382 | every field outcome is a placeholder found or PlaceholderNotFound |
| PlaceholderResolver.ResolvePlaceholdersOutcome | src/iltci_pptx/placeholder_resolver.py:355-389 | on success the keys are exactly the field names; on failure the error carries the first field, in order, whose lookup fails, wrapping that lookup's PlaceholderNotFound |
| PlaceholderResolver.ResolveFromValues | src/iltci_pptx/placeholder_resolver.py:380-381 | each remaining field maps to the placeholder its own spec finds |
| PlaceholderResolver.ResolveFromKeeps | src/iltci_pptx/placeholder_resolver.py:380-381 | an entry whose field does not come again is kept unchanged |
| PlaceholderResolver.ResolvePlaceholdersValues | src/iltci_pptx/placeholder_resolver.py:355-389 | on success each field maps to the placeholder its own spec selects |
| RichText.TextRuns | src/iltci_pptx/rich_text.py:62 | setting a paragraph's text leaves no run for an empty text and exactly one plain run holding the text otherwise |
| RichText.Paragraph.constructor | src/iltci_pptx/slide_builders.py:320 | a paragraph the frame adds starts empty |
| RichText.Paragraph.Of | src/iltci_pptx/slide_builders.py:145 | a handle on an existing paragraph shows that paragraph's state |
| RichText.Paragraph.SetText | src/iltci_pptx/rich_text.py:62 | the runs become those of the new text; properties, level and spacing are kept |
| RichText.TextFrame.constructor | src/iltci_pptx/slide_builders.py:655-659 | a new text box's frame holds one empty paragraph |
| RichText.TextFrame.Clear | src/iltci_pptx/slide_builders.py:289 | only the first paragraph remains, without its runs, its other settings kept |
| RichText.Sized | src/iltci_pptx/slide_builders.py:326-327 | same number of runs, each run the same but for its font size |
| RichText.Bolded | src/iltci_pptx/slide_builders.py:184-185 | same number of runs, each run the same but bold |
| RichText.SetRunSizes | src/iltci_pptx/slide_builders.py:326-327 | every run of the paragraph gets the size; nothing else of the paragraph changes |
| RichText.SetRunsBold | src/iltci_pptx/slide_builders.py:184-185 | every run of the paragraph becomes bold; nothing else changes |
| RichText.AddBullet | src/iltci_pptx/rich_text.py:11-22 | a '•' bullet element goes in front of the existing properties; the level is ignored; the runs are unchanged |
| RichText.RemoveBullet | src/iltci_pptx/rich_text.py:25-32 | a no-bullet element goes in front of the existing properties; the runs are unchanged |
| RichText.NumberingElement | src/iltci_pptx/rich_text.py:45-48 | an automatic-numbering element of the given type, carrying a start number exactly when the start exceeds 1 |
| RichText.AddNumbering | src/iltci_pptx/rich_text.py:35-49 | that numbering element goes in front of the existing properties; the runs are unchanged |
| RichText.CloseParen | src/iltci_pptx/rich_text.py:66 | a found ')' lies at or after the start |
| RichText.LinkTail | src/iltci_pptx/rich_text.py:66 | a link tail found has "](" at its middle and ends with ')', inside the text |
| RichText.StarClose | src/iltci_pptx/rich_text.py:66 | a lazy close ends just after a run of the required number of asterisks |
| RichText.MatchAt | src/iltci_pptx/rich_text.py:66 | a match spans at least two characters; a link match opens with '[' and closes with ')', an emphasis match opens and closes with its asterisks |
| RichText.SplitFrom | src/iltci_pptx/rich_text.py:69 | a split with one capture group gives an odd number of pieces (text, match, text, ...) |
| RichText.ConcatAppend | src/iltci_pptx/rich_text.py:69 | joining distributes over appending piece lists |
| RichText.ConcatPair | src/iltci_pptx/rich_text.py:69 | joining two pieces is their concatenation |
| RichText.SplitFromConcat | src/iltci_pptx/rich_text.py:69 | the pieces of a split from a position, joined, are the text from that position |
| RichText.SplitPiecesConcat | src/iltci_pptx/rich_text.py:69 | the pieces of the split, joined again, give back the text |
| RichText.PieceRunsAppend | src/iltci_pptx/rich_text.py:71-108 | the runs of two piece lists are the runs of each, in order |
| RichText.AddFormattedText | src/iltci_pptx/rich_text.py:52-108 | the paragraph's runs are replaced by one run per kept piece of the split, in order; properties are kept |
| RichText.CloseParenFirst | src/iltci_pptx/rich_text.py:66 | the lazy ')' is the first ')' on the line |
| RichText.LinkPieceAt | src/iltci_pptx/rich_text.py:76-88 | a piece that is one link becomes an underlined run with the bracket text and the parenthesised target |
| RichText.LinkPieceRun | src/iltci_pptx/rich_text.py:76-88 | "[t](u)" becomes an underlined run with text t and hyperlink u |
| RichText.LinkTailReaches | src/iltci_pptx/rich_text.py:66 | the first "](" followed by a ')' on the line ends the link at that ')' |
| RichText.Stars | src/iltci_pptx/rich_text.py:89-104 | a run of n asterisks |
| RichText.EmphasisPieceRun | src/iltci_pptx/rich_text.py:89-104 | three, two and one asterisks around t give a bold italic, a bold and an italic run of t |
| RichText.PlainPieceRun | src/iltci_pptx/rich_text.py:105-108 | a piece opening with neither '[' nor '*' becomes one run holding it verbatim |
| RichText.PieceRunsCount | src/iltci_pptx/rich_text.py:71-73 | empty pieces add no run and each other piece adds at most one |
| RichText.RenderAllAppend | src/iltci_pptx/rich_text.py:52-60 | rendering runs back to markdown distributes over appending |
| RichText.LoneAsteriskLost | src/iltci_pptx/rich_text.py:100-104 | "*" becomes one empty italic run, so the rendered result is not "*" |
| RichText.BrokenLinkNoMatch | src/iltci_pptx/rich_text.py:66 | the pattern matches nowhere in "[a\nb](c)" |
| RichText.BrokenLinkPiece | src/iltci_pptx/rich_text.py:76-80 | the piece "[a\nb](c)" passes the link test but adds no run |
| RichText.BrokenLinkLost | src/iltci_pptx/rich_text.py:76-88 | formatting "[a\nb](c)" adds no run at all: the whole text is lost |
| RichText.SplitFromNoMatch | src/iltci_pptx/rich_text.py:69 | with no match ahead the split is the rest of the text as one piece |
| RichText.TextRunsRender | src/iltci_pptx/rich_text.py:105-108 | plain runs render to their text |
| RichText.RenderOne | src/iltci_pptx/rich_text.py:52-60 | one run renders as itself |
| RichText.SegmentRender | src/iltci_pptx/rich_text.py:69-108 | plain text, then a run standing for the next match, then the rest, render to the text from the start |
| RichText.ThreeParts | src/iltci_pptx/rich_text.py:69 | a slice cut twice is its three parts in order |
| RichText.StarsSlice | src/iltci_pptx/rich_text.py:89-104 | the asterisks found are the slice of n asterisks |
| RichText.LinkRender | src/iltci_pptx/rich_text.py:76-88 | a link run renders to the "[text](url)" it was cut from |
| RichText.EmphRender | src/iltci_pptx/rich_text.py:89-104 | an emphasis run renders to the text it was cut from, with its asterisks |
| RichText.MatchRunRender | src/iltci_pptx/rich_text.py:66-104 | the run made from a match renders to the matched text |
| RichText.IntendedFromRoundTrip | src/iltci_pptx/rich_text.py:52-108 | the intended runs from a position render to the text from there |
| RichText.IntendedRoundTrip | src/iltci_pptx/rich_text.py:52-60 | the intended runs render back to exactly the text: no character is lost |
| SlideBuilders.DigitRun | src/iltci_pptx/slide_builders.py:393 | the run found is all Unicode decimal digits (`\d`) and is maximal: it stops at the end or at a non-digit |
| SlideBuilders.AddHeading | src/iltci_pptx/slide_builders.py:335-370 | a new heading paragraph: the formatted text, level 0, no bullet, the heading's size |
| SlideBuilders.AddSpacer | src/iltci_pptx/slide_builders.py:319-332 | a new paragraph equal to what the classifier gives for the spacer marker |
| SlideBuilders.BuildLine | src/iltci_pptx/slide_builders.py:318-419 | a new paragraph equal to what the classifier gives for the line |
| SlideBuilders.AddBulletItem | src/iltci_pptx/slide_builders.py:372-391 | a new bullet paragraph: the formatted text, the '•' bullet, the level, the bullet size |
| SlideBuilders.AddNumberedItem | src/iltci_pptx/slide_builders.py:393-410 | a new numbered paragraph: the formatted text, numbering starting at the item number, level 0, the numbered size |
| SlideBuilders.AddBodyLine | src/iltci_pptx/slide_builders.py:411-419 | a new plain paragraph: the formatted line, no bullet, the body size |
| SlideBuilders.PopulateContentTextFrame | src/iltci_pptx/slide_builders.py:280-419 | the frame is cleared to its first paragraph without runs, then holds one paragraph per non-blank line of the tag-free content, in order |
| SlideBuilders.AppendLineParagraphs | src/iltci_pptx/slide_builders.py:313-419 | the loop appends exactly the paragraphs of the lines to the frame's existing paragraphs |
| SlideBuilders.LinesParagraphsStep | src/iltci_pptx/slide_builders.py:313-316 | one more line adds its paragraph when it is not blank and nothing when it is |
| SlideBuilders.LinesParagraphsAppend | src/iltci_pptx/slide_builders.py:313-419 | the paragraphs and the non-blank count of two blocks of lines are those of each block in turn |
| SlideBuilders.LinesParagraphsCount | src/iltci_pptx/slide_builders.py:313-419 | one paragraph per non-blank line, blank lines skipped |
| SlideBuilders.LinesParagraphsOrder | src/iltci_pptx/slide_builders.py:313-419 | a non-blank line gives the paragraph at the position counting the non-blank lines before it, built from its stripped text |
| SlideBuilders.LeadChar | src/iltci_pptx/slide_builders.py:319-393 | each rule's prefix fixes the line's first character, so rules with different first characters never compete |
| SlideBuilders.ClassifiedLinesSingle | src/iltci_pptx/slide_builders.py:396-402 | the lines the classifier reads hold no line break, so the fallback for a failed second numbered match cannot run |
| SlideBuilders.SpacerParagraph | src/iltci_pptx/slide_builders.py:319-332 | the spacer is one space at the spacer size, no bullet, level 0, spacing before the spacer size and after 0 |
| SlideBuilders.HeadingPrefix | src/iltci_pptx/slide_builders.py:335-362 | n '#' characters followed by a space |
| SlideBuilders.HeadingParagraph | src/iltci_pptx/slide_builders.py:335-370 | a level 2-5 heading line loses its prefix and gets its level's size, no bullet, level 0, whatever text follows |
| SlideBuilders.BulletParagraph | src/iltci_pptx/slide_builders.py:372-381 | a "- " line is a level-0 '•' bullet of its text at the bullet size |
| SlideBuilders.SubBulletUnreachable | src/iltci_pptx/slide_builders.py:382-391 | a stripped line never starts with "  - ", so every paragraph sits at level 0 |
| SlideBuilders.NumberedParagraph | src/iltci_pptx/slide_builders.py:393-410 | "N. text", N being decimal digits of any script, numbers from the value `int()` gives N, at level 0 and the numbered size |
| SlideBuilders.WideDigitNumbered | src/iltci_pptx/slide_builders.py:393-410 | a line led by a full-width or an Arabic-Indic three is a numbered item numbered 3 |
| SlideBuilders.NumberedItemParts | src/iltci_pptx/slide_builders.py:396-399 | the numbered-line pattern gives the value of the digits and the text after the whitespace |
| SlideBuilders.NumberedLineLayout | src/iltci_pptx/slide_builders.py:396 | where the digits, dot, whitespace and text sit in a numbered line |
| SlideBuilders.GapRun | src/iltci_pptx/slide_builders.py:396 | the whitespace run after the dot is exactly the gap |
| SlideBuilders.DigitRunStops | src/iltci_pptx/slide_builders.py:396 | the digit run from 0 ends at the first non-digit |
| SlideBuilders.DigitRunFrom | src/iltci_pptx/slide_builders.py:396 | the digit run from i ends at the first non-digit after i |
| SlideBuilders.PlainParagraph | src/iltci_pptx/slide_builders.py:411-419 | a line meeting no other rule is a plain paragraph at the body size without bullet |
| SlideBuilders.SubtitleFrom | src/iltci_pptx/slide_builders.py:135-185 | the subtitle frame always keeps at least one paragraph |
| SlideBuilders.FormatSubtitleLine | src/iltci_pptx/slide_builders.py:159-185 | the paragraph gets the line's text and size, bold when configured |
| SlideBuilders.AddSubtitleLines | src/iltci_pptx/slide_builders.py:134-185 | the frame's paragraphs become what the subtitle lines make of them |
| SlideBuilders.SubtitleFromStep | src/iltci_pptx/slide_builders.py:137-185 | a blank line is skipped; the first kept line rewrites paragraph 0; later lines append a paragraph |
| SlideBuilders.SubtitleCount | src/iltci_pptx/slide_builders.py:135-185 | the frame keeps its paragraphs when no line is kept and otherwise gains one per kept line after the first |
| SlideBuilders.NonBlankFirst | src/iltci_pptx/slide_builders.py:138-140 | the non-blank count is that of the first line plus that of the rest |
| SlideBuilders.SubtitleSizes | src/iltci_pptx/slide_builders.py:160-169 | "## " gives the stripped text at the h2 size, "### " at the h3 size, any other line itself at the subtitle-text size |
| SlideBuilders.TitleShape | src/iltci_pptx/slide_builders.py:193 | the title shape is the first placeholder with index 0, if any |
| SlideBuilders.PopulateTitleSlideShapes | src/iltci_pptx/slide_builders.py:190-232 | the title placeholder gets the title; the other shapes with a text frame take the section name and then the subtitle, in order, empty ones skipped |
| SlideBuilders.AssignSkip | src/iltci_pptx/slide_builders.py:201-207 | a shape without a text frame, the title, or nothing left to place changes nothing |
| SlideBuilders.AssignStep | src/iltci_pptx/slide_builders.py:215-232 | a writable shape takes the first pending text and the rest go to later shapes |
| SlideBuilders.UnionUpdate | src/iltci_pptx/slide_builders.py:215-232 | writing a shape not yet assigned commutes with the later assignments |
| SlideBuilders.AssignFromKeys | src/iltci_pptx/slide_builders.py:201-232 | only writable shapes from the current one on receive text |
| SlideBuilders.AssignFromRanks | src/iltci_pptx/slide_builders.py:201-232 | a shape receives a text exactly when it is writable and fewer writable shapes than pending texts precede it, and it receives the text of its rank |
| SlideBuilders.ContentShape | src/iltci_pptx/slide_builders.py:266-272 | the content shape is the first placeholder with a text frame that is not the title |
| SlideBuilders.ContentShapeFrom | src/iltci_pptx/slide_builders.py:268-272 | the same search from a position |
| SlideBuilders.PyIndex | src/iltci_pptx/slide_builders.py:38 | indexing a list of n layouts succeeds exactly for -n <= i < n, counting a negative index from the end |
| SlideBuilders.TitleSlideLayout | src/iltci_pptx/slide_builders.py:33-38 | no layouts is its own error; otherwise the configured index, valid exactly when Python indexing accepts it |
| SlideBuilders.ContentSlideLayout | src/iltci_pptx/slide_builders.py:247-254 | one layout and a positive index fall back to 0; an index in range is kept; no layouts fails |
| SlideBuilders.LayoutSlideBase | src/iltci_pptx/slide_builders.py:448-456 | 'Title and Content' wins when registered; an index past the end falls back to 0; no layouts fails |
| SlideBuilders.LayoutSlideImages | src/iltci_pptx/slide_builders.py:459-468 | a bg_image directive goes in front of the content's images, otherwise they are unchanged |
| SlideBuilders.MarkerRun | src/iltci_pptx/slide_builders.py:663 | the run is all '-', '*' or '#' and is maximal |
| SlideBuilders.StripMarkersSuffix | src/iltci_pptx/slide_builders.py:663 | the cleaned line is a suffix of the line: unchanged without a leading marker, otherwise the marker run and following whitespace are removed |
| SlideBuilders.TitleBgSubtitleSource | src/iltci_pptx/slide_builders.py:654-664 | there is a subtitle exactly when the content is not blank |
| Images.AtLeftSnoc | src/iltci_pptx/images.py:69 | the shapes at one left edge of a list grown by one are those of the list, then the new shape if it is at that edge |
| Images.InsertByLeftPermutes | src/iltci_pptx/images.py:69 | inserting adds exactly the one shape |
| Images.InsertByLeftSorted | src/iltci_pptx/images.py:69 | inserting into a list sorted by left edge keeps it sorted |
| Images.InsertByLeftStable | src/iltci_pptx/images.py:69 | inserting keeps shapes with equal left edges in their order, the new one last |
| Images.SortByLeftFacts | src/iltci_pptx/images.py:69 | the sort is a permutation, ascending by left edge, and stable |
| Images.GetPicturePlaceholders | src/iltci_pptx/images.py:47-70 | the loop collects the PICTURE placeholders and sorts them by left edge; a shape that is not a placeholder fails the call, since reading its `placeholder_format` raises ValueError, which `hasattr` does not catch |
| Images.PictureShapesMembers | src/iltci_pptx/images.py:60-66 | the collected shapes are exactly the slide's PICTURE placeholders |
| Images.PicturePlaceholdersOrder | src/iltci_pptx/images.py:47-70 | the result is exactly the slide's PICTURE placeholders, each once per occurrence, ascending by left edge, ties in slide order |
| Images.ParseStyleClasses | src/iltci_pptx/images.py:73-92 | the defaults updated by each known class token of the attribute, left to right |
| Images.ApplyClassesValue | src/iltci_pptx/images.py:87-90 | a key is present when the base has it or a token sets it; its value is the last token's setting, else the base value; unknown tokens change nothing |
| Images.ComputeImageStyle | src/iltci_pptx/images.py:95-120 | the per-image overrides laid over the class style |
| Images.ImageStylePrecedence | src/iltci_pptx/images.py:26-44 | a per-image override wins, then the last class token setting the key, then the default; the keys are the defaults' and the overrides' |
| Images.LastSettingKnown | src/iltci_pptx/images.py:26-44 | every key a class token sets is a default key |
| Images.ContainFits | src/iltci_pptx/images.py:330-346 | contain on a positive area: the box is inside the area, fills one axis, keeps the aspect ratio and is centred |
| Images.ScaleLess | src/iltci_pptx/images.py:641 | multiplying by a positive factor reflects strict order |
| Images.ScaleStrict | src/iltci_pptx/images.py:641 | multiplying by a positive factor keeps strict order |
| Images.ScaleLeq | src/iltci_pptx/images.py:641 | multiplying by a positive factor keeps order |
| Images.CoverFills | src/iltci_pptx/images.py:347-361 | cover: the box covers the area, matches one axis, keeps the aspect ratio, is centred on the overflowing axis and aligned on the other |
| Images.ContainWideSquare | src/iltci_pptx/images.py:333-346 | a 2:1 image in a square of side S is S by S/2, a quarter of S down |
| Images.FitZeroDivision | src/iltci_pptx/images.py:330-331 | a zero image height or area height is a division by zero: the image is not placed |
| Images.CaptionDimensions | src/iltci_pptx/images.py:509-520 | the caption starts the gap below the image and is the caption height tall |
| Images.CaptionedImageBottom | src/iltci_pptx/images.py:597-689 | nothing placed reports the area's bottom; a picture without caption reports its bottom; with a caption, a box as wide as the picture a gap below it, whose bottom is reported; a picture is placed exactly when the file exists and the fit succeeds |
| Images.CaptionLines | src/iltci_pptx/images.py:568-586 | the caption frame always keeps a paragraph (what each paragraph holds is `CaptionLinesLayout`) |
| Images.AddCaptionLines | src/iltci_pptx/images.py:536-586 | an empty caption changes nothing; otherwise the frame becomes what the caption pieces make of it |
| Images.PutCaptionPieces | src/iltci_pptx/images.py:568-586 | the loop writes the non-blank pieces in order, as the caption function describes |
| Images.PutCaptionLine | src/iltci_pptx/images.py:573-586 | piece 0 rewrites the first paragraph; any later piece appends a new paragraph |
| Images.WriteCaptionLine | src/iltci_pptx/images.py:580-586 | the paragraph's text becomes the line at the caption size |
| Images.NonBlankLines | src/iltci_pptx/images.py:568-571 | the stripped pieces that are not blank, in order, at most as many as the pieces |
| Images.CaptionParagraphs | src/iltci_pptx/images.py:577-586 | one fresh paragraph per line, holding that line at the caption size |
| Images.CaptionLinesLayout | src/iltci_pptx/images.py:566-586 | for every caption: the first paragraph holds piece 0 stripped (untouched when it is blank), and one new paragraph follows for each later non-blank piece, in order; nothing else is added |
| Images.LeadingBlankCaption | src/iltci_pptx/images.py:562-578 | a caption "; rest" leaves an empty first paragraph above "rest" |
| Images.IntendedCaptionLines | src/iltci_pptx/images.py:568-586 | the caption frame always keeps a paragraph |
| Images.IntendedCaptionNoBlank | src/iltci_pptx/images.py:568-586 | with the first non-blank piece in the first paragraph, every paragraph holds a line whenever some piece is not blank |
| Images.IntendedCaptionExample | src/iltci_pptx/images.py:562-578 | "; Photo" gives the single paragraph "Photo" |
| Images.PlaceOne | src/iltci_pptx/images.py:450-492 | image i gives one placement exactly when it has a src and its file exists, in slot i with that placeholder's area and the image's src |
| Images.AddImagesForLayout | src/iltci_pptx/images.py:396-494 | no images place nothing; otherwise a shape that is not a placeholder fails the call, no PICTURE placeholders place nothing, and else the first images, as many as placeholders, are placed one per placeholder in left-to-right order |
| Images.PlacementsSlots | src/iltci_pptx/images.py:450-492 | every placement fills the slot of its own placeable image, with that slot's area and the image's src |
| Images.PlacementsOrdered | src/iltci_pptx/images.py:450 | placements follow the order of the images |
| Images.PlacementsCover | src/iltci_pptx/images.py:450-462 | the slots filled are exactly the placeable images among the first n; a skipped image still uses up its placeholder |
| Images.PlacementsBound | src/iltci_pptx/images.py:439-450 | never more placements than the images and placeholders allow |
| Config.Put | src/iltci_pptx/config.py:23-25 | storing a key makes it map to the value and leaves every other key's lookup alone; an existing key keeps its position, a new one is appended |
| Config.PutDistinct | src/iltci_pptx/config.py:23-25 | storing keeps the keys of a dictionary distinct |
| Config.GetSnoc | src/iltci_pptx/config.py:21 | looking up a key after one more entry: an earlier entry wins, else the new one |
| Config.GetPrefixStep | src/iltci_pptx/config.py:21 | lookup among the first n entries from the first n-1 |
| Config.MergeDicts | src/iltci_pptx/config.py:18-26 | the loop computes the merge of the overlay into a copy of the base |
| Config.MergeFromStep | src/iltci_pptx/config.py:21-25 | one more overlay entry stores its key with the merged value |
| Config.LaterKeyAbsent | src/iltci_pptx/config.py:21 | an overlay key does not occur among the entries before it |
| Config.MergeFromGet | src/iltci_pptx/config.py:18-26 | key by key after n overlay entries: the base's value for keys not yet visited, the overlay's or the recursive merge otherwise |
| Config.MergeGet | src/iltci_pptx/config.py:18-26 | the merge's keys are the base's and the overlay's; a key only in the base keeps its value; an overlay key takes the overlay's value, or the recursive merge when both are mappings |
| Config.MergeFromKeepsBase | src/iltci_pptx/config.py:20-25 | the base's keys keep their order and new keys follow them |
| Config.MergeFromDistinct | src/iltci_pptx/config.py:18-26 | merging keeps keys distinct |
| Config.WalkSnoc | src/iltci_pptx/config.py:165-169 | one more key descends one more level from where the shorter path ended |
| Config.WalkMerged | src/iltci_pptx/config.py:18-26 | a non-mapping setting of the main configuration survives the merge at its dotted path |
| Config.MergedKeepsBase | src/iltci_pptx/config.py:18-26 | a top-level key the main configuration lacks keeps the template configuration's value |
| Config.ResolvePathValue | src/iltci_pptx/config.py:97-111 | only a truthy non-string value fails; a falsy value gives the current directory |
| Config.ResolveUnderRoot | src/iltci_pptx/config.py:106-111 | an absolute path is kept; a relative one ends up under the project root, ending with itself |
| Config.Config.constructor | src/iltci_pptx/config.py:72-91 | the settings are the merged configuration, the paths its "paths" section, and the root the project root |
| Config.Config.Get | src/iltci_pptx/config.py:152-171 | the value found by descending through the dotted key path, or the default at the first step that fails |
| Config.Config.GetPath | src/iltci_pptx/config.py:173-185 | an absent or null entry is exactly the not-configured error; otherwise the entry resolved against the project root |
| Config.Config.ValidatePaths | src/iltci_pptx/config.py:187-203 | the loop computes the validation outcome |
| Config.Config.MissingForErrKind | src/iltci_pptx/config.py:192-198 | an error raised while collecting is not the missing-files error and comes from some path lookup |
| Config.Config.MissingForErr | src/iltci_pptx/config.py:192-198 | once such an error is raised it stays the outcome |
| Config.Config.MissingForEntries | src/iltci_pptx/config.py:192-198 | at most one entry per key, and none exactly when every path is configured and exists; an unconfigured key and a missing path are each listed |
| Config.Config.ValidationMeaning | src/iltci_pptx/config.py:187-203 | validation passes exactly when the template and content paths are configured and exist; otherwise each unconfigured one is listed |
| Config.WalkPrefixNone | src/iltci_pptx/config.py:165-169 | once a step fails, every longer key path fails |
| Config.UnconfiguredTemplateConfigOpensDirectory | src/iltci_pptx/config.py:122-128 | without a template_config entry the current directory is chosen as the file to load |
| Config.IntendedTemplateConfigLoadsConfigured | src/iltci_pptx/config.py:122-132 | with the intended test a file is loaded only when template_config is set and the file exists; unset loads nothing |
| Generator.FirstRegisteredMeaning | src/iltci_pptx/generator.py:212-223 | the candidate found is registered and no earlier one is; none is found exactly when no candidate is registered |
| Generator.FindCandidate | src/iltci_pptx/generator.py:214-217 | the loop finds the first registered candidate |
| Generator.Conversions | src/iltci_pptx/generator.py:206-261 | one conversion per legacy dictionary, in order, each made on its own |
| Generator.SortedNames | src/iltci_pptx/generator.py:204 | the registry's names, ascending and each once |
| Generator.ParseLegacyFallback | src/iltci_pptx/generator.py:180-264 | the loop converts every legacy dictionary in order against the sorted layout names, stopping at the first failure |
| Generator.ConvertSlide | src/iltci_pptx/generator.py:207-259 | one loop iteration computes the dictionary's conversion |
| Generator.CollectAllErr | src/iltci_pptx/generator.py:206-261 | once a conversion fails, the failure is the outcome |
| Generator.CollectAllOrder | src/iltci_pptx/generator.py:206-261 | collecting succeeds with one slide per step, in order |
| Generator.CollectAllFails | src/iltci_pptx/generator.py:206-261 | collecting fails exactly when some step failed |
| Generator.ConvertAllOrder | src/iltci_pptx/generator.py:206-261 | a successful conversion gives one slide per dictionary, in order, each its own conversion |
| Generator.ConvertLegacyFails | src/iltci_pptx/generator.py:226 | a conversion fails exactly when the layout is a non-empty list or mapping, which cannot be looked up in the registry |
| Generator.ConvertAllFails | src/iltci_pptx/generator.py:206-261 | the fallback fails exactly when some dictionary's layout is a non-empty list or mapping |
| Generator.LegacyLayoutRegistered | src/iltci_pptx/generator.py:225-232 | the chosen layout is registered whenever the registry is not empty, and 'Title and Content' when it is |
| Generator.LegacyLayoutOwn | src/iltci_pptx/generator.py:208-226 | a slide's own registered layout is kept |
| Generator.LegacyLayoutInferred | src/iltci_pptx/generator.py:210-232 | a slide without a layout takes the first registered candidate for its kind, else the fallback |
| Generator.LegacyLayoutUnknown | src/iltci_pptx/generator.py:225-232 | an unregistered layout name takes the fallback without trying the candidates |
| Generator.FallbackLeast | src/iltci_pptx/generator.py:232 | the fallback is the least registered name |
| Generator.LegacyOptions | src/iltci_pptx/generator.py:254-258 | the options are the dictionary without the seven named keys: only image_fit, when set |
| Generator.WithoutFit | src/iltci_pptx/generator.py:256-257 | image_fit is not among the removed keys |
| Generator.WithoutReserved | src/iltci_pptx/generator.py:256-257 | entries whose keys are all removed leave nothing |
| Generator.WithoutAppend | src/iltci_pptx/generator.py:254-258 | filtering distributes over appending entries |
| Generator.LegacyFields | src/iltci_pptx/generator.py:234-259 | the title, the section name, the content or else the subtitle as only block, the background image as only image, and the options |
| Generator.SlidesToBuild | src/iltci_pptx/generator.py:84-104 | the parser's slides are used when there are some; a parser error other than a ValueError propagates |
| Generator.FallbackTrigger | src/iltci_pptx/generator.py:92-104 | the legacy fallback runs exactly when the parser gave no slides or raised a ValueError |
| Generator.Presentation.constructor | src/iltci_pptx/generator.py:131 | the presentation holds the template's slides and relationships |
| Generator.Presentation.RemoveExistingSlides | src/iltci_pptx/generator.py:137-142 | no slide remains and each removed slide's relationship is dropped |
| Generator.Presentation.BuildSlides | src/iltci_pptx/generator.py:146-169 | the deck gains the slides the run added, in order; the run fails exactly when some slide raised an error other than a ValueError, and names that slide |
| Generator.Presentation.Generate | src/iltci_pptx/generator.py:55-169 | invalid paths or a non-ValueError parser error leave the deck untouched; otherwise the template slides and their relationships go and the chosen slides are built |
| Generator.TemplateRIdsSnoc | src/iltci_pptx/generator.py:139-142 | the template relationship ids of a deck grown by one slide |
| Generator.BuildPolicy | src/iltci_pptx/generator.py:154-169 | a ValueError skips its slide; the first other exception stops the run; the deck gains the slides added up to and including the stopping one |
| Generator.BuildRunStops | src/iltci_pptx/generator.py:167-169 | once a run has stopped, later slides change nothing |

## Left out

- python-pptx itself is not part of this model. Opening and saving decks, the XML of slides and paragraphs, fonts, colours, alignment and word wrap are left out. A shape is a record of its name, placeholder flag, role, index and position.
- YAML parsing is a parameter (a function from text to a value, or none for a YAML error), and so is the logging. Log messages and exception message texts are not modelled; error cases are distinct constructors.
- Reading files is left out:
  - `parse_markdown_file` (markdown_parser.py:455-508) reads the file and delegates to the modelled functions;
  - `parse_yaml_frontmatter` is a deprecated alias;
  - `parse_markdown_slides` (markdown_parser.py:520-610) splits a read file and calls the modelled legacy parser.
- `load_yaml_file`, `Config.__init__`'s file loading, `_setup_logging` and the path properties are left out. The configuration constructor receives the merged settings. The project root is a given string; `Path.resolve()` and `Path.cwd()` are not modelled.
- A file's existence is a predicate supplied by the caller. The natural size of an image (PIL) is an input. The branch taken when PIL cannot be imported is left out.
- `extract_images_from_html` and its `HTMLParser` subclass are left out: the HTML tokenizer of the Python library is not part of this model. Slide builders receive the image list as an input.
- `apply_image_style`, `_apply_rounded_corners`, `add_background_image`, `add_overlay_rectangle` and the body and overlay geometry of the layout slides only issue drawing calls, and are left out.
- `_add_title_slide_textboxes` is modelled for its subtitle loop only. The section and title text boxes are fixed drawing calls.
- Three cross-calls are not modelled, because their targets are not part of the source:
  - `slide_builders.py` imports `LAYOUT_SPECS` and `add_images_to_slide`, and neither is defined anywhere in the package;
  - it calls `add_images_for_layout` with an argument list that does not match the definition at images.py:396;
  - `generator.py` imports `build_slide` and `populate_slide`, and neither is defined either.

  `Generator` takes the outcome of building and populating each slide as a parameter.
- The template override in document frontmatter (generator.py:108-127) is left out. It loads a second registry from another file.
- Floating-point arithmetic is modelled over `real`: rounding in the fit arithmetic is not captured. EMU-to-inch conversion is exact division.
- `Images.CaptionLines`: a caption paragraph records its text and font size only. The caption colour, alignment and the style overrides of `caption_style` are left out.
- `Config.ResolveUnderRoot`: joining is string concatenation with at most one added '/'. pathlib's normalisation (repeated separators, '.' segments, a trailing '/' on the relative part) is not modelled, so "ends with itself" holds for the model's join, not for every spelling Python would normalise.
- `Generator.Presentation.Generate`: the `template_override` argument (generator.py:71) and a failure to load the layout registry (generator.py:73-78) are not modelled; the registry is an input that has already loaded from the configured template.
- `RichText.AddFormattedText`: the hyperlink and underline of a link run are fields of the run record. python-pptx's hyperlink relationship is not modelled.
- `SlideBuilders.PopulateContentTextFrame` does not add the images extracted from HTML, because `add_images_to_slide` is not defined in the package.
- The Streamlit application, the services, the scripts and the command-line entry point are not part of this model.

## Findings

| source | as written | input that shows it | evidently intended | confidence | as-written member | corrected member |
|---|---|---|---|---|---|---|
| src/iltci_pptx/rich_text.py:100-104 | a piece that starts and ends with '*' is italic with `part[1:-1]`, so a lone "*" becomes an empty italic run | the line "- *" gives a bullet whose only run is empty; the asterisk is lost | a piece is treated as emphasis only when the pattern matched it, and any other text is kept verbatim | high, not executed | RichText.LoneAsteriskLost | RichText.IntendedRoundTrip |
| src/iltci_pptx/rich_text.py:76-88 | a piece passing the link test whose `re.match` fails adds no run | `add_formatted_text(p, "[a\nb](c)")` leaves the paragraph without runs; the compiler's own callers pass single lines, so only a direct call reaches it | an unmatched piece is kept as plain text | medium, not executed | RichText.BrokenLinkLost | RichText.IntendedRoundTrip |
| src/iltci_pptx/images.py:568-578 | the first paragraph is reused for piece `i == 0`, not for the first non-blank piece | the caption "; Photo" gives an empty first line above "Photo" | the first non-blank piece goes into the first paragraph | high, not executed | Images.LeadingBlankCaption | Images.IntendedCaptionNoBlank |
| src/iltci_pptx/config.py:122-128 | an absent `template_config` resolves to `Path()`, which is always true and exists, so the current directory is opened as a YAML file | a main configuration whose `paths` has no `template_config` | an unset `template_config` loads no template configuration | high, not executed | Config.UnconfiguredTemplateConfigOpensDirectory | Config.IntendedTemplateConfigLoadsConfigured |
