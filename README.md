# PDF page rendering and extraction helpers, modelled in Dafny

This project models the self-contained logic of a small document-processing
repository. The repository renders the pages of a PDF to PNG pictures and
sends them, with the PDF, to a hosted language model that extracts solar
equipment. The core parts are these:

- **The page-range resolver** (module `PageRanges`). These are
  `parse_page_ranges` in src/utils.py and `parse_pages` in scripts/render.py
  and dev_scripts/render.py. The three copies are the same code, so one model
  serves all three.
  - An absent or empty specification selects every page.
  - Otherwise the specification is split at commas. Each piece is trimmed
    and read as a number `p` or a range `a-b`, cut at its first `-`, and
    checked against the page count.
  - The result is the sorted union of the pieces, or the error of the first
    bad piece.
  - `int()` is modelled for ASCII digits (module `PyText`): the surrounding
    whitespace it skips, an optional sign, and single underscores between
    digits. `int()` skips fewer characters than `strip()` removes: the ASCII
    separators U+001C..U+001F count as whitespace for `strip()` but not for
    `int()`, so a trimmed piece can still be rejected for one of them.
- **The renderers' naming, manifest and copy policy** (modules `Raster`,
  `Paths` and `Files`).
  - `render_pdf_to_images` (src/utils.py) and `render` (scripts/render.py)
    do the same things: they create a folder named after the document with
    its extension removed, and write one picture per selected page into it.
    A lone page is named `<name>.png`, and otherwise each page is named
    `<name>_pNN.png`. They then copy the document into the folder as
    `<name>.pdf`, unless something already exists there.
  - `render` in dev_scripts/render.py writes the pictures next to the
    document. It creates no folder and copies nothing.
  - The file system is a class whose fields, a map from path to bytes and a
    set of directories, are updated in place.
  - Rasterising a page is a given function from page number to bytes.
  - Each renderer is a method proved against a reference function
    (`RenderSpec`). That function returns the result together with the new
    file system.
  - The properties are lemmas about that function. Among them:
    - calls succeed exactly when nothing is in the way;
    - the manifest has one distinct name per page in ascending order;
    - each name holds its page's picture;
    - nothing else changes;
    - an existing copy is left alone;
    - a second call changes nothing.
- **The extraction helpers in src/utils.py** (module `Extraction`):
  - building the multimodal content list: the document, then the non-blank
    ids among the first two image ids;
  - the fallback to embedded defaults, including the dry run;
  - `format_extraction_results`, which builds the human-readable summary of
    a parsed result.

Four behaviours of the code are worth knowing. The model follows the code in
each of them.

- **A document path without an extension.** Here the output folder is the
  document's own path. That path exists as a regular file, so the folder is
  never created, and the first write into it fails. The model raises
  `NotADirectory` (`Raster.NoExtensionFails`). The docstring of
  `render_pdf_to_images` promises a folder in every case.
- **The dry run can report other ids than a real call sends.** Say a prompt
  id is given but no document id. The dry run reports the given prompt id.
  The real call, though, falls back to the embedded default prompt *and*
  content. The same holds the other way round for a document id given
  without a prompt id. `Extraction.DryRunPromptAgrees` and
  `Extraction.DryRunFileAgrees` state exactly when the two agree. This may
  well be intended for a development aid, so it is recorded as a property
  rather than as a defect.
- **The summary format differs from its docstring.** The docstring example
  of `format_extraction_results` shows one line per type, with the found
  flag in parentheses. The code emits a heading line, then a `Found:` line,
  then one line per present field, then a blank line. The model follows the
  code.
- **The heading bullet.** The bullet of each heading is the four characters
  U+011F U+0178 U+201D U+00A7, as they appear in the source text. These are
  the UTF-8 bytes of a wrench emoji (F0 9F 94 A7), read a second time as
  Windows-1254 (Turkish).

Errors are modelled as values (`Result`), not as exceptions. They carry the
offending token, number or path, but not the message text.

## Model

| member | source | states |
|---|---|---|
| PageRanges.Span | src/utils.py:75 | `range(a, b + 1)` as a set holds exactly the integers from a to b |
| PageRanges.SortedSeq | src/utils.py:82 | `sorted` of a set is strictly ascending, has the same members and has one element per member |
| PageRanges.Tokens | src/utils.py:68-69 | each comma-separated piece is trimmed before it is read, and there is one token result per piece |
| PageRanges.Resolve | src/utils.py:64-82 | the reference resolver: an absent or empty specification selects every page, otherwise the sorted union of the trimmed pieces or the first piece's error; its properties are stated by `ResolveSound`, `ResolveIsUnion`, `ResolveFirstError` and `ResolveByUnion` |
| PageRanges.TokenPages | src/utils.py:70-80 | one trimmed piece: a range, cut at its first `-`, when it holds a dash, else a single number; stated by `RangeToken`, `SingleToken`, `NegativeNumberToken` and `TokenInBounds` |
| PageRanges.RangePages | src/utils.py:71-75 | both halves must be integers with 1 <= a <= b <= n; stated by `RangeOfDigits`, `NegativeRangeEnd` and `SeparatorInRange` |
| PageRanges.NumberPages | src/utils.py:77-80 | a single integer p with 1 <= p <= n; stated by `SingleToken` |
| PageRanges.ParsePageRanges | src/utils.py:48-82 | the resolver loop returns the reference result `Resolve`; an accepted result is strictly ascending and within 1..n |
| PageRanges.CollectPages | src/utils.py:67-80 | the loop over the pieces yields the union of their pages, or the error of the first failing piece |
| PageRanges.ParseToken | src/utils.py:70-80 | a piece with a `-` is read as a range, any other piece as a single number |
| PageRanges.ParseRange | src/utils.py:70-75 | a range is cut at its first `-`; both halves must be integers with 1 <= a <= b <= n, else it is an invalid range |
| PageRanges.ParseNumber | src/utils.py:76-80 | a single number p must be an integer with 1 <= p <= n, else it is an invalid page number |
| PageRanges.AscendingUnique | src/utils.py:82 | two strictly ascending lists with the same members are equal, so the sorted result is determined by its set of pages |
| PageRanges.CombineErrorSticks | src/utils.py:68-80 | once a piece has raised, the later pieces do not matter |
| PageRanges.UnionOk | src/utils.py:67-80 | the union succeeds iff every piece succeeds, and then a page is in it iff some piece names it |
| PageRanges.UnionFirstError | src/utils.py:68-80 | a failing union reports the error of a piece all of whose predecessors succeeded |
| PageRanges.UnionErrorSticks | src/utils.py:68-80 | an error among the first j pieces is the error of the whole list |
| PageRanges.ResolveByUnion | src/utils.py:64-82 | a non-empty specification is accepted iff its union is, with the same error, and then has the union's pages |
| PageRanges.TokenInBounds | src/utils.py:73-80 | every page an accepted piece contributes lies in 1..num_pages |
| PageRanges.UnionInBounds | src/utils.py:67-80 | every page of an accepted union lies in 1..num_pages |
| PageRanges.ResolveSound | src/utils.py:82 | an accepted result is strictly ascending, hence duplicate-free, and within 1..n |
| PageRanges.ResolveIsUnion | scripts/render.py:22-36 | a specification is accepted iff every trimmed piece is, and a page is selected iff some piece selects it |
| PageRanges.ResolveFirstError | scripts/render.py:23-35 | a rejected specification fails with the error of its first bad piece, and nothing is returned |
| PageRanges.CutAtDash | src/utils.py:71 | `split("-", 1)` on `x-z` with no dash in x gives x and z |
| PageRanges.RangeOfDigits | src/utils.py:70-75 | a range whose left half is digits selects a..b when 1 <= a <= b <= n, else it is an invalid range |
| PageRanges.RangeToken | scripts/render.py:25-30 | `"a-b"` selects the pages a to b exactly when 1 <= a <= b <= n, and is otherwise an invalid range |
| PageRanges.NegativeRangeEnd | src/utils.py:70-74 | `"a--b"` is cut at its first dash, reads b as negative, and is rejected as an invalid range |
| PageRanges.NegativeEndOfDigits | src/utils.py:70-74 | `"x--y"` is the range from x to the integer `-y`, rejected when that is below 1 |
| PageRanges.SeparatorInRange | src/utils.py:69-72 | `"1\x1c-2"` survives trimming but is rejected, since `int()` does not skip U+001C: the left half is not an integer |
| PageRanges.NumberOfDigits | src/utils.py:70 | a piece of digits alone has no dash and is read as one page number |
| PageRanges.SingleToken | scripts/render.py:31-35 | `"p"` selects page p exactly when 1 <= p <= n, and is otherwise an invalid page number |
| PageRanges.NegativeNumberToken | src/utils.py:70-72 | `"-p"` is taken for a range with an empty left half, which `int()` rejects |
| PageRanges.ShowToken | src/utils.py:68-80 | a printed token has no comma, is unchanged by trimming, and a valid one selects exactly its pages |
| PageRanges.UnionOfTokens | src/utils.py:67-80 | pieces that each select a token's pages select the union of those tokens |
| PageRanges.UnionShown | src/utils.py:67-80 | printed valid tokens select the union of their pages |
| PageRanges.ResolveJoined | src/utils.py:64-82 | a specification joined from comma-free pieces resolves as the sorted union of those pieces |
| PageRanges.ResolveShown | dev_scripts/render.py:19-36 | a specification of valid tokens resolves to the sorted union of the tokens' pages |
| PageRanges.SortedSpan | src/utils.py:65 | sorting the pages 1..n gives `[1, ..., n]` |
| PageRanges.AbsentSpecAllPages | src/utils.py:64-65 | an absent or empty specification, or `"1-n"`, selects `[1, ..., n]` |
| PageRanges.DocExamples | src/utils.py:59-62 | the three documented examples: "1,3-5" of 10 pages, no specification for 5 pages, and "2-4,1" of 10 pages |
| PyText.Strip | src/utils.py:69 | `strip()` leaves no whitespace at either end and gives "" exactly for all-whitespace text |
| PyText.IndexOf | src/utils.py:71 | the position of the first occurrence of a character |
| PyText.Split | src/utils.py:68 | `split(sep)` gives at least one piece, no piece holds sep, and joining the pieces gives the text back |
| PyText.SplitJoin | src/utils.py:68 | splitting a join of sep-free pieces gives the pieces back |
| PyText.StripSurrounded | src/utils.py:69 | trimming removes exactly the surrounding whitespace |
| PyText.Pad2 | src/utils.py:143 | `{n:02d}` has at least two characters, all digits for n >= 0; 0..9 get exactly one leading zero, larger numbers none, and a negative number a leading `-` followed by digits |
| PyText.Decimal | src/utils.py:143 | the decimal digits of n: one digit below 10, at least two from 10 on, and no leading zero for n >= 1 |
| PyText.IntToString | src/utils.py:143 | `str(n)`, which `{n:02d}` prints for n outside 0..9; `ParseIntToString` reads it back |
| PyText.IntStrip | src/utils.py:72 | the text `int()` reads: no character it skips at either end, and empty exactly when every character is one it skips |
| PyText.ParseInt | src/utils.py:72-77 | `int()` rejects text made only of the characters it skips; the round trips `ParseIntDecimal`, `ParseIntNegative`, `ParseIntToString`, `ParseIntPad2` and the rejection `ParseIntKeepsSeparator` state the rest |
| PyText.ParseIntNegative | src/utils.py:72 | `int("-" + str(n)) == -n` for every n >= 0 |
| PyText.ParseIntKeepsSeparator | src/utils.py:69-72 | `strip()` removes a trailing U+001C, but `int()` rejects a number followed by one |
| PyText.Join | src/utils.py:767 | `sep.join(parts)`; stated by `JoinStartsWith` and `SplitJoin` |
| PyText.JoinStartsWith | src/utils.py:767 | a joined text starts with its first piece |
| PyText.ParseIntDecimal | src/utils.py:72 | `int()` reads back the decimal digits of any n >= 0 |
| PyText.ParseIntToString | src/utils.py:77 | `int(str(n)) == n` for every integer |
| PyText.ParseIntPad2 | src/utils.py:143 | `int()` reads back the zero-padded page number |
| PyText.Pad2Injective | src/utils.py:143 | distinct page numbers give distinct padded numbers |
| Paths.SplitExt | src/utils.py:116 | `splitext` gives a root and an extension that concatenate to the path; the extension is empty or a dot followed by no slash and no other dot; it is non-empty exactly when the last component has a dot after a non-dot, and then the root keeps that non-dot and does not end in a slash |
| Paths.SplitExtExample | src/utils.py:116 | `splitext("a/report.pdf") == ("a/report", ".pdf")` |
| Paths.SplitExtDotfile | src/utils.py:116 | `splitext(".bashrc") == (".bashrc", "")` |
| Paths.Basename | src/utils.py:139 | `basename` is the slash-free tail of the path, and it is the whole path or follows a slash |
| Paths.BasenameExample | src/utils.py:139 | `basename("a/report") == "report"` |
| Paths.PathJoin | src/utils.py:141-149 | `os.path.join` of two parts; stated by `JoinEndsWith`, `JoinInjective` and `JoinNotFolder` |
| Paths.JoinEndsWith | src/utils.py:141-143 | a joined path ends with the joined name |
| Paths.JoinInjective | src/utils.py:141-143 | relative names joined to one folder collide only when equal |
| Paths.JoinNotFolder | src/utils.py:141-143 | a relative name joined to a folder is not the folder |
| Files.FileSystem.MakeDirs | src/utils.py:119-120 | creating an absent directory adds it and leaves the files alone |
| Files.FileSystem.WriteFile | src/utils.py:145 | writing creates or replaces exactly one file; a directory cannot be written |
| Files.FileSystem.ReadFile | src/utils.py:151-152 | reading returns the file's bytes |
| Raster.RenderSpec | src/utils.py:108-155 | the reference renderer: a missing document, then a rejected specification, raise; otherwise the layout's outcome for the resolved pages; stated by `RenderFacts`, `RenderEarlyErrors`, `RenderSucceeds` and the lemmas after them |
| Raster.FolderSpec | src/utils.py:116-152 | the folder layout: a regular file where the folder goes raises, else the folder is created, the pages saved, and the document copied if the copy is absent; stated by `FolderFacts` |
| Raster.SaveAll | src/utils.py:130-146 | the saving loop as a function: pictures written in turn until a directory is in the way; stated by `SaveAllFacts` and `SaveAllAgain` |
| Raster.CopyIfAbsent | src/utils.py:149-152 | the copy is written only where nothing exists; stated by `FolderCopy` |
| Raster.Written | src/utils.py:145 | after the writes, a path is present iff it was present before or was written, and every unwritten file keeps its bytes |
| Raster.SavePages | src/utils.py:127-146 | the saving loop leaves the result and file system of `SaveAll`: each picture written in turn, and the first directory in the way raises |
| Raster.RenderIntoFolder | src/utils.py:85-155 | `render_pdf_to_images` returns, and leaves the file system, as the reference `RenderSpec` says for the folder layout |
| Raster.RenderIntoFolderPages | scripts/render.py:46-81 | create the folder if absent, then save into it, then copy the document if the copy is absent, as `FolderSpec` says |
| Raster.CopyIfMissing | scripts/render.py:77-81 | the document is copied only when nothing exists at the copy's path |
| Raster.RenderBesideSource | dev_scripts/render.py:38-71 | the dev renderer returns, and leaves the file system, as `RenderSpec` says for pictures next to the document |
| Raster.PageNumberInName | src/utils.py:143 | the page number can be read back from a multi-page picture name |
| Raster.PngNamesDistinct | src/utils.py:140-143 | different pages get different multi-page names |
| Raster.PngSuffix | src/utils.py:140-143 | every picture name ends in ".png" |
| Raster.OutputPathPng | dev_scripts/render.py:62-65 | every output path of either layout ends in ".png" |
| Raster.OutputPathsDistinct | scripts/render.py:68-71 | ascending pages get pairwise distinct output paths |
| Raster.CopyNotPicture | src/utils.py:149 | the document's copy never has the name of a picture |
| Raster.FolderOutputsNotSource | src/utils.py:141-149 | in the folder layout neither a picture nor the copy is written over the document |
| Raster.BesideOverwritesSource | dev_scripts/render.py:62-67 | next to the document, a picture lands on the document iff a single page is selected and the document's extension is ".png" |
| Raster.FolderNotOutput | src/utils.py:116-149 | the folder is neither a picture path nor the copy path |
| Raster.NoExtensionFolder | src/utils.py:116-117 | a path without an extension is its own output folder |
| Raster.WrittenAt | src/utils.py:130-146 | a path written last among equal paths holds the picture of its page |
| Raster.WrittenNoop | src/utils.py:145 | writing pictures that are already in place changes nothing |
| Raster.SaveAllFacts | src/utils.py:130-146 | the saving loop succeeds iff no path is a directory, then returns the paths each holding its picture, raises `IsADirectory` on a path otherwise, and touches nothing else |
| Raster.FolderFacts | scripts/render.py:46-81 | the folder layout: a regular file where the folder goes raises, nothing else is touched, the pictures are in place, and the copy is written only into a free path |
| Raster.RenderFacts | src/utils.py:108-155 | a call succeeds iff `CanRender`, returns the manifest, touches only the manifest names and the copy, and leaves pictures in place |
| Raster.RenderEarlyErrors | src/utils.py:108-120 | the checks before any write, in order: a missing document, then a rejected specification, then a folder that is a regular file; none changes anything |
| Raster.RenderSucceeds | src/utils.py:108-155 | a call succeeds exactly when `CanRender` holds and then returns the manifest |
| Raster.ManifestShape | src/utils.py:127-146 | the manifest has one distinct name per resolved page in ascending order: `<stem>.png` for a lone page and `<stem>_pNN.png` otherwise, in the folder or beside the document |
| Raster.RenderPictures | src/utils.py:130-146 | after success, each manifest name holds the picture of its page |
| Raster.RenderTouchesOnly | src/utils.py:130-152 | whatever the outcome, only manifest names and (in the folder layout) the copy can be new or changed |
| Raster.RenderDirs | scripts/render.py:46-51 | the folder is created exactly when the checks pass and it is absent; next to the document no directory is created |
| Raster.FolderKeepsSource | src/utils.py:148-152 | the folder layout never changes the document |
| Raster.BesideKeepsSource | dev_scripts/render.py:62-67 | next to the document the document survives, unless a lone page is selected and its extension is ".png" |
| Raster.BesideOnlyPictures | dev_scripts/render.py:38-71 | next to the document no directory appears, and every new or changed file is a ".png" |
| Raster.FolderCopy | scripts/render.py:77-81 | an existing copy is never overwritten, a missing one receives the document's bytes on success, and a directory in its place stays |
| Raster.NoExtensionFails | src/utils.py:116-120 | the folder layout fails with `NotADirectory` for a document without an extension |
| Raster.FolderRenderTwice | src/utils.py:149-152 | rendering into the folder again after a success changes nothing and returns the same manifest |
| Raster.SaveAllAgain | src/utils.py:145 | saving pictures already in place succeeds and changes nothing |
| Extraction.Content | src/utils.py:379-383 | the reference content list; stated by `ContentShape`, `ContentKeepsImages` and `BuildContent` |
| Extraction.Plan | src/utils.py:357-389 | the request a call makes, or the dry-run report; stated by `DryRunReports`, `CallUsesProvided`, `DryRunPromptAgrees` and `DryRunFileAgrees` |
| Extraction.Summary | src/utils.py:747-767 | the reference summary; stated by `SummaryCases`, `SummaryJoins`, `SummaryLines`, `EntryShowsFields` and the `Shows` lemmas |
| Extraction.FirstTwo | src/utils.py:248 | `ids[:2]` is a prefix of at most two ids, and all of them when there are fewer |
| Extraction.BuildContent | src/utils.py:246-250 | the loop yields the reference content list: the document, then an image entry for each non-blank id among the first two |
| Extraction.ImageItemsMembers | src/utils.py:248-250 | the image entries are exactly the non-blank ids, and there are no more of them than ids |
| Extraction.ImageItemsAllKept | src/utils.py:381-383 | when no id is blank, every id becomes an image entry, in order |
| Extraction.ContentShape | src/utils.py:246-250 | the list starts with the document, has at most two more entries, all images, and an image is in it iff it is a non-blank id among the first two |
| Extraction.ContentKeepsImages | src/utils.py:379-383 | when the first two ids (or all, if fewer) are non-blank, they all make it into the list, in order after the document, whatever follows them |
| Extraction.DryRunReports | src/utils.py:357-366 | a dry run sends nothing and reports the given ids or the defaults in their place, and the image ids unchanged |
| Extraction.CallUsesProvided | src/utils.py:368-383 | a real call sends the provided prompt and content exactly when both ids are given, and otherwise the embedded defaults |
| Extraction.DryRunPromptAgrees | src/utils.py:357-373 | the dry run's prompt id is the one sent iff no prompt id is given, or a document id is also given, or it equals the default |
| Extraction.DryRunFileAgrees | src/utils.py:358-379 | the dry run's document is sent iff a prompt id is given, or no document id is given, or it equals the default document |
| Extraction.FieldNames | src/utils.py:752 | the three labels map to the fields inverter, module and racking_system |
| Extraction.FormatExtractionResults | src/utils.py:747-767 | the loop over the three types yields the reference summary `Summary` |
| Extraction.AppendEntry | src/utils.py:756-765 | one type's block is appended after the lines so far |
| Extraction.AppendField | src/utils.py:759-764 | a field line is appended exactly when the field is neither None nor empty |
| Extraction.LinesByField | src/utils.py:751-753 | the blocks come in the order inverter, module, racking system |
| Extraction.SummaryUsesFirstEntries | src/utils.py:755-756 | results that agree on the first entry of each type have the same summary |
| Extraction.SummaryCases | src/utils.py:747-767 | a missing result gives its message; "No equipment found" iff no type has an entry; otherwise the text starts with the bullet |
| Extraction.EntryShowsFields | src/utils.py:757-765 | a block is heading, found flag, then a field line for each present non-empty field, then an empty line |
| Extraction.ShowsManufacturer | src/utils.py:759-760 | the manufacturer line for v is in a block iff the manufacturer is the non-empty v |
| Extraction.ShowsModel | src/utils.py:761-762 | the model line for v is in a block iff the model is the non-empty v |
| Extraction.ShowsNote | src/utils.py:763-764 | the note line for v is in a block iff the evidence note is the non-empty v |
| Extraction.SummaryJoins | src/utils.py:767 | with some equipment, the summary is the blocks joined by line breaks |
| Extraction.SummaryLines | src/utils.py:750-767 | when no shown field holds a line break, splitting the summary at line breaks gives back exactly the blocks' lines |

## Left out

- Rasterisation with PyMuPDF (opening the document, `get_pixmap`, grayscale conversion, `save`) is a foreign library. A page's picture is a given function of its page number, and the page count is an input.
- The zoom factor `dpi / 72.0` is floating point and only feeds the rasteriser. The grayscale flag only selects the rasteriser's colour space. Neither affects a name, the manifest or the copy, so neither is modelled.
- A document that opens as a file but not as a PDF makes the library raise. This is not modelled.
- The file system is flat: parent directories, permissions and other operating-system errors are not tracked, and `makedirs` on an absent path always succeeds.
- Error message texts are not modelled as strings. An error records its kind and the offending token, number or path.
- `int()` accepts non-ASCII decimal digits from other scripts. The model accepts ASCII digits only.
- PyText.ParseInt: does not model the limit `int()` places on the length of decimal text (4300 digits by default, `sys.set_int_max_str_digits`); the model reads digit strings of any length.
- The calls to the hosted model, its client, the Pydantic validation (including `max_length=1`), dynamic module loading, `save_extraction_results` (clock and file writes), the command-line front ends and `validate_environment` are network, library or environment code. A call is represented by a `Request` value.
- The content-list variant in dev_scripts/run_extraction.py:189 is not part of this model. It skips only empty ids, where src/utils.py also skips whitespace-only ones.
- Raster.BesideKeepsSource: excludes the one case in which the source overwrites the document (a lone page of a ".png" document). That case is stated by Raster.BesideOverwritesSource instead. A second call after such an overwrite is not modelled.
