# Crossref deposit generator, modelled in Dafny

This project models the core of a Crossref deposit generator, `src/xml_generator.py` (class `XMLGenerator`). The generator takes a folder holding a journal spreadsheet `{base}_journal.xlsx` and an article spreadsheet `{base}_articles.xlsx`. From them it writes one `<doi_batch>` deposit document in the Crossref 4.4.2 schema. The document holds:

- a `<journal_metadata>` and a `<journal_issue>`, built from the journal sheet's first row;
- one `<journal_article>` per row of the article sheet, in row order.

Each element is written on its own line. The text is assembled by appending lines to a list and joining them with newlines. Every cell is normalised first:

- `_safe` trims it;
- `_fmt_issn` regroups an ISSN or drops it;
- `_url_or_empty` keeps only `http`, `https` and `ftp` URLs;
- `_ymd` gives year, month and day, all three or none.

Optional elements are written only when their value is non-empty. Authors come from five fixed slots. A single article without a usable full-text URL fails the whole batch.

The modules:

- `Errors`: `Option`, `Result`, and the three ways a step fails.
- `Strings`: the Python string operations the generator uses, on `seq<char>`. These are `strip`, `join`, `split`, `replace(c, '')`, `str(int)` and `strftime`'s zero-padded fields.
- `Cells`: spreadsheet cells and rows, and the four normalisers.
- `Xml`: a line of the output as a typed value, with its exact rendering. It also defines:
  - a nesting check;
  - three projections used to state properties: the opening tags of a tag, the one-line texts of a tag, and the tags at a depth.
- `Journal`: the journal fragment as a function of the normalised first row, and its properties.
- `Articles`: the article fragment as a function of the normalised rows, and its properties.
- `Batch`: the base file name, the article sheet's path, the batch id, the timestamp and the `<doi_batch>` envelope.
- `Generator`: class `XmlGenerator`, with the object's fields and methods. The methods append lines to a sequence inside loops, as `create_journal_xml` and `create_article_xml` append to their `parts` lists. Each is proved to produce exactly what `Journal`, `Articles` and `Batch` define. The folder, the journal file and the base name are `const` fields, because only `__init__` assigns them.

Behaviour of the code that the model keeps as it is:

- The base name is the journal file's name up to its first `_`, so `a_b_journal.xlsx` gives `a`.
- `_fmt_issn` removes every `-` before looking for eight digits. So `1-2-3-4-5-6-7-8` is accepted as `1234-5678`.
- No text is escaped. A title holding `<` or `&` goes into the document as it is.
- The batch id is the empty string when the journal DOI is empty and the journal file is named `_journal.xlsx`.

## Model

| member | source | states |
|---|---|---|
| Strings.Strip | src/xml_generator.py:40 | `str.strip()`: the result has no whitespace at either end, and it is a slice of the input with only whitespace removed before and after it |
| Strings.TakeUntil | src/xml_generator.py:71 | `split('_')[0]`: the result is a prefix of the input without the separator, and it stops exactly at the first separator or at the end |
| Strings.Remove | src/xml_generator.py:44 | `replace('-', '')`: no `-` remains and the result is no longer than the input |
| Strings.RemoveAbsent | src/xml_generator.py:44 | removing a character that does not occur changes nothing |
| Strings.RemoveAppend | src/xml_generator.py:44 | removing a character distributes over concatenation, so the other characters keep their order |
| Strings.Join | src/xml_generator.py:166 | `sep.join(parts)`: the parts in order with the separator between each neighbouring pair, `''` for no parts and the part itself for one |
| Strings.IntToString | src/xml_generator.py:40 | `str(i)` of an integer cell: a `-` before the decimal digits of a negative number, the digits alone otherwise |
| Strings.SplitJoin | src/xml_generator.py:166 | splitting a newline-joined list at newlines gives the list back when no part holds a newline |
| Strings.DecimalRoundTrip | src/xml_generator.py:40 | `str(n)` of a non-negative integer reads back as `n` |
| Strings.Pad | src/xml_generator.py:56 | `strftime`'s `%Y`/`%m`/`%d` fields have exactly their width and only digits |
| Strings.PadRoundTrip | src/xml_generator.py:56 | a zero-padded field reads back as the number when the number fits the width |
| Cells.Get | src/xml_generator.py:103-118 | `row.get(column)`: the cell stored under the column, or a missing cell when the row has no such column |
| Cells.Safe | src/xml_generator.py:37-40 | a missing cell gives `''`; a text cell gives its text stripped; a number gives its `str()`; the result never begins or ends with whitespace |
| Cells.SafeIdempotent | src/xml_generator.py:37-40 | normalising an already normalised value returns it unchanged |
| Cells.FmtIssn | src/xml_generator.py:42-49 | the result is `''` or of the shape `DDDD-DDD[DX]`, so the element is never malformed |
| Cells.IsIssn | src/xml_generator.py:47 | the pattern `\d{4}-\d{3}[\dX]` matched against the whole value: nine characters, digits around a hyphen at position 4, a last character that is a digit or `X` |
| Cells.Regroup | src/xml_generator.py:45-46 | eight digits become the first four, a hyphen and the last four, which always satisfies the ISSN pattern |
| Cells.FmtIssnCases | src/xml_generator.py:44-49 | the result is non-empty iff the hyphen-free value is eight digits or the trimmed value is already an ISSN; eight digits are regrouped 4 + 4 |
| Cells.FmtIssnKeepsDigits | src/xml_generator.py:44-48 | formatting only moves hyphens: the digits and check character are the input's, in order |
| Cells.RemoveRegroup | src/xml_generator.py:44-46 | taking the hyphen out of a regrouped ISSN gives back its eight digits |
| Cells.DigitIssnRegroups | src/xml_generator.py:45-48 | an all-digit ISSN is the regrouping of its own eight digits, so both branches agree on it |
| Cells.XIssnIsNotDigits | src/xml_generator.py:45-48 | an ISSN with check character `X` never takes the eight-digit branch |
| Cells.IssnFixedPoint | src/xml_generator.py:42-49 | a well-formed ISSN is returned unchanged |
| Cells.FmtIssnIdempotent | src/xml_generator.py:42-49 | formatting a formatted ISSN again changes nothing |
| Cells.UrlOrEmpty | src/xml_generator.py:58-60 | the result is the trimmed value or `''`, and it is non-empty iff the trimmed value starts with `http://`, `https://` or `ftp://` |
| Cells.MatchesScheme | src/xml_generator.py:60 | the pattern `^(https?\|ftp)://` matched at the start of the value: it begins with `http://`, `https://` or `ftp://` |
| Cells.SchemePrefixes | src/xml_generator.py:60 | the pattern `^(https?\|ftp)://` matches exactly the strings with one of the three prefixes |
| Cells.Ymd | src/xml_generator.py:51-56 | all three parts or none; they are present iff the cell is not missing and parses; then they are 4, 2 and 2 digits |
| Cells.YmdDenotesDate | src/xml_generator.py:51-56 | the three parts read back as the parsed year, month and day |
| Xml.Render | src/xml_generator.py:121-236 | the exact text of one appended line: four spaces per nesting level, then an opening tag with its attributes, a one-line element holding its unescaped text, or a closing tag |
| Xml.Serialize | src/xml_generator.py:166 | `"\n".join(parts)`: the rendered lines, in order, separated by single newlines and with no final newline |
| Xml.SerializeSplitsIntoLines | src/xml_generator.py:166 | when no element text holds a newline, the joined fragment splits back into exactly one rendered line per appended line |
| Xml.DoiDataTexts | src/xml_generator.py:129-135 | a `<doi_data>` block holds the DOI iff it is non-empty, then the URL iff it is non-empty |
| Xml.DoiDataTags | src/xml_generator.py:129-135 | `<doi_data>` exists iff the DOI or the URL is non-empty, with `<doi>` before `<resource>` |
| Xml.DoiDataNested | src/xml_generator.py:129-135 | the `<doi_data>` block is well nested |
| Xml.DateTags | src/xml_generator.py:139-150 | a `<publication_date>` exists iff year, month and day are all non-empty, and its children are month, day, year in that order |
| Xml.DateTexts | src/xml_generator.py:139-150 | the month, day and year elements hold the date's own parts, only for a complete date |
| Xml.DateNested | src/xml_generator.py:139-150 | the date block is well nested |
| Journal.FieldsOf | src/xml_generator.py:103-118 | every field is trimmed or of its accepted shape (ISSN, URL scheme, date all or nothing); the title is the trimmed `Journal Title` cell; each date is complete iff its cell is present and parses |
| Journal.JournalLines | src/xml_generator.py:120-164 | every line of `parts`, in append order: the `<journal_metadata>` block followed by the `<journal_issue>` block |
| Journal.JournalXml | src/xml_generator.py:96-171 | fails iff the sheet was not read or has no first row; otherwise it is the newline-joined lines of the first row |
| Journal.JournalNested | src/xml_generator.py:120-164 | the fragment is well nested: `<journal_metadata>`, then `<journal_issue>`, at the top level |
| Journal.MetadataChildren | src/xml_generator.py:120-136 | the metadata's children in order: `full_title` always; `abbrev_title`, print `issn`, electronic `issn` and `doi_data` each only when non-empty |
| Journal.IssueChildren | src/xml_generator.py:138-164 | the issue's children in order: the print date and the online date (each when complete), then `journal_volume`, `issue` and `doi_data` (each when non-empty) |
| Journal.JournalFullTitle | src/xml_generator.py:122 | exactly one `<full_title>`, holding the title even when it is empty |
| Journal.JournalAbbrevTitle | src/xml_generator.py:123-124 | `<abbrev_title>` is present iff the abbreviation is non-empty |
| Journal.JournalIssn | src/xml_generator.py:125-128 | the print ISSN and the electronic ISSN, each iff non-empty and each with its media type |
| Journal.JournalVolumeText | src/xml_generator.py:151-154 | `<volume>` is present iff the volume is non-empty |
| Journal.JournalIssueText | src/xml_generator.py:155-156 | `<issue>` is present iff the issue is non-empty |
| Journal.JournalDois | src/xml_generator.py:129-163 | the journal DOI, then the issue DOI, each iff non-empty |
| Journal.JournalResources | src/xml_generator.py:129-163 | the journal URL, then the issue URL, each iff non-empty |
| Journal.JournalDoiData | src/xml_generator.py:129-163 | one `<doi_data>` for the journal iff it has a DOI or URL, then one for the issue on the same condition |
| Journal.JournalDates | src/xml_generator.py:139-150 | a print date element iff the print date is complete, then an online one iff the online date is complete |
| Journal.JournalDateParts | src/xml_generator.py:139-150 | each written date holds its own month, day and year |
| Articles.SlotOf | src/xml_generator.py:203-206 | the four values of an author slot are trimmed |
| Articles.NonEmpty | src/xml_generator.py:211 | `[v for v in vs if v]`: the non-empty values, in their order |
| Articles.GivenOf | src/xml_generator.py:211 | the given name of a slot: the non-empty first and middle names joined by a space and stripped |
| Articles.GivenNameForm | src/xml_generator.py:211 | the given name is the first name, or the first name + " " + the middle name when there is one |
| Articles.PersonTextsIs | src/xml_generator.py:212-218 | a `<person_name>` holds the given name always, and the surname and the affiliation each iff non-empty |
| Articles.PersonTags | src/xml_generator.py:212-218 | a `<person_name>` is a single element at its depth |
| Articles.Mark | src/xml_generator.py:209-210 | the `sequence` attribute: `first` while no author has been written, `additional` after |
| Articles.PersonList | src/xml_generator.py:202-219 | the slot loop: a slot without a first name writes nothing and leaves the flag unchanged; a named slot writes its `<person_name>` with the current mark and sets the flag |
| Articles.PersonListAppend | src/xml_generator.py:202-219 | the slot loop's output for two runs of slots is the first run's, then the second's with the flag set if the first named anyone |
| Articles.PersonListOpens | src/xml_generator.py:208-212 | one `<person_name>` per slot with a first name; only the first of them is `sequence='first'` when none came before, and all others are `additional` |
| Articles.PersonListNested | src/xml_generator.py:202-219 | the contributor lines are well nested |
| Articles.ListTextsGivens | src/xml_generator.py:208-213 | the given names are those of the named slots, in slot order; empty slots are skipped |
| Articles.ArticleFieldsOf | src/xml_generator.py:180-189 | title and DOI are trimmed; the resource is `''` or a URL of an accepted scheme; the date is all or nothing; there are five slots |
| Articles.ArticleLines | src/xml_generator.py:191-236 | every line one row appends, in order: `<journal_article>`, titles, contributors, the optional online date, `<doi_data>`, `</journal_article>` |
| Articles.ArticleNested | src/xml_generator.py:191-236 | an article block with a resource is well nested |
| Articles.ArticleChildren | src/xml_generator.py:192-236 | the article's children in order: `titles`, `contributors`, the online date only when complete, and `doi_data` always |
| Articles.ArticleDoiDataChildren | src/xml_generator.py:230-234 | the article's `<doi_data>` holds `<doi>` only when non-empty, then always `<resource>` |
| Articles.ArticleTitle | src/xml_generator.py:195-197 | exactly one `<title>`, holding the title |
| Articles.ArticleResource | src/xml_generator.py:233 | exactly one `<resource>`, holding the URL |
| Articles.ArticleDoi | src/xml_generator.py:231-232 | `<doi>` is present iff the DOI is non-empty |
| Articles.ArticleGivenNames | src/xml_generator.py:208-213 | the article's given names are those of its named slots, in order |
| Articles.ArticleAuthors | src/xml_generator.py:208-212 | one author per named slot, with the first marked `first` and the rest `additional` |
| Articles.ArticleDate | src/xml_generator.py:222-227 | the online date element is present iff the date is complete |
| Articles.AllLines | src/xml_generator.py:179-236 | the lines of every row's article block, in row order |
| Articles.Blocks | src/xml_generator.py:238 | `article_xml_list`: one newline-joined block per row, in row order |
| Articles.BlocksFlatten | src/xml_generator.py:238-240 | joining the per-article blocks gives the lines of all the articles, joined |
| Articles.AllNested | src/xml_generator.py:179-240 | the whole article fragment is well nested |
| Articles.AllArticleTags | src/xml_generator.py:179-240 | one `<journal_article>` per row and nothing else at that depth |
| Articles.AllTitles | src/xml_generator.py:179-197 | the fragment's titles are the rows' titles, one per row, in row order |
| Articles.AllResources | src/xml_generator.py:179-233 | the fragment's resources are the rows' URLs, one per row, in row order |
| Articles.FieldsOfRows | src/xml_generator.py:179-189 | the values the row loop reads from each row, one entry per row, in row order |
| Articles.Untitled | src/xml_generator.py:187 | `title or '(untitled)'`: the title when it is non-empty, `(untitled)` otherwise |
| Articles.FirstMissing | src/xml_generator.py:179-187 | finds the first row without a usable URL, or reports that every row has one |
| Articles.ArticleXml | src/xml_generator.py:173-246 | fails iff the sheet was not read or some row lacks a usable URL; the error names such a row's title or `(untitled)`; otherwise it is the joined lines of all rows |
| Articles.ArticleXmlFirstError | src/xml_generator.py:184-187 | the error is the one of the first row without a usable URL |
| Articles.ArticleXmlOk | src/xml_generator.py:182-187 | the batch succeeds iff every row's `fulltext_url` cell holds a URL that `_url_or_empty` accepts |
| Batch.Basename | src/xml_generator.py:70 | `os.path.basename`: the part after the last `/` |
| Batch.BaseFilename | src/xml_generator.py:69-71 | the base name holds no `_` and no `/` |
| Batch.JoinPath | src/xml_generator.py:66 | `os.path.join(folder, name)` for two parts: the name alone when it is absolute, otherwise the folder and the name with one `/` between them |
| Batch.ArticleFilePath | src/xml_generator.py:74 | `{base}_articles.xlsx` placed in the folder |
| Batch.BasenameJoin | src/xml_generator.py:66-70 | the base name of a file placed in a folder is the file's own name |
| Batch.BaseOfFile | src/xml_generator.py:69-74 | for `{stem}_{rest}` in a folder, with no `_` in the stem, the base is the stem |
| Batch.BaseOfJournalFile | src/xml_generator.py:63-74 | for `{stem}_journal.xlsx` the base is the stem, and the article sheet is `{stem}_articles.xlsx` in the same folder |
| Batch.OutputPath | src/xml_generator.py:301 | `../output/{base}.xml` |
| Batch.BatchId | src/xml_generator.py:252 | the journal DOI when non-empty, else the base name; empty iff both are |
| Batch.Stamp | src/xml_generator.py:253 | fourteen digits |
| Batch.StampRoundTrip | src/xml_generator.py:253 | the digit groups read back as year, month, day, hour, minute and second |
| Batch.Envelope | src/xml_generator.py:255-276 | the f-string document: the XML declaration and `<doi_batch>` head with the batch id and timestamp, the journal and article fragments each on their own lines inside `<body>`, the closing tags, and a trailing newline |
| Batch.ReadBatchIdRoundTrip | src/xml_generator.py:255-276 | the batch id can be read back from the document as long as it holds no `<` |
| Generator.XmlGenerator.constructor | src/xml_generator.py:9-34 | sets the folder, the journal file, the base name and the article path; nothing is read or built yet |
| Generator.XmlGenerator.InitializeArticleFile | src/xml_generator.py:73-74 | the article path is `{base}_articles.xlsx` in the folder |
| Generator.XmlGenerator.LoadData | src/xml_generator.py:77-93 | both sheets are stored and the article path is set again |
| Generator.XmlGenerator.CreateJournalXml | src/xml_generator.py:96-171 | returns `Journal.JournalXml` of the stored sheet; on success stores the fragment, on failure leaves it unchanged |
| Generator.XmlGenerator.JournalLinesOf | src/xml_generator.py:100-164 | the lines appended for the first row are those of `Journal.JournalLines` |
| Generator.XmlGenerator.MetadataLines | src/xml_generator.py:120-136 | the metadata lines appended one at a time equal the metadata element |
| Generator.XmlGenerator.IssueLinesOf | src/xml_generator.py:138-164 | the issue lines appended one at a time equal the issue element |
| Generator.XmlGenerator.DoiDataLines | src/xml_generator.py:129-135 | the appended `<doi_data>` lines equal the block |
| Generator.XmlGenerator.DateLines | src/xml_generator.py:139-144 | the appended date lines equal the date block |
| Generator.XmlGenerator.CreateArticleXml | src/xml_generator.py:173-246 | returns `Articles.ArticleXml` of the stored sheet; on success stores the fragment, on failure leaves it unchanged |
| Generator.XmlGenerator.ArticleBlocks | src/xml_generator.py:176-240 | the row loop returns exactly `Articles.ArticleXml`: the first row without a URL stops it with that row's error |
| Generator.XmlGenerator.ArticleLinesOf | src/xml_generator.py:191-236 | the lines appended for one article equal the article block |
| Generator.XmlGenerator.AuthorLines | src/xml_generator.py:200-219 | the five-slot loop with its first-written flag appends exactly the contributor list |
| Generator.XmlGenerator.PersonEntry | src/xml_generator.py:212-218 | the lines appended for one author equal the `<person_name>` block |
| Generator.XmlGenerator.CombineXml | src/xml_generator.py:248-281 | fails iff the journal sheet was not read or is empty; otherwise it is the envelope with the batch id, the timestamp and the two stored fragments |
| Generator.XmlGenerator.GenerateXml | src/xml_generator.py:294-306 | it stores both sheets and the article path; with a journal row it stores the journal fragment, and it stores the article fragment when every article has a URL; it succeeds iff both fragments are built (else the first error); then it returns `../output/{base}.xml` and the envelope of the two fragments |

## Left out

- Finding the journal sheet (`find_journal_file`, src/xml_generator.py:63-67): the directory listing is I/O. The constructor takes the found file's path as a parameter, and `Batch.BasenameJoin` covers the path it returns.
- Reading the spreadsheets (`read_excel_data`): file existence checks and `pd.read_excel` are I/O. `LoadData` takes the rows as parameters. A missing file is not modelled as an error.
- Writing the document (`write_to_xml_file`, src/xml_generator.py:283-292) and creating the output directory are I/O. `GenerateXml` returns the path and the document instead.
- Logging (`setup_logging`, the `logger` calls) and the re-raising `except` blocks. `src/utils.py` is not part of this model.
- Exceptions: the three ways the builders fail are modelled as the three `Error` values. A sheet that was never read fails with an `AttributeError` on `None`, an empty journal sheet raises `IndexError`, and a row without a usable URL raises `ValueError`. The messages are not modelled, except the missing-resource message's title, or `(untitled)`.
- Floating-point cells: `read_excel` hands an integral number over as an int, but a number in a column that also has an empty cell arrives as a float (`str(12.0)` is `12.0`, where the model writes `12`); such float cells are not modelled. An empty cell (NaN) is modelled as a missing cell. The model has missing, text and integer cells only.
- `pd.to_datetime` is a parameter (`DateParser`), returning a date in pandas' range of years 1677 to 2262, or nothing. Its parsing rules are not modelled.
- `datetime.now()` is a parameter (`Clock`).
- Batch.Stamp: assumes a four-digit year, because `%Y` is not zero-padded on every platform below year 1000.
- Regular expressions: `\d` is modelled as the ASCII digits only, while Python's `\d` also matches other Unicode decimal digits.
- `str.strip()`: whitespace is the set of characters Python's `str.isspace` accepts, listed explicitly.
- Articles.ArticleFieldsOf: all of a row's fields, the five author slots included, are read before the resource check and before the slot loop. The source reads them inside the loop. Reading a cell has no effect, so the output is the same.
- Strings.Remove: its own contract says only that no `-` remains and the result is not longer. Order and contents are stated by `Strings.RemoveAppend` and `Strings.RemoveAbsent`.
- Batch.ReadBatchIdRoundTrip: requires an id without `<`. Nothing is escaped, so an id holding `<` cannot be read back.
- Articles.ArticleXml: its own contract says the error names some row without a URL. `Articles.ArticleXmlFirstError` states it is the first one.
