# PeTaL labeler data pipeline: record logic in Dafny

This project models the record-processing core of the PeTaL labeller's data
pipeline. It covers six scripts:

- **Golden upsert** (`Update/update_golden.py`). A batch of new records is
  merged into the golden dataset by `petalID`:
  - a known id overwrites the first golden row that has it, field by field;
  - an unknown id is appended with a fresh id after the current maximum.

  As written, the field loop raises TypeError on every row matched by a
  numeric id (see "Findings"). The model exhibits that, and models the merge
  with the loop the code evidently intends.
- **Record assembly** (`LabeledData/convert_with_api.py`). Labelled CSV rows are
  joined with responses from the scholarly-works API. Written in Dafny:
  - label cleaning;
  - the rebuilding of an abstract from its inverted index;
  - the DOI regular expression;
  - OpenAlex id extraction;
  - the per-row record builder.
- **Taxonomy driver** (`AskNature/taxonomy/taxonomy_converter.py`):
  - reading stringified label lists;
  - normalising the function map;
  - rewriting every row's labels in place with a label converter;
  - setting aside the rows flagged for manual labelling.
- **Search-hit flattening** (the Algolia downloader). Produces one row per
  source link of each AskNature paper. Each row takes its level labels from the
  `" > "`-separated taxonomy paths.
- **DOI scraping** (`AskNature/doi_scraper/get_dois.py`). Covers the string
  steps that recover a DOI from a fetched page, and the in-place merge of the
  scraped DOIs into the frame.
- **List-in-set expectation** (the Great Expectations plugin):
  - the twelve-label set;
  - the two metrics;
  - the configuration checks;
  - the assembly of the rendered sentence.

The modules follow the scripts:

| module | contents |
|---|---|
| `UpdateGolden` | golden upsert |
| `ConvertWithApi` | record assembly |
| `TaxonomyConverter` | taxonomy driver |
| `AlgoliaDownloader` | search-hit flattening |
| `GetDois` | DOI scraping |
| `ListInSet` | list-in-set expectation |

Four modules are shared:

- `Base`: the `Option` and `Result` types, and the Python exception kinds the scripts raise.
- `Strings`: Python's string primitives over ASCII.
- `JsonFraming`: the JSON array file written by two scripts.
- `DoiPattern`: the exact match semantics of the DOI regular expression, which two scripts use.

How the scripts become Dafny:

- **Loops.** Where a script loops and updates state, the model is a `method`
  with a loop. Its postcondition ties the result to a function on values:
  - in-place updates of data frames are updates of an `array` of rows;
  - an exception is an `Err` result.
- **Expressions.** Where a script computes a single expression, the model is a
  function.
- **Lemmas.** They state what the scripts promise about those functions.

## Model

| member | source | states |
|---|---|---|
| Base.FirstIndex | Update/update_golden.py:51-53 | the position found is the first one holding the value; there is none exactly when the value is absent (also `api_dois.index` at `LabeledData/convert_with_api.py:148-149`) |
| UpdateGolden.PatchMeaning | Update/update_golden.py:54-57 | after the key loop a row has its old keys plus the written ones; a cell is overwritten exactly when its key is a batch key, a golden column and the batch value is informative, and then takes the batch value; every other cell keeps its value |
| UpdateGolden.PatchCell | Update/update_golden.py:54-57 | cell by cell: the batch value when written, the golden value otherwise, so empty strings and lists and extra keys never change the row |
| UpdateGolden.MaxId | Update/update_golden.py:63 | the result is one of the ids (a boolean counting as 0 or 1) and bounds every numeric and boolean id; it is missing only when every id is missing; the `+ 1` fails exactly when some id is a string or a list |
| Base.Missing | Update/update_golden.py:67 | the columns the concatenation adds are exactly the batch columns the golden frame lacks (also the written columns `prepare_csv` adds, `AskNature/taxonomy/taxonomy_converter.py:108-114`) |
| UpdateGolden.WriteFields | Update/update_golden.py:54-57 | the in-place key loop changes only the target golden row, to its patched form |
| UpdateGolden.AssignIds | Update/update_golden.py:62-66 | the k-th new row gets id start+k, and stays without an id when the start is missing |
| UpdateGolden.MergeData | Update/update_golden.py:31-69 | KeyError without a petalID column and the frame untouched; otherwise the golden rows are updated in place by the batch loop, with the corrected field loop, and the result is the merged table |
| UpdateGolden.Merged | Update/update_golden.py:43-69 | the merge on values, with the corrected field loop; what it keeps and adds is stated by MergedShape, MergedUnique and MergeKnownIdempotent |
| UpdateGolden.UpdatedIds | Update/update_golden.py:48-57 | the batch loop never changes any golden row's id |
| UpdateGolden.StepChangesFirstOnly | Update/update_golden.py:51-53 | a matched batch row changes only the first golden row with its id; every other row is unchanged |
| UpdateGolden.UpdatedCells | Update/update_golden.py:46-57 | each updated golden row is its old self with each cell that the batch writes last into it overwritten, and no other key added |
| UpdateGolden.UpdatedIdempotent | Update/update_golden.py:46-57 | applying the same batch a second time to the updated rows changes nothing |
| UpdateGolden.MergeKnownIdempotent | Update/update_golden.py:45-57 | a batch whose ids are all in the golden list keeps the row count and columns, and merging it twice equals merging it once |
| UpdateGolden.UnmatchedAllKnown | Update/update_golden.py:48-61 | a batch whose ids are all known adds no new row |
| UpdateGolden.UnmatchedConcat | Update/update_golden.py:59-61 | the new rows of two stretches of the batch are those of the first followed by those of the second |
| UpdateGolden.UnmatchedAt | Update/update_golden.py:59-61 | an unmatched batch row sits among the new rows at the position given by the number of unmatched rows before it |
| UpdateGolden.UnmatchedOrder | Update/update_golden.py:45-61 | two unmatched batch rows take two different positions, in batch order, even when their ids are equal |
| UpdateGolden.UnknownRowsAppended | Update/update_golden.py:45-66 | two batch rows with unknown ids, equal or not, are both appended in batch order after the golden rows; they carry distinct fresh ids whenever the golden frame has an id |
| UpdateGolden.MergedShape | Update/update_golden.py:46-67 | the golden rows keep their positions, order and ids; the unmatched rows follow them in batch order with consecutive ids from the old maximum plus one |
| UpdateGolden.MergedUnique | Update/update_golden.py:63-66 | if the golden ids are unique, so are the merged ids |
| UpdateGolden.AppendedIdsUnique | Update/update_golden.py:63-66 | unique ids followed by consecutive ids above all of them stay unique |
| UpdateGolden.WriteGoldenFile | Update/update_golden.py:83-94 | the written file is the records' texts in the JSON array framing |
| UpdateGolden.PatchAsWrittenFailsAt | Update/update_golden.py:54-56 | as written, the key loop raises TypeError as soon as a golden column of the batch row holds a number, a boolean or a missing value |
| UpdateGolden.MatchedRowRaises | Update/update_golden.py:56 | as written, every batch row matched by a numeric id raises; the corrected loop keeps that id |
| JsonFraming.WriteJsonArray | Update/update_golden.py:83-94 | the writing loop produces "[\n", the tab-prefixed texts joined by ",\n", and "\n]" |
| JsonFraming.WriteStep | Update/update_golden.py:83-94 | one more record, after the earlier records and a separator, extends the joined text by that record |
| JsonFraming.JsonArrayRoundTrip | Update/update_golden.py:83-94 | records without raw line breaks are read back from the file exactly |
| JsonFraming.EmptyArray | Update/update_golden.py:83-94 | no record gives the two brackets around an empty line |
| Strings.JoinSplit | AskNature/algolia_downloader/.ipynb_checkpoints/algolia-downloader-checkpoint.py:101-107 | joining the parts of a split with the same separator gives back the text |
| Strings.SplitPartsFree | AskNature/algolia_downloader/.ipynb_checkpoints/algolia-downloader-checkpoint.py:101-107 | no part of a split holds the separator |
| Strings.SplitJoin | Update/update_golden.py:83-94 | splitting a join gives back the parts when the separator's last character occurs nowhere else; this is how the written JSON array is read back |
| Strings.UpToNewline | LabeledData/convert_with_api.py:115 | what `.*` matches: the longest prefix without a line break, ending at one or at the end |
| Strings.UpToNewlineWhole | LabeledData/convert_with_api.py:115 | a text without a line break is matched whole by `.*` |
| Strings.LStrip | AskNature/doi_scraper/get_dois.py:43 | left strip: a suffix of the input that starts with a non-space character, where everything cut off is whitespace |
| Strings.RStrip | AskNature/doi_scraper/get_dois.py:43 | right strip: a prefix of the input that ends with a non-space character, where everything cut off is whitespace |
| Strings.ReplaceChar | AskNature/doi_scraper/get_dois.py:79 | same length; each '%' becomes '/' and every other character is kept |
| Strings.LowerIdempotent | AskNature/taxonomy/taxonomy_converter.py:36-37 | lowercasing twice is lowercasing once |
| DoiPattern.SearchFrom | LabeledData/convert_with_api.py:286-287 | the match found starts at the leftmost position where the pattern matches |
| DoiPattern.MatchIsDoiShaped | LabeledData/convert_with_api.py:286 | every match starts with "10." and four digits, holds a '/', has no whitespace and none of " & ' < >, and ends in a word character |
| DoiPattern.UpperDoiShaped | LabeledData/convert_with_api.py:288 | uppercasing keeps that shape |
| DoiPattern.UpperMatchSearch | LabeledData/convert_with_api.py:286-288 | searching an uppercased match finds all of it again, from its first character |
| DoiPattern.SkipNoOne | LabeledData/convert_with_api.py:286 | no match starts where there is no '1' |
| ConvertWithApi.CleanLabels | LabeledData/convert_with_api.py:271-283 | list length, order and label lengths kept; each whitespace character becomes '_' and every other character is lowercased |
| ConvertWithApi.CleanLabelsNormalised | LabeledData/convert_with_api.py:271-283 | cleaned labels hold no whitespace and no uppercase letter, and cleaning twice equals cleaning once |
| ConvertWithApi.LargestPosition | LabeledData/convert_with_api.py:54-57 | the first loop finds the largest position, starting from 0, or raises ValueError when a word has no position; that value bounds every listed position and is 0 or one of them |
| ConvertWithApi.MaxPosition | LabeledData/convert_with_api.py:54-57 | the largest position, starting from 0: it bounds every listed position and is 0 or one of them |
| ConvertWithApi.PlaceWord | LabeledData/convert_with_api.py:60-62 | the inner loop writes the word at each of its positions in place, counting negative positions from the end; it fails exactly when a position is out of range |
| ConvertWithApi.BuildAbstract | LabeledData/convert_with_api.py:51-66 | the two loops compute the abstract of the inverted index, with its error cases |
| ConvertWithApi.AbstractOf | LabeledData/convert_with_api.py:51-66 | the abstract on values: ValueError for a word without positions, IndexError for a position out of range, otherwise the filled tokens joined by spaces |
| ConvertWithApi.AbstractTokens | LabeledData/convert_with_api.py:51-66 | the abstract is the largest position (0, or a listed position bounding all others) plus one tokens joined by spaces; each listed position holds the word of the last key listing it, and every other position holds "-" |
| ConvertWithApi.AbstractExample | LabeledData/convert_with_api.py:51-66 | {"the": [0, 2], "fox": [1]} gives "the fox the" |
| ConvertWithApi.ExtractDois | LabeledData/convert_with_api.py:285-290 | the uppercased first match, or ""; its meaning is stated by ExtractDoisMeaning |
| ConvertWithApi.ExtractDoisMeaning | LabeledData/convert_with_api.py:285-290 | the result is "" exactly when nothing matches; otherwise it is the uppercased leftmost match, DOI-shaped |
| ConvertWithApi.ExtractDoisIdempotent | LabeledData/convert_with_api.py:285-290 | extracting from an extracted DOI returns it unchanged |
| ConvertWithApi.ExtractDoisExample | LabeledData/convert_with_api.py:285-290 | "https://doi.org/10.1234/abcd.5678" gives "10.1234/ABCD.5678" |
| ConvertWithApi.ExtractDoisNone | LabeledData/convert_with_api.py:285-290 | a text without the digit 1 gives "" |
| ConvertWithApi.ExtractOaId | LabeledData/convert_with_api.py:112-115 | the only failure is AttributeError |
| ConvertWithApi.ExtractOaIdMeaning | LabeledData/convert_with_api.py:112-115 | a non-string gives ""; an OpenAlex URL gives the id after the prefix; a string fails exactly when the look-behind matches nowhere, its unescaped '.' matching any character but a line break; otherwise the result is the rest of the line after the leftmost match |
| ConvertWithApi.OaPrefixFrom | LabeledData/convert_with_api.py:115 | the leftmost position at or after the start where the look-behind matches, or none when it matches nowhere there |
| ConvertWithApi.OaWildcardExample | LabeledData/convert_with_api.py:115 | "https://openalex-org/W1" gives "W1", since the '.' of the pattern is a wildcard |
| ConvertWithApi.OaIdsMeaning | LabeledData/convert_with_api.py:203-206 | a list of ids fails exactly when one entry fails; otherwise it has one extracted id per entry, in order |
| ConvertWithApi.OaIdsSnoc | LabeledData/convert_with_api.py:203-206 | one more extractable entry appends its id to the list so far |
| ConvertWithApi.OaIdsFails | LabeledData/convert_with_api.py:203-206 | one entry without the OpenAlex prefix makes the whole id list fail with that entry's error |
| ConvertWithApi.NewVenueNames | LabeledData/convert_with_api.py:238-245 | an old venue name is kept exactly when the API-derived list lacks it |
| ConvertWithApi.ApiFieldsMeaning | LabeledData/convert_with_api.py:153-218 | the API branch fails exactly when some id extraction or the abstract fails; otherwise it gives one author id and one name per authorship, one reference id per work, venue ids ending with the host id, and the abstract, title and open-access fields of the response |
| ConvertWithApi.CollectVenues | LabeledData/convert_with_api.py:164-183 | the venue loop gives the non-empty alternate ids and names, then the host venue's; nothing without a host venue |
| ConvertWithApi.CollectAuthors | LabeledData/convert_with_api.py:187-200 | the author loop gives the authorships' extracted ids and their names, in order |
| ConvertWithApi.AuthorIdsFail | LabeledData/convert_with_api.py:187-200 | the author ids fail exactly when one authorship's id fails |
| ConvertWithApi.CollectApiFields | LabeledData/convert_with_api.py:153-218 | the API branch in the source's order computes the API fields, failing on the first exception |
| ConvertWithApi.CollectOldVenueNames | LabeledData/convert_with_api.py:238-245 | the old-venue loop gives the old names missing from the current list, in order |
| ConvertWithApi.MisalignedLookup | LabeledData/convert_with_api.py:101-109 | as written, a response without a DOI followed by one with a DOI gives two responses and one DOI; the second paper's DOI is found at position 0, which holds the first paper's response, so the lists are not aligned |
| ConvertWithApi.ApiData | LabeledData/convert_with_api.py:101-109 | the corrected lists: one DOI per kept response, and no more responses than were received |
| ConvertWithApi.ApiDataAligned | LabeledData/convert_with_api.py:101-109 | the corrected lists are aligned, as the record builder requires, and keep exactly the responses whose DOI extracts |
| ConvertWithApi.RecordOf | LabeledData/convert_with_api.py:148-262 | the record of one row on values: its own record with the old venue names merged in, or the exception that skips the row; stated by NoMatchRecord, MatchRecord and RecordCommon |
| ConvertWithApi.ConvertRow | LabeledData/convert_with_api.py:148-263 | one loop iteration builds the record of the row, or the exception that skips it |
| ConvertWithApi.NoMatchRecord | LabeledData/convert_with_api.py:220-245 | a row without an API match converts; it has no venue, author or reference ids, and keeps its own title, abstract, paper and venue names; its mesh terms and author names are the cells' text copied as it is, and the empty list only when the column is absent |
| ConvertWithApi.MatchRecord | LabeledData/convert_with_api.py:148-218 | a matched row takes the fields of the response its DOI points to; that response's DOI extracts to the row's; the row converts exactly when those fields can be built |
| ConvertWithApi.RecordCommon | LabeledData/convert_with_api.py:231-252 | every record has the uppercased DOI, the row's petal id and cleaned labels; its venue names start with the API-derived list, then hold the old names not in it, so no old name is lost |
| ConvertWithApi.ConvertedSplit | LabeledData/convert_with_api.py:146-267 | the records of two stretches of rows are those of the first followed by those of the second, so a failing row does not stop later rows; at most one record per row |
| ConvertWithApi.ConvertedBound | LabeledData/convert_with_api.py:146-267 | no more records than rows |
| ConvertWithApi.ConvertToJson | LabeledData/convert_with_api.py:128-269 | the loop emits the records of the rows that convert, in row order |
| ConvertWithApi.WriteGoldenFile | LabeledData/convert_with_api.py:306-317 | the output file is the records' texts in the JSON array framing |
| TaxonomyConverter.LabelsToList | AskNature/taxonomy/taxonomy_converter.py:55-73 | the loop computes the label sets of the entries, failing on the first entry that cannot be read |
| TaxonomyConverter.LabelSetsFailure | AskNature/taxonomy/taxonomy_converter.py:64-73 | an unreadable entry makes the whole list fail with its error |
| TaxonomyConverter.LabelSetsMeaning | AskNature/taxonomy/taxonomy_converter.py:64-73 | the list reads exactly when every entry is NaN or a list; then it has one entry per cell, NaN giving [], and each list keeps its length and order, lowercased |
| TaxonomyConverter.LowerAllNormal | AskNature/taxonomy/taxonomy_converter.py:71 | lowercased labels hold no uppercase letter, and lowercasing again changes nothing |
| TaxonomyConverter.LevelsShape | AskNature/taxonomy/taxonomy_converter.py:76-82 | `get_labels`, modelled by `LevelsOf`, gives three level lists, each with one entry per row |
| TaxonomyConverter.GetFunctionMap | AskNature/taxonomy/taxonomy_converter.py:23-42 | KeyError exactly when one of the six columns is missing; otherwise the six columns Level I, II, III, Alevel I, II, III, all of one length, each of its column's length, missing cells "" and values lowercased |
| TaxonomyConverter.FilledNormal | AskNature/taxonomy/taxonomy_converter.py:35-37 | a normalised column holds no uppercase letter, and normalising it again changes nothing |
| TaxonomyConverter.PrepareCsv | AskNature/taxonomy/taxonomy_converter.py:85-117 | a label read failure or a missing function-map column leaves the frame untouched with that error; otherwise every row is rewritten in place with its conversion, row count and order kept |
| TaxonomyConverter.ConvertRows | AskNature/taxonomy/taxonomy_converter.py:101-115 | the row loop rewrites every row in place with its own conversion, keeping row count and order |
| TaxonomyConverter.PreparedRows | AskNature/taxonomy/taxonomy_converter.py:101-115 | each row's six label columns hold the converter's six lists and its manual-label column the flag; every other column is unchanged |
| TaxonomyConverter.SeparateManualLabels | AskNature/taxonomy/taxonomy_converter.py:119-136 | KeyError without a `manual_label` column; otherwise the rows flagged False; stated by SeparationPartition and FlaggedAsMeaning |
| TaxonomyConverter.FlaggedAsConcat | AskNature/taxonomy/taxonomy_converter.py:129-130 | filtering distributes over concatenation, so the kept rows stay in input order |
| TaxonomyConverter.FlaggedAsMeaning | AskNature/taxonomy/taxonomy_converter.py:129-130 | a row is kept exactly when it is an input row carrying the flag; no more rows than there were |
| TaxonomyConverter.SeparationPartition | AskNature/taxonomy/taxonomy_converter.py:129-136 | the returned rows and the manual rows (`manual_df`, modelled by `ManualRows`) are disjoint; a row flagged neither True nor False is in neither; together they are all rows when every row is flagged |
| TaxonomyConverter.FlaggedCount | AskNature/taxonomy/taxonomy_converter.py:129-130 | the two filters together hold at most all rows, and exactly all when every row is flagged |
| AlgoliaDownloader.GetDoi | AskNature/algolia_downloader/.ipynb_checkpoints/algolia-downloader-checkpoint.py:64-77 | the DOI of every source is "" |
| AlgoliaDownloader.GetUrl | AskNature/algolia_downloader/.ipynb_checkpoints/algolia-downloader-checkpoint.py:79-90 | the url is the index-th source link |
| AlgoliaDownloader.ProcessPapers | AskNature/algolia_downloader/.ipynb_checkpoints/algolia-downloader-checkpoint.py:111-127 | the nested loop computes the papers' rows, failing on the first paper whose sources or labels cannot be read |
| AlgoliaDownloader.ProcessPaper | AskNature/algolia_downloader/.ipynb_checkpoints/algolia-downloader-checkpoint.py:114-123 | the inner loop computes one paper's rows, one per source link, or the paper's sources or label error |
| AlgoliaDownloader.Processed | AskNature/algolia_downloader/.ipynb_checkpoints/algolia-downloader-checkpoint.py:111-123 | the rows of all papers on values, in paper order, failing with the first paper's error; stated by ProcessedFailure, ProcessedConcat and ProcessedCount |
| AlgoliaDownloader.PaperRows | AskNature/algolia_downloader/.ipynb_checkpoints/algolia-downloader-checkpoint.py:114-123 | the rows of one paper on values; stated by PaperRowsMeaning and SourcesChoice |
| AlgoliaDownloader.ProcessedFailure | AskNature/algolia_downloader/.ipynb_checkpoints/algolia-downloader-checkpoint.py:113-123 | a paper whose rows fail, after readable earlier papers, makes the whole call fail with its error |
| AlgoliaDownloader.ProcessedConcat | AskNature/algolia_downloader/.ipynb_checkpoints/algolia-downloader-checkpoint.py:113-123 | the rows of two lists of papers are those of the first followed by those of the second, so rows are ordered by paper |
| AlgoliaDownloader.ProcessedCount | AskNature/algolia_downloader/.ipynb_checkpoints/algolia-downloader-checkpoint.py:113-123 | there are exactly as many rows as source links; a paper without links gives none |
| AlgoliaDownloader.PaperRowsMeaning | AskNature/algolia_downloader/.ipynb_checkpoints/algolia-downloader-checkpoint.py:114-123 | a paper gives one row per link, in link order; row i has doi "", url link i and the paper's labels; it fails exactly when its chosen sources are not an object, or when it has a link and unreadable labels |
| AlgoliaDownloader.SourcesChoice | AskNature/algolia_downloader/.ipynb_checkpoints/algolia-downloader-checkpoint.py:114-116 | the reference sources are used when non-empty, else the sources, else nothing, which gives no rows; a chosen value that is not an object (a truthy non-object `reference_sources`, or a non-object `sources` when the reference sources are falsy) raises AttributeError |
| AlgoliaDownloader.ComponentsMeaning | AskNature/algolia_downloader/.ipynb_checkpoints/algolia-downloader-checkpoint.py:101-107 | in `get_labels`, modelled by `LabelsOf`, the k-th level list has one entry per label, its k-th " > " component; it fails with IndexError exactly when some label has too few components |
| AlgoliaDownloader.SingleComponent | AskNature/algolia_downloader/.ipynb_checkpoints/algolia-downloader-checkpoint.py:101-105 | a label without " > " is its own first component and has no second one |
| AlgoliaDownloader.MissingLevel | AskNature/algolia_downloader/.ipynb_checkpoints/algolia-downloader-checkpoint.py:101-107 | a missing level key gives an empty level list |
| AlgoliaDownloader.WithConstantColumns | AskNature/algolia_downloader/.ipynb_checkpoints/algolia-downloader-checkpoint.py:133-141 | every row keeps its doi, url and labels, gets "" for title, abstract, venue names, full-text link and open access, and "Y" for isBiomimicry |
| AlgoliaDownloader.WrittenRows | AskNature/algolia_downloader/.ipynb_checkpoints/algolia-downloader-checkpoint.py:111-141 | every written row has doi "", is marked as biomimicry, and has one of the papers' source links as its url |
| GetDois.FirstDigit | AskNature/doi_scraper/get_dois.py:45 | the first digit's position, or none when there is no digit |
| GetDois.FindHrefDoi | AskNature/doi_scraper/get_dois.py:27-31 | the search-and-break loop computes the segment of the first link mentioning "doi.org", or "" |
| GetDois.PullDoi | AskNature/doi_scraper/get_dois.py:25-48 | the DOI of a fetched page on values; stated by HrefDoiFirst, UrlFallback and TrimKeepsDoi |
| GetDois.PullDoiSteps | AskNature/doi_scraper/get_dois.py:25-48 | the steps after fetching compute the page's DOI, with its error cases |
| GetDois.HrefDoiFirst | AskNature/doi_scraper/get_dois.py:27-31 | the first link mentioning "doi.org" decides; with none the result is "" |
| GetDois.SegmentAfterMeaning | AskNature/doi_scraper/get_dois.py:30 | the segment runs from the first "doi.org/" up to the next one or the end, holds no "doi.org/", and is not trimmed; a link without "doi.org/" raises IndexError |
| GetDois.NoOccurrencePrefix | AskNature/doi_scraper/get_dois.py:30 | the text before the next "doi.org/" holds none |
| GetDois.UrlFallback | AskNature/doi_scraper/get_dois.py:38-47 | with no link and no soup text, the result is exactly the pattern's first match in the URL, which stripping and digit trimming keep whole; with no match the call raises AttributeError |
| GetDois.TrimKeepsDoi | AskNature/doi_scraper/get_dois.py:42-45 | stripping and trimming to the first digit leave a DOI-shaped text whole |
| GetDois.FirstFailure | AskNature/doi_scraper/get_dois.py:64-67 | the first row that raises: every earlier row is skipped or has a url |
| GetDois.MergeDois | AskNature/doi_scraper/get_dois.py:51-82 | the loop succeeds exactly when no visited row raises, and only fails with KeyError; rows before the first failure are merged in place and the rest are untouched |
| GetDois.ScrapeDoi | AskNature/doi_scraper/get_dois.py:69-76 | the try block yields the scraped DOI, or "" when the request or `pull_doi` raises |
| GetDois.MergedRow | AskNature/doi_scraper/get_dois.py:64-80 | one row after the merge on values; stated by MergedRowMeaning and FailedScrapeKeepsRow |
| GetDois.MergedRowMeaning | AskNature/doi_scraper/get_dois.py:64-80 | merging keeps the row's columns and changes only the doi; a row without a truthy doi or a scraped DOI is unchanged; a stored DOI has every '%' made '/' and holds no '%' |
| GetDois.FailedScrapeKeepsRow | AskNature/doi_scraper/get_dois.py:69-80 | a request or `pull_doi` that raises or returns "" keeps the row's doi |
| ListInSet.UnexpectedCount | great_expectations/plugins/custom_modules/expect_column_list_to_be_in_set.py:48-55 | the count metric on values; stated by UnexpectedValuesMeaning and CountMatchesValues |
| ListInSet.UnexpectedValues | great_expectations/plugins/custom_modules/expect_column_list_to_be_in_set.py:58-66 | the values metric on values; stated by UnexpectedValuesMeaning and UnexpectedValuesConcat |
| ListInSet.CountMatchesValues | great_expectations/plugins/custom_modules/expect_column_list_to_be_in_set.py:48-66 | the values metric lists as many entries as the count metric counts |
| ListInSet.UnexpectedValuesMeaning | great_expectations/plugins/custom_modules/expect_column_list_to_be_in_set.py:58-66 | an entry is listed exactly when it is in the column and not a subset of the label set; the count is zero exactly when every entry is a subset |
| ListInSet.UnexpectedValuesConcat | great_expectations/plugins/custom_modules/expect_column_list_to_be_in_set.py:58-66 | listing distributes over concatenation, so the listed entries keep column order |
| ListInSet.NeverCounted | great_expectations/plugins/custom_modules/expect_column_list_to_be_in_set.py:33-66 | an entry drawn only from the label set, the empty entry among them, is never counted or listed, wherever it sits in the column |
| ListInSet.OutsideCounted | great_expectations/plugins/custom_modules/expect_column_list_to_be_in_set.py:33-66 | one label outside the set makes its entry counted and listed |
| ListInSet.ValidateConfiguration | great_expectations/plugins/custom_modules/expect_column_list_to_be_in_set.py:85-99 | the configuration checks on values; stated by ValidateConfigurationMeaning |
| ListInSet.ValidateConfigurationMeaning | great_expectations/plugins/custom_modules/expect_column_list_to_be_in_set.py:85-99 | accepted, returning True, exactly when `column` is present and any `mostly` is a number in [0, 1]; a missing column gives its message; every rejection is an invalid configuration |
| ListInSet.BoolMostlyAccepted | great_expectations/plugins/custom_modules/expect_column_list_to_be_in_set.py:92-96 | a boolean `mostly` passes, as booleans are integers 0 and 1 |
| ListInSet.SubstituteNone | great_expectations/plugins/custom_modules/expect_column_list_to_be_in_set.py:118-121 | the parameters hold the arguments and the listed keys; given values are kept and missing listed keys are None |
| ListInSet.RenderedOf | great_expectations/plugins/custom_modules/expect_column_list_to_be_in_set.py:112-156 | the rendered template, parameters and styling on values, the styling None when the runtime configuration has none; stated by TemplateShape and RenderedParams |
| ListInSet.PrescriptiveRenderer | great_expectations/plugins/custom_modules/expect_column_list_to_be_in_set.py:104-156 | the step-by-step template and in-place parameter updates compute the rendered template, parameters and styling |
| ListInSet.TemplateShape | great_expectations/plugins/custom_modules/expect_column_list_to_be_in_set.py:123-142 | the sentence starts with the subject, or with the condition and ", then " before it; it ends with the `mostly` clause when `mostly` is set, else with the subject and "." |
| ListInSet.NoMostlyEnding | great_expectations/plugins/custom_modules/expect_column_list_to_be_in_set.py:123-135 | a sentence ending in the subject and "." does not end in the `mostly` clause |
| ListInSet.RenderedParams | great_expectations/plugins/custom_modules/expect_column_list_to_be_in_set.py:118-143 | the parameters hold all five listed keys; without a row condition they keep every argument (other than a `mostly_pct` of its own) and hold `mostly_pct` when `mostly` is set |

## Left out

- The network is not modelled. This covers the HTTP requests of `get_api_data`, the request and HTML parsing in `pull_doi`, and the Algolia search in `request_papers`. Their results, the API responses, the DOI list, a page's links and soup texts, and the search hits, are inputs, and fetching a page is a function parameter.
- The soup text search at `AskNature/doi_scraper/get_dois.py:36` is not modelled. Its pattern is written in JavaScript style, and its result is given as an input list.
- `eval` of stringified lists is not modelled. The CSV fields it is applied to arrive already parsed. The record builder copies two cells without `eval`, `mesh_terms` and `author_names` (`LabeledData/convert_with_api.py:222` and `:225`); the model keeps them as the cells' text. In the taxonomy driver a cell that is not a list literal is an input of its own and gives an `EvalFailure`. In the record builder a malformed literal cannot be represented: the venue-name and level-label cells are parsed lists. So ConvertWithApi.NoMatchRecord's "a row without an API match converts" holds only for rows whose literals parse; in the source a malformed literal raises and skips the row.
- `convert_labels.convert_labels` is not part of this model. It is a function parameter returning the seven outputs.
- `json.dumps` is not modelled: the records' serialised texts are inputs of the file framing.
- `str()` of the listed entries in the unexpected-values metric is not modelled. The metric returns the entries themselves.
- `num_to_str` and the row-condition parser are function parameters. This leaves out the framework's float formatting of `mostly_pct`.
- Other framework behaviour is not modelled:
  - the `super().validate_configuration` call;
  - `default_kwarg_values`;
  - the engines and decorators.
- ListInSet.PrescriptiveRenderer requires a set `mostly` to be a number, as the configuration check demands. With a non-numeric `mostly` the source would multiply a string and then format it; that path is not modelled.
- The metric body at line 52 of the expectation plugin does not parse: an indented docstring follows `:[]`. The intended body (mask, filter, count) is modelled.
- Plumbing is not modelled:
  - argument parsing;
  - CSV and JSON reading and writing;
  - directory creation;
  - the glob count and the CSV write of the manual rows in `separate_manual_labels`;
  - progress and traceback printing, and the printing of every batch value at `Update/update_golden.py:55`.
- `prepare_csv` reads the same input file twice, once through `get_labels` and once directly. The model reads the frame once.
- `get_function_map` lowercases every column of the function map. Only the six returned columns are modelled. Their cells are strings or missing.
- Python's `True == 1` is not modelled when ids are compared. A boolean id is counted as 0 or 1 by `max`, but it never equals a numeric id in the membership test.
- Missing values in the golden frame are modelled as one `Null`. NaN, `None` and a missing key behave alike: they never match, never count as informative, and are skipped by `max`.
- `pd.NA` in the string-typed doi column is not modelled. In the source, `not pd.NA` raises TypeError. Doi cells are strings, and an empty one is skipped.
- A NaN `mostly` is not modelled.
- Dead code is not modelled in either of these places:
  - The regular-expression collapse at `LabeledData/convert_with_api.py:64` is computed and thrown away.
  - The `error_type == KeyboardInterrupt` test at `AskNature/doi_scraper/get_dois.py:73-74` compares an exception instance with a class and never holds.
- The first definition of `clean_labels` (`LabeledData/convert_with_api.py:36-48`) is identical to the second and is superseded by it. Only the second is modelled.
- Unicode is not modelled. Whitespace, word characters, `lower` and `upper` are those of ASCII.
- The alignment of the API responses with the DOI list is a precondition of the record builder. As written, `get_api_data` does not guarantee it (see "Findings"); the corrected lists meet it.
- The requests of `get_api_data`, its skipping of empty DOIs and of responses other than HTTP 200, and its write of the found DOI back into the frame (`LabeledData/convert_with_api.py:91-104`) are not modelled. ConvertWithApi.ApiDataAsWritten and ConvertWithApi.ApiData take the HTTP 200 responses in row order.
- JSON null in a string field of the API response is not modelled: a null `title` (`LabeledData/convert_with_api.py:209`), a null host venue `display_name` (line 169) or a null `open_access.oa_url` (line 218) reaches the record as None in the source. ConvertWithApi.ApiPaper holds strings there.
- The function map's columns are read as "Alevel I/II/III", as the code spells them.
- UpdateGolden.MergeData: as written, every batch row matched by a numeric id raises TypeError at its `petalID` column, so no such row is ever updated. The model uses the corrected field loop (see "Findings"); UpdateGolden.MatchedRowRaises exhibits the code as written.
- ConvertWithApi.ApiFieldsMeaning: the API response and the CSV row always carry every field the converter reads, so the KeyError paths cannot arise. These are the response keys read with `[]` at `LabeledData/convert_with_api.py:150-218` (`id`, `mesh`, `descriptor_name`, the host venue's `id` and `display_name`, `alternate_host_venues`, `author`, `referenced_works`, `abstract_inverted_index`, `open_access`); the falsy response replaced by `{}` at line 150; and the CSV columns read with `[]` at lines 228-257.

## Findings

| source | as written | input that shows it | evidently intended | confidence | as-written member | corrected member |
|---|---|---|---|---|---|---|
| Update/update_golden.py:56 | `len(row[series_key])` is evaluated for every batch key that is a golden column. A numeric `petalID`, a boolean or a NaN has no length, so TypeError is raised. | A batch row whose numeric `petalID` (say 7) is in the golden id list: its own `petalID` key is a golden column, so `len(7)` raises at that column. Golden columns earlier in the batch row's key order are written before it. | Overwrite a golden cell only with an informative value: a non-empty string or list, or any number or boolean; never with a missing value. | not executed | UpdateGolden.MatchedRowRaises | UpdateGolden.PatchCell |
| LabeledData/convert_with_api.py:105-107 | Every HTTP 200 response is appended to the response list, but its DOI is appended to the DOI list only when one is extracted. | Two rows whose responses carry the DOIs "" and "10.1234/abcd": the responses are [first, second] and the DOIs ["10.1234/ABCD"], so the second row's lookup at line 148 takes position 0 and gets the first paper's response. | Keep a response only together with its DOI, so that position i of both lists belongs to the same paper. | not executed | ConvertWithApi.MisalignedLookup | ConvertWithApi.ApiData |
