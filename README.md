# News classification pipeline: a Dafny model

This project models the in-memory data handling of a news pipeline. The pipeline works in these steps:

1. It reads RSS entries and gives every entry its four fields: title, summary, link and published.
2. It parses the RSS `pubDate` and rewrites it as `YYYY-MM-DD HH:MM:SS`. Entries whose date does not parse are dropped.
3. It scores "title summary" with a trained multi-label classifier and turns each probability row into a list of categories.
4. It corrects the category names and builds one record per article.
5. It stores the records in a MySQL table `news` keyed by the UNIQUE `link` column. The categories go in as a JSON array.
6. It recounts the articles per category into `category_counts`.

A Streamlit dashboard reads the data back through a filtered query, a category tally, a stopword-filtered word cloud and a sorted category list.

The repository has two variants of several scripts: the main one (`Gruppuppgift/`) and the "Ulf" one (`Gruppuppgift-Ulf/`). Both are modelled where they differ.

Modules:

- `Labeling` (labeling.dfy): the 0.3 threshold (the exact double), the indices that pass it, and numpy's arg-max.
- `ReturnsMain` (returns_main.dfy) and `ReturnsUlf` (returns_ulf.dfy): preprocessing, classification, name correction, record assembly and validation of the two variants.
  - `Pipeline`, the model of each script's `main()`, takes the classifier as a parameter `score` that maps a text to its probability row.
  - The Ulf module also models the category tally over the records.
- `FeedList` (feed_list.dfy): `getting_necessary_list`, `parse_date` and `the_final_list`.
  - `parse_date` follows CPython's `strptime` for `"%a, %d %b %Y %H:%M:%S %z"` and then `"... GMT"`, and `strftime("%Y-%m-%d %H:%M:%S")`.
- `Dates` (dates.dfy): the Gregorian calendar, the canonical 19-character text, `date + timedelta(days=1)`.
- `Normalizer` (normalizer.dfy): the training-text normaliser, plus stopword removal and stemming. Character classes (`lower`, `\w`, `\d`), the stopword set and the stemmer are parameters.
- `Json` (json.dfy): `json.dumps` (with `ensure_ascii`) for strings and lists of strings, and `json.loads` for arrays of strings.
- `Store` (store.dfy): class `NewsStore` holds the two tables as maps.
  - The upserting insert (`ON DUPLICATE KEY UPDATE`), the plain insert of the Ulf variant and the recount that replaces `category_counts` are its methods.
  - The module also holds the Ulf configuration check.
- `Tally` (tally.dfy): the dictionary-counting loop shared by the recount, the dashboard and the Ulf script.
- `Dashboard` (dashboard.dfy): the filtered query and its parameters, the dashboard's tally, the word-cloud filter and the sorted category list. `Lex` (lex.dfy) models Python's string order and `sorted(set(...))`.
- `Text`, `Seqs`, `Records`, `Wrappers`: Python whitespace, `strip`/`split`/`join`, list comprehensions, the article and record shapes, and `Option`/`Result`.

Errors that the code raises are `Err`/`None` results with the Python exception's name: `ValueError`, `IndexError`, `OverflowError` and `JSONDecodeError`.

Where the design description and the code disagree, the model follows the code:

- `parse_date` keeps the wall-clock fields and drops a `%z` offset instead of converting to UTC.
- An entry whose date does not parse is dropped, not given a fallback timestamp.
- The normaliser removes punctuation before it removes tags (see Findings).
- The Ulf variant inserts without upsert and attaches no fallback category.
- The main variant never compares the number of label lists with the number of articles. It does not need to, because `ReturnsMain.Pipeline` shows that both come from the same filter.
- At inference the classifier receives the raw "title summary" text, not the normalised one.

## Model

| member | source | states |
|---|---|---|
| Labeling.PassingIndices | Gruppuppgift/MLModelReturns_4.py:38 | exactly the indices whose probability is at least 0.3, strictly increasing |
| Labeling.SelectedIsThreshold | Gruppuppgift-Ulf/MLModelReturns_4_Ulf.py:106 | a row's selection is exactly the categories at or above the threshold in category order, and is empty iff no probability reaches it |
| Labeling.ArgMax | Gruppuppgift/MLModelReturns_4.py:42 | `np.argmax`: an index holding the maximum, with every earlier entry strictly smaller (the first maximum) |
| ReturnsMain.PreprocessTextKeeps | Gruppuppgift/MLModelReturns_4.py:21-25 | one text per kept article, in order, "title summary"; an article is kept iff title and summary are both non-blank |
| ReturnsMain.HasTextIffWords | Gruppuppgift/MLModelReturns_4.py:25 | `title.strip() and summary.strip()` holds iff both have at least one whitespace-separated word |
| ReturnsMain.RowLabels | Gruppuppgift/MLModelReturns_4.py:36-43 | a row's labels fail only on an empty row (argmax of nothing); otherwise they are never empty |
| ReturnsMain.RowLabelsPolicy | Gruppuppgift/MLModelReturns_4.py:38-43 | with some probability at or above 0.3 the labels are exactly the passing categories; otherwise the single category at the first maximum |
| ReturnsMain.ClassifyArticles | Gruppuppgift/MLModelReturns_4.py:27-47 | one label list per row in row order, each the row's policy result; fails iff there are rows but no categories |
| ReturnsMain.FixNameProperties | Gruppuppgift/MLModelReturns_4.py:50-58 | exactly the four mapped names change, and a corrected name is never changed again |
| ReturnsMain.FixCategoryNamesShape | Gruppuppgift/MLModelReturns_4.py:58 | the outer length and every inner length are kept, and correcting twice equals correcting once |
| ReturnsMain.CreateFinalDict | Gruppuppgift/MLModelReturns_4.py:60-75 | record i is article i's four fields with the corrected i-th label list; IndexError iff there are fewer label lists than articles |
| ReturnsMain.ValidateDataIsIdentity | Gruppuppgift/MLModelReturns_4.py:77-81 | the `isinstance(item, dict)` filter returns its input unchanged |
| ReturnsMain.Pipeline | Gruppuppgift/MLModelReturns_4.py:83-100 | one record per kept article, record i carrying the labels of kept article i's own text; fails iff no article is kept (the classifier refuses an empty batch) or there are no categories |
| ReturnsUlf.PreprocessText | Gruppuppgift-Ulf/MLModelReturns_4_Ulf.py:95-97 | one text per article; an empty title becomes "No title" and an empty summary "No summary" |
| ReturnsUlf.TextsAgreeOnKept | Gruppuppgift-Ulf/MLModelReturns_4_Ulf.py:97 | on every article the main variant keeps, both variants score the same text |
| ReturnsUlf.ClassifyArticles | Gruppuppgift-Ulf/MLModelReturns_4_Ulf.py:100-109 | one label list per row, each exactly the threshold selection, with no fallback |
| ReturnsUlf.EmptyLabelsWhenNothingPasses | Gruppuppgift-Ulf/MLModelReturns_4_Ulf.py:105-107 | a label list is empty iff no probability of its row reaches 0.3 |
| ReturnsUlf.CreateFinalDict | Gruppuppgift-Ulf/MLModelReturns_4_Ulf.py:111-123 | the append loop gives record i article i's fields and the i-th label list; IndexError iff labels are fewer than articles |
| ReturnsUlf.DumpRecord | Gruppuppgift-Ulf/MLModelReturns_4_Ulf.py:137 | `json.dumps` of a record is a text that starts with `{` and ends with `}` |
| ReturnsUlf.ValidateDataIsIdentity | Gruppuppgift-Ulf/MLModelReturns_4_Ulf.py:125-138 | the `json.dumps(item)` filter keeps every record |
| ReturnsUlf.BuildRecords | Gruppuppgift-Ulf/MLModelReturns_4_Ulf.py:162-167 | ValueError iff the article and label counts differ, otherwise record i pairs article i with label list i |
| ReturnsUlf.Pipeline | Gruppuppgift-Ulf/MLModelReturns_4_Ulf.py:150-169 | fails iff the feed is empty (the classifier refuses an empty batch); otherwise the length check always passes and record i is article i with the threshold selection of its own text |
| ReturnsUlf.CategoryCounts | Gruppuppgift-Ulf/MLModelReturns_4_Ulf.py:183-187 | each category counted once per occurrence over the records, keys exactly the occurring categories, counts summing to the number of labels |
| Tally.CountCategories | Gruppuppgift/DbTransfer_5.py:69-73 | the nested counting loop yields, per category, its occurrences over all lists, keys exactly the occurring ones, total equal to the number of labels |
| Tally.OccurrencesPositive | Gruppuppgift/DbTransfer_5.py:72-73 | a category has a positive count iff some list contains it |
| Tally.AddOneTotal | Gruppuppgift/DbTransfer_5.py:73 | one `get(c, 0) + 1` update raises the sum of all counts by one |
| FeedList.GettingNecessaryList | Gruppuppgift-Ulf/FullRSSList_1_2_Ulf.py:9-27 | one item per post in order, each field the post's value or "" when absent |
| FeedList.ParseZone | Gruppuppgift-Ulf/FullRSSList_1_2_Ulf.py:40 | an accepted `%z` starts with `+`, `-` or `Z` and gives an offset of less than a day |
| FeedList.Combine | Gruppuppgift-Ulf/FullRSSList_1_2_Ulf.py:46 | datetime accepts the parsed fields iff year is at least 1, the day exists in that month and the seconds are at most 59 |
| FeedList.PatternsDisjoint | Gruppuppgift-Ulf/FullRSSList_1_2_Ulf.py:39-49 | no text matches both patterns |
| FeedList.ParseDateIsCanonical | Gruppuppgift-Ulf/FullRSSList_1_2_Ulf.py:47 | every result is the 19-character `YYYY-MM-DD HH:MM:SS` text of a valid date-time, and reads back to itself |
| FeedList.GmtRoundTrip | Gruppuppgift-Ulf/FullRSSList_1_2_Ulf.py:41-47 | an RSS date written with "GMT" comes back with the same day, month, year and time, or ValueError when datetime refuses those fields |
| FeedList.OffsetDiscarded | Gruppuppgift-Ulf/FullRSSList_1_2_Ulf.py:40-47 | with any `+hhmm`/`-hhmm` offset the result is the wall clock as written, the same for every offset |
| FeedList.ZoneRoundTrip | Gruppuppgift-Ulf/FullRSSList_1_2_Ulf.py:40 | an offset written as `+hhmm` or `-hhmm` reads back as its signed number of seconds |
| FeedList.ZoneOfADayRefused | Gruppuppgift-Ulf/FullRSSList_1_2_Ulf.py:40 | an offset of 24 hours or more is refused |
| FeedList.EmptyDateRefused | Gruppuppgift-Ulf/FullRSSList_1_2_Ulf.py:52 | the empty date raises ValueError |
| FeedList.FinalListKeepsExactly | Gruppuppgift-Ulf/FullRSSList_1_2_Ulf.py:62-74 | exactly the items whose date parses survive, as [title, summary, link, formatted date], never more than the input |
| FeedList.FinalListStep | Gruppuppgift-Ulf/FullRSSList_1_2_Ulf.py:62-71 | the list follows input order: one more item appends its article when its date parses and nothing otherwise |
| FeedList.FinalListDatesCanonical | Gruppuppgift-Ulf/FullRSSList_1_2_Ulf.py:66-69 | every published field of the final list is a canonical date-time text |
| FeedList.TheFinalList | Gruppuppgift-Ulf/FullRSSList_1_2_Ulf.py:54-74 | the try/append loop yields the final list: the surviving items in their order |
| Dates.NextDay | Gruppuppgift/App_6.py:83 | `end + timedelta(days=1)` is a valid, later date, with OverflowError exactly for 9999-12-31 |
| Dates.HalfOpenDayRange | Gruppuppgift/App_6.py:83-85 | `start <= published < end + 1 day` holds iff the publication date lies from start to end inclusive |
| Dates.FormatRoundTrip | Gruppuppgift-Ulf/FullRSSList_1_2_Ulf.py:47 | the canonical text of a valid date-time reads back to that date-time |
| Dates.ParseCanonicalIsFormat | Gruppuppgift-Ulf/FullRSSList_1_2_Ulf.py:47 | any text that reads as a canonical date-time is the canonical text of what it reads |
| Dates.Pad4RoundTrip | Gruppuppgift-Ulf/FullRSSList_1_2_Ulf.py:47 | `%Y` writes a year as four zero-padded digits that read back to the year |
| Json.ListRoundTrip | Gruppuppgift/DbTransfer_5.py:48 | decoding the JSON text of a list of strings gives the list back |
| Json.EncodeStringRoundTrip | Gruppuppgift/DbTransfer_5.py:48 | decoding the JSON text of a string gives the string back, with nothing left over |
| Json.EscapeStringIsAscii | Gruppuppgift/DbTransfer_5.py:48 | with `ensure_ascii` the escaped text is printable ASCII |
| Normalizer.PreprocessOutput | Gruppuppgift/MLModelMLC_3.py:42-47 | the output is lower case, only word characters or whitespace, and has no digit |
| Normalizer.TagStepIsNoOp | Gruppuppgift/MLModelMLC_3.py:44-46 | after the punctuation step the tag step never changes the text |
| Normalizer.RemovalsIdempotent | Gruppuppgift/MLModelMLC_3.py:44-46 | the punctuation, digit and tag removals a second time change nothing |
| Normalizer.TagNameSurvives | Gruppuppgift/MLModelMLC_3.py:44-46 | as written, `<name>` becomes `name`: the tag's word stays in the text |
| Normalizer.TagRemovedWhenFirst | Gruppuppgift/MLModelMLC_3.py:46 | with tags removed before punctuation, `<name>` disappears entirely |
| Normalizer.TagsFirstOutput | Gruppuppgift/MLModelMLC_3.py:42-47 | the corrected order still gives lower-case word-or-space text without digits |
| Normalizer.RemoveStopwordsWords | Gruppuppgift/MLModelMLC_3.py:54 | the result's words are the input's words minus stopwords, in order |
| Normalizer.StemWordsWords | Gruppuppgift/MLModelMLC_3.py:58 | the result's words are the stems of the input's words one by one, so the count is kept |
| Text.BlankIffNoWords | Gruppuppgift/App_6.py:153 | `s.strip()` is empty iff `s.split()` is empty |
| Text.WordsOfJoin | Gruppuppgift/MLModelMLC_3.py:54 | splitting the space-join of words gives the words back |
| Store.ValuesRoundTrip | Gruppuppgift/DbTransfer_5.py:48 | value tuple i keeps record i's fields, and its topic decodes to record i's categories |
| Store.Upsert | Gruppuppgift/DbTransfer_5.py:42-51 | the links after the upsert are the old ones plus the batch's |
| Store.UpsertLastWins | Gruppuppgift/DbTransfer_5.py:42-46 | a link of the batch holds the last batch row with that link, so one row per link |
| Store.UpsertUntouched | Gruppuppgift/DbTransfer_5.py:43-45 | a stored row whose link is not in the batch is unchanged |
| Store.UpsertIdempotent | Gruppuppgift/DbTransfer_5.py:45 | upserting the same batch twice equals upserting it once |
| Store.UpsertTopicRoundTrip | Gruppuppgift/DbTransfer_5.py:48 | the topic stored under a record's link decodes to the categories of the last record with that link |
| Store.UpsertWellFormed | Gruppuppgift/DbTransfer_5.py:45-51 | the upsert keeps every row under its own link with a decodable topic |
| Store.NewsStore.InsertDataUpsert | Gruppuppgift/DbTransfer_5.py:37-57 | the table becomes the upsert of the value tuples; the counts are untouched |
| Store.UpsertStoresOverlappingBatch | Gruppuppgift/DbTransfer_5.py:45 | every link of a batch is stored after the upsert, also when the batch overlaps the table |
| Store.PlainInsertNeverOverwrites | Gruppuppgift-Ulf/DbTransfer_5_Ulf.py:40-54 | a stored row is never changed; the batch's rows are all added iff no link repeats and none is stored, else nothing changes |
| Store.PlainInsertOverlapLosesBatch | Gruppuppgift-Ulf/DbTransfer_5_Ulf.py:47-52 | a batch holding one stored link leaves its new links unstored |
| Store.PlainInsertRerun | Gruppuppgift-Ulf/DbTransfer_5_Ulf.py:37-54 | a second run of the same non-empty batch adds nothing |
| Store.NewsStore.InsertDataPlain | Gruppuppgift-Ulf/DbTransfer_5_Ulf.py:37-54 | the table becomes the all-or-nothing plain insert of the value tuples; the counts are untouched |
| Store.NewsStore.FetchTopics | Gruppuppgift/DbTransfer_5.py:66-67 | every row's topic exactly once, in some order of the links |
| Store.NewsStore.CalculateCategoryCounts | Gruppuppgift/DbTransfer_5.py:59-81 | `category_counts` becomes exactly the tally of the decoded topics, stale entries gone; a malformed topic raises and writes nothing; a well-formed table never fails |
| Store.CheckConfigIff | Gruppuppgift-Ulf/DbTransfer_5_Ulf.py:15-25 | ValueError iff host, user, password or database is unset or empty |
| Dashboard.FetchArticlesFiltered | Gruppuppgift/App_6.py:67-107 | the clauses and parameters the builder appends; fails only on the day after 9999-12-31 |
| Dashboard.QueryShape | Gruppuppgift/App_6.py:83-102 | date range first; category clause and quoted name iff the category is not "" or "Alla"; search clause and two lowered patterns iff the search is non-empty; DESC iff "Nyast först" |
| Dashboard.QueryBalanced | Gruppuppgift/App_6.py:84-105 | the SQL text has exactly one `%s` per parameter |
| Dashboard.RenderPlaceholders | Gruppuppgift/App_6.py:84-102 | the SQL of any clause sequence holds as many `%s` as its clauses take parameters |
| Dashboard.QuotedIsJson | Gruppuppgift/App_6.py:90 | for plain ASCII names, the quoted category is its JSON string, the form the topic stores |
| Dashboard.DecodeAll | Gruppuppgift/App_6.py:127-128 | all fetched topics decode iff each does, row i giving list i |
| Dashboard.FetchCategoryCounts | Gruppuppgift/App_6.py:109-131 | the tally of the decoded topics, each category once per occurrence; a malformed topic raises |
| Dashboard.UniqueCategoriesSpec | Gruppuppgift/App_6.py:274 | the category list is strictly increasing and holds exactly the categories of the fetched topics |
| Dashboard.CleanedTextWords | Gruppuppgift/App_6.py:150-151 | the cleaned words are the summaries' words in order and case, minus those whose lower case is a stopword |
| Dashboard.DrawsWordCloudIff | Gruppuppgift/App_6.py:151-161 | a word cloud is drawn iff some word is not a stopword |
| Lex.SortUniqueSpec | Gruppuppgift/App_6.py:274 | `sorted(set(xs))` is strictly increasing and has exactly the elements of xs |
| Lex.LexTransitive | Gruppuppgift/App_6.py:274 | Python's string order is transitive |

## Left out

- Network, database and UI I/O are not modelled: feed fetching, the MySQL connection, cursors and commits, printing, Streamlit widgets and charts. The tables are maps. The fetched rows and the classifier's output are inputs.
- Model training, the TF-IDF vectoriser and `predict_proba` are not modelled; they are opaque numeric library code. The classifier is a function from a text to a probability row with one real per category.
- ReturnsMain.Pipeline: a probability row depends on its own text only. A row longer than the category list, which can raise IndexError in Python (when an entry past the last category reaches 0.3 or is where argmax lands), is excluded by the precondition on `score`.
- Python floats are exact reals here. NaN probabilities are not modelled.
- `lower()`, `\w` and `\d` are abstract character tables. Unicode case mappings that change a string's length (such as `"ß".upper()`) are not modelled, because `Text.Lower` maps one character to one.
- FeedList.ParseDate: `strptime` is modelled for the two patterns only, with ASCII digits and ASCII case-insensitive names. Non-ASCII digits, and the Unicode case folds that CPython's regex also accepts (such as the Kelvin sign), are not modelled.
- Dates.Pad4: `%Y` writes four zero-padded digits. Platforms whose `strftime` writes years below 1000 without padding are not modelled.
- Json.DecodeList: decodes JSON arrays of strings only. A topic that is other valid JSON counts as a decode error. Lone surrogate escapes are refused.
- Store.NewsStore.CalculateCategoryCounts: decodes every topic and then counts, where the source counts while decoding. No state is written before the counts are complete, so the outcome is the same.
- Dashboard.FetchCategoryCounts: decodes every topic and then counts, as in the recount above.
- Dashboard.FetchArticlesFiltered: the query is kept as its sequence of clauses, and `Dashboard.Render` gives its SQL text. What the database then returns (`JSON_CONTAINS`, `LIKE` and date comparison) is not modelled.
- Dashboard.QuotedIsJson: covers category names of printable ASCII without `"` or `\`. Other names are put in quotes without JSON escaping, as in the source.
- `cursor.rowcount`, `get_date_range`, module-import side effects and the global `validDict` are not modelled.
- Store.NewsStore.InsertDataPlain: relies on the connector's `executemany` sending the batch as one multi-row INSERT, which the server rejects as a whole on a duplicate `link`. Row-by-row execution would leave the rows before the duplicate pending, because the error is only printed and never rolled back, and the `cnxn.commit()` of the following recount would then store them; that outcome is not modelled.

## Findings

| source | as written | input that shows it | evidently intended | confidence | as-written member | corrected member |
|---|---|---|---|---|---|---|
| Gruppuppgift/MLModelMLC_3.py:44-46 | punctuation (`<` and `>` included) is removed before the `<.*?>` tag step, so that step never matches and a tag's name stays in the training text | `"<b>"` becomes `"b"` | tags removed first, so `"<b>"` becomes `""` | high, not executed | Normalizer.TagNameSurvives | Normalizer.TagRemovedWhenFirst |
| Gruppuppgift-Ulf/DbTransfer_5_Ulf.py:40-52 | a plain INSERT whose duplicate-key error is caught and printed: a batch that repeats one already stored link stores none of its new articles | a table holding link `a` and the batch `[a, b]`: `b` is not stored | store the new links, as the upserting variant does | medium, not executed | Store.PlainInsertOverlapLosesBatch | Store.UpsertStoresOverlappingBatch |
