/**
 * The classification step of the Ulf variant: every article is scored (empty titles and
 * summaries get placeholder words), a label list holds exactly the categories at or above
 * the threshold (possibly none), records are built after a length check, and the
 * categories of the records are tallied.
 */
module ReturnsUlf {
  import opened Wrappers
  import opened Text
  import Seqs
  import Json
  import Tally
  import opened Records
  import opened Labeling
  import ReturnsMain

  /** `article[0] or 'No title'`, `article[1] or 'No summary'`. */
  function UlfText(a: Article): (t: string)
    ensures a.title != [] && a.summary != [] ==> t == a.title + " " + a.summary
    ensures a.title == [] && a.summary != [] ==> t == "No title " + a.summary
    ensures a.title != [] && a.summary == [] ==> t == a.title + " No summary"
    ensures a.title == [] && a.summary == [] ==> t == "No title No summary"
  {
    (if a.title == [] then "No title" else a.title) + " " + (if a.summary == [] then "No summary" else a.summary)
  }

  /** preprocess_text: one text per article, in order. */
  function PreprocessText(articles: seq<Article>): (texts: seq<string>)
    ensures |texts| == |articles|
    ensures forall i :: 0 <= i < |articles| ==> texts[i] == UlfText(articles[i])
  {
    seq(|articles|, i requires 0 <= i < |articles| => UlfText(articles[i]))
  }

  /**
   * On every article the main variant keeps, both variants feed the classifier the
   * same text; the placeholders only matter for articles the main variant drops.
   */
  lemma TextsAgreeOnKept(a: Article)
    requires ReturnsMain.HasText(a)
    ensures UlfText(a) == ReturnsMain.ArticleText(a)
  {
    assert IsBlank([]);
  }

  /**
   * classify_articles: one label list per probability row, each exactly the categories
   * at or above the threshold; with no fallback a list may be empty.
   */
  method ClassifyArticles(cats: seq<string>, predictions: seq<seq<real>>) returns (results: seq<seq<string>>)
    requires forall i :: 0 <= i < |predictions| ==> |predictions[i]| == |cats|
    ensures |results| == |predictions|
    ensures forall i :: 0 <= i < |predictions| ==> results[i] == Selected(cats, predictions[i])
  {
    results := [];
    for i := 0 to |predictions|
      invariant |results| == i
      invariant forall k :: 0 <= k < i ==> results[k] == Selected(cats, predictions[k])
    {
      var predicted := Selected(cats, predictions[i]);
      results := results + [predicted];
    }
  }

  /** A label list is empty exactly when no probability of its row reaches the threshold. */
  lemma EmptyLabelsWhenNothingPasses(cats: seq<string>, row: seq<real>)
    requires |row| == |cats|
    ensures Selected(cats, row) == [] <==> forall i :: 0 <= i < |row| ==> row[i] < Threshold
  {
    SelectedIsThreshold(cats, row);
  }

  /**
   * create_final_dict: record i holds article i's fields and the i-th label list;
   * IndexError when there are fewer label lists than articles.
   */
  method CreateFinalDict(articles: seq<Article>, labels: seq<seq<string>>) returns (r: Result<seq<Record>>)
    ensures r.Ok? <==> |articles| <= |labels|
    ensures r.Ok? ==> |r.value| == |articles| && forall i :: 0 <= i < |articles| ==>
      r.value[i] == Record(articles[i].title, articles[i].summary, articles[i].link, articles[i].published, labels[i])
  {
    var finalList: seq<Record> := [];
    for i := 0 to |articles|
      invariant i <= |labels|
      invariant |finalList| == i
      invariant forall k :: 0 <= k < i ==>
        finalList[k] == Record(articles[k].title, articles[k].summary, articles[k].link, articles[k].published, labels[k])
    {
      if i >= |labels| {
        return Err("IndexError: list index out of range");
      }
      var article := articles[i];
      finalList := finalList + [Record(article.title, article.summary, article.link, article.published, labels[i])];
    }
    r := Ok(finalList);
  }

  /** `json.dumps(item)` for one record, with the default separators and ASCII escapes. */
  function DumpRecord(r: Record): (text: string)
    ensures |text| >= 2 && text[0] == '{' && text[|text| - 1] == '}'
  {
    "{\"title\": " + Json.EncodeString(r.title)
    + ", \"summary\": " + Json.EncodeString(r.summary)
    + ", \"link\": " + Json.EncodeString(r.link)
    + ", \"published\": " + Json.EncodeString(r.published)
    + ", \"categories\": " + Json.EncodeList(r.categories) + "}"
  }

  predicate Dumps(r: Record) {
    DumpRecord(r) != []
  }

  /** validate_data: keeps the records whose JSON text is non-empty. */
  function ValidateData(records: seq<Record>): seq<Record> {
    Seqs.Filter(records, Dumps)
  }

  /** The JSON text of a record is never empty, so validate_data keeps everything. */
  lemma ValidateDataIsIdentity(records: seq<Record>)
    ensures ValidateData(records) == records
  {
    forall x | x in records ensures Dumps(x) {
      var text := DumpRecord(x);
    }
    Seqs.FilterAllPass(records, Dumps);
  }

  /**
   * The guarded tail of main: ValueError unless there is one label list per article,
   * otherwise the validated records.
   */
  method BuildRecords(articles: seq<Article>, labels: seq<seq<string>>) returns (r: Result<seq<Record>>)
    ensures r.Err? <==> |articles| != |labels|
    ensures r.Ok? ==> |r.value| == |articles| && forall i :: 0 <= i < |articles| ==>
      r.value[i] == Record(articles[i].title, articles[i].summary, articles[i].link, articles[i].published, labels[i])
  {
    if |articles| != |labels| {
      return Err("ValueError: my_final_list and predicted_labels differ in length");
    }
    var built := CreateFinalDict(articles, labels);
    var finalData := built.value;
    ValidateDataIsIdentity(finalData);
    r := Ok(ValidateData(finalData));
  }

  /**
   * main, with the classifier given as `score`: an empty feed hands the classifier an
   * empty batch, which raises; otherwise the length check always passes, and record i
   * is article i with the categories its own text scores at or above the threshold.
   */
  method Pipeline(cats: seq<string>, score: string -> seq<real>, articles: seq<Article>) returns (r: Result<seq<Record>>)
    requires forall text :: |score(text)| == |cats|
    ensures r.Err? <==> articles == []
    ensures r.Ok? ==> |r.value| == |articles|
    ensures r.Ok? ==> forall i :: 0 <= i < |articles| ==>
      var a := articles[i];
      r.value[i] == Record(a.title, a.summary, a.link, a.published, Selected(cats, score(UlfText(a))))
  {
    var texts := PreprocessText(articles);
    var rows :- ReturnsMain.PredictProba(score, texts);
    var labels := ClassifyArticles(cats, rows);
    r := BuildRecords(articles, labels);
  }

  function CategoryLists(records: seq<Record>): (lists: seq<seq<string>>)
    ensures |lists| == |records| && forall i :: 0 <= i < |records| ==> lists[i] == records[i].categories
  {
    seq(|records|, i requires 0 <= i < |records| => records[i].categories)
  }

  /**
   * The Counter loop over validDict: each category is counted once per occurrence in
   * the records' category lists, and the counts add up to the number of labels.
   */
  method CategoryCounts(records: seq<Record>) returns (counts: map<string, nat>)
    ensures Tally.IsTally(counts, CategoryLists(records))
    ensures Tally.Total(counts) == Tally.Labels(CategoryLists(records))
  {
    counts := Tally.CountCategories(CategoryLists(records));
  }
}
