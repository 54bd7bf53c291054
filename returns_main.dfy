/**
 * The classification step of the main pipeline: articles with a non-blank title and
 * summary are kept, their "title summary" texts are scored by the trained model (a
 * parameter here), each probability row becomes a list of categories (threshold, else
 * the arg-max), category names are corrected, and one record is built per kept article.
 */
module ReturnsMain {
  import opened Wrappers
  import opened Text
  import Seqs
  import opened Records
  import opened Labeling

  /** `article[0].strip() and article[1].strip()`. */
  predicate HasText(a: Article) {
    !IsBlank(a.title) && !IsBlank(a.summary)
  }

  /** The articles the comprehension and the filter in main both keep. */
  function Kept(articles: seq<Article>): seq<Article> {
    Seqs.Filter(articles, HasText)
  }

  /** `f"{article[0]} {article[1]}"`. */
  function ArticleText(a: Article): string {
    a.title + " " + a.summary
  }

  function Texts(articles: seq<Article>): (r: seq<string>)
    ensures |r| == |articles| && forall i :: 0 <= i < |articles| ==> r[i] == ArticleText(articles[i])
  {
    seq(|articles|, i requires 0 <= i < |articles| => ArticleText(articles[i]))
  }

  /** preprocess_text. */
  function PreprocessText(articles: seq<Article>): seq<string> {
    Texts(Kept(articles))
  }

  /**
   * preprocess_text keeps exactly the articles whose title and summary both hold
   * something other than whitespace, in their order, and gives each the text
   * "title summary"; text i belongs to the i-th article main keeps.
   */
  lemma PreprocessTextKeeps(articles: seq<Article>)
    ensures |PreprocessText(articles)| == |Kept(articles)| <= |articles|
    ensures forall i :: 0 <= i < |Kept(articles)| ==>
      PreprocessText(articles)[i] == Kept(articles)[i].title + " " + Kept(articles)[i].summary
    ensures forall a :: a in Kept(articles) <==> a in articles && HasText(a)
  {
  }

  /** An article is kept exactly when its title and its summary each have a word. */
  lemma HasTextIffWords(a: Article)
    ensures HasText(a) <==> Words(a.title) != [] && Words(a.summary) != []
  {
    BlankIffNoWords(a.title);
    BlankIffNoWords(a.summary);
  }

  // ---------------------------------------------------------------- classify_articles

  /** The categories of one probability row; np.argmax raises on an empty row. */
  function RowLabels(cats: seq<string>, row: seq<real>): (r: Result<seq<string>>)
    requires |row| == |cats|
    ensures r.Ok? <==> row != []
    ensures r.Ok? ==> r.value != []
  {
    var passing := Selected(cats, row);
    if passing != [] then Ok(passing)
    else if row == [] then Err("ValueError: attempt to get argmax of an empty sequence")
    else Ok([cats[ArgMax(row)]])
  }

  /**
   * A row's categories: exactly those at or above the threshold when there are any,
   * otherwise the single category of the first largest probability.
   */
  lemma RowLabelsPolicy(cats: seq<string>, row: seq<real>)
    requires |row| == |cats| && row != []
    ensures (exists i :: 0 <= i < |row| && row[i] >= Threshold) ==> RowLabels(cats, row) == Ok(Selected(cats, row))
    ensures (forall i :: 0 <= i < |row| ==> row[i] < Threshold) ==>
      exists m :: 0 <= m < |row| && RowLabels(cats, row) == Ok([cats[m]])
        && (forall j :: 0 <= j < |row| ==> row[j] <= row[m])
        && (forall j :: 0 <= j < m ==> row[j] < row[m])
  {
    SelectedIsThreshold(cats, row);
    if forall i :: 0 <= i < |row| ==> row[i] < Threshold {
      var m := ArgMax(row);
      assert RowLabels(cats, row) == Ok([cats[m]]);
    }
  }

  /**
   * classify_articles: one list of categories per probability row, in row order.
   * Fails only when a row is empty, that is when there are no categories.
   */
  method ClassifyArticles(cats: seq<string>, predictions: seq<seq<real>>) returns (r: Result<seq<seq<string>>>)
    requires forall i :: 0 <= i < |predictions| ==> |predictions[i]| == |cats|
    ensures r.Ok? <==> cats != [] || predictions == []
    ensures r.Ok? ==> |r.value| == |predictions|
    ensures r.Ok? ==> forall i :: 0 <= i < |predictions| ==> RowLabels(cats, predictions[i]) == Ok(r.value[i])
  {
    var results: seq<seq<string>> := [];
    for i := 0 to |predictions|
      invariant |results| == i
      invariant cats == [] ==> i == 0
      invariant forall k :: 0 <= k < i ==> RowLabels(cats, predictions[k]) == Ok(results[k])
    {
      var row := predictions[i];
      var predicted := Selected(cats, row);
      if predicted == [] {
        if row == [] {
          return Err("ValueError: attempt to get argmax of an empty sequence");
        }
        predicted := [cats[ArgMax(row)]];
      }
      results := results + [predicted];
    }
    r := Ok(results);
  }

  // ---------------------------------------------------------------- fix_category_names

  /** `category_mapping.get(cat, cat)`. */
  function FixName(c: string): string {
    if c == "Halsa" then "Hälsa"
    else if c == "LivsstilFritt" then "Livsstil & Fritid"
    else if c == "SamhalleKonflikter" then "Samhälle & Konflikter"
    else if c == "VetenskapTeknik" then "Vetenskap & Teknik"
    else c
  }

  /** Exactly the four mapped names change, and a corrected name is never corrected again. */
  lemma FixNameProperties(c: string)
    ensures FixName(c) != c <==> c in {"Halsa", "LivsstilFritt", "SamhalleKonflikter", "VetenskapTeknik"}
    ensures FixName(FixName(c)) == FixName(c)
  {
  }

  function FixLabels(labels: seq<string>): (r: seq<string>)
    ensures |r| == |labels| && forall j :: 0 <= j < |labels| ==> r[j] == FixName(labels[j])
  {
    seq(|labels|, j requires 0 <= j < |labels| => FixName(labels[j]))
  }

  /** fix_category_names. */
  function FixCategoryNames(predicted: seq<seq<string>>): (r: seq<seq<string>>)
    ensures |r| == |predicted| && forall i :: 0 <= i < |predicted| ==> r[i] == FixLabels(predicted[i])
  {
    seq(|predicted|, i requires 0 <= i < |predicted| => FixLabels(predicted[i]))
  }

  /** Correcting the names keeps every length, and correcting twice is correcting once. */
  lemma FixCategoryNamesShape(predicted: seq<seq<string>>)
    ensures var r := FixCategoryNames(predicted);
      |r| == |predicted| && (forall i :: 0 <= i < |r| ==> |r[i]| == |predicted[i]|)
    ensures FixCategoryNames(FixCategoryNames(predicted)) == FixCategoryNames(predicted)
  {
    var once := FixCategoryNames(predicted);
    var twice := FixCategoryNames(once);
    forall i | 0 <= i < |predicted| ensures twice[i] == once[i] {
      forall j | 0 <= j < |predicted[i]| ensures twice[i][j] == once[i][j] {
        FixNameProperties(predicted[i][j]);
      }
    }
  }

  // ---------------------------------------------------------------- records

  /**
   * create_final_dict: record i holds article i's four fields and the corrected i-th
   * list of categories; IndexError when there are fewer lists than articles.
   */
  function CreateFinalDict(articles: seq<Article>, predicted: seq<seq<string>>): (r: Result<seq<Record>>)
    ensures r.Ok? <==> |articles| <= |predicted|
    ensures r.Ok? ==> |r.value| == |articles| && forall i :: 0 <= i < |articles| ==>
      var a := articles[i];
      r.value[i] == Record(a.title, a.summary, a.link, a.published, FixLabels(predicted[i]))
  {
    var fixed := FixCategoryNames(predicted);
    if |fixed| < |articles| then Err("IndexError: list index out of range")
    else
      Ok(seq(|articles|, i requires 0 <= i < |articles| =>
        Record(articles[i].title, articles[i].summary, articles[i].link, articles[i].published, fixed[i])))
  }

  /** `isinstance(item, dict)`: every record is one. */
  predicate IsDict(r: Record) {
    r.Record?
  }

  /** validate_data. */
  function ValidateData(records: seq<Record>): seq<Record> {
    Seqs.Filter(records, IsDict)
  }

  /** validate_data hands back its input unchanged. */
  lemma ValidateDataIsIdentity(records: seq<Record>)
    ensures ValidateData(records) == records
  {
    Seqs.FilterAllPass(records, IsDict);
  }

  // ---------------------------------------------------------------- main

  /** The scores of the kept articles' texts, one row per text. */
  function Scores(score: string -> seq<real>, texts: seq<string>): (rows: seq<seq<real>>)
    ensures |rows| == |texts| && forall i :: 0 <= i < |texts| ==> rows[i] == score(texts[i])
  {
    seq(|texts|, i requires 0 <= i < |texts| => score(texts[i]))
  }

  /**
   * predict_proba on the vectorised texts: one probability row per text. The SVC
   * behind the pipeline refuses a batch of no samples with ValueError.
   */
  function PredictProba(score: string -> seq<real>, texts: seq<string>): (r: Result<seq<seq<real>>>)
    ensures r.Err? <==> texts == []
    ensures r.Ok? ==> |r.value| == |texts| && forall i :: 0 <= i < |texts| ==> r.value[i] == score(texts[i])
  {
    if texts == [] then Err("ValueError: Found array with 0 sample(s)")
    else Ok(Scores(score, texts))
  }

  /**
   * main: the classifier, given as `score` (its probability row for a text, one entry
   * per category), is applied to the texts of the kept articles. The i-th record is
   * the i-th kept article with the categories computed from that same article's text,
   * so the lists of articles and of labels line up. When no article is kept, the
   * classifier is handed an empty batch and raises.
   */
  method Pipeline(cats: seq<string>, score: string -> seq<real>, articles: seq<Article>) returns (r: Result<seq<Record>>)
    requires forall text :: |score(text)| == |cats|
    ensures r.Err? <==> Kept(articles) == [] || cats == []
    ensures r.Ok? ==> |r.value| == |Kept(articles)|
    ensures r.Ok? ==> forall i :: 0 <= i < |r.value| ==>
      var a := Kept(articles)[i];
      RowLabels(cats, score(ArticleText(a))).Ok?
      && r.value[i] == Record(a.title, a.summary, a.link, a.published,
                              FixLabels(RowLabels(cats, score(ArticleText(a))).value))
  {
    var texts := PreprocessText(articles);
    var rows :- PredictProba(score, texts);
    var labels :- ClassifyArticles(cats, rows);
    var filtered := Kept(articles);
    var built := CreateFinalDict(filtered, labels);
    var finalData := built.value;
    ValidateDataIsIdentity(finalData);
    r := Ok(ValidateData(finalData));
  }
}
