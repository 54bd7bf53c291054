/**
 * The data handling of the Streamlit dashboard: the filtered article query and its
 * parameters, the per-category tally of the fetched topics, the stopword filter in
 * front of the word cloud, and the sorted list of categories offered in the sidebar.
 */
module Dashboard {
  import opened Wrappers
  import opened Text
  import Seqs
  import Json
  import Tally
  import Lex
  import opened Dates

  // ---------------------------------------------------------------- query builder

  /** A query parameter: a date, or a text value. */
  datatype Param = DateParam(date: Date) | TextParam(text: string)

  /** The pieces `query` is assembled from, in the order they are appended. */
  datatype Clause = PublishedRange | CategoryFilter | SearchFilter | OrderBy(descending: bool)

  /** The query: its clauses, whose texts concatenate to the SQL string, and its parameters. */
  datatype Query = Query(clauses: seq<Clause>, params: seq<Param>)

  /** The number of `%s` placeholders, read left to right. */
  function Placeholders(s: string): nat {
    if |s| < 2 then 0
    else if s[0] == '%' && s[1] == 's' then 1 + Placeholders(s[2..])
    else Placeholders(s[1..])
  }

  /** The text does not end in a lone percent sign that a following `s` could complete. */
  predicate EndsClean(s: string) {
    s == [] || s[|s| - 1] != '%'
  }

  /** Placeholders add up across a join that does not split a `%s`. */
  lemma {:induction false} PlaceholdersAppend(a: string, b: string)
    requires EndsClean(a)
    ensures Placeholders(a + b) == Placeholders(a) + Placeholders(b)
    decreases |a|
  {
    var ab := a + b;
    if a == [] {
      assert ab == b;
    } else if |a| == 1 {
      if b != [] {
        assert ab[0] == a[0] && ab[1..] == b;
      }
    } else {
      assert ab[0] == a[0] && ab[1] == a[1];
      if a[0] == '%' && a[1] == 's' {
        assert ab[2..] == a[2..] + b;
        assert EndsClean(a[2..]);
        PlaceholdersAppend(a[2..], b);
      } else {
        assert ab[1..] == a[1..] + b;
        assert EndsClean(a[1..]);
        PlaceholdersAppend(a[1..], b);
      }
    }
  }

  /** Text without a percent sign holds no placeholder. */
  lemma {:induction false} PlaceholdersNone(s: string)
    requires '%' !in s
    ensures Placeholders(s) == 0
    decreases |s|
  {
    if |s| >= 2 {
      assert '%' !in s[1..] by {
        assert forall i :: 0 <= i < |s[1..]| ==> s[1..][i] == s[i + 1];
      }
      PlaceholdersNone(s[1..]);
    }
  }

  /** A fixed piece of SQL text between placeholders. */
  predicate Plain(s: string) {
    s != [] && '%' !in s && EndsClean(s)
  }

  /** x %s y %s holds two placeholders and ends clean. */
  lemma TwoSlots(x: string, y: string)
    requires Plain(x) && Plain(y)
    ensures Placeholders(x + "%s" + y + "%s") == 2
    ensures EndsClean(x + "%s" + y + "%s")
  {
    PlaceholdersNone(x);
    PlaceholdersNone(y);
    assert Placeholders("%s") == 1;
    PlaceholdersAppend(x, "%s");
    PlaceholdersAppend(x + "%s", y);
    PlaceholdersAppend(x + "%s" + y, "%s");
  }

  const Published1: string := "SELECT * FROM news WHERE published >= "
  const Published2: string := " AND published < "
  const Category1: string := " AND JSON_CONTAINS(topic, "
  const Search1: string := " AND (LOWER(title) LIKE "
  const Search2: string := " OR LOWER(summary) LIKE "
  const OrderDesc: string := " ORDER BY published DESC"
  const OrderAsc: string := " ORDER BY published ASC"
  const Newest: string := "Nyast först"

  /** The SQL text each clause appends. */
  function ClauseText(c: Clause): string {
    match c
    case PublishedRange => Published1 + "%s" + Published2 + "%s"
    case CategoryFilter => Category1 + "%s" + ")"
    case SearchFilter => Search1 + "%s" + Search2 + "%s" + ")"
    case OrderBy(descending) => if descending then OrderDesc else OrderAsc
  }

  /** How many parameters each clause takes. */
  function ClauseParams(c: Clause): nat {
    match c
    case PublishedRange => 2
    case CategoryFilter => 1
    case SearchFilter => 2
    case OrderBy(_) => 0
  }

  lemma PublishedRangeSlots()
    ensures Placeholders(ClauseText(PublishedRange)) == 2 && EndsClean(ClauseText(PublishedRange))
  {
    assert Plain(Published1) && Plain(Published2);
    TwoSlots(Published1, Published2);
  }

  lemma CategoryFilterSlots()
    ensures Placeholders(ClauseText(CategoryFilter)) == 1 && EndsClean(ClauseText(CategoryFilter))
  {
    assert Plain(Category1);
    PlaceholdersNone(Category1);
    assert Placeholders("%s") == 1;
    assert Placeholders(")") == 0;
    PlaceholdersAppend(Category1, "%s");
    PlaceholdersAppend(Category1 + "%s", ")");
  }

  lemma SearchFilterSlots()
    ensures Placeholders(ClauseText(SearchFilter)) == 2 && EndsClean(ClauseText(SearchFilter))
  {
    assert Plain(Search1) && Plain(Search2);
    TwoSlots(Search1, Search2);
    assert Placeholders(")") == 0;
    PlaceholdersAppend(Search1 + "%s" + Search2 + "%s", ")");
  }

  lemma OrderBySlots(descending: bool)
    ensures Placeholders(ClauseText(OrderBy(descending))) == 0 && EndsClean(ClauseText(OrderBy(descending)))
  {
    assert Plain(OrderDesc) && Plain(OrderAsc);
    PlaceholdersNone(OrderDesc);
    PlaceholdersNone(OrderAsc);
  }

  /** Each clause's text holds as many placeholders as the clause takes parameters. */
  lemma ClausePlaceholders(c: Clause)
    ensures Placeholders(ClauseText(c)) == ClauseParams(c)
    ensures EndsClean(ClauseText(c))
  {
    match c
    case PublishedRange => PublishedRangeSlots();
    case CategoryFilter => CategoryFilterSlots();
    case SearchFilter => SearchFilterSlots();
    case OrderBy(descending) => OrderBySlots(descending);
  }

  /** The SQL string: the clause texts in order. */
  function Render(clauses: seq<Clause>): string {
    if clauses == [] then [] else Render(clauses[..|clauses| - 1]) + ClauseText(clauses[|clauses| - 1])
  }

  /** The number of parameters the clauses take. */
  function Slots(clauses: seq<Clause>): nat {
    if clauses == [] then 0 else Slots(clauses[..|clauses| - 1]) + ClauseParams(clauses[|clauses| - 1])
  }

  /** The rendered SQL holds exactly as many placeholders as its clauses take parameters. */
  lemma {:induction false} RenderPlaceholders(clauses: seq<Clause>)
    ensures Placeholders(Render(clauses)) == Slots(clauses)
    ensures EndsClean(Render(clauses))
  {
    if clauses != [] {
      var init, last := clauses[..|clauses| - 1], clauses[|clauses| - 1];
      RenderPlaceholders(init);
      ClausePlaceholders(last);
      PlaceholdersAppend(Render(init), ClauseText(last));
    }
  }

  /** Appending a clause adds its parameter count. */
  lemma AppendSlots(clauses: seq<Clause>, c: Clause)
    ensures Slots(clauses + [c]) == Slots(clauses) + ClauseParams(c)
  {
    assert (clauses + [c])[..|clauses|] == clauses;
  }

  /** `if category and category != "Alla"`. */
  predicate FiltersCategory(category: string) {
    category != [] && category != "Alla"
  }

  /** `f'"{category}"'`: the category as a JSON string, without escaping. */
  function Quoted(category: string): string {
    "\"" + category + "\""
  }

  /** `f"%{search_query.lower()}%"`. */
  function LikePattern(t: CharTable, search: string): string {
    "%" + Lower(t, search) + "%"
  }

  /** The clauses fetch_articles_filtered appends, in order. */
  function Clauses(category: string, search: string, sortOrder: string): seq<Clause> {
    [PublishedRange]
    + (if FiltersCategory(category) then [CategoryFilter] else [])
    + (if search != [] then [SearchFilter] else [])
    + [OrderBy(sortOrder == Newest)]
  }

  /** The parameters fetch_articles_filtered binds, in order. */
  function Params(t: CharTable, start: Date, endExclusive: Date, category: string, search: string): seq<Param> {
    [DateParam(start), DateParam(endExclusive)]
    + (if FiltersCategory(category) then [TextParam(Quoted(category))] else [])
    + (if search != [] then [TextParam(LikePattern(t, search)), TextParam(LikePattern(t, search))] else [])
  }

  /**
   * fetch_articles_filtered, up to the database call: the clauses and parameters are
   * appended in step; the only failure is the day after 9999-12-31.
   */
  method FetchArticlesFiltered(t: CharTable, start: Date, end: Date, category: string, search: string, sortOrder: string)
    returns (r: Result<Query>)
    requires ValidDate(start) && ValidDate(end)
    ensures r.Err? <==> end == Date(MaxYear, 12, 31)
    ensures r.Ok? ==> r.value == Query(Clauses(category, search, sortOrder), Params(t, start, NextDay(end).value, category, search))
  {
    var endExclusive :- NextDay(end);
    var query := [PublishedRange];
    var params := [DateParam(start), DateParam(endExclusive)];
    if FiltersCategory(category) {
      query := query + [CategoryFilter];
      params := params + [TextParam(Quoted(category))];
    }
    assert query == [PublishedRange] + (if FiltersCategory(category) then [CategoryFilter] else []);
    if search != [] {
      query := query + [SearchFilter];
      var like := LikePattern(t, search);
      params := params + [TextParam(like), TextParam(like)];
    }
    if sortOrder == Newest {
      query := query + [OrderBy(true)];
    } else {
      query := query + [OrderBy(false)];
    }
    r := Ok(Query(query, params));
  }

  /** The clauses of a query take two parameters, one more with a category, two more with a search. */
  lemma ClausesSlots(category: string, search: string, sortOrder: string)
    ensures Slots(Clauses(category, search, sortOrder))
      == 2 + (if FiltersCategory(category) then 1 else 0) + (if search != [] then 2 else 0)
  {
    var base := [PublishedRange];
    var withCategory := base + (if FiltersCategory(category) then [CategoryFilter] else []);
    var withSearch := withCategory + (if search != [] then [SearchFilter] else []);
    AppendSlots([], PublishedRange);
    assert [] + [PublishedRange] == base;
    if FiltersCategory(category) {
      AppendSlots(base, CategoryFilter);
    } else {
      assert withCategory == base;
    }
    if search != [] {
      AppendSlots(withCategory, SearchFilter);
    } else {
      assert withSearch == withCategory;
    }
    AppendSlots(withSearch, OrderBy(sortOrder == Newest));
  }

  /** The rendered query holds exactly one `%s` per bound parameter. */
  lemma QueryBalanced(t: CharTable, start: Date, endExclusive: Date, category: string, search: string, sortOrder: string)
    ensures Placeholders(Render(Clauses(category, search, sortOrder))) == |Params(t, start, endExclusive, category, search)|
  {
    RenderPlaceholders(Clauses(category, search, sortOrder));
    ClausesSlots(category, search, sortOrder);
  }

  /**
   * The query's shape: the date range comes first with the start date and the day after
   * the end date; the category clause and its quoted name are there exactly when the
   * category is neither "" nor "Alla"; the search clause and two copies of the lowered
   * pattern exactly when the search is non-empty; the order is descending exactly for
   * "Nyast först".
   */
  lemma QueryShape(t: CharTable, start: Date, endExclusive: Date, category: string, search: string, sortOrder: string)
    ensures var c, p := Clauses(category, search, sortOrder), Params(t, start, endExclusive, category, search);
      && |c| >= 2 && |p| >= 2
      && c[0] == PublishedRange && p[0] == DateParam(start) && p[1] == DateParam(endExclusive)
      && (FiltersCategory(category) <==> c[1] == CategoryFilter)
      && |p| == 2 + (if FiltersCategory(category) then 1 else 0) + (if search != [] then 2 else 0)
      && (FiltersCategory(category) ==> p[2] == TextParam(Quoted(category)))
      && (search != [] <==> c[|c| - 2] == SearchFilter)
      && (search != [] ==> p[|p| - 2] == p[|p| - 1] == TextParam(LikePattern(t, search)))
      && (c[|c| - 1] == OrderBy(true) <==> sortOrder == Newest)
  {
  }

  /**
   * A category made only of printable ASCII other than `"` and `\` is quoted exactly as
   * JSON would encode it, so JSON_CONTAINS looks for the same string the topic stores.
   */
  lemma QuotedIsJson(category: string)
    requires forall i :: 0 <= i < |category| ==> ' ' <= category[i] <= '~' && category[i] != '"' && category[i] != '\\'
    ensures Quoted(category) == Json.EncodeString(category)
  {
    PlainEscape(category);
  }

  lemma {:induction false} PlainEscape(s: string)
    requires forall i :: 0 <= i < |s| ==> ' ' <= s[i] <= '~' && s[i] != '"' && s[i] != '\\'
    ensures Json.EscapeString(s) == s
  {
    if s != [] {
      assert forall i :: 0 <= i < |s[1..]| ==> s[1..][i] == s[i + 1];
      PlainEscape(s[1..]);
      assert s == [s[0]] + s[1..];
    }
  }

  // ---------------------------------------------------------------- decoded topics

  /** `json.loads` of every fetched topic, in row order; None when one of them fails. */
  function DecodeAll(topics: seq<string>): (r: Option<seq<seq<string>>>)
    ensures r.Some? <==> forall i :: 0 <= i < |topics| ==> Json.DecodeList(topics[i]).Some?
    ensures r.Some? ==> |r.value| == |topics|
    ensures r.Some? ==> forall i :: 0 <= i < |topics| ==> Json.DecodeList(topics[i]) == Some(r.value[i])
  {
    if topics == [] then Some([])
    else
      var init := topics[..|topics| - 1];
      assert forall i :: 0 <= i < |init| ==> init[i] == topics[i];
      match (DecodeAll(init), Json.DecodeList(topics[|topics| - 1]))
      case (Some(lists), Some(last)) => Some(lists + [last])
      case _ => None
  }

  /**
   * fetch_category_counts: a category's count is its number of occurrences across the
   * decoded topics of the fetched rows, and only occurring categories appear; a topic
   * that is not a JSON list of strings raises.
   */
  method FetchCategoryCounts(topics: seq<string>) returns (r: Result<map<string, nat>>)
    ensures r.Ok? <==> DecodeAll(topics).Some?
    ensures r.Ok? ==> Tally.IsTally(r.value, DecodeAll(topics).value)
    ensures r.Ok? ==> Tally.Total(r.value) == Tally.Labels(DecodeAll(topics).value)
  {
    var lists: seq<seq<string>> := [];
    for i := 0 to |topics|
      invariant |lists| == i
      invariant forall k :: 0 <= k < i ==> Json.DecodeList(topics[k]) == Some(lists[k])
    {
      var categories := Json.DecodeList(topics[i]);
      if categories.None? {
        return Err("JSONDecodeError");
      }
      lists := lists + [categories.value];
    }
    assert DecodeAll(topics).value == lists;
    var counts := Tally.CountCategories(lists);
    r := Ok(counts);
  }

  /**
   * The sidebar's category list: `sorted(set(...))` of every category of every fetched
   * article; a topic that is not a JSON list of strings raises.
   */
  function UniqueCategories(topics: seq<string>): Result<seq<string>> {
    match DecodeAll(topics)
    case None => Err("JSONDecodeError")
    case Some(lists) => Ok(Lex.SortUnique(Seqs.Flatten(lists)))
  }

  /** The list is strictly increasing, and holds exactly the categories that occur. */
  lemma UniqueCategoriesSpec(topics: seq<string>)
    requires DecodeAll(topics).Some?
    ensures UniqueCategories(topics).Ok?
    ensures Lex.StrictlySorted(UniqueCategories(topics).value)
    ensures forall c :: c in UniqueCategories(topics).value <==>
      exists i :: 0 <= i < |topics| && c in DecodeAll(topics).value[i]
  {
    var lists := DecodeAll(topics).value;
    Lex.SortUniqueSpec(Seqs.Flatten(lists));
    forall c | exists i :: 0 <= i < |topics| && c in lists[i]
      ensures c in Seqs.Flatten(lists)
    {
      var i :| 0 <= i < |topics| && c in lists[i];
      var j :| 0 <= j < |lists[i]| && lists[i][j] == c;
    }
  }

  // ---------------------------------------------------------------- word cloud

  /** `word.lower() not in SWEDISH_STOPWORDS`. */
  function NotStopword(t: CharTable, stop: set<string>): string -> bool {
    w => Lower(t, w) !in stop
  }

  /** `" ".join(word for word in text.split() if word.lower() not in SWEDISH_STOPWORDS)`. */
  function CleanedText(t: CharTable, stop: set<string>, summaries: seq<string>): string {
    JoinSpace(Seqs.Filter(Words(JoinSpace(summaries)), NotStopword(t, stop)))
  }

  /** `if cleaned_text.strip()`: whether a word cloud is drawn. */
  predicate DrawsWordCloud(t: CharTable, stop: set<string>, summaries: seq<string>) {
    !IsBlank(CleanedText(t, stop, summaries))
  }

  /**
   * The cleaned text's words are the summaries' words, in order and in their own case,
   * minus those whose lowercase form is a stopword.
   */
  lemma CleanedTextWords(t: CharTable, stop: set<string>, summaries: seq<string>)
    ensures Words(CleanedText(t, stop, summaries)) == Seqs.Filter(Words(JoinSpace(summaries)), NotStopword(t, stop))
  {
    var kept := Seqs.Filter(Words(JoinSpace(summaries)), NotStopword(t, stop));
    forall k | 0 <= k < |kept| ensures IsWord(kept[k]) {
      assert kept[k] in Words(JoinSpace(summaries));
    }
    WordsOfJoin(kept);
  }

  /** The cloud is drawn exactly when some word of the summaries is not a stopword. */
  lemma DrawsWordCloudIff(t: CharTable, stop: set<string>, summaries: seq<string>)
    ensures DrawsWordCloud(t, stop, summaries)
      <==> exists w :: w in Words(JoinSpace(summaries)) && NotStopword(t, stop)(w)
  {
    CleanedTextWords(t, stop, summaries);
    BlankIffNoWords(CleanedText(t, stop, summaries));
    Seqs.FilterEmpty(Words(JoinSpace(summaries)), NotStopword(t, stop));
  }
}
