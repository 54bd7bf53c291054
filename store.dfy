/**
 * The database side of the pipeline: the `news` table as a map from link (a UNIQUE
 * column) to its row, the `category_counts` table as a map from category to count,
 * the upserting insert of the main variant, the plain insert of the Ulf variant,
 * the recount that replaces the aggregate table, and the Ulf configuration check.
 */
module Store {
  import opened Wrappers
  import Json
  import Tally
  import opened Records

  /** One row of `news`: (title, summary, link, published, topic). */
  datatype Row = Row(title: string, summary: string, link: string, published: string, topic: string)

  /** The value tuple of one record; the topic is the JSON text of its categories. */
  function RowValues(d: Record): Row {
    Row(d.title, d.summary, d.link, d.published, Json.EncodeList(d.categories))
  }

  /** `values = [(...) for d in data]`: one tuple per record, in order. */
  function Values(data: seq<Record>): (rows: seq<Row>)
    ensures |rows| == |data| && forall i :: 0 <= i < |data| ==> rows[i] == RowValues(data[i])
  {
    seq(|data|, i requires 0 <= i < |data| => RowValues(data[i]))
  }

  /** Every value tuple keeps its record's fields, and its topic decodes to the record's categories. */
  lemma ValuesRoundTrip(data: seq<Record>, i: nat)
    requires i < |data|
    ensures var row := Values(data)[i];
      && row.title == data[i].title && row.summary == data[i].summary
      && row.link == data[i].link && row.published == data[i].published
      && Json.DecodeList(row.topic) == Some(data[i].categories)
  {
    Json.ListRoundTrip(data[i].categories);
  }

  function Links(rows: seq<Row>): set<string> {
    set i | 0 <= i < |rows| :: rows[i].link
  }

  /** Every stored row sits under its own link, and its topic is a JSON list of strings. */
  predicate WellFormed(news: map<string, Row>) {
    forall l :: l in news ==> news[l].link == l && Json.DecodeList(news[l].topic).Some?
  }

  // ---------------------------------------------------------------- upsert

  /**
   * `INSERT ... ON DUPLICATE KEY UPDATE` over the batch: row by row, a new link is
   * inserted and an existing one has all its other columns replaced.
   */
  function Upsert(news: map<string, Row>, rows: seq<Row>): (r: map<string, Row>)
    ensures r.Keys == news.Keys + Links(rows)
  {
    if rows == [] then news
    else
      var init := rows[..|rows| - 1];
      var last := rows[|rows| - 1];
      assert Links(rows) == Links(init) + {last.link} by {
        assert forall i :: 0 <= i < |init| ==> init[i] == rows[i];
      }
      Upsert(news, init)[last.link := last]
  }

  /** After the upsert, a link of the batch holds the last batch row with that link. */
  lemma {:induction false} UpsertLastWins(news: map<string, Row>, rows: seq<Row>, i: nat)
    requires i < |rows|
    requires forall j :: i < j < |rows| ==> rows[j].link != rows[i].link
    ensures rows[i].link in Upsert(news, rows) && Upsert(news, rows)[rows[i].link] == rows[i]
  {
    if i < |rows| - 1 {
      var init := rows[..|rows| - 1];
      assert forall j :: i < j < |init| ==> init[j] == rows[j];
      UpsertLastWins(news, init, i);
      assert init[i] == rows[i];
    }
  }

  /** A row whose link is not in the batch is left as it was, present or absent. */
  lemma {:induction false} UpsertUntouched(news: map<string, Row>, rows: seq<Row>, l: string)
    requires l !in Links(rows)
    ensures l in news ==> Upsert(news, rows)[l] == news[l]
  {
    if rows != [] {
      var init := rows[..|rows| - 1];
      assert Links(init) <= Links(rows) by {
        assert forall i :: 0 <= i < |init| ==> init[i] == rows[i];
      }
      assert rows[|rows| - 1].link in Links(rows);
      UpsertUntouched(news, init, l);
    }
  }

  /** Each link of the batch has a last row carrying it. */
  lemma LastWith(rows: seq<Row>, l: string) returns (i: nat)
    requires l in Links(rows)
    ensures i < |rows| && rows[i].link == l
    ensures forall j :: i < j < |rows| ==> rows[j].link != l
  {
    var k :| 0 <= k < |rows| && rows[k].link == l;
    i := k;
    while exists j :: i < j < |rows| && rows[j].link == l
      invariant i < |rows| && rows[i].link == l
      decreases |rows| - i
    {
      var j :| i < j < |rows| && rows[j].link == l;
      i := j;
    }
  }

  /** Running the same upsert batch twice leaves the table as running it once. */
  lemma UpsertIdempotent(news: map<string, Row>, rows: seq<Row>)
    ensures Upsert(Upsert(news, rows), rows) == Upsert(news, rows)
  {
    var once := Upsert(news, rows);
    var twice := Upsert(once, rows);
    forall l | l in once
      ensures twice[l] == once[l]
    {
      if l in Links(rows) {
        var i := LastWith(rows, l);
        UpsertLastWins(news, rows, i);
        UpsertLastWins(once, rows, i);
      } else {
        UpsertUntouched(once, rows, l);
      }
    }
  }

  /** The upsert keeps a well-formed table well-formed when every new topic decodes. */
  lemma {:induction false} UpsertWellFormed(news: map<string, Row>, rows: seq<Row>)
    requires WellFormed(news)
    requires forall i :: 0 <= i < |rows| ==> Json.DecodeList(rows[i].topic).Some?
    ensures WellFormed(Upsert(news, rows))
  {
    if rows != [] {
      var init, last := rows[..|rows| - 1], rows[|rows| - 1];
      assert forall i :: 0 <= i < |init| ==> init[i] == rows[i];
      UpsertWellFormed(news, init);
      WellFormedStore(Upsert(news, init), last);
    }
  }

  /** Storing one row with a decodable topic under its own link keeps a table well-formed. */
  lemma WellFormedStore(news: map<string, Row>, row: Row)
    requires WellFormed(news) && Json.DecodeList(row.topic).Some?
    ensures WellFormed(news[row.link := row])
  {
  }

  /**
   * After upserting a batch of records, the row stored under a record's link decodes
   * to the categories of the last record in the batch with that link.
   */
  lemma UpsertTopicRoundTrip(news: map<string, Row>, data: seq<Record>, i: nat)
    requires i < |data|
    requires forall j :: i < j < |data| ==> data[j].link != data[i].link
    ensures data[i].link in Upsert(news, Values(data))
    ensures Json.DecodeList(Upsert(news, Values(data))[data[i].link].topic) == Some(data[i].categories)
  {
    UpsertLastWins(news, Values(data), i);
    ValuesRoundTrip(data, i);
  }

  // ---------------------------------------------------------------- plain insert

  /** No two rows of the batch share a link, and none of them is stored already. */
  predicate Insertable(news: map<string, Row>, rows: seq<Row>) {
    && (forall i, j :: 0 <= i < j < |rows| ==> rows[i].link != rows[j].link)
    && (forall i :: 0 <= i < |rows| ==> rows[i].link !in news)
  }

  /**
   * A plain multi-row `INSERT`: one duplicate link fails the whole statement, the
   * error is caught and nothing is committed; otherwise every row is added.
   */
  function PlainInsert(news: map<string, Row>, rows: seq<Row>): map<string, Row> {
    if Insertable(news, rows) then Upsert(news, rows) else news
  }

  /**
   * The plain insert never changes a stored row, and it adds every row of the batch,
   * each under its own link, exactly when the batch is insertable.
   */
  lemma PlainInsertNeverOverwrites(news: map<string, Row>, rows: seq<Row>)
    ensures forall l :: l in news ==> l in PlainInsert(news, rows) && PlainInsert(news, rows)[l] == news[l]
    ensures Insertable(news, rows) ==>
      forall i :: 0 <= i < |rows| ==> rows[i].link in PlainInsert(news, rows) && PlainInsert(news, rows)[rows[i].link] == rows[i]
    ensures !Insertable(news, rows) ==> PlainInsert(news, rows) == news
  {
    if Insertable(news, rows) {
      forall l | l in news ensures Upsert(news, rows)[l] == news[l] {
        UpsertUntouched(news, rows, l);
      }
      forall i | 0 <= i < |rows|
        ensures rows[i].link in Upsert(news, rows) && Upsert(news, rows)[rows[i].link] == rows[i]
      {
        UpsertLastWins(news, rows, i);
      }
    }
  }

  /**
   * A batch that repeats one stored link stores none of its new articles: the new
   * link j stays absent.
   */
  lemma PlainInsertOverlapLosesBatch(news: map<string, Row>, rows: seq<Row>, i: nat, j: nat)
    requires i < |rows| && j < |rows|
    requires rows[i].link in news && rows[j].link !in news
    ensures rows[j].link !in PlainInsert(news, rows)
  {
  }

  /** Running a non-empty batch a second time through the plain insert stores nothing new. */
  lemma PlainInsertRerun(news: map<string, Row>, rows: seq<Row>)
    requires rows != []
    ensures PlainInsert(PlainInsert(news, rows), rows) == PlainInsert(news, rows)
  {
    var once := PlainInsert(news, rows);
    if Insertable(news, rows) {
      assert rows[0].link in once;
    }
  }

  /** The upsert does store every new article of a batch that overlaps the table. */
  lemma UpsertStoresOverlappingBatch(news: map<string, Row>, rows: seq<Row>, j: nat)
    requires j < |rows|
    ensures rows[j].link in Upsert(news, rows)
  {
    assert rows[j].link in Links(rows);
  }

  // ---------------------------------------------------------------- the two tables

  /** keys lists every key of `keys` exactly once. */
  ghost predicate Enumerates(keys: seq<string>, s: set<string>) {
    && (forall i :: 0 <= i < |keys| ==> keys[i] in s)
    && (forall k :: k in s ==> k in keys)
    && (forall i, j :: 0 <= i < j < |keys| ==> keys[i] != keys[j])
  }

  /** lists[i] is the decoded topic of the row under keys[i]. */
  ghost predicate DecodedRows(news: map<string, Row>, keys: seq<string>, lists: seq<seq<string>>) {
    |lists| == |keys| && forall i :: 0 <= i < |keys| ==> keys[i] in news && Json.DecodeList(news[keys[i]].topic) == Some(lists[i])
  }

  class NewsStore {
    /** `news`, keyed by its UNIQUE link column. */
    var news: map<string, Row>
    /** `category_counts`: category to article_count. */
    var categoryCounts: map<string, nat>

    ghost predicate Valid()
      reads this
    {
      WellFormed(news)
    }

    constructor()
      ensures news == map[] && categoryCounts == map[]
      ensures Valid()
    {
      news := map[];
      categoryCounts := map[];
    }

    /** insert_data of the main variant: the batch is upserted, the counts are untouched. */
    method InsertDataUpsert(data: seq<Record>)
      requires Valid()
      modifies this
      ensures Valid()
      ensures news == Upsert(old(news), Values(data))
      ensures categoryCounts == old(categoryCounts)
    {
      var values := Values(data);
      forall i | 0 <= i < |values| ensures Json.DecodeList(values[i].topic).Some? {
        ValuesRoundTrip(data, i);
      }
      UpsertWellFormed(news, values);
      news := Upsert(news, values);
    }

    /** insert_data of the Ulf variant: a plain insert that commits all rows or none. */
    method InsertDataPlain(data: seq<Record>)
      requires Valid()
      modifies this
      ensures Valid()
      ensures news == PlainInsert(old(news), Values(data))
      ensures categoryCounts == old(categoryCounts)
    {
      var values := Values(data);
      if Insertable(news, values) {
        forall i | 0 <= i < |values| ensures Json.DecodeList(values[i].topic).Some? {
          ValuesRoundTrip(data, i);
        }
        UpsertWellFormed(news, values);
        news := Upsert(news, values);
      }
    }

    /** `SELECT topic FROM news`: every row's topic once, in an order the database picks. */
    method FetchTopics() returns (topics: seq<string>, ghost keys: seq<string>)
      ensures Enumerates(keys, news.Keys)
      ensures |topics| == |keys| && forall i :: 0 <= i < |keys| ==> topics[i] == news[keys[i]].topic
    {
      var remaining := news.Keys;
      topics := [];
      keys := [];
      while remaining != {}
        invariant remaining <= news.Keys
        invariant forall i :: 0 <= i < |keys| ==> keys[i] in news.Keys && keys[i] !in remaining
        invariant forall k :: k in news.Keys && k !in remaining ==> k in keys
        invariant forall i, j :: 0 <= i < j < |keys| ==> keys[i] != keys[j]
        invariant |topics| == |keys| && forall i :: 0 <= i < |keys| ==> topics[i] == news[keys[i]].topic
        decreases remaining
      {
        var k :| k in remaining;
        keys := keys + [k];
        topics := topics + [news[k].topic];
        remaining := remaining - {k};
      }
    }

    /**
     * calculate_category_counts: every stored topic is decoded (a malformed one raises
     * before anything is written) and tallied, and `category_counts` is replaced by the
     * tally, stale categories included. On a well-formed table it never fails.
     */
    method CalculateCategoryCounts() returns (r: Result<()>)
      modifies this
      ensures news == old(news)
      ensures old(Valid()) ==> r.Ok?
      ensures r.Err? ==> categoryCounts == old(categoryCounts)
      ensures r.Err? ==> exists l :: l in news && Json.DecodeList(news[l].topic).None?
      ensures r.Ok? ==> exists keys, lists ::
        Enumerates(keys, news.Keys) && DecodedRows(news, keys, lists) && Tally.IsTally(categoryCounts, lists)
    {
      var topics;
      ghost var keys;
      topics, keys := FetchTopics();
      var lists: seq<seq<string>> := [];
      for i := 0 to |topics|
        invariant |lists| == i
        invariant forall k :: 0 <= k < i ==> Json.DecodeList(topics[k]) == Some(lists[k])
      {
        var categories := Json.DecodeList(topics[i]);
        if categories.None? {
          assert keys[i] in news && Json.DecodeList(news[keys[i]].topic).None?;
          return Err("JSONDecodeError");
        }
        lists := lists + [categories.value];
      }
      var counts := Tally.CountCategories(lists);
      categoryCounts := counts;
      assert DecodedRows(news, keys, lists);
      r := Ok(());
    }
  }

  // ---------------------------------------------------------------- configuration

  /** DB_CONFIG of the Ulf variant: each value is an environment variable, possibly unset. */
  datatype Config = Config(host: Option<string>, user: Option<string>, password: Option<string>, database: Option<string>)

  /** Python truthiness of an `os.getenv` value. */
  predicate Truthy(v: Option<string>) {
    v.Some? && v.value != []
  }

  function ConfigValues(c: Config): seq<Option<string>> {
    [c.host, c.user, c.password, c.database]
  }

  /** `all(DB_CONFIG.values())`. */
  predicate AllTruthy(vs: seq<Option<string>>) {
    forall i :: 0 <= i < |vs| ==> Truthy(vs[i])
  }

  /** The module-level check: ValueError unless all four settings are present. */
  function CheckConfig(c: Config): Result<Config> {
    if !AllTruthy(ConfigValues(c)) then Err("ValueError: not all environment variables are defined")
    else Ok(c)
  }

  /**
   * The check fails exactly when one of host, user, password and database is unset
   * or empty, and otherwise passes the configuration on unchanged.
   */
  lemma CheckConfigIff(c: Config)
    ensures CheckConfig(c).Err? <==>
      c.host.None? || c.host == Some("") || c.user.None? || c.user == Some("")
      || c.password.None? || c.password == Some("") || c.database.None? || c.database == Some("")
    ensures CheckConfig(c).Ok? ==> CheckConfig(c).value == c
  {
    var vs := ConfigValues(c);
    assert vs[0] == c.host && vs[1] == c.user && vs[2] == c.password && vs[3] == c.database;
    assert AllTruthy(vs) <==> Truthy(c.host) && Truthy(c.user) && Truthy(c.password) && Truthy(c.database);
    TruthyIff(c.host);
    TruthyIff(c.user);
    TruthyIff(c.password);
    TruthyIff(c.database);
  }

  lemma TruthyIff(v: Option<string>)
    ensures Truthy(v) <==> !(v.None? || v == Some(""))
  {
  }
}
