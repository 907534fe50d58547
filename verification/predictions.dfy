/** The prediction driver: each test query becomes rows of a two-column
    table, which is then checked for its column labels. */
module Predictions {
  import opened Wrappers
  import opened Seqs
  import opened Records

  /** Recommendations kept per query. */
  const MaxResults: int := 10

  /** The column labels a submission must have, in this order. */
  const RequiredColumns: seq<string> := ["Query", "Assessment_url"]

  datatype PredictionRow = PredictionRow(query: string, assessmentUrl: string)

  /** A data frame: its column labels and its rows. */
  datatype Table = Table(columns: seq<string>, rows: seq<PredictionRow>)

  /** A test row is processed when its query is non-empty. */
  predicate Asked(query: string)
  {
    query != ""
  }

  /** `get_recommendations`: the first `maxResults` records of the reply, in
      order; an empty reply stands for a failed call. */
  function GetRecommendations(reply: seq<Recommendation>, maxResults: int): (r: seq<Recommendation>)
    ensures r <= reply
    ensures 0 <= maxResults ==> |r| == (if |reply| < maxResults then |reply| else maxResults)
    ensures |reply| <= maxResults ==> r == reply
  {
    Prefix(reply, maxResults)
  }

  /** The rows one query adds: none for an empty query, one placeholder row
      with an empty URL when there is no recommendation, otherwise one row
      per recommendation in ranking order. */
  function RowsForQuery(query: string, recs: seq<Recommendation>): (rows: seq<PredictionRow>)
    ensures !Asked(query) ==> rows == []
    ensures Asked(query) && |recs| == 0 ==> rows == [PredictionRow(query, "")]
    ensures Asked(query) && |recs| > 0 ==>
      |rows| == |recs| && forall i :: 0 <= i < |recs| ==> rows[i] == PredictionRow(query, recs[i].url)
  {
    if !Asked(query) then []
    else if |recs| == 0 then [PredictionRow(query, "")]
    else seq(|recs|, i requires 0 <= i < |recs| => PredictionRow(query, recs[i].url))
  }

  /** The rows for one query as asked of the endpoint. */
  function Answer(query: string, api: Endpoint): (rows: seq<PredictionRow>)
    ensures |rows| <= MaxResults
    ensures Asked(query) ==> |rows| >= 1
  {
    RowsForQuery(query, GetRecommendations(api(query), MaxResults))
  }

  /** `generate_predictions`: the rows of all queries, concatenated in input
      order; no query adds more than `MaxResults` rows. */
  function GeneratePredictions(queries: seq<string>, api: Endpoint): (rows: seq<PredictionRow>)
    ensures |rows| <= MaxResults * |queries|
    decreases |queries|
  {
    if |queries| == 0 then []
    else Answer(queries[0], api) + GeneratePredictions(queries[1..], api)
  }

  /** A row belongs to an asked query, and its URL is either one of that
      query's first ten recommendations or the placeholder of a query that got
      none. */
  predicate WellFormedRow(row: PredictionRow, queries: seq<string>, api: Endpoint)
  {
    && Asked(row.query)
    && row.query in queries
    && (|api(row.query)| == 0 ==> row.assessmentUrl == "")
    && (|api(row.query)| > 0 ==> row.assessmentUrl in Urls(GetRecommendations(api(row.query), MaxResults)))
  }

  /** Every generated row is well formed. */
  lemma {:induction false} RowsWellFormed(queries: seq<string>, api: Endpoint)
    ensures forall i :: 0 <= i < |GeneratePredictions(queries, api)| ==>
      WellFormedRow(GeneratePredictions(queries, api)[i], queries, api)
    decreases |queries|
  {
    if |queries| > 0 {
      var q := queries[0];
      var recs := GetRecommendations(api(q), MaxResults);
      var head := Answer(q, api);
      var rest := GeneratePredictions(queries[1..], api);
      RowsWellFormed(queries[1..], api);
      var rows := GeneratePredictions(queries, api);
      assert rows == head + rest;
      forall i | 0 <= i < |rows|
        ensures WellFormedRow(rows[i], queries, api)
      {
        if i < |head| {
          assert rows[i] == head[i] && head[i].query == q;
          if |recs| > 0 {
            assert rows[i].assessmentUrl == Urls(recs)[i];
          }
        } else {
          var row := rest[i - |head|];
          assert rows[i] == row;
          assert WellFormedRow(row, queries[1..], api);
        }
      }
    }
  }

  /** The rows of concatenated inputs are the concatenated rows: queries keep
      their input order. */
  lemma {:induction false} GenerateAppend(a: seq<string>, b: seq<string>, api: Endpoint)
    ensures GeneratePredictions(a + b, api) == GeneratePredictions(a, api) + GeneratePredictions(b, api)
    decreases |a|
  {
    if |a| == 0 {
      assert a + b == b;
    } else {
      GenerateAppend(a[1..], b, api);
      assert (a + b)[0] == a[0] && (a + b)[1..] == a[1..] + b;
      calc {
        GeneratePredictions(a + b, api);
        Answer(a[0], api) + GeneratePredictions(a[1..] + b, api);
        Answer(a[0], api) + (GeneratePredictions(a[1..], api) + GeneratePredictions(b, api));
        (Answer(a[0], api) + GeneratePredictions(a[1..], api)) + GeneratePredictions(b, api);
      }
    }
  }

  /** Rows a query contributes: none when skipped, else one per kept
      recommendation but at least one. */
  function RowBudget(query: string, api: Endpoint): nat
  {
    if !Asked(query) then 0
    else
      var n := |GetRecommendations(api(query), MaxResults)|;
      if n == 0 then 1 else n
  }

  function TotalBudget(queries: seq<string>, api: Endpoint): nat
  {
    if |queries| == 0 then 0 else RowBudget(queries[0], api) + TotalBudget(queries[1..], api)
  }

  /** The table has exactly max(1, kept recommendations) rows per asked
      query. */
  lemma {:induction false} RowCount(queries: seq<string>, api: Endpoint)
    ensures |GeneratePredictions(queries, api)| == TotalBudget(queries, api)
    decreases |queries|
  {
    if |queries| > 0 {
      RowCount(queries[1..], api);
    }
  }

  /** Every asked query appears in at least one row. */
  lemma {:induction false} EveryQueryAnswered(queries: seq<string>, api: Endpoint, j: int)
    requires 0 <= j < |queries| && Asked(queries[j])
    ensures exists row :: row in GeneratePredictions(queries, api) && row.query == queries[j]
    decreases |queries|
  {
    var rows := GeneratePredictions(queries, api);
    var head := Answer(queries[0], api);
    assert rows == head + GeneratePredictions(queries[1..], api);
    if j == 0 {
      assert |head| > 0 && head[0].query == queries[0];
      assert rows[0] == head[0];
      assert rows[0] in rows && rows[0].query == queries[j];
    } else {
      EveryQueryAnswered(queries[1..], api, j - 1);
      var rest := GeneratePredictions(queries[1..], api);
      assert queries[1..][j - 1] == queries[j];
      var row :| row in rest && row.query == queries[j];
      assert row in rows;
    }
  }

  /** When the endpoint returns nothing, each asked query gets exactly one
      placeholder row, in input order. */
  lemma {:induction false} NoRecommendationsPlaceholders(queries: seq<string>, api: Endpoint)
    requires forall q :: |api(q)| == 0
    ensures GeneratePredictions(queries, api) ==
      seq(|Filter(queries, Asked)|, i requires 0 <= i < |Filter(queries, Asked)| =>
        PredictionRow(Filter(queries, Asked)[i], ""))
    decreases |queries|
  {
    if |queries| > 0 {
      NoRecommendationsPlaceholders(queries[1..], api);
    }
  }

  /** `pd.DataFrame(predictions)`: the labels come from the row records, so a
      frame built from no rows has no columns at all. */
  function ToTable(rows: seq<PredictionRow>): (t: Table)
    ensures t.rows == rows
    ensures |rows| > 0 ==> t.columns == RequiredColumns
    ensures |rows| == 0 ==> t.columns == []
  {
    if |rows| == 0 then Table([], []) else Table(RequiredColumns, rows)
  }

  /** `validate_format`: the labels must be exactly `Query, Assessment_url`
      in that order; missing values only raise warnings. */
  function ValidateFormat(t: Table): (ok: bool)
    ensures ok <==> |t.columns| == 2 && t.columns[0] == "Query" && t.columns[1] == "Assessment_url"
  {
    t.columns == RequiredColumns
  }

  /** The generated table passes validation exactly when some query was
      asked: a sheet of empty queries yields a frame without columns. */
  lemma GeneratedTableValid(queries: seq<string>, api: Endpoint)
    ensures ValidateFormat(ToTable(GeneratePredictions(queries, api))) <==>
      exists j :: 0 <= j < |queries| && Asked(queries[j])
  {
    var rows := GeneratePredictions(queries, api);
    if exists j :: 0 <= j < |queries| && Asked(queries[j]) {
      var j :| 0 <= j < |queries| && Asked(queries[j]);
      EveryQueryAnswered(queries, api, j);
      var row :| row in rows && row.query == queries[j];
      assert |rows| > 0;
    }
    if |rows| > 0 {
      RowsWellFormed(queries, api);
      assert rows[0].query in queries && Asked(rows[0].query);
    }
  }

  /** `main`: the health check, the loaded sheet, generation and validation;
      the validated table is what gets written. */
  function RunPredictions(healthy: bool, data: Option<seq<string>>, api: Endpoint): (r: Result<Table, string>)
    ensures r.Success? <==>
      healthy && data.Some? && exists j :: 0 <= j < |data.value| && Asked(data.value[j])
    ensures r.Success? ==>
      r.value.columns == RequiredColumns && r.value.rows == GeneratePredictions(data.value, api)
  {
    if !healthy then Failure("API health check failed")
    else if data.None? then Failure("could not load the test data")
    else
      var table := ToTable(GeneratePredictions(data.value, api));
      GeneratedTableValid(data.value, api);
      if !ValidateFormat(table) then Failure("Format validation failed")
      else Success(table)
  }
}
