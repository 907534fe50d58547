/** The evaluation driver: Recall@K folded over the rows of the training
    sheet, the mean, the saved summary, and the run for K = 5 and K = 10. */
module Evaluation {
  import opened Wrappers
  import opened Seqs
  import opened Records
  import opened Recall

  /** One row of the training sheet; an absent column reads as "". */
  datatype TrainRow = TrainRow(query: string, assessmentUrl: string)

  /** The detail record kept for a row that got recommendations. */
  datatype Detail = Detail(query: string, relevantUrls: seq<Url>, predictedUrls: seq<Url>, recall: real)

  /** What `evaluate_system` returns. */
  datatype Metrics = Metrics(
    meanRecall: real,
    k: int,
    numQueries: nat,
    individualRecalls: seq<real>,
    detailedResults: seq<Detail>)

  /** The JSON summary written by `save_evaluation_results`. */
  datatype Summary = Summary(
    meanRecall: real,
    k: int,
    numQueries: nat,
    minRecall: real,
    maxRecall: real,
    avgRecall: real)

  /** The cut-offs the driver evaluates, in order. */
  const Cutoffs: seq<int> := [5, 10]

  /** A row is skipped when its query or its relevant URL is empty. */
  predicate Skipped(row: TrainRow)
  {
    row.query == "" || row.assessmentUrl == ""
  }

  predicate Admitted(row: TrainRow)
  {
    !Skipped(row)
  }

  /** What one row of the loop contributes. */
  datatype RowOutcome = Skip | NoRecommendations | Scored(detail: Detail)

  /** The body of the loop in `evaluate_system` for one row. A scored row's
      recall is the number of times its one relevant URL occurs among the
      first `k` predicted URLs. */
  function EvaluateRow(row: TrainRow, api: Endpoint, k: int): (o: RowOutcome)
    ensures o.Skip? <==> Skipped(row)
    ensures o.NoRecommendations? <==> !Skipped(row) && |api(row.query)| == 0
    ensures o.Scored? ==>
      && o.detail.query == row.query
      && o.detail.relevantUrls == [row.assessmentUrl]
      && o.detail.predictedUrls == Prefix(Urls(api(row.query)), k)
      && o.detail.recall == multiset(o.detail.predictedUrls)[row.assessmentUrl] as real
  {
    if Skipped(row) then Skip
    else
      var recs := api(row.query);
      if |recs| == 0 then NoRecommendations
      else
        var predicted := Urls(recs);
        var relevant := [row.assessmentUrl];
        RecallSingleRelevant(predicted, row.assessmentUrl, k);
        Scored(Detail(row.query, relevant, Prefix(predicted, k), RecallAtK(predicted, relevant, k)))
  }

  /** The recall a row appends to `recalls`: 0 without recommendations, its
      Recall@K otherwise. */
  function RowRecall(row: TrainRow, api: Endpoint, k: int): real
  {
    var recs := api(row.query);
    if |recs| == 0 then 0.0 else RecallAtK(Urls(recs), [row.assessmentUrl], k)
  }

  /** The `recalls` list of the loop in `evaluate_system`: one entry per
      admitted row, in row order. */
  function Recalls(rows: seq<TrainRow>, api: Endpoint, k: int): (recalls: seq<real>)
    ensures |recalls| == |Filter(rows, Admitted)|
    decreases |rows|
  {
    if |rows| == 0 then []
    else
      var rest := Recalls(rows[1..], api, k);
      match EvaluateRow(rows[0], api, k)
      case Skip => rest
      case NoRecommendations => [0.0] + rest
      case Scored(d) => [d.recall] + rest
  }

  /** The `results` list of the same loop: the detail records of the rows
      that got recommendations. */
  function Details(rows: seq<TrainRow>, api: Endpoint, k: int): (details: seq<Detail>)
    ensures |details| <= |Filter(rows, Admitted)|
    decreases |rows|
  {
    if |rows| == 0 then []
    else
      var rest := Details(rows[1..], api, k);
      match EvaluateRow(rows[0], api, k)
      case Scored(d) => [d] + rest
      case _ => rest
  }

  /** Every recorded recall is non-negative. */
  lemma {:induction false} RecallsNonNegative(rows: seq<TrainRow>, api: Endpoint, k: int)
    ensures forall i :: 0 <= i < |Recalls(rows, api, k)| ==> Recalls(rows, api, k)[i] >= 0.0
    decreases |rows|
  {
    if |rows| > 0 {
      RecallsNonNegative(rows[1..], api, k);
    }
  }

  /** A detail record as the loop stores it: a non-empty query, its one
      relevant URL, and no more than `k` predicted URLs. */
  predicate WellFormedDetail(d: Detail, k: int)
  {
    && d.query != ""
    && |d.relevantUrls| == 1
    && (0 <= k ==> |d.predictedUrls| <= k)
  }

  /** Every detail record is well formed and carries one of the recorded
      recalls. */
  lemma {:induction false} DetailsWellFormed(rows: seq<TrainRow>, api: Endpoint, k: int)
    ensures forall j :: 0 <= j < |Details(rows, api, k)| ==>
      WellFormedDetail(Details(rows, api, k)[j], k) && Details(rows, api, k)[j].recall in Recalls(rows, api, k)
    decreases |rows|
  {
    if |rows| > 0 {
      DetailsWellFormed(rows[1..], api, k);
      var details, recalls := Details(rows, api, k), Recalls(rows, api, k);
      var restDetails, restRecalls := Details(rows[1..], api, k), Recalls(rows[1..], api, k);
      match EvaluateRow(rows[0], api, k)
      case Skip =>
        assert details == restDetails && recalls == restRecalls;
      case NoRecommendations =>
        assert details == restDetails && recalls == [0.0] + restRecalls;
      case Scored(d) =>
        assert details == [d] + restDetails && recalls == [d.recall] + restRecalls;
        forall j | 0 < j < |details|
          ensures details[j].recall in recalls
        {
          assert details[j] == restDetails[j - 1];
        }
    }
  }

  /** One step of the loop on the recalls: an admitted row appends its own
      recall. */
  lemma RecallsStep(rows: seq<TrainRow>, api: Endpoint, k: int)
    requires |rows| > 0
    ensures Recalls(rows, api, k) ==
      (if Admitted(rows[0]) then [RowRecall(rows[0], api, k)] else []) + Recalls(rows[1..], api, k)
  {
    var row, rest := rows[0], Recalls(rows[1..], api, k);
    match EvaluateRow(row, api, k)
    case Skip =>
      assert Recalls(rows, api, k) == rest;
    case NoRecommendations =>
      assert Recalls(rows, api, k) == [0.0] + rest;
    case Scored(d) =>
      assert d.recall == RowRecall(row, api, k);
      assert Recalls(rows, api, k) == [d.recall] + rest;
  }

  /** The recalls are exactly the per-row recalls of the admitted rows, in
      input order. */
  lemma {:induction false} RecallsArePerRow(rows: seq<TrainRow>, api: Endpoint, k: int)
    ensures forall i :: 0 <= i < |Recalls(rows, api, k)| ==>
      Recalls(rows, api, k)[i] == RowRecall(Filter(rows, Admitted)[i], api, k)
    decreases |rows|
  {
    if |rows| > 0 {
      RecallsArePerRow(rows[1..], api, k);
      RecallsStep(rows, api, k);
      var rest, admittedRest := Recalls(rows[1..], api, k), Filter(rows[1..], Admitted);
      var recalls, admitted := Recalls(rows, api, k), Filter(rows, Admitted);
      if Admitted(rows[0]) {
        assert admitted == [rows[0]] + admittedRest;
        forall i | 0 < i < |recalls|
          ensures recalls[i] == RowRecall(admitted[i], api, k)
        {
          assert recalls[i] == rest[i - 1] && admitted[i] == admittedRest[i - 1];
        }
      } else {
        assert admitted == admittedRest;
      }
    }
  }

  function Sum(xs: seq<real>): real
  {
    if |xs| == 0 then 0.0 else xs[0] + Sum(xs[1..])
  }

  /** `sum(recalls) / len(recalls) if recalls else 0.0`. */
  function Mean(xs: seq<real>): (m: real)
    ensures |xs| == 0 ==> m == 0.0
    ensures |xs| > 0 ==> m * |xs| as real == Sum(xs)
  {
    if |xs| == 0 then 0.0 else Sum(xs) / |xs| as real
  }

  /** Python's `min` on a non-empty list. */
  function MinOf(xs: seq<real>): (m: real)
    requires |xs| > 0
    ensures m in xs
    ensures forall i :: 0 <= i < |xs| ==> m <= xs[i]
  {
    if |xs| == 1 then xs[0]
    else
      var rest := MinOf(xs[1..]);
      if xs[0] <= rest then xs[0] else rest
  }

  /** Python's `max` on a non-empty list. */
  function MaxOf(xs: seq<real>): (m: real)
    requires |xs| > 0
    ensures m in xs
    ensures forall i :: 0 <= i < |xs| ==> xs[i] <= m
  {
    if |xs| == 1 then xs[0]
    else
      var rest := MaxOf(xs[1..]);
      if rest <= xs[0] then xs[0] else rest
  }

  lemma {:induction false} SumBounds(xs: seq<real>, lo: real, hi: real)
    requires forall i :: 0 <= i < |xs| ==> lo <= xs[i] <= hi
    ensures lo * |xs| as real <= Sum(xs) <= hi * |xs| as real
    decreases |xs|
  {
    if |xs| > 0 {
      SumBounds(xs[1..], lo, hi);
      assert lo * |xs| as real == lo + lo * (|xs| - 1) as real;
      assert hi * |xs| as real == hi + hi * (|xs| - 1) as real;
    }
  }

  /** The mean lies between the smallest and the largest recall. */
  lemma MeanWithinRange(xs: seq<real>)
    requires |xs| > 0
    ensures MinOf(xs) <= Mean(xs) <= MaxOf(xs)
  {
    MeanBetween(xs, MinOf(xs), MaxOf(xs));
  }

  lemma MeanBetween(xs: seq<real>, lo: real, hi: real)
    requires |xs| > 0
    requires forall i :: 0 <= i < |xs| ==> lo <= xs[i] <= hi
    ensures lo <= Mean(xs) <= hi
  {
    SumBounds(xs, lo, hi);
    DivBounds(Sum(xs), |xs| as real, lo, hi);
  }

  lemma MeanNonNegative(xs: seq<real>)
    requires forall i :: 0 <= i < |xs| ==> xs[i] >= 0.0
    ensures Mean(xs) >= 0.0
  {
    if |xs| > 0 {
      MeanWithinRange(xs);
    }
  }

  lemma DivBounds(s: real, n: real, lo: real, hi: real)
    requires n > 0.0
    requires lo * n <= s <= hi * n
    ensures lo <= s / n <= hi
  {
  }

  lemma {:induction false} SumMonotone(xs: seq<real>, ys: seq<real>)
    requires |xs| == |ys|
    requires forall i :: 0 <= i < |xs| ==> xs[i] <= ys[i]
    ensures Sum(xs) <= Sum(ys)
    decreases |xs|
  {
    if |xs| > 0 {
      SumMonotone(xs[1..], ys[1..]);
    }
  }

  /** `evaluate_system`: one recall per admitted row, detail records for the
      rows that got recommendations, and their mean. */
  function EvaluateSystem(rows: seq<TrainRow>, api: Endpoint, k: int): (m: Metrics)
    ensures m.k == k
    ensures m.numQueries == |m.individualRecalls| == |Filter(rows, Admitted)|
    ensures |m.detailedResults| <= m.numQueries
    ensures forall i :: 0 <= i < |m.individualRecalls| ==>
      m.individualRecalls[i] == RowRecall(Filter(rows, Admitted)[i], api, k)
    ensures m.meanRecall == Mean(m.individualRecalls)
    ensures m.meanRecall >= 0.0
    ensures m.numQueries == 0 ==> m.meanRecall == 0.0
  {
    var recalls := Recalls(rows, api, k);
    RecallsArePerRow(rows, api, k);
    RecallsNonNegative(rows, api, k);
    MeanNonNegative(recalls);
    Metrics(Mean(recalls), k, |recalls|, recalls, Details(rows, api, k))
  }

  /** When the endpoint returns nothing for every query, every recall and
      the mean are 0 and no detail record is kept. */
  lemma NoRecommendationsScoreZero(rows: seq<TrainRow>, api: Endpoint, k: int)
    requires forall q :: |api(q)| == 0
    ensures EvaluateSystem(rows, api, k).detailedResults == []
    ensures forall i :: 0 <= i < |EvaluateSystem(rows, api, k).individualRecalls| ==>
      EvaluateSystem(rows, api, k).individualRecalls[i] == 0.0
    ensures EvaluateSystem(rows, api, k).meanRecall == 0.0
  {
    var recalls := Recalls(rows, api, k);
    NoRecommendationsRows(rows, api, k);
    if |recalls| > 0 {
      MeanBetween(recalls, 0.0, 0.0);
    }
  }

  lemma {:induction false} NoRecommendationsRows(rows: seq<TrainRow>, api: Endpoint, k: int)
    requires forall q :: |api(q)| == 0
    ensures Details(rows, api, k) == []
    ensures forall i :: 0 <= i < |Recalls(rows, api, k)| ==> Recalls(rows, api, k)[i] == 0.0
    decreases |rows|
  {
    if |rows| > 0 {
      NoRecommendationsRows(rows[1..], api, k);
    }
  }

  /** Each row's recall is no smaller at a larger cut-off. */
  lemma RecallsPointwiseMonotone(rows: seq<TrainRow>, api: Endpoint, k1: int, k2: int)
    requires SameSideBounds(k1, k2)
    ensures |Recalls(rows, api, k1)| == |Recalls(rows, api, k2)|
    ensures forall i :: 0 <= i < |Recalls(rows, api, k1)| ==> Recalls(rows, api, k1)[i] <= Recalls(rows, api, k2)[i]
  {
    var xs := Recalls(rows, api, k1);
    var ys := Recalls(rows, api, k2);
    RecallsArePerRow(rows, api, k1);
    RecallsArePerRow(rows, api, k2);
    var admitted := Filter(rows, Admitted);
    forall i | 0 <= i < |xs|
      ensures xs[i] <= ys[i]
    {
      var recs := api(admitted[i].query);
      if |recs| > 0 {
        RecallMonotone(Urls(recs), [admitted[i].assessmentUrl], k1, k2);
      }
    }
  }

  lemma MeanMonotone(xs: seq<real>, ys: seq<real>)
    requires |xs| == |ys|
    requires forall i :: 0 <= i < |xs| ==> xs[i] <= ys[i]
    ensures Mean(xs) <= Mean(ys)
  {
    SumMonotone(xs, ys);
    if |xs| > 0 {
      DivMonotone(Sum(xs), Sum(ys), |xs| as real);
    }
  }

  /** The mean recall never decreases when the cut-off grows. */
  lemma MeanMonotoneInK(rows: seq<TrainRow>, api: Endpoint, k1: int, k2: int)
    requires SameSideBounds(k1, k2)
    ensures EvaluateSystem(rows, api, k1).meanRecall <= EvaluateSystem(rows, api, k2).meanRecall
  {
    RecallsPointwiseMonotone(rows, api, k1, k2);
    MeanMonotone(Recalls(rows, api, k1), Recalls(rows, api, k2));
  }

  /** `save_evaluation_results`: the summary, or the error Python's `min`
      raises on an empty list. */
  function SaveEvaluationResults(m: Metrics): (r: Result<Summary, string>)
    ensures r.Failure? <==> |m.individualRecalls| == 0
    ensures r.Success? ==>
      && r.value.meanRecall == m.meanRecall == r.value.avgRecall
      && r.value.k == m.k
      && r.value.numQueries == m.numQueries
      && r.value.minRecall in m.individualRecalls
      && r.value.maxRecall in m.individualRecalls
      && forall i :: 0 <= i < |m.individualRecalls| ==>
           r.value.minRecall <= m.individualRecalls[i] <= r.value.maxRecall
  {
    if |m.individualRecalls| == 0 then Failure("min() arg is an empty sequence")
    else
      var recalls := m.individualRecalls;
      Success(Summary(m.meanRecall, m.k, m.numQueries, MinOf(recalls), MaxOf(recalls), m.meanRecall))
  }

  /** The summary of an evaluation exists exactly when some row was admitted,
      and its mean lies between its minimum and maximum. */
  lemma SummaryOfEvaluation(rows: seq<TrainRow>, api: Endpoint, k: int)
    ensures SaveEvaluationResults(EvaluateSystem(rows, api, k)).Success? <==>
      exists i :: 0 <= i < |rows| && Admitted(rows[i])
    ensures SaveEvaluationResults(EvaluateSystem(rows, api, k)).Success? ==>
      SaveEvaluationResults(EvaluateSystem(rows, api, k)).value.minRecall
        <= SaveEvaluationResults(EvaluateSystem(rows, api, k)).value.meanRecall
        <= SaveEvaluationResults(EvaluateSystem(rows, api, k)).value.maxRecall
  {
    var m := EvaluateSystem(rows, api, k);
    SomeRowAdmitted(rows);
    if |m.individualRecalls| > 0 {
      MeanWithinRange(m.individualRecalls);
    }
  }

  /** At least one row is evaluated exactly when some row has both a query and
      a relevant URL. */
  lemma SomeRowAdmitted(rows: seq<TrainRow>)
    ensures |Filter(rows, Admitted)| > 0 <==> exists i :: 0 <= i < |rows| && Admitted(rows[i])
  {
    var admitted := Filter(rows, Admitted);
    if exists i :: 0 <= i < |rows| && Admitted(rows[i]) {
      var i :| 0 <= i < |rows| && Admitted(rows[i]);
      assert rows[i] in admitted;
    }
    if |admitted| > 0 {
      assert Admitted(admitted[0]) && admitted[0] in rows;
    }
  }

  /** `main`: the health check, the loaded sheet, then evaluation and summary
      for each cut-off. The report printed before saving takes `min` of the
      recalls too, so an evaluation with no admitted row stops the run before
      any summary is written. */
  function RunEvaluation(healthy: bool, data: Option<seq<TrainRow>>, api: Endpoint): (r: Result<seq<Summary>, string>)
    ensures r.Success? <==>
      healthy && data.Some? && exists i :: 0 <= i < |data.value| && Admitted(data.value[i])
    ensures r.Success? ==>
      && |r.value| == |Cutoffs| == 2
      && r.value[0].k == Cutoffs[0] && r.value[1].k == Cutoffs[1]
      && r.value[0] == SaveEvaluationResults(EvaluateSystem(data.value, api, Cutoffs[0])).value
      && r.value[1] == SaveEvaluationResults(EvaluateSystem(data.value, api, Cutoffs[1])).value
      && r.value[0].meanRecall <= r.value[1].meanRecall
  {
    if !healthy then Failure("API health check failed")
    else if data.None? then Failure("could not load the training data")
    else
      var rows := data.value;
      var first, second := Cutoffs[0], Cutoffs[1];
      SummaryOfEvaluation(rows, api, first);
      SummaryOfEvaluation(rows, api, second);
      var s1 := SaveEvaluationResults(EvaluateSystem(rows, api, first));
      var s2 := SaveEvaluationResults(EvaluateSystem(rows, api, second));
      if s1.Failure? || s2.Failure? then Failure("min() arg is an empty sequence")
      else
        MeanMonotoneInK(rows, api, first, second);
        var summaries := [s1.value, s2.value];
        assert |Cutoffs| == 2;
        assert summaries[0].k == first && summaries[1].k == second;
        Success(summaries)
  }
}
