# SHL assessment recommender: evaluation, predictions and client logic in Dafny

This project models the parts of the SHL assessment recommender demo that
hold logic of their own. All matching is done by a remote HTTP endpoint. The
two batch scripts and the browser client only replay queries against it and
post-process what comes back:

- **Recall@K evaluation** (`evaluation/evaluate.py`) is modelled in module
  `Recall` and module `Evaluation`:
  - Recall@K of one ranked URL list;
  - the per-row loop of `evaluate_system`, with its skip rule and its 0.0 for
    a query without recommendations;
  - the mean and the `min`/`max` summary;
  - the driver that runs the loop for K = 5 and K = 10.
- **Prediction generation** (`predictions/generate_predictions.py`) is
  modelled in module `Predictions`:
  - the ten-result cut of `get_recommendations`;
  - the flattening of `generate_predictions` into (query, URL) rows, with
    one placeholder row for a query that got nothing;
  - the construction of the data frame;
  - the column check of `validate_format`.
- **Client state** (`client/src/App.jsx`) is modelled in these modules:
  - `SearchHistory`: the five-entry search history;
  - `ResultFilters`: the three result filters of the filter effect;
  - `JsText`: the JavaScript string operations the filters and the search
    guard use (`trim`, `toLowerCase`, `includes`);
  - `App`: theme toggling, and `handleSearch` followed by the filter effect.

Shared pieces:

- `Seqs` holds Python/JavaScript slicing and `filter`.
- `Records` holds the recommendation record and the endpoint.
- `Wrappers` holds `Option` and `Result`.

The endpoint is a parameter, a function from query text to the list of
records it answers with. A failed request (an HTTP error, a timeout, a body
that is not JSON) is the empty list, because both scripts turn every
exception into `[]`. The health check is a boolean parameter. A spreadsheet
that failed to load is `None`.

The model follows the code as written, including behaviour that its own
comments do not announce. The docstring at `evaluation/evaluate.py:45` reads
Recall@K as a fraction of the relevant items, and the comment at
`predictions/generate_predictions.py:68` says the placeholder row keeps the
format. The code itself behaves as follows:

- **Duplicate URLs.** Recall@K counts every predicted URL that is relevant,
  duplicates included. A relevant URL ranked twice in the top K therefore
  scores 2.0, not 1.0 (`Recall.DuplicateOverCounts`). With a duplicate-free
  list the value stays in [0, 1] (`Recall.RecallBoundedWhenDistinct`).
- **Negative K.** K may be any integer. `predicted_urls[:k]` with a negative
  K drops entries from the end, and `Seqs.Prefix` models that.
- **Detail records.** A row whose query got no recommendations adds a recall
  of 0.0 but no detail record.
- **Empty evaluation.** If no row was evaluated, `min()` of the empty recall
  list raises, and `main` stops before any summary file is written. The model
  reports this as a `Failure`.
- **Empty prediction table.** If every test query is empty, the frame has no
  columns at all. `validate_format` then rejects it and nothing is written.

## Model

| member | source | states |
|---|---|---|
| Seqs.Prefix | evaluation/evaluate.py:51 | `s[:k]` is a prefix of `s`. For `k >= 0` its length is `min(k, len(s))`. For negative `k` it is `len(s) + k`, clamped at 0. |
| Records.Urls | evaluation/evaluate.py:90 | The URL list has one entry per recommendation: the `url` field of each, in ranking order. |
| Recall.Hits | evaluation/evaluate.py:54 | The count of relevant entries among the top predictions never exceeds the number of predictions. |
| Recall.HitsExtremes | evaluation/evaluate.py:54 | The count is 0 exactly when no top prediction is relevant. It equals the number of predictions exactly when every top prediction is relevant. |
| Recall.HitsSingle | evaluation/evaluate.py:54 | Against a single relevant URL, the count is the multiplicity of that URL in the top predictions. |
| Recall.HitsDistinct | evaluation/evaluate.py:54 | For a list without repetitions, the count is the size of the intersection of the two URL sets. |
| Recall.RecallAtK | evaluation/evaluate.py:41-59 | Recall@K is 0.0 when there are no relevant URLs. Otherwise it is the hit count among the first K predictions divided by the length of the relevant list, duplicates included. It is never negative. |
| Recall.RecallDistinctFormula | evaluation/evaluate.py:42-57 | When the first K predictions have no repetitions, Recall@K is the number of distinct relevant URLs found there over the length of the relevant list. |
| Recall.RecallZeroIff | evaluation/evaluate.py:47-57 | Recall@K is 0.0 exactly when there are no relevant URLs or none of the first K predictions is relevant. |
| Recall.EmptyRelevantScoresZero | evaluation/evaluate.py:47-48 | An empty relevant list scores 0.0 for every prediction list and every K. |
| Recall.RecallIgnoresTail | evaluation/evaluate.py:51-57 | Two prediction lists that agree on their first K positions score the same, whatever their lengths beyond that. Agreeing means the same entry at each position, or both lists ending there. |
| Recall.RecallSaturates | evaluation/evaluate.py:51 | A cut-off at or beyond the list's length scores the same as a cut-off at its length. |
| Recall.RecallMonotone | evaluation/evaluate.py:51-57 | For `k1 <= k2` with both non-negative or both negative, Recall@k1 is at most Recall@k2. |
| Recall.NegativeCutOffExample | evaluation/evaluate.py:51-57 | `["A","B"]` against `["A"]` scores 1.0 at K = -1 and 0.0 at K = 0, so Recall@K is not monotone across zero. |
| Recall.RecallSingleRelevant | evaluation/evaluate.py:92-97 | With one relevant URL, Recall@K equals the number of times that URL occurs among the first K predictions. |
| Recall.CutOffExamples | evaluation/evaluate.py:51-57 | `["A","B","C"]` against `["B"]` scores 1.0 at K = 2 and 0.0 at K = 1. |
| Recall.DuplicateOverCounts | evaluation/evaluate.py:54-57 | `["A","A"]` against `["A"]` at K = 2 scores 2.0, so a repeated prediction is counted twice. |
| Recall.DistinctHitsBound | evaluation/evaluate.py:54 | A prediction list without repetitions has no more hits than there are relevant URLs. |
| Recall.RecallBoundedWhenDistinct | evaluation/evaluate.py:51-57 | If the first K predictions are free of repetitions, Recall@K lies in [0, 1]. |
| Evaluation.EvaluateRow | evaluation/evaluate.py:73-106 | A row is skipped exactly when its query or URL is empty. It gets no recommendations exactly when it is admitted and the endpoint answers nothing. Otherwise its detail record holds the query, the one relevant URL, the first K predicted URLs, and the number of times the relevant URL occurs among them. |
| Evaluation.Recalls | evaluation/evaluate.py:73-98 | The recall list has one entry per admitted row. |
| Evaluation.Details | evaluation/evaluate.py:99-106 | There are at most as many detail records as admitted rows. |
| Evaluation.RecallsNonNegative | evaluation/evaluate.py:86-98 | Every collected recall is non-negative. |
| Evaluation.DetailsWellFormed | evaluation/evaluate.py:100-106 | Every detail record has a non-empty query and one relevant URL. It holds at most K predictions when K is non-negative, and its recall is among the collected recalls. |
| Evaluation.RecallsStep | evaluation/evaluate.py:76-98 | An admitted row appends its own recall ahead of the rest of the list, and a skipped row appends nothing. |
| Evaluation.RecallsArePerRow | evaluation/evaluate.py:73-98 | The i-th collected recall is the i-th admitted row's recall: 0.0 without recommendations, its Recall@K otherwise. |
| Evaluation.Mean | evaluation/evaluate.py:114 | The mean of an empty list is 0.0. Otherwise the mean times the count equals the sum. |
| Evaluation.MeanBetween | evaluation/evaluate.py:114 | The mean of a non-empty list lies between any lower and upper bound of its entries. |
| Evaluation.MeanNonNegative | evaluation/evaluate.py:114 | The mean of non-negative values is non-negative. |
| Evaluation.MeanMonotone | evaluation/evaluate.py:114 | Raising entries pointwise does not lower the mean. |
| Evaluation.MinOf | evaluation/evaluate.py:155 | `min` of a non-empty list is one of its entries and is at most every entry. |
| Evaluation.MaxOf | evaluation/evaluate.py:156 | `max` of a non-empty list is one of its entries and is at least every entry. |
| Evaluation.MeanWithinRange | evaluation/evaluate.py:152-157 | The mean lies between the minimum and the maximum. |
| Evaluation.EvaluateSystem | evaluation/evaluate.py:61-124 | The metrics report K. The number of queries is the number of admitted rows and equals the length of the recall list. The i-th recall is the i-th admitted row's recall. The mean recall is `Mean` of those recalls, so it is non-negative and is 0.0 when no row was evaluated. There are no more detail records than queries. |
| Evaluation.NoRecommendationsScoreZero | evaluation/evaluate.py:84-87 | When the endpoint answers nothing, there are no detail records, every recall is 0.0 and the mean is 0.0. |
| Evaluation.NoRecommendationsRows | evaluation/evaluate.py:84-87 | When the endpoint answers nothing, the loop collects no details and only 0.0 recalls. |
| Evaluation.RecallsPointwiseMonotone | evaluation/evaluate.py:188-189 | On the same rows, every row's recall at a larger K is at least its recall at a smaller one, when both K are non-negative or both negative. |
| Evaluation.MeanMonotoneInK | evaluation/evaluate.py:188-189 | The mean recall does not decrease when K grows, when both K are non-negative or both negative. |
| Evaluation.SaveEvaluationResults | evaluation/evaluate.py:148-158 | Saving fails exactly when the recall list is empty. On success, the summary copies mean, K and count. Its average equals the mean. Its min and max are entries of the recall list that bound every entry. |
| Evaluation.SummaryOfEvaluation | evaluation/evaluate.py:134-158 | A summary exists exactly when some row is admitted, and then min <= mean <= max. |
| Evaluation.SomeRowAdmitted | evaluation/evaluate.py:77-79 | Some row passes the skip rule exactly when the admitted rows are non-empty. |
| Evaluation.RunEvaluation | evaluation/evaluate.py:165-192 | The run produces summaries exactly when the API is healthy, the sheet loaded, and some row is admitted. There are two summaries, for K = 5 and K = 10 in that order. Each one is the saved summary of the evaluation at its K, and the K = 5 mean is at most the K = 10 mean. |
| Predictions.GetRecommendations | predictions/generate_predictions.py:38 | The reply is cut to its first `min(max_results, len(reply))` records, in order. A reply that is already short enough is kept whole. |
| Predictions.RowsForQuery | predictions/generate_predictions.py:57-80 | An empty query yields no rows. A query without recommendations yields one row with an empty URL. Otherwise there is one row per recommendation carrying its URL, in order. |
| Predictions.Answer | predictions/generate_predictions.py:57-80 | One query adds at most ten rows, and a non-empty query adds at least one. |
| Predictions.GeneratePredictions | predictions/generate_predictions.py:43-90 | There are at most ten times as many rows as queries. |
| Predictions.RowsWellFormed | predictions/generate_predictions.py:54-80 | Every row belongs to a non-empty input query. Its URL is the placeholder when that query got nothing, and one of the query's first ten recommended URLs otherwise. |
| Predictions.GenerateAppend | predictions/generate_predictions.py:54-86 | The rows for two sheets in sequence are the rows for each, concatenated. |
| Predictions.RowCount | predictions/generate_predictions.py:57-80 | The row count is the sum over queries of 0 (empty query), 1 (no recommendations) or the number of kept recommendations. |
| Predictions.EveryQueryAnswered | predictions/generate_predictions.py:57-80 | Every non-empty query has at least one row. |
| Predictions.NoRecommendationsPlaceholders | predictions/generate_predictions.py:66-73 | When the endpoint answers nothing, the rows are exactly one placeholder per non-empty query, in input order. |
| Predictions.ToTable | predictions/generate_predictions.py:88 | The frame keeps the rows. Its columns are `Query, Assessment_url` when there are rows and none otherwise. |
| Predictions.ValidateFormat | predictions/generate_predictions.py:99-124 | Validation passes exactly when the columns are `Query` then `Assessment_url`. |
| Predictions.GeneratedTableValid | predictions/generate_predictions.py:87-107 | The generated frame passes validation exactly when some input query is non-empty. |
| Predictions.RunPredictions | predictions/generate_predictions.py:126-157 | A table is written exactly when the API is healthy, the sheet loaded, and some query is non-empty. It has the required columns and the generated rows. |
| JsText.TrimStart | client/src/App.jsx:70 | Removes exactly the leading JavaScript white space and line terminators. |
| JsText.TrimEnd | client/src/App.jsx:70 | Removes exactly the trailing JavaScript white space and line terminators. |
| JsText.Trim | client/src/App.jsx:70 | The trimmed text occurs in the original with only white space and line terminators before and after it, and it neither starts nor ends with one. |
| JsText.TrimEmptyIffBlank | client/src/App.jsx:70 | A string trims to empty exactly when every character is white space or a line terminator. |
| JsText.Lower | client/src/App.jsx:115 | Lower-casing keeps the length and lower-cases each character. |
| JsText.Contains | client/src/App.jsx:115-119 | `includes` holds exactly when the needle occurs at some position. |
| SearchHistory.AddToHistory | client/src/App.jsx:55-61 | The new history has one to five entries. It starts with the search text, holds no other copy of it, and continues with a prefix of the earlier entries other than the text, as many as fit. |
| SearchHistory.ClearHistory | client/src/App.jsx:63-66 | Clearing leaves an empty history. |
| SearchHistory.RetainedKeepOrder | client/src/App.jsx:57 | The entries after the first keep their earlier relative order. |
| SearchHistory.NoDuplicatesPreserved | client/src/App.jsx:57 | A history without repetitions stays without repetitions. |
| SearchHistory.EntriesComeFromPrevious | client/src/App.jsx:57 | Every entry after the first was in the earlier history. |
| SearchHistory.AddIdempotent | client/src/App.jsx:55-61 | Repeating the same search leaves the history unchanged. |
| SearchHistory.ClearThenAdd | client/src/App.jsx:55-66 | A search after clearing leaves a history of just that search. |
| ResultFilters.ApplyFilters | client/src/App.jsx:111-127 | With every filter at `All`, all results are shown. |
| ResultFilters.PassEquals | client/src/App.jsx:114-124 | Each conditional pass equals a filter by its own test, which is true for every item when the filter is `All`. |
| ResultFilters.ApplyFiltersIsOnePass | client/src/App.jsx:111-127 | The three passes equal one filter by the conjunction of the three tests. |
| ResultFilters.FilteredIsSubsequence | client/src/App.jsx:111-127 | The shown results are a subsequence of the results. |
| ResultFilters.FilteredExactlyAdmitted | client/src/App.jsx:111-127 | Every shown result passes all active filters, and every result that passes them is shown. |
| App.ToggleTheme | client/src/App.jsx:50-52 | The theme becomes `light` exactly when it was `dark`, and `dark` otherwise, so it always changes. |
| App.ToggleTwice | client/src/App.jsx:50-52 | Toggling twice restores the theme exactly when it was `dark` or `light`. |
| App.SearchText | client/src/App.jsx:69 | A non-empty override is searched for; otherwise the typed query is. |
| App.IsBlank | client/src/App.jsx:70 | `!searchText.trim()` holds exactly when every character of the text is white space or a line terminator. |
| App.HandleSearch | client/src/App.jsx:68-102 | A blank search changes nothing. Otherwise the searched text becomes the query and loading ends. A successful fetch installs its data, clears the error and records the text in the history. An HTTP error shows the fixed message and a network error shows its own message; both leave the results empty and the history unchanged. |
| App.SearchKeepsSettled | client/src/App.jsx:94-127 | After a search, the shown results are again the filtered results. |
| App.BlankSearchIgnored | client/src/App.jsx:69-70 | A search text of white space only leaves the state unchanged. |
| App.SuccessfulSearchHeadsHistory | client/src/App.jsx:94-96 | After a successful search, its text heads a history of at most five entries. |
| App.SetFilters | client/src/App.jsx:111-127 | Changing filters keeps the results and leaves the shown results equal to the filtered results. |
| App.ClearFiltersShowsAll | client/src/App.jsx:111-127 | Resetting every filter to `All` shows all results. |

## Left out

- HTTP itself is left out: requests, status codes, the 30 s and 5 s timeouts, and JSON decoding. The endpoint is a function parameter, and every failure is its empty answer.
- The endpoint is deterministic: the same query text always gets the same answer. The evaluation driver calls it once per K, which a live service need not answer identically. `Evaluation.RunEvaluation` relies on this for its K = 5 versus K = 10 comparison.
- `time.sleep`, `print` output, the progress lines and the report text of `print_evaluation_report` are left out. Only its `min`/`max` calls, which decide whether the run continues, are modelled.
- Reading the Excel sheets and writing the JSON and CSV files are left out. A sheet is a sequence of cell strings, and the written artifact is the value returned.
- pandas values other than strings in the query and URL cells are left out. A NaN cell is truthy in Python and would not be skipped.
- The `isinstance(relevant_url, str)` alternative is left out, since the sheet only holds strings. So are the missing-value warnings of `validate_format`, which only print.
- A `KeyError` from a returned record without a `url` key is left out. Every record carries a URL.
- Unicode case mapping is left out. `JsText.Lower` maps only ASCII letters.
- React rendering and the order in which effects run are left out. `App.HandleSearch` and `App.SetFilters` describe the state after the filter effect has re-run.
- `localStorage` persistence of the theme and history is left out, along with the theme's effect on the document root.
- The `use_ai` flag is left out, because it is passed through to the endpoint unchanged.
- Other recommendation fields and the score display are left out.
- `streamlit_app.py` is not part of this model.
- Recall.RecallMonotone: not stated for a negative `k1` with a non-negative `k2`. Python's negative slice bounds make `p[:-1]` longer than `p[:0]`, so the claim is false there (`Recall.NegativeCutOffExample`).
- Evaluation.MeanMonotoneInK: not stated for a negative `k1` with a non-negative `k2`, for the same reason.
- Evaluation.RecallsPointwiseMonotone: not stated for a negative `k1` with a non-negative `k2`, for the same reason.
- Python's floats are modelled as exact reals. A recall or a mean that a double rounds is the exact ratio here: recalls 1.0, 0.0 and 0.0 average to 0.3333333333333333 in the program and to exactly 1/3 in the model. Each row has one relevant URL, so every per-row recall is a whole number. The orderings proved here, min <= mean <= max and the K = 5 mean at most the K = 10 mean, also hold for the rounded values. Exact equalities such as `mean * count == sum` hold only up to rounding in the program.
- App.HandleSearch: a search is modelled from its start to its settled end, as one step. The handler is asynchronous, and only the Search button is disabled while loading. The Enter key and the history buttons can start a second search while one is pending. Such overlapping searches are left out. In them, a slower earlier reply can overwrite newer results, and the earlier text can be put at the head of the history after the newer one. `loading` can also turn false while a request is still outstanding, and the filter effect uses whatever filters are current when it runs.
- Evaluation.Details: bounds the number of detail records by the admitted rows only. It does not say the number is exactly the count of admitted rows that got recommendations.
