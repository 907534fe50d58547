/** The client's state transitions: theme toggling, the search guard and the
    outcome of a search, and filter changes, each followed by the filter
    effect. */
module App {
  import opened Wrappers
  import opened Records
  import opened JsText
  import opened SearchHistory
  import opened ResultFilters

  /** What the `fetch` of a search produced. */
  datatype Fetch =
    | Fetched(data: seq<Recommendation>)   // a successful response and its JSON body
    | HttpError                            // a response whose status is not ok
    | NetworkError(message: string)        // a rejected request or unreadable body

  /** The message shown when the response status is not ok. */
  const FetchFailedMessage: string := "Failed to fetch recommendations"

  /** The component state that the modelled handlers read or write. */
  datatype UiState = UiState(
    query: string,
    results: seq<Recommendation>,
    filteredResults: seq<Recommendation>,
    loading: bool,
    error: Option<string>,
    history: seq<string>,
    filters: Filters)

  /** The filter effect has run on the current results and filters. */
  predicate Settled(s: UiState)
  {
    s.filteredResults == ApplyFilters(s.results, s.filters)
  }

  /** `toggleTheme`: "dark" becomes "light"; any other stored value becomes
      "dark". The theme always changes and always ends up a known one. */
  function ToggleTheme(theme: string): (t: string)
    ensures t == "dark" || t == "light"
    ensures t == "light" <==> theme == "dark"
    ensures t != theme
  {
    if theme == "dark" then "light" else "dark"
  }

  /** Toggling twice restores the theme exactly when it was a known one. */
  lemma ToggleTwice(theme: string)
    ensures ToggleTheme(ToggleTheme(theme)) == theme <==> theme == "dark" || theme == "light"
  {
  }

  /** `textOverride || query`: a non-empty override wins over the typed query. */
  function SearchText(textOverride: Option<string>, query: string): (text: string)
    ensures textOverride.Some? && textOverride.value != "" ==> text == textOverride.value
    ensures textOverride.None? || textOverride.value == "" ==> text == query
  {
    if textOverride.Some? && textOverride.value != "" then textOverride.value else query
  }

  /** `!searchText.trim()`: the text is empty or white space only. */
  function IsBlank(text: string): (b: bool)
    ensures b <==> forall i :: 0 <= i < |text| ==> IsJsSpace(text[i])
  {
    TrimEmptyIffBlank(text);
    Trim(text) == ""
  }

  /** `handleSearch(textOverride)` followed by the filter effect: a blank
      search changes nothing; otherwise the override becomes the query, and the
      fetch either installs its results and records the search in the history,
      or clears the results and shows the error. */
  function HandleSearch(s: UiState, textOverride: Option<string>, fetch: Fetch): (t: UiState)
    ensures IsBlank(SearchText(textOverride, s.query)) ==> t == s
    ensures !IsBlank(SearchText(textOverride, s.query)) ==>
      && !t.loading
      && t.filters == s.filters
      && t.query == SearchText(textOverride, s.query)
      && (fetch.Fetched? ==>
            && t.results == fetch.data
            && t.error == None
            && t.history == AddToHistory(s.history, SearchText(textOverride, s.query)))
      && (!fetch.Fetched? ==>
            && t.results == []
            && t.filteredResults == []
            && t.history == s.history)
      && (fetch.HttpError? ==> t.error == Some(FetchFailedMessage))
      && (fetch.NetworkError? ==> t.error == Some(fetch.message))
  {
    var text := SearchText(textOverride, s.query);
    if IsBlank(text) then s
    else
      var query := if textOverride.Some? && textOverride.value != "" then textOverride.value else s.query;
      match fetch
      case Fetched(data) =>
        s.(query := query, results := data, filteredResults := ApplyFilters(data, s.filters),
           loading := false, error := None, history := AddToHistory(s.history, text))
      case HttpError =>
        s.(query := query, results := [], filteredResults := [], loading := false,
           error := Some(FetchFailedMessage))
      case NetworkError(message) =>
        s.(query := query, results := [], filteredResults := [], loading := false,
           error := Some(message))
  }

  /** A search leaves the state settled. */
  lemma SearchKeepsSettled(s: UiState, textOverride: Option<string>, fetch: Fetch)
    requires Settled(s)
    ensures Settled(HandleSearch(s, textOverride, fetch))
  {
  }

  /** A search whose text is white space only, typed or chosen, does nothing. */
  lemma BlankSearchIgnored(s: UiState, textOverride: Option<string>, fetch: Fetch)
    requires forall i :: 0 <= i < |SearchText(textOverride, s.query)| ==> IsJsSpace(SearchText(textOverride, s.query)[i])
    ensures HandleSearch(s, textOverride, fetch) == s
  {
    TrimEmptyIffBlank(SearchText(textOverride, s.query));
  }

  /** After a successful search its text heads the history. */
  lemma SuccessfulSearchHeadsHistory(s: UiState, textOverride: Option<string>, data: seq<Recommendation>)
    requires !IsBlank(SearchText(textOverride, s.query))
    ensures var t := HandleSearch(s, textOverride, Fetched(data));
      |t.history| > 0 && t.history[0] == SearchText(textOverride, s.query) && |t.history| <= HistoryLimit
  {
  }

  /** Choosing a filter value, followed by the filter effect. */
  function SetFilters(s: UiState, f: Filters): (t: UiState)
    ensures Settled(t)
    ensures t.results == s.results && t.filters == f
  {
    s.(filters := f, filteredResults := ApplyFilters(s.results, f))
  }

  /** "Clear Filters" shows every result again. */
  lemma ClearFiltersShowsAll(s: UiState)
    ensures SetFilters(s, NoFilters).filteredResults == s.results
  {
  }
}
