/** The client's result filters: job level (case-insensitive substring),
    duration (substring) and test type (equality), each switched off by the
    value "All". */
module ResultFilters {
  import opened Wrappers
  import opened Seqs
  import opened Records
  import opened JsText

  /** The select value that switches a filter off. */
  const All: string := "All"

  datatype Filters = Filters(jobLevel: string, duration: string, testType: string)

  /** The initial filters, and those set by "Clear Filters". */
  const NoFilters: Filters := Filters(All, All, All)

  /** JavaScript truthiness of an optional string field: present and non-empty. */
  predicate Present(field: Option<string>)
  {
    field.Some? && field.value != ""
  }

  predicate JobLevelMatches(item: Recommendation, level: string)
  {
    Present(item.jobLevel) && Contains(Lower(item.jobLevel.value), Lower(level))
  }

  predicate DurationMatches(item: Recommendation, duration: string)
  {
    Present(item.duration) && Contains(item.duration.value, duration)
  }

  predicate TestTypeMatches(item: Recommendation, testType: string)
  {
    Present(item.testType) && item.testType.value == testType
  }

  /** An item passes every filter that is switched on. */
  predicate Admits(f: Filters, item: Recommendation)
  {
    && (f.jobLevel == All || JobLevelMatches(item, f.jobLevel))
    && (f.duration == All || DurationMatches(item, f.duration))
    && (f.testType == All || TestTypeMatches(item, f.testType))
  }

  /** The filter effect: up to three successive filter passes over the
      results; with every filter off, the results themselves. */
  function ApplyFilters(results: seq<Recommendation>, f: Filters): (r: seq<Recommendation>)
    ensures f == NoFilters ==> r == results
  {
    var byLevel :=
      if f.jobLevel != All then Filter(results, (item: Recommendation) => JobLevelMatches(item, f.jobLevel))
      else results;
    var byDuration :=
      if f.duration != All then Filter(byLevel, (item: Recommendation) => DurationMatches(item, f.duration))
      else byLevel;
    if f.testType != All then Filter(byDuration, (item: Recommendation) => TestTypeMatches(item, f.testType))
    else byDuration
  }

  /** The three passes equal one pass with the conjunction of the active
      filters. */
  lemma ApplyFiltersIsOnePass(results: seq<Recommendation>, f: Filters)
    ensures ApplyFilters(results, f) == Filter(results, (item: Recommendation) => Admits(f, item))
  {
    var lv := (item: Recommendation) => f.jobLevel == All || JobLevelMatches(item, f.jobLevel);
    var du := (item: Recommendation) => f.duration == All || DurationMatches(item, f.duration);
    var tt := (item: Recommendation) => f.testType == All || TestTypeMatches(item, f.testType);
    var lvdu := (item: Recommendation) => lv(item) && du(item);
    var all := (item: Recommendation) => Admits(f, item);
    FilterFuse(results, lv, du, lvdu);
    FilterFuse(Filter(results, lv), du, tt, (item: Recommendation) => du(item) && tt(item));
    FilterFuse(results, lvdu, tt, all);
    PassEquals(results, f);
  }

  /** Each pass is a filter by its own test, or a no-op filter when off. */
  lemma PassEquals(results: seq<Recommendation>, f: Filters)
    ensures
      var lv := (item: Recommendation) => f.jobLevel == All || JobLevelMatches(item, f.jobLevel);
      var du := (item: Recommendation) => f.duration == All || DurationMatches(item, f.duration);
      var tt := (item: Recommendation) => f.testType == All || TestTypeMatches(item, f.testType);
      ApplyFilters(results, f) == Filter(Filter(Filter(results, lv), du), tt)
  {
    var lv := (item: Recommendation) => f.jobLevel == All || JobLevelMatches(item, f.jobLevel);
    var du := (item: Recommendation) => f.duration == All || DurationMatches(item, f.duration);
    var tt := (item: Recommendation) => f.testType == All || TestTypeMatches(item, f.testType);
    var byLevel :=
      if f.jobLevel != All then Filter(results, (item: Recommendation) => JobLevelMatches(item, f.jobLevel))
      else results;
    if f.jobLevel != All {
      FilterExt(results, lv, (item: Recommendation) => JobLevelMatches(item, f.jobLevel));
    } else {
      FilterKeepsAll(results, lv);
    }
    assert byLevel == Filter(results, lv);
    var byDuration :=
      if f.duration != All then Filter(byLevel, (item: Recommendation) => DurationMatches(item, f.duration))
      else byLevel;
    if f.duration != All {
      FilterExt(byLevel, du, (item: Recommendation) => DurationMatches(item, f.duration));
    } else {
      FilterKeepsAll(byLevel, du);
    }
    assert byDuration == Filter(byLevel, du);
    if f.testType != All {
      FilterExt(byDuration, tt, (item: Recommendation) => TestTypeMatches(item, f.testType));
    } else {
      FilterKeepsAll(byDuration, tt);
    }
  }

  /** The filtered results are a subsequence of the results. */
  lemma FilteredIsSubsequence(results: seq<Recommendation>, f: Filters)
    ensures IsSubsequence(ApplyFilters(results, f), results)
  {
    ApplyFiltersIsOnePass(results, f);
    FilterIsSubsequence(results, (item: Recommendation) => Admits(f, item));
  }

  /** The filtered results hold exactly the results every active filter
      admits: a kept item has each filtered field present and matching, and no
      admitted item is dropped. */
  lemma FilteredExactlyAdmitted(results: seq<Recommendation>, f: Filters)
    ensures forall i :: 0 <= i < |ApplyFilters(results, f)| ==>
      Admits(f, ApplyFilters(results, f)[i]) && ApplyFilters(results, f)[i] in results
    ensures forall i :: 0 <= i < |results| && Admits(f, results[i]) ==> results[i] in ApplyFilters(results, f)
  {
    ApplyFiltersIsOnePass(results, f);
  }
}
