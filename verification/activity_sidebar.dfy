/**
 * The planner's activity list (client/src/features/planner/ActivitySidebar.tsx):
 * a case-insensitive name search combined with an optional category filter.
 */
module ActivitySidebar {
  import opened Wrappers
  import opened Text
  import opened Lists
  import opened Schemas

  /** `!filterCategoryId`: no filter when unset or 0. */
  predicate NoCategoryFilter(filterCategoryId: Option<int>) {
    filterCategoryId.None? || filterCategoryId.value == 0
  }

  /** The filter's test for one activity. */
  predicate Matches(a: ActivityDetails, searchTerm: string, filterCategoryId: Option<int>) {
    && Contains(Lower(a.activity.name), Lower(searchTerm))
    && (NoCategoryFilter(filterCategoryId) || a.activity.categoryId == filterCategoryId.value)
  }

  function MatchesFor(searchTerm: string, filterCategoryId: Option<int>): ActivityDetails -> bool {
    a => Matches(a, searchTerm, filterCategoryId)
  }

  /** `filteredActivities`: the matching activities in list order; nothing while the list is not loaded. */
  function FilterActivities(activities: Option<seq<ActivityDetails>>, searchTerm: string, filterCategoryId: Option<int>)
    : seq<ActivityDetails>
  {
    if activities.None? then [] else Filter(activities.value, MatchesFor(searchTerm, filterCategoryId))
  }

  /**
   * An activity is listed exactly when it is loaded, its lower-cased name
   * contains the lower-cased term, and the category filter is off or names its category.
   */
  lemma FilterActivitiesMembers(activities: Option<seq<ActivityDetails>>, searchTerm: string, filterCategoryId: Option<int>, a: ActivityDetails)
    ensures a in FilterActivities(activities, searchTerm, filterCategoryId) <==>
      && activities.Some? && a in activities.value
      && Contains(Lower(a.activity.name), Lower(searchTerm))
      && (NoCategoryFilter(filterCategoryId) || a.activity.categoryId == filterCategoryId.value)
  {
    if activities.Some? {
      FilterMembers(activities.value, MatchesFor(searchTerm, filterCategoryId), a);
    }
  }

  /** The listed activities keep their relative order: the result is a subsequence of the list. */
  lemma FilterActivitiesKeepsOrder(activities: seq<ActivityDetails>, searchTerm: string, filterCategoryId: Option<int>)
    ensures IsSubsequence(FilterActivities(Some(activities), searchTerm, filterCategoryId), activities)
  {
    FilterIsSubsequence(activities, MatchesFor(searchTerm, filterCategoryId));
  }

  /** An empty search without a category filter lists every activity, in order. */
  lemma EmptySearchListsAll(activities: seq<ActivityDetails>, filterCategoryId: Option<int>)
    requires NoCategoryFilter(filterCategoryId)
    ensures FilterActivities(Some(activities), "", filterCategoryId) == activities
  {
    assert Lower("") == "";
    forall i | 0 <= i < |activities| ensures MatchesFor("", filterCategoryId)(activities[i]) {
      ContainsEmpty(Lower(activities[i].activity.name));
    }
    FilterAll(activities, MatchesFor("", filterCategoryId));
  }

  /** Before the activities are loaded the list is empty, whatever the search. */
  lemma NotLoadedListsNothing(searchTerm: string, filterCategoryId: Option<int>)
    ensures FilterActivities(None, searchTerm, filterCategoryId) == []
  {
  }

  /** The search ignores ASCII letter case: "Run" finds "Morning run". */
  lemma SearchIgnoresCase()
    ensures Contains(Lower("Morning run"), Lower("Run"))
  {
    assert Lower("Morning run") == "morning run";
    assert Lower("Run") == "run";
    assert "morning run"[8..11] == "run";
    assert OccursAt("morning run", "run", 8);
  }
}
