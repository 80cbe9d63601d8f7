/**
 * The activities page (client/src/pages/ActivitiesPage.tsx): the activities
 * grouped by category name, the category filter, and the form state of the
 * create/edit form. The mutations themselves are requests; their outcome is given.
 */
module ActivitiesPage {
  import opened Wrappers
  import opened Lists
  import opened Schemas
  import ActivityRoutes

  // ----- Grouping -----

  /** One entry of the grouping: the colour of its first activity and its activities in list order. */
  datatype Group = Group(color: string, activities: seq<ActivityDetails>)

  /** `activity.category_name || 'Uncategorized'`. */
  function GroupKey(a: ActivityDetails): (k: string)
    ensures k != ""
    ensures a.categoryName != "" ==> k == a.categoryName
  {
    if a.categoryName == "" then "Uncategorized" else a.categoryName
  }

  function HasKey(k: string): ActivityDetails -> bool {
    (a: ActivityDetails) => GroupKey(a) == k
  }

  /** The group keys in order of first appearance. */
  function KeysOf(activities: seq<ActivityDetails>): seq<string>
    decreases |activities|
  {
    if |activities| == 0 then []
    else
      var keys := KeysOf(activities[..|activities| - 1]);
      var k := GroupKey(activities[|activities| - 1]);
      if k in keys then keys else keys + [k]
  }

  predicate Distinct(keys: seq<string>) {
    forall i, j :: 0 <= i < j < |keys| ==> keys[i] != keys[j]
  }

  /** A key is listed exactly when some activity has it. */
  lemma {:induction false} KeysOfMembers(activities: seq<ActivityDetails>)
    ensures forall k :: k in KeysOf(activities) <==> exists i :: 0 <= i < |activities| && GroupKey(activities[i]) == k
  {
    if |activities| > 0 {
      var prefix := activities[..|activities| - 1];
      KeysOfMembers(prefix);
      forall k ensures k in KeysOf(activities) <==> exists i :: 0 <= i < |activities| && GroupKey(activities[i]) == k {
        if k in KeysOf(prefix) {
          var i :| 0 <= i < |prefix| && GroupKey(prefix[i]) == k;
          assert GroupKey(activities[i]) == k;
        }
        if i :| 0 <= i < |activities| && GroupKey(activities[i]) == k {
          if i < |prefix| {
            assert GroupKey(prefix[i]) == k;
          }
        }
      }
    }
  }

  /** No key is listed twice. */
  lemma {:induction false} KeysOfDistinct(activities: seq<ActivityDetails>)
    ensures Distinct(KeysOf(activities))
  {
    if |activities| > 0 {
      KeysOfDistinct(activities[..|activities| - 1]);
    }
  }

  /** The total number of activities over the groups named by `keys`. */
  function SizeSum(keys: seq<string>, groups: map<string, Group>): int
    requires forall k :: k in keys ==> k in groups
    decreases |keys|
  {
    if |keys| == 0 then 0
    else SizeSum(keys[..|keys| - 1], groups) + |groups[keys[|keys| - 1]].activities|
  }

  /** Changing a group not named by `keys` leaves their total as it was. */
  lemma {:induction false} SizeSumFrame(keys: seq<string>, groups: map<string, Group>, k: string, g: Group)
    requires forall x :: x in keys ==> x in groups
    requires k !in keys
    ensures SizeSum(keys, groups[k := g]) == SizeSum(keys, groups)
  {
    if |keys| > 0 {
      SizeSumFrame(keys[..|keys| - 1], groups, k, g);
    }
  }

  /** One more activity in one of the named groups adds one to the total. */
  lemma {:induction false} SizeSumBump(keys: seq<string>, groups: map<string, Group>, k: string, g: Group)
    requires forall x :: x in keys ==> x in groups
    requires Distinct(keys) && k in keys
    requires |g.activities| == |groups[k].activities| + 1
    ensures SizeSum(keys, groups[k := g]) == SizeSum(keys, groups) + 1
  {
    var prefix := keys[..|keys| - 1];
    if keys[|keys| - 1] == k {
      assert k !in prefix;
      SizeSumFrame(prefix, groups, k, g);
    } else {
      SizeSumBump(prefix, groups, k, g);
    }
  }

  /** What the reduce has built after the activities `prefix`. */
  ghost predicate GroupsOf(prefix: seq<ActivityDetails>, keys: seq<string>, groups: map<string, Group>) {
    && KeysMatch(prefix, keys, groups)
    && GroupsMatch(prefix, groups)
    && (forall k :: k in keys ==> k in groups)
    && SizeSum(keys, groups) == |prefix|
  }

  /** The keys are those of `prefix` in order of first appearance, and exactly the keys of the groups. */
  ghost predicate KeysMatch(prefix: seq<ActivityDetails>, keys: seq<string>, groups: map<string, Group>) {
    keys == KeysOf(prefix) && forall k :: k in groups <==> k in keys
  }

  /** Each group holds the activities of its key, the first one's colour, and no activity lacks a group. */
  ghost predicate GroupsMatch(prefix: seq<ActivityDetails>, groups: map<string, Group>) {
    && (forall k :: k in groups ==> groups[k].activities == Filter(prefix, HasKey(k)))
    && (forall k :: k in groups ==> |groups[k].activities| > 0 && groups[k].color == groups[k].activities[0].categoryColor)
    && (forall k :: k !in groups ==> Filter(prefix, HasKey(k)) == [])
  }

  /** The group an activity is pushed onto: its key's group, or a new one with its colour. */
  function GroupFor(groups: map<string, Group>, a: ActivityDetails): Group {
    if GroupKey(a) in groups then groups[GroupKey(a)] else Group(a.categoryColor, [])
  }

  /** The groups after pushing `a`. */
  function Pushed(groups: map<string, Group>, a: ActivityDetails): map<string, Group> {
    groups[GroupKey(a) := GroupFor(groups, a).(activities := GroupFor(groups, a).activities + [a])]
  }

  /** The keys after pushing `a`. */
  function PushedKeys(keys: seq<string>, groups: map<string, Group>, a: ActivityDetails): seq<string> {
    if GroupKey(a) in groups then keys else keys + [GroupKey(a)]
  }

  lemma AddKeys(prefix: seq<ActivityDetails>, a: ActivityDetails, keys: seq<string>, groups: map<string, Group>)
    requires KeysMatch(prefix, keys, groups)
    ensures KeysMatch(prefix + [a], PushedKeys(keys, groups, a), Pushed(groups, a))
  {
    var next := prefix + [a];
    assert next[..|next| - 1] == prefix;
  }

  lemma AddGroups(prefix: seq<ActivityDetails>, a: ActivityDetails, groups: map<string, Group>)
    requires GroupsMatch(prefix, groups)
    ensures GroupsMatch(prefix + [a], Pushed(groups, a))
  {
    var next, pushed := prefix + [a], Pushed(groups, a);
    forall k | k in pushed
      ensures pushed[k].activities == Filter(next, HasKey(k))
      ensures |pushed[k].activities| > 0 && pushed[k].color == pushed[k].activities[0].categoryColor
    {
      FilterAppend(prefix, [a], HasKey(k));
      FilterOne(a, k);
    }
    forall k | k !in pushed ensures Filter(next, HasKey(k)) == [] {
      FilterAppend(prefix, [a], HasKey(k));
      FilterOne(a, k);
    }
  }

  /** Filtering one activity by a key. */
  lemma FilterOne(a: ActivityDetails, k: string)
    ensures Filter([a], HasKey(k)) == if GroupKey(a) == k then [a] else []
  {
    assert [a][1..] == [];
  }

  lemma AddSize(prefix: seq<ActivityDetails>, a: ActivityDetails, keys: seq<string>, groups: map<string, Group>)
    requires KeysMatch(prefix, keys, groups)
    requires SizeSum(keys, groups) == |prefix|
    ensures forall k :: k in PushedKeys(keys, groups, a) ==> k in Pushed(groups, a)
    ensures SizeSum(PushedKeys(keys, groups, a), Pushed(groups, a)) == |prefix| + 1
  {
    var key, g := GroupKey(a), GroupFor(groups, a);
    var g' := g.(activities := g.activities + [a]);
    var keys' := PushedKeys(keys, groups, a);
    var mid := groups[key := g];
    assert forall k :: k in keys' ==> k in mid;
    if key !in groups {
      SizeSumFrame(keys, groups, key, g);
      assert keys'[..|keys'| - 1] == keys;
      assert SizeSum(keys', mid) == SizeSum(keys, mid) + |g.activities|;
    } else {
      assert mid == groups;
    }
    assert SizeSum(keys', mid) == |prefix|;
    AddKeys(prefix, a, keys, groups);
    KeysOfDistinct(prefix + [a]);
    SizeSumBump(keys', mid, key, g');
    OverwriteTwice(groups, key, g, g');
  }

  lemma OverwriteTwice(m: map<string, Group>, k: string, v: Group, w: Group)
    ensures m[k := v][k := w] == m[k := w]
  {
  }

  /** The groups the reduce has built after `activities`, as a left fold of `Pushed`. */
  function GroupsMap(activities: seq<ActivityDetails>): map<string, Group>
    decreases |activities|
  {
    if |activities| == 0 then map[]
    else Pushed(GroupsMap(activities[..|activities| - 1]), activities[|activities| - 1])
  }

  /** The fold's keys are `KeysOf`, in order of first appearance. */
  lemma {:induction false} GroupsMapKeysMatch(activities: seq<ActivityDetails>)
    ensures KeysMatch(activities, KeysOf(activities), GroupsMap(activities))
  {
    if |activities| > 0 {
      var prefix, a := activities[..|activities| - 1], activities[|activities| - 1];
      GroupsMapKeysMatch(prefix);
      assert prefix + [a] == activities;
      AddKeys(prefix, a, KeysOf(prefix), GroupsMap(prefix));
    }
  }

  /** Each of the fold's groups holds exactly the activities of its key, coloured by the first. */
  lemma {:induction false} GroupsMapGroupsMatch(activities: seq<ActivityDetails>)
    ensures GroupsMatch(activities, GroupsMap(activities))
  {
    if |activities| > 0 {
      var prefix, a := activities[..|activities| - 1], activities[|activities| - 1];
      GroupsMapGroupsMatch(prefix);
      assert prefix + [a] == activities;
      AddGroups(prefix, a, GroupsMap(prefix));
    }
  }

  /** The fold's groups together hold every activity once. */
  lemma {:induction false} GroupsMapSize(activities: seq<ActivityDetails>)
    ensures forall k :: k in KeysOf(activities) ==> k in GroupsMap(activities)
    ensures SizeSum(KeysOf(activities), GroupsMap(activities)) == |activities|
  {
    if |activities| > 0 {
      var prefix, a := activities[..|activities| - 1], activities[|activities| - 1];
      GroupsMapSize(prefix);
      GroupsMapKeysMatch(prefix);
      assert prefix + [a] == activities;
      AddSize(prefix, a, KeysOf(prefix), GroupsMap(prefix));
    }
  }

  /**
   * The fold groups correctly: each key of `KeysOf` has a group holding
   * exactly the activities with that key, in list order, coloured by the first
   * of them; there is no other group; and the groups hold every activity once.
   */
  lemma GroupsMapCorrect(activities: seq<ActivityDetails>)
    ensures GroupsOf(activities, KeysOf(activities), GroupsMap(activities))
  {
    GroupsMapKeysMatch(activities);
    GroupsMapGroupsMatch(activities);
    GroupsMapSize(activities);
  }

  /** A key has a group exactly when it is listed. */
  lemma GroupsMapKeys(activities: seq<ActivityDetails>, k: string)
    ensures k in GroupsMap(activities) <==> k in KeysOf(activities)
  {
    GroupsMapCorrect(activities);
  }

  /**
   * The properties every plain object `{}` inherits from `Object.prototype`.
   * For such a key `acc[key]` is already truthy, so the reduce creates no group
   * and then reads `.activities.push` of a function or of the prototype.
   */
  const InheritedKeys: set<string> := {
    "constructor", "hasOwnProperty", "isPrototypeOf", "propertyIsEnumerable",
    "toLocaleString", "toString", "valueOf", "__proto__",
    "__defineGetter__", "__defineSetter__", "__lookupGetter__", "__lookupSetter__"}

  /** What the reduce yields: a `TypeError` thrown, or the keys in insertion order and their groups. */
  datatype Grouping = TypeError | Grouped(keys: seq<string>, groups: map<string, Group>)

  /** Some activity's group key is an inherited property of a plain object. */
  predicate HasInheritedKey(activities: seq<ActivityDetails>) {
    exists i :: 0 <= i < |activities| && GroupKey(activities[i]) in InheritedKeys
  }

  /**
   * The `groupedActivities` reduce: every activity is pushed onto the group of
   * its key, a group being created with the activity's colour when the key is
   * first seen. It throws when a key is an inherited property.
   */
  method GroupActivities(activities: seq<ActivityDetails>) returns (r: Grouping)
    ensures r.TypeError? <==> HasInheritedKey(activities)
    ensures r.Grouped? ==> r.keys == KeysOf(activities) && r.groups == GroupsMap(activities)
    ensures r.Grouped? ==> forall k :: k in r.groups <==> k in r.keys
    ensures r.Grouped? ==> forall k :: k in r.groups ==> r.groups[k].activities == Filter(activities, HasKey(k))
    ensures r.Grouped? ==> forall k :: k in r.groups ==>
      |r.groups[k].activities| > 0 && r.groups[k].color == r.groups[k].activities[0].categoryColor
    ensures r.Grouped? ==> SizeSum(r.keys, r.groups) == |activities|
  {
    var keys: seq<string>, groups: map<string, Group> := [], map[];
    for i := 0 to |activities|
      invariant keys == KeysOf(activities[..i]) && groups == GroupsMap(activities[..i])
      invariant forall j :: 0 <= j < i ==> GroupKey(activities[j]) !in InheritedKeys
    {
      var a := activities[i];
      var key := GroupKey(a);
      if key in InheritedKeys {
        return TypeError;
      }
      assert activities[..i + 1][..i] == activities[..i];
      GroupsMapKeys(activities[..i], key);
      if key !in groups {
        OverwriteTwice(groups, key, Group(a.categoryColor, []), Group(a.categoryColor, [a]));
        groups := groups[key := Group(a.categoryColor, [])];
        keys := keys + [key];
      }
      groups := groups[key := groups[key].(activities := groups[key].activities + [a])];
    }
    assert activities[..|activities|] == activities;
    GroupsMapCorrect(activities);
    r := Grouped(keys, groups);
  }

  /** A category named `constructor` makes the grouping throw; `Uncategorized` does not. */
  lemma InheritedNameThrows(a: ActivityDetails, b: ActivityDetails)
    requires a.categoryName == "constructor" && b.categoryName == ""
    ensures HasInheritedKey([b, a])
    ensures !HasInheritedKey([b])
  {
    assert GroupKey([b, a][1]) in InheritedKeys;
  }

  /** Every activity has a group: the one of its own key, and it sits in no other. */
  lemma EachActivityInOneGroup(activities: seq<ActivityDetails>, a: ActivityDetails, k: string)
    requires a in activities
    ensures GroupKey(a) in GroupsMap(activities)
    ensures k in GroupsMap(activities) ==> (a in GroupsMap(activities)[k].activities <==> GroupKey(a) == k)
  {
    GroupsMapCorrect(activities);
    FilterMembers(activities, HasKey(GroupKey(a)), a);
    FilterMembers(activities, HasKey(k), a);
  }

  // ----- The category filter -----

  /** `filteredActivities`: the whole list when the filter is unset or 0, else the activities of that category. */
  function FilterByCategory(activities: Option<seq<ActivityDetails>>, filterCategory: Option<int>): Option<seq<ActivityDetails>> {
    if filterCategory.None? || filterCategory.value == 0 then activities
    else if activities.None? then None
    else Some(Filter(activities.value, InCategory(filterCategory.value)))
  }

  function InCategory(id: int): ActivityDetails -> bool {
    (a: ActivityDetails) => a.activity.categoryId == id
  }

  /** With a filter set, exactly the activities of that category are shown, in list order. */
  lemma FilterByCategoryMembers(activities: seq<ActivityDetails>, id: int, a: ActivityDetails)
    requires id != 0
    ensures FilterByCategory(Some(activities), Some(id)).Some?
    ensures a in FilterByCategory(Some(activities), Some(id)).value <==> a in activities && a.activity.categoryId == id
    ensures IsSubsequence(FilterByCategory(Some(activities), Some(id)).value, activities)
  {
    FilterMembers(activities, InCategory(id), a);
    FilterIsSubsequence(activities, InCategory(id));
  }

  // ----- The form -----

  /** A request the form sends: a create, or an update of the activity being edited. */
  datatype FormRequest = CreateActivity(body: ActivityBody) | UpdateActivity(id: int, body: ActivityBody)

  /** How the request ended. */
  datatype Outcome = Succeeded | Failed

  class ActivityForm {
    var isFormOpen: bool
    var editingActivity: Option<Activity>
    var name: string
    var description: string
    var categoryId: int

    /** A closed form with empty fields and category 0. */
    predicate IsReset()
      reads this
    {
      !isFormOpen && editingActivity.None? && name == "" && description == "" && categoryId == 0
    }

    constructor ()
      ensures IsReset()
    {
      isFormOpen, editingActivity := false, None;
      name, description, categoryId := "", "", 0;
    }

    /** `handleOpenForm`: preselects the first category when there is one, and opens the form. */
    method OpenForm(categories: Option<seq<Category>>)
      modifies this
      ensures isFormOpen
      ensures categories.Some? && |categories.value| > 0 ==> categoryId == categories.value[0].id
      ensures !(categories.Some? && |categories.value| > 0) ==> categoryId == old(categoryId)
      ensures name == old(name) && description == old(description) && editingActivity == old(editingActivity)
    {
      if categories.Some? && |categories.value| > 0 {
        categoryId := categories.value[0].id;
      }
      isFormOpen := true;
    }

    /** `handleCancel`: closes the form and resets it. */
    method Cancel()
      modifies this
      ensures IsReset()
    {
      isFormOpen, editingActivity := false, None;
      name, description, categoryId := "", "", 0;
    }

    /** `handleEdit`: loads the activity into the form (a NULL description as '') and opens it. */
    method Edit(activity: Activity)
      modifies this
      ensures isFormOpen && editingActivity == Some(activity)
      ensures name == activity.name && categoryId == activity.categoryId
      ensures description == (if activity.description.Some? then activity.description.value else "")
    {
      editingActivity := Some(activity);
      name := activity.name;
      description := if activity.description.Some? then activity.description.value else "";
      categoryId := activity.categoryId;
      isFormOpen := true;
    }

    /**
     * `handleSubmit`: sends the form's three fields as an update of the edited
     * activity or as a create; a success closes and resets the form, a failure
     * leaves it as it was.
     */
    method Submit(outcome: Outcome) returns (request: FormRequest)
      modifies this
      ensures request.body == FormBody(old(name), old(description), old(categoryId))
      ensures old(editingActivity).Some? ==> request == UpdateActivity(old(editingActivity).value.id, request.body)
      ensures old(editingActivity).None? ==> request.CreateActivity?
      ensures outcome == Succeeded ==> IsReset()
      ensures outcome == Failed ==>
        && isFormOpen == old(isFormOpen) && editingActivity == old(editingActivity)
        && name == old(name) && description == old(description) && categoryId == old(categoryId)
    {
      var body := FormBody(name, description, categoryId);
      if editingActivity.Some? {
        request := UpdateActivity(editingActivity.value.id, body);
      } else {
        request := CreateActivity(body);
      }
      if outcome == Succeeded {
        isFormOpen, editingActivity := false, None;
        name, description, categoryId := "", "", 0;
      }
    }
  }

  /** The JSON body of the form: all three fields, the description always a string. */
  function FormBody(name: string, description: string, categoryId: int): ActivityBody {
    ActivityBody(Given(name), Given(Some(description)), Given(categoryId), Absent)
  }

  /**
   * A cleared description is stored as NULL by a create but as the empty
   * string by an edit, which writes the given value as it is.
   */
  lemma ClearedDescriptionStored(id: int, row: Activity, name: string, categoryId: int)
    requires IsActivityName(name) && categoryId > 0
    ensures ValidCreateActivity(FormBody(name, "", categoryId))
    ensures ActivityRoutes.NewActivity(id, FormBody(name, "", categoryId)).description == None
    ensures ActivityRoutes.Patched(row, FormBody(name, "", categoryId)).description == Some("")
  {
  }
}
