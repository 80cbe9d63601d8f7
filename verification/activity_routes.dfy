/**
 * The activity routes (server/src/routes/activities.ts): list, create, update
 * and delete over the activity table, guarded by the category table on one
 * side and the session table on the other.
 */
module ActivityRoutes {
  import opened Wrappers
  import opened Text
  import opened Ordering
  import opened Schemas
  import opened Store

  const InvalidCategory: Reply := Failed(400, "Invalid category_id", Some("Category does not exist"))
  const ActivityNotFound: Reply := Failed(404, "Activity not found", None)

  /** The texts around the count in the 409 details. */
  const ActivityCountLead: string := "This activity has "
  const ActivityCountTail: string := " session(s)"

  /** The 409 answer of a delete refused because `count` sessions still use the activity. */
  function ActivityInUse(count: nat): (r: Reply)
    ensures r.Failed? && r.status == 409 && r.details.Some?
    ensures r.details.value == ActivityCountLead + DecimalString(count) + ActivityCountTail
  {
    Failed(409, "Cannot delete activity with existing sessions", Some(ActivityCountLead + DecimalString(count) + ActivityCountTail))
  }

  /**
   * The details of the 409 answer carry the count: cut between the fixed texts
   * it reads back as `count`, so different counts give different answers.
   */
  lemma ActivityInUseReadsBack(count: nat, other: nat)
    ensures var d := ActivityInUse(count).details.value;
      && |d| >= |ActivityCountLead| + |ActivityCountTail|
      && d[..|ActivityCountLead|] == ActivityCountLead
      && d[|d| - |ActivityCountTail|..] == ActivityCountTail
      && AllDigits(d[|ActivityCountLead|..|d| - |ActivityCountTail|])
      && DigitsValue(d[|ActivityCountLead|..|d| - |ActivityCountTail|]) == count
    ensures ActivityInUse(count) == ActivityInUse(other) <==> count == other
  {
    NumberBetween(ActivityCountLead, count, ActivityCountTail);
    NumberBetween(ActivityCountLead, other, ActivityCountTail);
    DecimalRoundTrip(count);
    DecimalRoundTrip(other);
  }

  /** The ids of the sessions that reference activity `id`. */
  function SessionsOf(sessions: map<int, Session>, id: int): set<int> {
    set k | k in sessions && sessions[k].activityId == id
  }

  // ----- GET / -----

  /** Activities of the default user or of no user, optionally of one category, joined with their category. */
  function ActivityListing(
    categories: map<int, Category>, activities: map<int, Activity>, categoryFilter: Option<int>): set<ActivityDetails>
  {
    set a, c |
      && a in activities && c in categories
      && activities[a].categoryId == c
      && (activities[a].userId == Some(DefaultUser) || activities[a].userId.None?)
      && (categoryFilter.None? || activities[a].categoryId == categoryFilter.value)
      :: ActivityDetails(activities[a], categories[c].name, categories[c].color)
  }

  function ActivityOrder(d: ActivityDetails): SortKey {
    SortKey(d.categoryName, d.activity.name)
  }

  /** `GET /api/activities`: ordered by category name, then activity name. */
  method ListActivities(db: Db, categoryFilter: Option<int>) returns (rows: seq<ActivityDetails>)
    ensures SortedBy(rows, ActivityOrder)
    ensures multiset(rows) == multiset(ActivityListing(db.categories, db.activities, categoryFilter))
  {
    var found := ActivityListing(db.categories, db.activities, categoryFilter);
    var unordered := Rows(found);
    rows := Sort(unordered, ActivityOrder);
    SortSorted(unordered, ActivityOrder);
  }

  /** Every listed activity passes the user and category filters and carries its own category's name and colour. */
  lemma ActivityListingIsFiltered(db: Db, categoryFilter: Option<int>, d: ActivityDetails)
    requires d in ActivityListing(db.categories, db.activities, categoryFilter)
    ensures d.activity in db.activities.Values
    ensures d.activity.userId == Some(DefaultUser) || d.activity.userId.None?
    ensures categoryFilter.Some? ==> d.activity.categoryId == categoryFilter.value
    ensures d.activity.categoryId in db.categories
    ensures d.categoryName == db.categories[d.activity.categoryId].name
    ensures d.categoryColor == db.categories[d.activity.categoryId].color
  {
    var a, c :| a in db.activities && c in db.categories && db.activities[a].categoryId == c
      && (db.activities[a].userId == Some(DefaultUser) || db.activities[a].userId.None?)
      && (categoryFilter.None? || db.activities[a].categoryId == categoryFilter.value)
      && d == ActivityDetails(db.activities[a], db.categories[c].name, db.categories[c].color);
    assert db.activities[a] in db.activities.Values;
  }

  /** With every reference intact, each activity passing the filters is listed. */
  lemma ActivityListingIsComplete(db: Db, categoryFilter: Option<int>, a: int)
    requires db.RefsOk()
    requires a in db.activities
    requires db.activities[a].userId == Some(DefaultUser) || db.activities[a].userId.None?
    requires categoryFilter.None? || db.activities[a].categoryId == categoryFilter.value
    ensures exists d :: d in ActivityListing(db.categories, db.activities, categoryFilter) && d.activity == db.activities[a]
  {
    var c := db.activities[a].categoryId;
    assert ActivityDetails(db.activities[a], db.categories[c].name, db.categories[c].color)
      in ActivityListing(db.categories, db.activities, categoryFilter);
  }

  // ----- POST / -----

  /** The row an accepted create inserts: `description || null` and the default user. */
  function NewActivity(id: int, body: ActivityBody): Activity
    requires ValidCreateActivity(body)
  {
    Activity(id, body.name.value, OrNull(body.description), body.categoryId.value, Some(DefaultUser))
  }

  /**
   * `POST /api/activities`: validate, check the category, insert.
   * `rowId` is the id SQLite gives the inserted row; which free id it picks is
   * up to the database, so it is a parameter here.
   */
  method PostActivity(db: Db, body: ActivityBody, rowId: int) returns (reply: Reply)
    requires db.Ids()
    requires rowId > 0 && rowId !in db.activities
    modifies db
    ensures db.Ids()
    ensures old(db.RefsOk()) ==> db.RefsOk()
    ensures old(db.RowsValid()) ==> db.RowsValid()
    ensures old(db.NoOverlap()) ==> db.NoOverlap()
    ensures reply.Failed? ==> unchanged(db)
    ensures !ValidCreateActivity(body) ==> reply == ValidationFailed
    ensures ValidCreateActivity(body) && body.categoryId.value !in old(db.categories) ==> reply == InvalidCategory
    ensures ValidCreateActivity(body) && body.categoryId.value in old(db.categories) ==> reply == Created(rowId)
    ensures reply.Created? ==>
      && db.activities == old(db.activities)[reply.id := NewActivity(reply.id, body)]
      && reply.id !in old(db.activities)
      && db.categories == old(db.categories) && db.sessions == old(db.sessions)
  {
    if !ValidCreateActivity(body) {
      return ValidationFailed;
    }
    if body.categoryId.value !in db.categories {
      return InvalidCategory;
    }
    var id := rowId;
    OrNullKeepsLongText(body.description);
    db.activities := db.activities[id := NewActivity(id, body)];
    reply := Created(id);
  }

  // ----- PUT /:id -----

  /** One `column = ?` entry of the UPDATE statement. */
  datatype ActivityAssignment =
    | SetName(name: string)
    | SetDescription(description: Option<string>)
    | SetCategoryId(categoryId: int)

  function Assign(row: Activity, a: ActivityAssignment): Activity {
    match a
    case SetName(v) => row.(name := v)
    case SetDescription(v) => row.(description := v)
    case SetCategoryId(v) => row.(categoryId := v)
  }

  function AssignAll(row: Activity, updates: seq<ActivityAssignment>): Activity
    decreases |updates|
  {
    if |updates| == 0 then row else AssignAll(Assign(row, updates[0]), updates[1..])
  }

  /** None of the keys the handler writes is given (`user_id` alone is ignored). */
  predicate NothingToWrite(patch: ActivityBody) {
    patch.name.Absent? && patch.description.Absent? && patch.categoryId.Absent?
  }

  /** The row after the update: given keys replace the stored values, `id` and `user_id` stay. */
  function Patched(row: Activity, patch: ActivityBody): Activity {
    Activity(
      row.id,
      if patch.name.Given? then patch.name.value else row.name,
      if patch.description.Given? then patch.description.value else row.description,
      if patch.categoryId.Given? then patch.categoryId.value else row.categoryId,
      row.userId)
  }

  /** The `updates` list, one push per given key. */
  method ActivityUpdates(patch: ActivityBody) returns (updates: seq<ActivityAssignment>)
    ensures |updates| == 0 <==> NothingToWrite(patch)
    ensures forall row :: AssignAll(row, updates) == Patched(row, patch)
  {
    updates := [];
    if patch.name.Given? {
      updates := updates + [SetName(patch.name.value)];
    }
    if patch.description.Given? {
      updates := updates + [SetDescription(patch.description.value)];
    }
    if patch.categoryId.Given? {
      updates := updates + [SetCategoryId(patch.categoryId.value)];
    }
    forall row ensures AssignAll(row, updates) == Patched(row, patch) {
      AssignAllSteps(row, updates, patch);
    }
  }

  lemma AssignAllSteps(row: Activity, updates: seq<ActivityAssignment>, patch: ActivityBody)
    requires updates ==
      (if patch.name.Given? then [SetName(patch.name.value)] else [])
      + (if patch.description.Given? then [SetDescription(patch.description.value)] else [])
      + (if patch.categoryId.Given? then [SetCategoryId(patch.categoryId.value)] else [])
    ensures AssignAll(row, updates) == Patched(row, patch)
  {
    var u1 := if patch.name.Given? then [SetName(patch.name.value)] else [];
    var u2 := if patch.description.Given? then [SetDescription(patch.description.value)] else [];
    var u3 := if patch.categoryId.Given? then [SetCategoryId(patch.categoryId.value)] else [];
    AssignAllConcat(row, u1 + u2, u3);
    AssignAllConcat(row, u1, u2);
  }

  lemma {:induction false} AssignAllConcat(row: Activity, a: seq<ActivityAssignment>, b: seq<ActivityAssignment>)
    ensures AssignAll(row, a + b) == AssignAll(AssignAll(row, a), b)
    decreases |a|
  {
    if |a| > 0 {
      assert (a + b)[1..] == a[1..] + b;
      AssignAllConcat(Assign(row, a[0]), a[1..], b);
    } else {
      assert a + b == b;
    }
  }

  /** A patch carrying only `user_id` passes the schema and writes nothing, so it is answered 400. */
  lemma UserIdOnlyPatchWritesNothing()
    ensures ValidUpdateActivity(ActivityBody(Absent, Absent, Absent, Given(Some(2))))
    ensures NothingToWrite(ActivityBody(Absent, Absent, Absent, Given(Some(2))))
  {
  }

  /** `PUT /api/activities/:id`. */
  method PutActivity(db: Db, id: int, patch: ActivityBody) returns (reply: Reply)
    requires db.Ids()
    modifies db
    ensures db.Ids()
    ensures old(db.RefsOk()) ==> db.RefsOk()
    ensures old(db.RowsValid()) ==> db.RowsValid()
    ensures old(db.NoOverlap()) ==> db.NoOverlap()
    ensures reply.Failed? ==> unchanged(db)
    ensures !ValidUpdateActivity(patch) ==> reply == ValidationFailed
    ensures ValidUpdateActivity(patch) && id !in old(db.activities) ==> reply == ActivityNotFound
    ensures ValidUpdateActivity(patch) && id in old(db.activities) ==>
      var badCategory := patch.categoryId.Given? && patch.categoryId.value !in old(db.categories);
      && (badCategory ==> reply == InvalidCategory)
      && (!badCategory && NothingToWrite(patch) ==> reply == NoFieldsToUpdate)
      && (!badCategory && !NothingToWrite(patch) ==> reply == Updated(id))
    ensures reply.Updated? ==>
      && db.activities == old(db.activities)[id := Patched(old(db.activities[id]), patch)]
      && db.categories == old(db.categories) && db.sessions == old(db.sessions)
  {
    if !ValidUpdateActivity(patch) {
      return ValidationFailed;
    }
    if id !in db.activities {
      return ActivityNotFound;
    }
    if patch.categoryId.Given? && patch.categoryId.value !in db.categories {
      return InvalidCategory;
    }
    var updates := ActivityUpdates(patch);
    if |updates| == 0 {
      return NoFieldsToUpdate;
    }
    db.activities := db.activities[id := AssignAll(db.activities[id], updates)];
    reply := Updated(id);
  }

  // ----- DELETE /:id -----

  /** `DELETE /api/activities/:id`: refused while any session uses the activity. */
  method DeleteActivity(db: Db, id: int) returns (reply: Reply)
    requires db.Ids()
    modifies db
    ensures db.Ids()
    ensures old(db.RefsOk()) ==> db.RefsOk()
    ensures old(db.RowsValid()) ==> db.RowsValid()
    ensures old(db.NoOverlap()) ==> db.NoOverlap()
    ensures reply.Failed? ==> unchanged(db)
    ensures id !in old(db.activities) ==> reply == ActivityNotFound
    ensures id in old(db.activities) ==>
      var count := |SessionsOf(old(db.sessions), id)|;
      && (count > 0 ==> reply == ActivityInUse(count))
      && (count == 0 ==> reply == Deleted)
    ensures reply == Deleted ==>
      && db.activities == old(db.activities) - {id}
      && db.categories == old(db.categories) && db.sessions == old(db.sessions)
  {
    if id !in db.activities {
      return ActivityNotFound;
    }
    var count := |SessionsOf(db.sessions, id)|;
    if count > 0 {
      return ActivityInUse(count);
    }
    forall k | k in db.sessions ensures db.sessions[k].activityId != id {
      assert k !in SessionsOf(db.sessions, id);
    }
    db.activities := db.activities - {id};
    reply := Deleted;
  }

  /** The count in the refusal is the number of sessions naming the activity. */
  lemma InUseCountsSessions(sessions: map<int, Session>, id: int, k: int)
    requires k in sessions && sessions[k].activityId == id
    ensures |SessionsOf(sessions, id)| > 0
  {
    assert k in SessionsOf(sessions, id);
  }
}
