/**
 * The server's database as three in-memory tables keyed by row id, the
 * invariants the route handlers keep over them, and the reply shapes the
 * handlers send.
 */
module Store {
  import opened Wrappers
  import opened Text
  import opened Schemas

  /** Every handler acts for this user (the single-user MVP default). */
  const DefaultUser: int := 1

  /** What a handler answers: a success status with the row it concerns, or an error body. */
  datatype Reply =
    | Created(id: int)
    | Updated(id: int)
    | Deleted
    | Failed(status: int, error: string, details: Option<string>)

  /** A Zod parse failure; Zod's own error list is not modelled. */
  const ValidationFailed: Reply := Failed(400, "Validation failed", None)

  const NoFieldsToUpdate: Reply := Failed(400, "No fields to update", None)

  /** `value || null` on a nullable text key: absent, `null` and `""` are all stored as NULL. */
  function OrNull(f: Field<Option<string>>): (r: Option<string>)
    ensures r.Some? <==> f.Given? && f.value.Some? && f.value.value != ""
    ensures r.Some? ==> f == Given(r)
  {
    if f.Given? && f.value.Some? && f.value.value != "" then f.value else None
  }

  /** `value || null` keeps the text rules: a stored value is one the body carried. */
  lemma OrNullKeepsLongText(f: Field<Option<string>>)
    requires f.Absent? || IsLongText(f.value)
    ensures IsLongText(OrNull(f))
  {
  }

  // ----- Row rules (what the schemas guarantee of every stored row) -----

  predicate CategoryRowValid(c: Category) {
    IsCategoryName(c.name) && IsColor(c.color)
  }

  predicate ActivityRowValid(a: Activity) {
    IsActivityName(a.name) && IsLongText(a.description) && IsPositiveId(a.categoryId)
  }

  predicate SessionRowValid(s: Session) {
    && IsPositiveId(s.activityId)
    && IsDate(s.date)
    && IsTime(s.startTime)
    && IsTime(s.endTime)
    && IsDuration(s.durationMinutes)
    && IsLongText(s.notes)
  }

  /**
   * Two sessions of the default user on the same date, each with start before
   * end, whose half-open intervals [start, end) intersect.
   */
  predicate Conflict(x: Session, y: Session) {
    && x.userId == Some(DefaultUser) && y.userId == Some(DefaultUser)
    && x.date == y.date
    && StrLt(x.startTime, x.endTime) && StrLt(y.startTime, y.endTime)
    && StrLt(x.startTime, y.endTime) && StrLt(y.startTime, x.endTime)
  }

  /** No two distinct rows of the table conflict. */
  ghost predicate NoOverlapIn(m: map<int, Session>) {
    forall j, k :: j in m && k in m && j != k ==> !Conflict(m[j], m[k])
  }

  /** Every row is stored under its own id. */
  ghost predicate SessionIdsIn(m: map<int, Session>) {
    forall k :: k in m ==> m[k].id == k && k > 0
  }

  class Db {
    var categories: map<int, Category>
    var activities: map<int, Activity>
    var sessions: map<int, Session>
    /** Rows sit under their own positive id. */
    ghost predicate Ids()
      reads this
    {
      && (forall k :: k in categories ==> categories[k].id == k && 0 < k)
      && (forall k :: k in activities ==> activities[k].id == k && 0 < k)
      && (forall k :: k in sessions ==> sessions[k].id == k && 0 < k)
    }

    /** Every activity names an existing category and every session an existing activity. */
    ghost predicate RefsOk()
      reads this
    {
      && (forall k :: k in activities ==> activities[k].categoryId in categories)
      && (forall k :: k in sessions ==> sessions[k].activityId in activities)
    }

    /** Every row satisfies the field rules of its schema. */
    ghost predicate RowsValid()
      reads this
    {
      && (forall k :: k in categories ==> CategoryRowValid(categories[k]))
      && (forall k :: k in activities ==> ActivityRowValid(activities[k]))
      && (forall k :: k in sessions ==> SessionRowValid(sessions[k]))
    }

    /** No two sessions of the user on one day overlap. */
    ghost predicate NoOverlap()
      reads this
    {
      NoOverlapIn(sessions)
    }

    ghost predicate Valid()
      reads this
    {
      Ids() && RefsOk() && RowsValid() && NoOverlap()
    }

    /** A fresh, empty database. */
    constructor ()
      ensures Valid()
      ensures categories == map[] && activities == map[] && sessions == map[]
    {
      categories, activities, sessions := map[], map[], map[];
    }
  }

  /** The rows a SELECT yields from a set of matches, in some order. */
  method Rows<T>(found: set<T>) returns (rows: seq<T>)
    ensures multiset(rows) == multiset(found)
  {
    rows := [];
    var rest := found;
    while rest != {}
      invariant rest <= found
      invariant multiset(rows) + multiset(rest) == multiset(found)
      decreases |rest|
    {
      var x :| x in rest;
      rows := rows + [x];
      assert multiset(rest - {x}) == multiset(rest) - multiset{x};
      rest := rest - {x};
    }
  }
}
