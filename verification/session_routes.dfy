/**
 * The session routes (server/src/routes/sessions.ts): the overlap query, and
 * the list, create, update and delete handlers over the session table.
 */
module SessionRoutes {
  import opened Wrappers
  import opened Text
  import opened Ordering
  import opened Schemas
  import opened TimeSlots
  import opened Store

  const InvalidActivity: Reply := Failed(400, "Invalid activity_id", Some("Activity does not exist"))
  const SessionOverlap: Reply := Failed(409, "Session overlap detected", Some("A session already exists in this time slot"))
  const SessionNotFound: Reply := Failed(404, "Session not found", None)

  // ----- checkOverlap -----

  /** `excludeSessionId || 0`. */
  function ExcludedId(exclude: Option<int>): (r: int)
    ensures exclude.None? ==> r == 0
    ensures exclude.Some? ==> r == exclude.value
  {
    if exclude.Some? then exclude.value else 0
  }

  /**
   * The interval test of the overlap query for a stored row [start, end) and
   * the new [newStart, newEnd), as three string comparisons. The third test
   * is bound to the new start twice, so it asks for `start >= newStart` and
   * `end <= newStart`.
   */
  predicate OverlapClause(start: string, end: string, newStart: string, newEnd: string) {
    || (StrLt(start, newEnd) && StrLt(newStart, end))
    || (StrLt(start, newEnd) && StrLt(newEnd, end))
    || ThirdClause(start, end, newStart)
  }

  /** The query's third test, as its parameters bind it. */
  predicate ThirdClause(start: string, end: string, newStart: string) {
    !StrLt(start, newStart) && !StrLt(newStart, end)
  }

  /** For a row whose start is before its end the third test never holds. */
  lemma ThirdClauseNeedsInvertedRow(start: string, end: string, newStart: string)
    requires ThirdClause(start, end, newStart)
    ensures !StrLt(start, end)
  {
    NotLtFlip(start, newStart);
    NotLtFlip(newStart, end);
    if StrLt(start, end) {
      if start != newStart {
        StrLtTransitive(newStart, start, end);
      }
      if end != newStart {
        if start == newStart {
          StrLtTransitive(start, end, newStart);
        } else {
          StrLtTransitive(end, newStart, start);
        }
      }
    }
  }

  /**
   * A stored row whose end precedes its start (which an update can leave
   * behind) is selected through the third test alone: it starts after the
   * new session ends, yet blocks it.
   */
  lemma InvertedRowCanBlock()
    ensures OverlapClause("10:00", "09:00", "09:00", "09:30")
    ensures !StrLt("10:00", "09:30")
  {
    StrLtIrreflexive("09:00");
    assert ThirdClause("10:00", "09:00", "09:00");
  }

  /** A row the overlap query selects. */
  predicate Blocks(row: Session, date: string, start: string, end: string, userId: int, excluded: int) {
    && row.userId == Some(userId)
    && row.date == date
    && row.id != excluded
    && OverlapClause(row.startTime, row.endTime, start, end)
  }

  /** `checkOverlap`: the query selects some row. */
  predicate CheckOverlap(sessions: map<int, Session>, date: string, start: string, end: string, userId: int, exclude: Option<int>) {
    exists k :: k in sessions && Blocks(sessions[k], date, start, end, userId, ExcludedId(exclude))
  }

  /** String `<` is total: a string not below another equals it or lies above it. */
  lemma NotLtFlip(a: string, b: string)
    requires !StrLt(a, b)
    ensures a == b || StrLt(b, a)
  {
    StrLtTotal(a, b);
  }

  /**
   * When both intervals have start before end, the three-way test is exactly
   * half-open interval overlap.
   */
  lemma OverlapClauseIsHalfOpen(start: string, end: string, newStart: string, newEnd: string)
    requires StrLt(start, end) && StrLt(newStart, newEnd)
    ensures OverlapClause(start, end, newStart, newEnd) <==> StrLt(start, newEnd) && StrLt(newStart, end)
  {
    if StrLt(start, newEnd) && StrLt(newEnd, end) {
      StrLtTransitive(newStart, newEnd, end);
    }
    if ThirdClause(start, end, newStart) {
      ThirdClauseNeedsInvertedRow(start, end, newStart);
    }
  }

  /** For times passing the time pattern, the test is overlap of slot ranges. */
  lemma OverlapClauseInSlots(start: string, end: string, newStart: string, newEnd: string)
    requires IsTime(start) && IsTime(end) && IsTime(newStart) && IsTime(newEnd)
    requires TimeToSlotIndex(start) < TimeToSlotIndex(end) && TimeToSlotIndex(newStart) < TimeToSlotIndex(newEnd)
    ensures OverlapClause(start, end, newStart, newEnd) <==>
      TimeToSlotIndex(start) < TimeToSlotIndex(newEnd) && TimeToSlotIndex(newStart) < TimeToSlotIndex(end)
  {
    TimeOrderIsSlotOrder(start, end);
    TimeOrderIsSlotOrder(newStart, newEnd);
    TimeOrderIsSlotOrder(start, newEnd);
    TimeOrderIsSlotOrder(newStart, end);
    OverlapClauseIsHalfOpen(start, end, newStart, newEnd);
  }

  /** Back-to-back sessions do not conflict; a half-hour shift does. */
  lemma OverlapExamples()
    ensures !OverlapClause("09:00", "10:00", "10:00", "11:00")
    ensures OverlapClause("09:00", "10:00", "09:30", "10:30")
  {
    TimeOrderIsSlotOrder("09:00", "10:00");
    TimeOrderIsSlotOrder("10:00", "11:00");
    TimeOrderIsSlotOrder("09:30", "10:30");
    OverlapClauseInSlots("09:00", "10:00", "10:00", "11:00");
    OverlapClauseInSlots("09:00", "10:00", "09:30", "10:30");
  }

  /** With no id to exclude, the query skips no stored row. */
  lemma NoExcludeSkipsNothing(sessions: map<int, Session>, date: string, start: string, end: string, userId: int)
    requires SessionIdsIn(sessions)
    ensures CheckOverlap(sessions, date, start, end, userId, None) <==>
      exists k :: k in sessions && sessions[k].userId == Some(userId) && sessions[k].date == date
        && OverlapClause(sessions[k].startTime, sessions[k].endTime, start, end)
  {
  }

  /** Excluding an id is checking the table without that row. */
  lemma ExcludeDropsOwnRow(sessions: map<int, Session>, id: int, date: string, start: string, end: string, userId: int)
    requires SessionIdsIn(sessions)
    ensures CheckOverlap(sessions, date, start, end, userId, Some(id)) <==>
      CheckOverlap(map k | k in sessions && k != id :: sessions[k], date, start, end, userId, None)
  {
    var rest := map k | k in sessions && k != id :: sessions[k];
    if CheckOverlap(sessions, date, start, end, userId, Some(id)) {
      var k :| k in sessions && Blocks(sessions[k], date, start, end, userId, id);
      assert k in rest && Blocks(rest[k], date, start, end, userId, 0);
    }
    if CheckOverlap(rest, date, start, end, userId, None) {
      var k :| k in rest && Blocks(rest[k], date, start, end, userId, 0);
      assert k in sessions && Blocks(sessions[k], date, start, end, userId, id);
    }
  }

  /** A row the query would not select does not conflict with the written row. */
  lemma UnblockedNoConflict(row: Session, other: Session, excluded: int)
    requires other.id != excluded
    requires !Blocks(other, row.date, row.startTime, row.endTime, DefaultUser, excluded)
    ensures !Conflict(other, row) && !Conflict(row, other)
  {
    if StrLt(other.startTime, other.endTime) && StrLt(row.startTime, row.endTime) {
      OverlapClauseIsHalfOpen(other.startTime, other.endTime, row.startTime, row.endTime);
    }
  }

  /**
   * Writing a row under key `k` after the overlap query found nothing keeps the
   * table free of conflicts, provided only that key's row was excluded.
   */
  lemma WriteKeepsNoOverlap(m: map<int, Session>, k: int, row: Session, excluded: int)
    requires NoOverlapIn(m)
    requires forall j :: j in m && j != k ==> m[j].id != excluded
    requires !CheckOverlap(m, row.date, row.startTime, row.endTime, DefaultUser, Some(excluded))
    ensures NoOverlapIn(m[k := row])
  {
    var m' := m[k := row];
    forall i, j | i in m' && j in m' && i != j ensures !Conflict(m'[i], m'[j]) {
      if i == k {
        assert !Blocks(m[j], row.date, row.startTime, row.endTime, DefaultUser, excluded);
        UnblockedNoConflict(row, m[j], excluded);
      } else if j == k {
        assert !Blocks(m[i], row.date, row.startTime, row.endTime, DefaultUser, excluded);
        UnblockedNoConflict(row, m[i], excluded);
      }
    }
  }

  /** Conflicts among rows with pattern-valid times are overlapping slot ranges. */
  lemma ConflictInSlots(x: Session, y: Session)
    requires SessionRowValid(x) && SessionRowValid(y)
    ensures Conflict(x, y) <==>
      && x.userId == Some(DefaultUser) && y.userId == Some(DefaultUser) && x.date == y.date
      && TimeToSlotIndex(x.startTime) < TimeToSlotIndex(x.endTime)
      && TimeToSlotIndex(y.startTime) < TimeToSlotIndex(y.endTime)
      && TimeToSlotIndex(x.startTime) < TimeToSlotIndex(y.endTime)
      && TimeToSlotIndex(y.startTime) < TimeToSlotIndex(x.endTime)
  {
    TimeOrderIsSlotOrder(x.startTime, x.endTime);
    TimeOrderIsSlotOrder(y.startTime, y.endTime);
    TimeOrderIsSlotOrder(x.startTime, y.endTime);
    TimeOrderIsSlotOrder(y.startTime, x.endTime);
  }

  // ----- GET / -----

  /** The date filter of the list query; an empty query string counts as absent. */
  predicate DateFilter(d: string, date: string, startDate: string, endDate: string) {
    if date != "" then d == date
    else if startDate != "" && endDate != "" then !StrLt(d, startDate) && !StrLt(endDate, d)
    else true
  }

  /** The rows of the list query before ordering: the default user's sessions joined with activity and category. */
  function SessionListing(
    categories: map<int, Category>, activities: map<int, Activity>, sessions: map<int, Session>,
    date: string, startDate: string, endDate: string): set<SessionDetails>
  {
    set k, a, c |
      && k in sessions && a in activities && c in categories
      && sessions[k].activityId == a && activities[a].categoryId == c
      && sessions[k].userId == Some(DefaultUser)
      && DateFilter(sessions[k].date, date, startDate, endDate)
      :: Joined(sessions[k], activities[a], categories[c])
  }

  function Joined(s: Session, a: Activity, c: Category): SessionDetails {
    SessionDetails(s, a.name, a.description, c.id, c.name, c.color)
  }

  function SessionOrder(d: SessionDetails): SortKey {
    SortKey(d.session.date, d.session.startTime)
  }

  /** `GET /api/sessions`: the listed rows ordered by date, then start time. */
  method ListSessions(db: Db, date: string, startDate: string, endDate: string) returns (rows: seq<SessionDetails>)
    ensures SortedBy(rows, SessionOrder)
    ensures multiset(rows) == multiset(SessionListing(db.categories, db.activities, db.sessions, date, startDate, endDate))
  {
    var found := SessionListing(db.categories, db.activities, db.sessions, date, startDate, endDate);
    var unordered := Rows(found);
    rows := Sort(unordered, SessionOrder);
    SortSorted(unordered, SessionOrder);
  }

  /** Every listed row is a session of the default user that passes the date filter. */
  lemma ListingIsFiltered(db: Db, date: string, startDate: string, endDate: string, d: SessionDetails)
    requires d in SessionListing(db.categories, db.activities, db.sessions, date, startDate, endDate)
    ensures d.session in db.sessions.Values
    ensures d.session.userId == Some(DefaultUser) && DateFilter(d.session.date, date, startDate, endDate)
  {
    var k, a, c :| k in db.sessions && a in db.activities && c in db.categories
      && db.sessions[k].activityId == a && db.activities[a].categoryId == c
      && db.sessions[k].userId == Some(DefaultUser)
      && DateFilter(db.sessions[k].date, date, startDate, endDate)
      && d == Joined(db.sessions[k], db.activities[a], db.categories[c]);
    assert db.sessions[k] in db.sessions.Values;
  }

  /** With every reference intact, the joins drop no session: each matching one is listed. */
  lemma ListingIsComplete(db: Db, date: string, startDate: string, endDate: string, k: int)
    requires db.RefsOk()
    requires k in db.sessions && db.sessions[k].userId == Some(DefaultUser)
    requires DateFilter(db.sessions[k].date, date, startDate, endDate)
    ensures exists d :: d in SessionListing(db.categories, db.activities, db.sessions, date, startDate, endDate) && d.session == db.sessions[k]
  {
    var a := db.sessions[k].activityId;
    var c := db.activities[a].categoryId;
    assert Joined(db.sessions[k], db.activities[a], db.categories[c]) in SessionListing(db.categories, db.activities, db.sessions, date, startDate, endDate);
  }

  // ----- POST / -----

  /** The row an accepted create inserts: the validated fields, `notes || null`, and the default user. */
  function NewSession(id: int, body: SessionBody): Session
    requires ValidSessionFields(body)
  {
    Session(id, body.activityId.value, body.date.value, body.startTime.value, body.endTime.value,
      body.durationMinutes.value, OrNull(body.notes), Some(DefaultUser))
  }

  /** The inserted row keeps the field rules and the order start < end. */
  lemma NewSessionIsValid(id: int, body: SessionBody)
    requires ValidCreateSession(body)
    ensures SessionRowValid(NewSession(id, body))
    ensures StrLt(NewSession(id, body).startTime, NewSession(id, body).endTime)
    ensures TimeToSlotIndex(NewSession(id, body).startTime) < TimeToSlotIndex(NewSession(id, body).endTime)
  {
    OrNullKeepsLongText(body.notes);
    CreateSessionIsChronological(body);
  }

  /**
   * `POST /api/sessions`: validate, check the activity, check for overlap, insert.
   * `rowId` is the id SQLite gives the inserted row; which free id it picks is
   * up to the database, so it is a parameter here.
   */
  method PostSession(db: Db, body: SessionBody, rowId: int) returns (reply: Reply)
    requires db.Ids()
    requires rowId > 0 && rowId !in db.sessions
    modifies db
    ensures db.Ids()
    ensures old(db.RefsOk()) ==> db.RefsOk()
    ensures old(db.RowsValid()) ==> db.RowsValid()
    ensures old(db.NoOverlap()) ==> db.NoOverlap()
    ensures reply.Failed? ==> unchanged(db)
    ensures !ValidCreateSession(body) ==> reply == ValidationFailed
    ensures ValidCreateSession(body) && body.activityId.value !in old(db.activities) ==> reply == InvalidActivity
    ensures ValidCreateSession(body) && body.activityId.value in old(db.activities) ==>
      var overlap := CheckOverlap(old(db.sessions), body.date.value, body.startTime.value, body.endTime.value, DefaultUser, None);
      && (overlap ==> reply == SessionOverlap)
      && (!overlap ==> reply == Created(rowId))
    ensures reply.Created? ==>
      && db.sessions == old(db.sessions)[reply.id := NewSession(reply.id, body)]
      && reply.id !in old(db.sessions)
      && db.categories == old(db.categories) && db.activities == old(db.activities)
  {
    if !ValidCreateSession(body) {
      return ValidationFailed;
    }
    if body.activityId.value !in db.activities {
      return InvalidActivity;
    }
    if CheckOverlap(db.sessions, body.date.value, body.startTime.value, body.endTime.value, DefaultUser, None) {
      return SessionOverlap;
    }
    var id := rowId;
    var row := NewSession(id, body);
    NewSessionIsValid(id, body);
    if db.NoOverlap() {
      WriteKeepsNoOverlap(db.sessions, id, row, 0);
    }
    db.sessions := db.sessions[id := row];
    reply := Created(id);
  }

  // ----- PUT /:id -----

  /** `data.x || existing.x` for the date and the two times of the merged interval. */
  function OrElse(given: Field<string>, stored: string): string {
    if given.Given? && given.value != "" then given.value else stored
  }

  /** One `column = ?` entry of the UPDATE statement. */
  datatype SessionAssignment =
    | SetActivityId(activityId: int)
    | SetDate(date: string)
    | SetStartTime(startTime: string)
    | SetEndTime(endTime: string)
    | SetDuration(durationMinutes: int)
    | SetNotes(notes: Option<string>)

  function Assign(row: Session, a: SessionAssignment): Session {
    match a
    case SetActivityId(v) => row.(activityId := v)
    case SetDate(v) => row.(date := v)
    case SetStartTime(v) => row.(startTime := v)
    case SetEndTime(v) => row.(endTime := v)
    case SetDuration(v) => row.(durationMinutes := v)
    case SetNotes(v) => row.(notes := v)
  }

  /** `UPDATE sessions SET …`: the assignments applied left to right. */
  function AssignAll(row: Session, updates: seq<SessionAssignment>): Session
    decreases |updates|
  {
    if |updates| == 0 then row else AssignAll(Assign(row, updates[0]), updates[1..])
  }

  /** No key of the patch that the handler writes is given. */
  predicate NothingToWrite(patch: SessionBody) {
    && patch.activityId.Absent? && patch.date.Absent? && patch.startTime.Absent?
    && patch.endTime.Absent? && patch.durationMinutes.Absent? && patch.notes.Absent?
  }

  /**
   * The row after the update: every key given in the patch replaces the stored
   * value (`notes: null` clears the notes), every other column, `id` and
   * `user_id` among them, stays as it was.
   */
  function Patched(row: Session, patch: SessionBody): Session {
    Session(
      row.id,
      if patch.activityId.Given? then patch.activityId.value else row.activityId,
      if patch.date.Given? then patch.date.value else row.date,
      if patch.startTime.Given? then patch.startTime.value else row.startTime,
      if patch.endTime.Given? then patch.endTime.value else row.endTime,
      if patch.durationMinutes.Given? then patch.durationMinutes.value else row.durationMinutes,
      if patch.notes.Given? then patch.notes.value else row.notes,
      row.userId)
  }

  /**
   * The `updates` list of the handler, built by one push per given key; applied
   * to any row it yields the patched row, and it is empty exactly when the patch
   * writes nothing.
   */
  method SessionUpdates(patch: SessionBody) returns (updates: seq<SessionAssignment>)
    ensures |updates| == 0 <==> NothingToWrite(patch)
    ensures forall row :: AssignAll(row, updates) == Patched(row, patch)
  {
    ghost var u1 := if patch.activityId.Given? then [SetActivityId(patch.activityId.value)] else [];
    ghost var u2 := if patch.date.Given? then [SetDate(patch.date.value)] else [];
    ghost var u3 := if patch.startTime.Given? then [SetStartTime(patch.startTime.value)] else [];
    ghost var u4 := if patch.endTime.Given? then [SetEndTime(patch.endTime.value)] else [];
    ghost var u5 := if patch.durationMinutes.Given? then [SetDuration(patch.durationMinutes.value)] else [];
    ghost var u6 := if patch.notes.Given? then [SetNotes(patch.notes.value)] else [];
    updates := [];
    if patch.activityId.Given? {
      updates := updates + [SetActivityId(patch.activityId.value)];
    }
    assert updates == u1;
    if patch.date.Given? {
      updates := updates + [SetDate(patch.date.value)];
    }
    assert updates == u1 + u2;
    if patch.startTime.Given? {
      updates := updates + [SetStartTime(patch.startTime.value)];
    }
    assert updates == u1 + u2 + u3;
    if patch.endTime.Given? {
      updates := updates + [SetEndTime(patch.endTime.value)];
    }
    assert updates == u1 + u2 + u3 + u4;
    if patch.durationMinutes.Given? {
      updates := updates + [SetDuration(patch.durationMinutes.value)];
    }
    assert updates == u1 + u2 + u3 + u4 + u5;
    if patch.notes.Given? {
      updates := updates + [SetNotes(patch.notes.value)];
    }
    assert updates == PushedUpdates(patch);
    forall row ensures AssignAll(row, updates) == Patched(row, patch) {
      UpdatesApply(row, patch);
    }
  }

  /** The pushes of `SessionUpdates` as a value, for the proof of its contract. */
  function PushedUpdates(patch: SessionBody): seq<SessionAssignment> {
    (if patch.activityId.Given? then [SetActivityId(patch.activityId.value)] else [])
    + (if patch.date.Given? then [SetDate(patch.date.value)] else [])
    + (if patch.startTime.Given? then [SetStartTime(patch.startTime.value)] else [])
    + (if patch.endTime.Given? then [SetEndTime(patch.endTime.value)] else [])
    + (if patch.durationMinutes.Given? then [SetDuration(patch.durationMinutes.value)] else [])
    + (if patch.notes.Given? then [SetNotes(patch.notes.value)] else [])
  }

  lemma UpdatesApply(row: Session, patch: SessionBody)
    ensures AssignAll(row, PushedUpdates(patch)) == Patched(row, patch)
  {
    var u1 := if patch.activityId.Given? then [SetActivityId(patch.activityId.value)] else [];
    var u2 := if patch.date.Given? then [SetDate(patch.date.value)] else [];
    var u3 := if patch.startTime.Given? then [SetStartTime(patch.startTime.value)] else [];
    var u4 := if patch.endTime.Given? then [SetEndTime(patch.endTime.value)] else [];
    var u5 := if patch.durationMinutes.Given? then [SetDuration(patch.durationMinutes.value)] else [];
    var u6 := if patch.notes.Given? then [SetNotes(patch.notes.value)] else [];
    AssignAllConcat(row, u1 + u2 + u3 + u4 + u5, u6);
    AssignAllConcat(row, u1 + u2 + u3 + u4, u5);
    AssignAllConcat(row, u1 + u2 + u3, u4);
    AssignAllConcat(row, u1 + u2, u3);
    AssignAllConcat(row, u1, u2);
  }

  lemma {:induction false} AssignAllConcat(row: Session, a: seq<SessionAssignment>, b: seq<SessionAssignment>)
    ensures AssignAll(row, a + b) == AssignAll(AssignAll(row, a), b)
    decreases |a|
  {
    if |a| > 0 {
      assert (a + b)[1..] == a[1..] + b;
      AssignAllConcat(Assign(row, a[0]), a[1..], b);
    } else {
      assert a + b == b;
    }
  }

  /** For a patch that passes the schema, the merged interval is the one the update writes. */
  lemma MergedIsWritten(row: Session, patch: SessionBody)
    requires ValidUpdateSession(patch)
    ensures OrElse(patch.date, row.date) == Patched(row, patch).date
    ensures OrElse(patch.startTime, row.startTime) == Patched(row, patch).startTime
    ensures OrElse(patch.endTime, row.endTime) == Patched(row, patch).endTime
  {
  }

  /** A patch that passes the schema keeps a valid row valid. */
  lemma PatchedIsValid(row: Session, patch: SessionBody)
    requires SessionRowValid(row) && ValidUpdateSession(patch)
    ensures SessionRowValid(Patched(row, patch))
  {
  }

  /**
   * The update schema lets a patch turn a well-ordered session around:
   * 09:00–10:00 patched with start 10:00 and end 09:00 is stored inverted.
   */
  lemma PatchCanInvertSession()
    ensures var row := Session(1, 1, "2024-01-01", "09:00", "10:00", 60, None, Some(DefaultUser));
      var patch := SessionBody(Absent, Absent, Given("10:00"), Given("09:00"), Absent, Absent, Absent);
      && ValidUpdateSession(patch)
      && SessionRowValid(row) && StrLt(row.startTime, row.endTime)
      && SessionRowValid(Patched(row, patch))
      && StrLt(Patched(row, patch).endTime, Patched(row, patch).startTime)
  {
    TimeOrderIsSlotOrder("09:00", "10:00");
  }

  /** `PUT /api/sessions/:id`. */
  method PutSession(db: Db, id: int, patch: SessionBody) returns (reply: Reply)
    requires db.Ids()
    modifies db
    ensures db.Ids()
    ensures old(db.RefsOk()) ==> db.RefsOk()
    ensures old(db.RowsValid()) ==> db.RowsValid()
    ensures old(db.NoOverlap()) ==> db.NoOverlap()
    ensures reply.Failed? ==> unchanged(db)
    ensures !ValidUpdateSession(patch) ==> reply == ValidationFailed
    ensures ValidUpdateSession(patch) && id !in old(db.sessions) ==> reply == SessionNotFound
    ensures ValidUpdateSession(patch) && id in old(db.sessions) ==>
      var row := old(db.sessions[id]);
      var badActivity := patch.activityId.Given? && patch.activityId.value !in old(db.activities);
      var overlap := CheckOverlap(old(db.sessions), OrElse(patch.date, row.date),
        OrElse(patch.startTime, row.startTime), OrElse(patch.endTime, row.endTime), DefaultUser, Some(id));
      && (badActivity ==> reply == InvalidActivity)
      && (!badActivity && overlap ==> reply == SessionOverlap)
      && (!badActivity && !overlap && NothingToWrite(patch) ==> reply == NoFieldsToUpdate)
      && (!badActivity && !overlap && !NothingToWrite(patch) ==> reply == Updated(id))
    ensures reply.Updated? ==>
      && db.sessions == old(db.sessions)[id := Patched(old(db.sessions[id]), patch)]
      && db.categories == old(db.categories) && db.activities == old(db.activities)
  {
    if !ValidUpdateSession(patch) {
      return ValidationFailed;
    }
    if id !in db.sessions {
      return SessionNotFound;
    }
    var existing := db.sessions[id];
    if patch.activityId.Given? && patch.activityId.value !in db.activities {
      return InvalidActivity;
    }
    var date, start, end := OrElse(patch.date, existing.date), OrElse(patch.startTime, existing.startTime), OrElse(patch.endTime, existing.endTime);
    if CheckOverlap(db.sessions, date, start, end, DefaultUser, Some(id)) {
      return SessionOverlap;
    }
    var updates := SessionUpdates(patch);
    if |updates| == 0 {
      return NoFieldsToUpdate;
    }
    var row := AssignAll(existing, updates);
    MergedIsWritten(existing, patch);
    if db.RowsValid() {
      PatchedIsValid(existing, patch);
    }
    if db.NoOverlap() {
      WriteKeepsNoOverlap(db.sessions, id, row, id);
    }
    WriteSession(db, id, row);
    reply := Updated(id);
  }

  /** The `UPDATE sessions ... WHERE id = ?` itself: replaces the row stored under `id`. */
  method WriteSession(db: Db, id: int, row: Session)
    requires db.Ids() && id in db.sessions && row.id == id
    requires db.RefsOk() ==> row.activityId in db.activities
    requires db.RowsValid() ==> SessionRowValid(row)
    requires db.NoOverlap() ==> NoOverlapIn(db.sessions[id := row])
    modifies db
    ensures db.Ids()
    ensures old(db.RefsOk()) ==> db.RefsOk()
    ensures old(db.RowsValid()) ==> db.RowsValid()
    ensures old(db.NoOverlap()) ==> db.NoOverlap()
    ensures db.sessions == old(db.sessions)[id := row]
    ensures db.categories == old(db.categories) && db.activities == old(db.activities)
  {
    db.sessions := db.sessions[id := row];
  }

  // ----- DELETE /:id -----

  /** `DELETE /api/sessions/:id`: removes exactly the named row. */
  method DeleteSession(db: Db, id: int) returns (reply: Reply)
    requires db.Ids()
    modifies db
    ensures db.Ids()
    ensures old(db.RefsOk()) ==> db.RefsOk()
    ensures old(db.RowsValid()) ==> db.RowsValid()
    ensures old(db.NoOverlap()) ==> db.NoOverlap()
    ensures id !in old(db.sessions) ==> reply == SessionNotFound && unchanged(db)
    ensures id in old(db.sessions) ==>
      && reply == Deleted
      && db.sessions == old(db.sessions) - {id}
      && db.categories == old(db.categories) && db.activities == old(db.activities)
  {
    if id !in db.sessions {
      return SessionNotFound;
    }
    db.sessions := db.sessions - {id};
    reply := Deleted;
  }
}
