/**
 * The shared field rules (shared/src/schemas.ts): the time and date patterns,
 * the category, activity and session rules, the create schemas and their
 * partial update counterparts, and the stored row shapes.
 */
module Schemas {
  import opened Wrappers
  import opened Text
  import opened TimeSlots

  // ----- Patterns -----

  /** `/^([01]\d|2[0-3]):[03]0$/`. */
  predicate IsTime(s: string) {
    && |s| == 5
    && (((s[0] == '0' || s[0] == '1') && IsDigit(s[1])) || (s[0] == '2' && '0' <= s[1] <= '3'))
    && s[2] == ':'
    && (s[3] == '0' || s[3] == '3')
    && s[4] == '0'
  }

  /** `/^\d{4}-\d{2}-\d{2}$/`: the shape of a date only. */
  predicate IsDate(s: string) {
    && |s| == 10
    && IsDigit(s[0]) && IsDigit(s[1]) && IsDigit(s[2]) && IsDigit(s[3])
    && s[4] == '-'
    && IsDigit(s[5]) && IsDigit(s[6])
    && s[7] == '-'
    && IsDigit(s[8]) && IsDigit(s[9])
  }

  predicate IsHexDigit(c: char) {
    IsDigit(c) || 'a' <= c <= 'f' || 'A' <= c <= 'F'
  }

  /** `/^#[0-9a-fA-F]{6}$/`. */
  predicate IsColor(s: string) {
    |s| == 7 && s[0] == '#' && forall i :: 1 <= i < 7 ==> IsHexDigit(s[i])
  }

  // ----- Field rules -----

  /** `z.number().int().positive()` on an already integral number. */
  predicate IsPositiveId(x: int) {
    x > 0
  }

  /** `z.number().int().positive().multipleOf(30)`. */
  predicate IsDuration(d: int) {
    d > 0 && d % 30 == 0
  }

  predicate IsCategoryName(s: string) {
    1 <= |s| <= 100
  }

  predicate IsActivityName(s: string) {
    1 <= |s| <= 200
  }

  /** `z.string().max(1000).nullable()`: the description and notes rule. */
  predicate IsLongText(s: Option<string>) {
    s.None? || |s.value| <= 1000
  }

  /** `user_id: z.number().int().positive().nullable().optional()`. */
  predicate IsUserIdField(u: Field<Option<int>>) {
    u.Absent? || u.value.None? || IsPositiveId(u.value.value)
  }

  // ----- Request bodies (after JSON typing; unknown keys are stripped) -----

  datatype CategoryBody = CategoryBody(name: Field<string>, color: Field<string>, userId: Field<Option<int>>)

  datatype ActivityBody = ActivityBody(
    name: Field<string>,
    description: Field<Option<string>>,
    categoryId: Field<int>,
    userId: Field<Option<int>>)

  datatype SessionBody = SessionBody(
    activityId: Field<int>,
    date: Field<string>,
    startTime: Field<string>,
    endTime: Field<string>,
    durationMinutes: Field<int>,
    notes: Field<Option<string>>,
    userId: Field<Option<int>>)

  /** `createCategorySchema`. */
  predicate ValidCreateCategory(b: CategoryBody) {
    && b.name.Given? && IsCategoryName(b.name.value)
    && b.color.Given? && IsColor(b.color.value)
    && IsUserIdField(b.userId)
  }

  /** `updateCategorySchema`: every rule of the base schema, each key optional. */
  predicate ValidUpdateCategory(b: CategoryBody) {
    && (b.name.Absent? || IsCategoryName(b.name.value))
    && (b.color.Absent? || IsColor(b.color.value))
    && IsUserIdField(b.userId)
  }

  /** `createActivitySchema`. */
  predicate ValidCreateActivity(b: ActivityBody) {
    && b.name.Given? && IsActivityName(b.name.value)
    && (b.description.Absent? || IsLongText(b.description.value))
    && b.categoryId.Given? && IsPositiveId(b.categoryId.value)
    && IsUserIdField(b.userId)
  }

  /** `updateActivitySchema`. */
  predicate ValidUpdateActivity(b: ActivityBody) {
    && (b.name.Absent? || IsActivityName(b.name.value))
    && (b.description.Absent? || IsLongText(b.description.value))
    && (b.categoryId.Absent? || IsPositiveId(b.categoryId.value))
    && IsUserIdField(b.userId)
  }

  /** The per-field rules of `sessionBaseSchema` with every required key given. */
  predicate ValidSessionFields(b: SessionBody) {
    && b.activityId.Given? && IsPositiveId(b.activityId.value)
    && b.date.Given? && IsDate(b.date.value)
    && b.startTime.Given? && IsTime(b.startTime.value)
    && b.endTime.Given? && IsTime(b.endTime.value)
    && b.durationMinutes.Given? && IsDuration(b.durationMinutes.value)
    && (b.notes.Absent? || IsLongText(b.notes.value))
    && IsUserIdField(b.userId)
  }

  /** `createSessionSchema`: the base rules and the refine `start_time < end_time` (string order). */
  predicate ValidCreateSession(b: SessionBody) {
    ValidSessionFields(b) && StrLt(b.startTime.value, b.endTime.value)
  }

  /** `updateSessionSchema`: the base rules, each key optional, and no ordering refine. */
  predicate ValidUpdateSession(b: SessionBody) {
    && (b.activityId.Absent? || IsPositiveId(b.activityId.value))
    && (b.date.Absent? || IsDate(b.date.value))
    && (b.startTime.Absent? || IsTime(b.startTime.value))
    && (b.endTime.Absent? || IsTime(b.endTime.value))
    && (b.durationMinutes.Absent? || IsDuration(b.durationMinutes.value))
    && (b.notes.Absent? || IsLongText(b.notes.value))
    && IsUserIdField(b.userId)
  }

  // ----- Stored rows and the joined shapes the list queries return -----

  datatype Category = Category(id: int, name: string, color: string, userId: Option<int>)

  datatype Activity = Activity(id: int, name: string, description: Option<string>, categoryId: int, userId: Option<int>)

  datatype Session = Session(
    id: int,
    activityId: int,
    date: string,
    startTime: string,
    endTime: string,
    durationMinutes: int,
    notes: Option<string>,
    userId: Option<int>)

  /** An activity joined with its category's name and colour. */
  datatype ActivityDetails = ActivityDetails(activity: Activity, categoryName: string, categoryColor: string)

  /** A session joined with its activity and that activity's category. */
  datatype SessionDetails = SessionDetails(
    session: Session,
    activityName: string,
    activityDescription: Option<string>,
    categoryId: int,
    categoryName: string,
    categoryColor: string)

  // ----- Properties of the patterns and schemas -----

  /** A string passing the time pattern is an aligned clock time. */
  lemma TimeIsAligned(s: string)
    requires IsTime(s)
    ensures IsAligned(s) && IsClockTime(s)
  {
    ClockFields(s);
  }

  /**
   * The time pattern accepts exactly the 48 strings `slotIndexToTime` produces
   * for the indices of a day.
   */
  lemma TimePatternIsSlotTimes(s: string)
    ensures IsTime(s) <==> exists i :: 0 <= i < 48 && s == SlotIndexToTime(i)
  {
    if IsTime(s) {
      TimeIsAligned(s);
      TimeRoundTrip(s);
      var i := TimeToSlotIndex(s);
      assert 0 <= i < 48 && s == SlotIndexToTime(i);
    }
    if exists i :: 0 <= i < 48 && s == SlotIndexToTime(i) {
      var i :| 0 <= i < 48 && s == SlotIndexToTime(i);
      SlotTimeIsTime(i);
    }
  }

  /** Every slot time of the day passes the time pattern. */
  lemma SlotTimeIsTime(i: nat)
    requires i < 48
    ensures IsTime(SlotIndexToTime(i))
  {
    SlotTimeShape(i);
    AlignedIsTime(SlotIndexToTime(i));
  }

  /** An aligned clock string passes the time pattern. */
  lemma AlignedIsTime(t: string)
    requires IsAligned(t)
    ensures IsTime(t)
  {
    ClockFields(t);
    var d0, d1, d3, d4 := DigitValue(t[0]), DigitValue(t[1]), DigitValue(t[3]), DigitValue(t[4]);
    assert 10 * d0 + d1 < 24;
    assert d0 <= 2 && (d0 == 2 ==> d1 <= 3);
    assert 10 * d3 + d4 == 0 || 10 * d3 + d4 == 30;
    assert d4 == 0 && (d3 == 0 || d3 == 3);
  }

  /**
   * For two strings passing the time pattern, string `<` agrees with slot order:
   * the schema's refine and the server's SQL comparisons are chronological.
   */
  lemma TimeOrderIsSlotOrder(a: string, b: string)
    requires IsTime(a) && IsTime(b)
    ensures StrLt(a, b) <==> TimeToSlotIndex(a) < TimeToSlotIndex(b)
  {
    ClockFields(a);
    ClockFields(b);
    StrLtFive(a, b);
  }

  /** String `<` on two five-character strings, written out position by position. */
  lemma StrLtFive(a: string, b: string)
    requires |a| == 5 && |b| == 5
    ensures StrLt(a, b) <==>
      || a[0] < b[0]
      || (a[0] == b[0] && a[1] < b[1])
      || (a[0] == b[0] && a[1] == b[1] && a[2] < b[2])
      || (a[0] == b[0] && a[1] == b[1] && a[2] == b[2] && a[3] < b[3])
      || (a[0] == b[0] && a[1] == b[1] && a[2] == b[2] && a[3] == b[3] && a[4] < b[4])
  {
    var a1, b1 := a[1..], b[1..];
    var a2, b2 := a1[1..], b1[1..];
    var a3, b3 := a2[1..], b2[1..];
    var a4, b4 := a3[1..], b3[1..];
    var a5, b5 := a4[1..], b4[1..];
    assert StrLt(a, b) == if a[0] != b[0] then a[0] < b[0] else StrLt(a1, b1);
    assert StrLt(a1, b1) == if a1[0] != b1[0] then a1[0] < b1[0] else StrLt(a2, b2);
    assert StrLt(a2, b2) == if a2[0] != b2[0] then a2[0] < b2[0] else StrLt(a3, b3);
    assert StrLt(a3, b3) == if a3[0] != b3[0] then a3[0] < b3[0] else StrLt(a4, b4);
    assert StrLt(a4, b4) == if a4[0] != b4[0] then a4[0] < b4[0] else StrLt(a5, b5);
    assert |b5| == 0 && !StrLt(a5, b5);
    assert a1[0] == a[1] && b1[0] == b[1];
    assert a2[0] == a[2] && b2[0] == b[2];
    assert a3[0] == a[3] && b3[0] == b[3];
    assert a4[0] == a[4] && b4[0] == b[4];
  }

  /** Under `createSessionSchema` a session starts in an earlier slot than it ends. */
  lemma CreateSessionIsChronological(b: SessionBody)
    requires ValidCreateSession(b)
    ensures TimeToSlotIndex(b.startTime.value) < TimeToSlotIndex(b.endTime.value)
  {
    TimeIsAligned(b.startTime.value);
    TimeIsAligned(b.endTime.value);
    TimeOrderIsSlotOrder(b.startTime.value, b.endTime.value);
  }

  /** `createSessionSchema` refuses a start at or after the end. */
  lemma CreateSessionRejectsUnordered(b: SessionBody)
    requires ValidSessionFields(b)
    requires TimeToSlotIndex(b.startTime.value) >= TimeToSlotIndex(b.endTime.value)
    ensures !ValidCreateSession(b)
  {
    TimeOrderIsSlotOrder(b.startTime.value, b.endTime.value);
  }

  /** `updateSessionSchema` accepts a patch whose end comes before its start. */
  lemma UpdateSessionHasNoOrderRule()
    ensures ValidUpdateSession(SessionBody(Absent, Absent, Given("10:00"), Given("09:00"), Absent, Absent, Absent))
  {
  }

  /**
   * No rule ties `duration_minutes` to the times: 09:00 to 11:00 with a
   * 30-minute duration passes `createSessionSchema`.
   */
  lemma DurationNotTiedToTimes()
    ensures ValidCreateSession(SessionBody(Given(1), Given("2024-01-01"), Given("09:00"), Given("11:00"), Given(30), Absent, Absent))
  {
    StrLtFive("09:00", "11:00");
  }

  /** The date pattern checks the shape only: "2024-13-45" passes. */
  lemma DatePatternShapeOnly()
    ensures IsDate("2024-13-45")
  {
  }

  /** The category update schema is the create schema with every key made optional. */
  lemma UpdateCategoryIsPartial(b: CategoryBody)
    ensures ValidCreateCategory(b) <==> ValidUpdateCategory(b) && b.name.Given? && b.color.Given?
  {
  }

  /** The activity update schema is the create schema with every key made optional. */
  lemma UpdateActivityIsPartial(b: ActivityBody)
    ensures ValidCreateActivity(b) <==> ValidUpdateActivity(b) && b.name.Given? && b.categoryId.Given?
  {
  }

  /**
   * The session update schema is the base schema with every key made optional;
   * the create schema adds the ordering refine on top.
   */
  lemma UpdateSessionIsPartial(b: SessionBody)
    ensures ValidSessionFields(b) <==>
      && ValidUpdateSession(b)
      && b.activityId.Given? && b.date.Given? && b.startTime.Given? && b.endTime.Given? && b.durationMinutes.Given?
    ensures ValidCreateSession(b) <==> ValidSessionFields(b) && StrLt(b.startTime.value, b.endTime.value)
  {
  }
}
