/**
 * The session dialog (client/src/features/planner/SessionModal.tsx): the
 * duration choices, the create and update payloads, the error texts, and the
 * dialog's own state (duration, notes, error). The network call is a
 * parameter: its outcome is given, not computed.
 */
module SessionModal {
  import opened Wrappers
  import opened Text
  import opened Lists
  import opened TimeSlots
  import opened Schemas
  import opened Store
  import SessionRoutes

  datatype Mode = Create | Edit

  /** What a drop onto a free slot hands to the dialog in create mode. */
  datatype InitialData = InitialData(activityId: int, activityName: string, categoryColor: string, date: string, startTime: string)

  /** The call the dialog makes. */
  datatype Request =
    | CreateRequest(body: SessionBody)
    | UpdateRequest(id: int, body: SessionBody)
    | DeleteRequest(id: int, date: string)

  /** How the call ended: resolved, or rejected with the thrown error's message. */
  datatype Outcome = Succeeded | Threw(message: string)

  const OverlapText: string := "This time slot overlaps with an existing session. Please choose a different duration."
  const SaveFailedText: string := "Failed to save session. Please try again."
  const DeleteFailedText: string := "Failed to delete session. Please try again."

  /** The fixed list of durations the dialog offers before filtering. */
  const AllDurations: seq<int> := [30, 60, 90, 120, 150, 180, 210, 240, 270, 300, 330, 360]

  // ----- Durations -----

  /** The start time the dialog works from: the drop's in create mode, the session's in edit mode. */
  function StartTimeOf(mode: Mode, initialData: Option<InitialData>, session: Option<SessionDetails>): Option<string> {
    match mode
    case Create => if initialData.Some? then Some(initialData.value.startTime) else None
    case Edit => if session.Some? then Some(session.value.session.startTime) else None
  }

  /** A start time the dialog can do arithmetic on; a missing or empty one falls back to defaults. */
  predicate UsableStart(startTime: Option<string>) {
    startTime.Some? && startTime.value != "" ==> IsClockShaped(startTime.value)
  }

  /** `startTime ? getMaxDuration(startTime) : 360`. */
  function MaxDuration(startTime: Option<string>): int
    requires UsableStart(startTime)
  {
    if startTime.Some? && startTime.value != "" then GetMaxDuration(startTime.value) else 360
  }

  /** The filter's test: at most `max` minutes. */
  function AtMost(max: int): int -> bool {
    d => d <= max
  }

  /** The offered durations: the fixed list, kept in order, up to the maximum. */
  function DurationOptions(startTime: Option<string>): seq<int>
    requires UsableStart(startTime)
  {
    Filter(AllDurations, AtMost(MaxDuration(startTime)))
  }

  /** The fixed list holds positive multiples of 30 up to 360. */
  lemma AllDurationsAreSlotMultiples(d: int)
    requires d in AllDurations
    ensures d > 0 && d % 30 == 0 && d <= 360
  {
  }

  lemma AllDurationsBounded()
    ensures forall i :: 0 <= i < |AllDurations| ==> AllDurations[i] <= 360
  {
  }

  /** Each offered duration is a positive multiple of 30, at most 360, and fits before midnight. */
  lemma DurationOptionsSound(startTime: Option<string>, d: int)
    requires UsableStart(startTime)
    requires d in DurationOptions(startTime)
    ensures d > 0 && d % 30 == 0 && d <= 360
    ensures d <= MaxDuration(startTime)
  {
    FilterMembers(AllDurations, AtMost(MaxDuration(startTime)), d);
    AllDurationsAreSlotMultiples(d);
  }

  /** Every listed duration up to the maximum is offered. */
  lemma DurationOptionsComplete(startTime: Option<string>, d: int)
    requires UsableStart(startTime)
    requires d in AllDurations && d <= MaxDuration(startTime)
    ensures d in DurationOptions(startTime)
  {
    FilterMembers(AllDurations, AtMost(MaxDuration(startTime)), d);
  }

  /** Without a start time the maximum is 360. */
  lemma NoStartMaximum()
    ensures MaxDuration(None) == 360
  {
  }

  /** Every listed duration is at most 360 minutes, so that bound keeps the whole list. */
  lemma WholeListWithin360()
    ensures Filter(AllDurations, AtMost(360)) == AllDurations
  {
    AllDurationsBounded();
    FilterAll(AllDurations, AtMost(360));
  }

  /** Without a start time every duration is offered. */
  lemma NoStartOffersAll()
    ensures DurationOptions(None) == AllDurations
  {
    NoStartMaximum();
    WholeListWithin360();
  }

  /** Filtering to 30 minutes keeps a leading 30 and drops the longer rest. */
  lemma {:induction false} HalfHourOnly(rest: seq<int>)
    requires forall i :: 0 <= i < |rest| ==> rest[i] > 30
    ensures Filter([30] + rest, AtMost(30)) == [30]
  {
    FilterNone(rest, AtMost(30));
    FilterAll([30], AtMost(30));
    FilterAppend([30], rest, AtMost(30));
  }

  /** Only the first listed duration is at most 30 minutes. */
  lemma ListWithin30()
    ensures Filter(AllDurations, AtMost(30)) == [30]
  {
    var rest := AllDurations[1..];
    assert forall i :: 0 <= i < |rest| ==> rest[i] > 30;
    assert AllDurations == [30] + rest;
    HalfHourOnly(rest);
  }

  /** From the last slot of the day only 30 minutes are offered. */
  lemma LastSlotOffersOnlyHalfHour(start: string)
    requires start == "23:30"
    ensures UsableStart(Some(start))
    ensures DurationOptions(Some(start)) == [30]
  {
    MaxDurationAtLastSlot();
    assert MaxDuration(Some(start)) == 30;
    ListWithin30();
  }

  // ----- Payloads -----

  /** `notes || undefined`: an empty text leaves the key out of the body. */
  function NotesField(notes: string): Field<Option<string>> {
    if notes == "" then Absent else Given(Some(notes))
  }

  /** The create body: the drop's activity, date and start, the computed end, the duration and the notes. */
  function CreatePayload(data: InitialData, duration: int, notes: string): SessionBody
    requires IsClockTime(data.startTime)
  {
    SessionBody(Given(data.activityId), Given(data.date), Given(data.startTime),
      Given(CalculateEndTime(data.startTime, duration)), Given(duration), NotesField(notes), Absent)
  }

  /** The update body: only the duration, the computed end and the notes. */
  function EditPayload(startTime: string, duration: int, notes: string): SessionBody
    requires IsClockTime(startTime)
  {
    SessionBody(Absent, Absent, Absent, Given(CalculateEndTime(startTime, duration)), Given(duration), NotesField(notes), Absent)
  }

  /** A whole number of slots that ends before midnight gives a later end time on the slot grid. */
  lemma EndTimeIsLaterSlot(start: string, duration: int)
    requires IsTime(start)
    requires duration > 0 && duration % 30 == 0
    requires IsClockShaped(start) && duration < GetMaxDuration(start)
    ensures IsClockTime(start)
    ensures IsTime(CalculateEndTime(start, duration)) && IsAligned(CalculateEndTime(start, duration))
    ensures StrLt(start, CalculateEndTime(start, duration))
    ensures TimeToSlotIndex(CalculateEndTime(start, duration)) == TimeToSlotIndex(start) + CalculateSlotSpan(duration)
  {
    TimeIsAligned(start);
    EndTimeSlot(start, duration);
    var end := CalculateEndTime(start, duration);
    AlignedIsTime(end);
    TimeOrderIsSlotOrder(start, end);
  }

  /**
   * A create from a slot-aligned start with a whole number of slots that ends
   * before midnight passes `createSessionSchema`, and its end lies `span` slots later.
   */
  lemma CreatePayloadValid(data: InitialData, duration: int, notes: string)
    requires IsTime(data.startTime) && IsDate(data.date) && data.activityId > 0 && |notes| <= 1000
    requires duration > 0 && duration % 30 == 0
    requires IsClockShaped(data.startTime) && duration < GetMaxDuration(data.startTime)
    ensures IsClockTime(data.startTime)
    ensures ValidCreateSession(CreatePayload(data, duration, notes))
    ensures IsAligned(CalculateEndTime(data.startTime, duration))
    ensures TimeToSlotIndex(CalculateEndTime(data.startTime, duration)) == TimeToSlotIndex(data.startTime) + CalculateSlotSpan(duration)
  {
    EndTimeIsLaterSlot(data.startTime, duration);
  }

  /** Every duration the dialog offers for a slot-aligned start, short of the longest, makes a valid create. */
  lemma CreatePayloadAccepted(data: InitialData, duration: int, notes: string)
    requires IsTime(data.startTime) && IsDate(data.date) && data.activityId > 0 && |notes| <= 1000
    requires IsClockShaped(data.startTime)
    requires duration in DurationOptions(Some(data.startTime))
    requires duration < GetMaxDuration(data.startTime)
    ensures IsClockTime(data.startTime)
    ensures ValidCreateSession(CreatePayload(data, duration, notes))
  {
    DurationOptionsSound(Some(data.startTime), duration);
    CreatePayloadValid(data, duration, notes);
  }

  /** No slot time sorts before midnight. */
  lemma NothingBeforeMidnight(s: string)
    requires IsTime(s)
    ensures !StrLt(s, "00:00")
  {
    SlotTimeIsTime(0);
    assert SlotIndexToTime(0) == "00:00";
    SlotIndexRoundTrip(0);
    TimeOrderIsSlotOrder(s, "00:00");
  }

  /**
   * Choosing the longest duration the dialog allows for a start makes the end
   * wrap to "00:00", which the create schema refuses.
   */
  lemma CreatePayloadAtMaxRejected(data: InitialData, notes: string)
    requires IsTime(data.startTime)
    ensures IsClockTime(data.startTime)
    ensures !ValidCreateSession(CreatePayload(data, GetMaxDuration(data.startTime), notes))
  {
    TimeIsAligned(data.startTime);
    EndTimeAtMaxDuration(data.startTime);
    NothingBeforeMidnight(data.startTime);
  }

  /** "23:30" is a slot time with 30 minutes left in the day. */
  lemma LastSlotTime()
    ensures IsTime("23:30") && IsClockTime("23:30") && GetMaxDuration("23:30") == 30
  {
    ClockFields("23:30");
    AlignedIsTime("23:30");
  }

  /** The last slot of the day cannot be booked from the dialog: its one offered duration is refused. */
  lemma LastSlotUnbookable(data: InitialData, duration: int, notes: string)
    requires data.startTime == "23:30"
    requires duration in DurationOptions(Some(data.startTime))
    ensures IsClockTime(data.startTime)
    ensures !ValidCreateSession(CreatePayload(data, duration, notes))
  {
    LastSlotOffersOnlyHalfHour(data.startTime);
    assert duration == 30;
    LastSlotTime();
    CreatePayloadAtMaxRejected(data, notes);
  }

  /**
   * An edit never moves a session: the stored date, start, activity and owner
   * are kept, and emptied notes leave the stored notes as they were.
   */
  lemma EditKeepsPlacement(row: Session, duration: int, notes: string)
    requires IsClockTime(row.startTime)
    ensures var after := SessionRoutes.Patched(row, EditPayload(row.startTime, duration, notes));
      && after.id == row.id && after.userId == row.userId
      && after.date == row.date && after.startTime == row.startTime && after.activityId == row.activityId
      && after.durationMinutes == duration
      && after.endTime == CalculateEndTime(row.startTime, duration)
      && (notes == "" ==> after.notes == row.notes)
      && (notes != "" ==> after.notes == Some(notes))
  {
  }

  // ----- Errors -----

  /** The message of the error the HTTP client throws for an error reply (its `error` field). */
  function ThrownMessage(reply: Reply): string
    requires reply.Failed?
  {
    if reply.error != "" then reply.error else "Request failed"
  }

  /** The text shown after a failed save: the overlap text when the message mentions 'overlap'. */
  function ErrorText(message: string): (text: string)
    ensures text == OverlapText <==> Contains(message, "overlap")
    ensures text == SaveFailedText <==> !Contains(message, "overlap")
  {
    if Contains(message, "overlap") then OverlapText else SaveFailedText
  }

  /** Two adjacent characters that never occur in `s` rule out any part starting with them. */
  lemma {:induction false} NoOccurrence(s: string, part: string)
    requires |part| >= 2
    requires forall i :: 0 <= i < |s| - 1 ==> !(s[i] == part[0] && s[i + 1] == part[1])
    ensures !Contains(s, part)
  {
    forall i | 0 <= i <= |s| ensures !OccursAt(s, part, i) {
      if i <= |s| - |part| {
        assert s[i..i + |part|][0] == s[i] && s[i..i + |part|][1] == s[i + 1];
      }
    }
  }

  /** The overlap refusal's message mentions 'overlap', at position 8. */
  lemma MentionsOverlap(message: string)
    requires message == "Session overlap detected"
    ensures Contains(message, "overlap")
  {
    assert message[8..15] == "overlap" by {
      forall j | 0 <= j < 7 ensures message[8..15][j] == "overlap"[j] {
      }
    }
    assert OccursAt(message, "overlap", 8);
  }

  /** A refused overlap shows the overlap text. */
  lemma OverlapReplyShowsOverlapText()
    ensures ErrorText(ThrownMessage(SessionRoutes.SessionOverlap)) == OverlapText
  {
    MentionsOverlap(ThrownMessage(SessionRoutes.SessionOverlap));
  }

  /** The other refusals of a save show the generic text. */
  lemma OtherRefusalsShowGenericText()
    ensures ErrorText(ThrownMessage(SessionRoutes.InvalidActivity)) == SaveFailedText
    ensures ErrorText(ThrownMessage(ValidationFailed)) == SaveFailedText
    ensures ErrorText(ThrownMessage(SessionRoutes.SessionNotFound)) == SaveFailedText
    ensures ErrorText(ThrownMessage(NoFieldsToUpdate)) == SaveFailedText
  {
    NoOccurrence("Invalid activity_id", "overlap");
    NoOccurrence("Validation failed", "overlap");
    NoOccurrence("Session not found", "overlap");
    NoOccurrence("No fields to update", "overlap");
  }

  // ----- The dialog's state -----

  class ModalState {
    var duration: int
    var notes: string
    var error: string

    constructor ()
      ensures duration == 30 && notes == "" && error == ""
    {
      duration, notes, error := 30, "", "";
    }

    /**
     * The effect run when the mode or the session changes: edit mode loads the
     * session's duration and notes, create mode resets them, and the error is
     * always cleared.
     */
    method Initialize(mode: Mode, session: Option<SessionDetails>)
      modifies this
      ensures error == ""
      ensures mode == Edit && session.Some? ==>
        duration == session.value.session.durationMinutes
        && notes == (if session.value.session.notes.Some? then session.value.session.notes.value else "")
      ensures mode == Create ==> duration == 30 && notes == ""
      ensures mode == Edit && session.None? ==> duration == old(duration) && notes == old(notes)
    {
      if mode == Edit && session.Some? {
        duration := session.value.session.durationMinutes;
        notes := if session.value.session.notes.Some? then session.value.session.notes.value else "";
      } else if mode == Create {
        duration := 30;
        notes := "";
      }
      error := "";
    }

    /**
     * `handleSubmit`: sends the create or the update for the current mode and
     * closes the dialog on success (also when there was nothing to send); a
     * refused call leaves it open with the error text.
     */
    method Submit(mode: Mode, initialData: Option<InitialData>, session: Option<SessionDetails>, outcome: Outcome)
      returns (request: Option<Request>, closes: bool)
      requires mode == Create && initialData.Some? ==> IsClockTime(initialData.value.startTime)
      requires mode == Edit && session.Some? ==> IsClockTime(session.value.session.startTime)
      modifies this
      ensures duration == old(duration) && notes == old(notes)
      ensures mode == Create && initialData.Some? ==>
        request == Some(CreateRequest(CreatePayload(initialData.value, duration, notes)))
      ensures mode == Edit && session.Some? ==>
        request == Some(UpdateRequest(session.value.session.id,
          EditPayload(session.value.session.startTime, duration, notes)))
      ensures !(mode == Create && initialData.Some?) && !(mode == Edit && session.Some?) ==> request == None
      ensures request.None? || outcome.Succeeded? ==> closes && error == ""
      ensures request.Some? && outcome.Threw? ==> !closes && error == ErrorText(outcome.message)
    {
      error := "";
      if mode == Create && initialData.Some? {
        request := Some(CreateRequest(CreatePayload(initialData.value, duration, notes)));
      } else if mode == Edit && session.Some? {
        request := Some(UpdateRequest(session.value.session.id,
          EditPayload(session.value.session.startTime, duration, notes)));
      } else {
        request := None;
      }
      if request.Some? && outcome.Threw? {
        error := ErrorText(outcome.message);
        closes := false;
      } else {
        closes := true;
      }
    }

    /** `handleDelete`: nothing without a session; otherwise deletes it by id and date. */
    method Delete(session: Option<SessionDetails>, outcome: Outcome) returns (request: Option<Request>, closes: bool)
      modifies this
      ensures duration == old(duration) && notes == old(notes)
      ensures session.None? ==> request == None && !closes && error == old(error)
      ensures session.Some? ==> request == Some(DeleteRequest(session.value.session.id, session.value.session.date))
      ensures session.Some? && outcome.Succeeded? ==> closes && error == old(error)
      ensures session.Some? && outcome.Threw? ==> !closes && error == DeleteFailedText
    {
      if session.None? {
        return None, false;
      }
      request := Some(DeleteRequest(session.value.session.id, session.value.session.date));
      if outcome.Threw? {
        error := DeleteFailedText;
        closes := false;
      } else {
        closes := true;
      }
    }
  }
}
