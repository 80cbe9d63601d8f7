/**
 * The day grid (client/src/features/planner/TimeSlotGrid.tsx): the slot map
 * built from the day's sessions, the props each of the 48 rows receives, the
 * drag-and-drop and click handlers that open the session dialog, and the scroll
 * target. The date comparison with today and the clock are parameters.
 */
module SlotGrid {
  import opened Wrappers
  import opened Text
  import opened TimeSlots
  import opened Ordering
  import opened Schemas
  import opened Store
  import opened SlotView
  import SessionRoutes
  import SessionModal

  /** Each slot row is 4rem, 64 pixels, high. */
  const SlotHeight: int := 64

  /** Without a better target the grid scrolls to slot 12 (06:00). */
  const DefaultScrollSlot: int := 12

  /**
   * One entry of the slot map: `undefined` (free), the session that starts in
   * the slot, or `null` (covered by a session that started earlier).
   */
  datatype Cell = Free | Start(session: SessionDetails) | Continuation

  // ----- The slot map -----

  /** A session the map can place: it starts on a slot boundary and lasts whole slots. */
  predicate Placeable(s: SessionDetails) {
    IsAligned(s.session.startTime) && IsDuration(s.session.durationMinutes)
  }

  predicate AllPlaceable(ss: seq<SessionDetails>) {
    forall i :: 0 <= i < |ss| ==> Placeable(ss[i])
  }

  function StartIndex(s: SessionDetails): nat
    requires Placeable(s)
  {
    TimeToSlotIndex(s.session.startTime)
  }

  function Span(s: SessionDetails): int
    requires Placeable(s)
  {
    CalculateSlotSpan(s.session.durationMinutes)
  }

  /** Slot `j` lies under `s`: from its start slot up to the last slot its span reaches. */
  predicate Covers(s: SessionDetails, j: int)
    requires Placeable(s)
  {
    StartIndex(s) <= j < StartIndex(s) + Span(s)
  }

  /** Slot `j` after `s` is written over `c`: its start slot, the slots after it within its span, else unchanged. */
  function PlacedCell(c: Cell, s: SessionDetails, j: int): Cell
    requires Placeable(s)
  {
    if j == StartIndex(s) then Start(s)
    else if StartIndex(s) < j < StartIndex(s) + Span(s) then Continuation
    else c
  }

  /** Slot `j` of the map after the sessions are written in list order. */
  function CellOf(ss: seq<SessionDetails>, j: int): Cell
    requires AllPlaceable(ss)
    decreases |ss|
  {
    if |ss| == 0 then Free else PlacedCell(CellOf(ss[..|ss| - 1], j), ss[|ss| - 1], j)
  }

  function SlotMapOf(ss: seq<SessionDetails>): (cells: seq<Cell>)
    requires AllPlaceable(ss)
    ensures |cells| == 48
  {
    seq(48, j => CellOf(ss, j))
  }

  /** The `slotMap` memo: a 48-entry array filled with free cells, then each session written in turn. */
  method BuildSlotMap(sessions: seq<SessionDetails>) returns (cells: array<Cell>)
    requires AllPlaceable(sessions)
    ensures fresh(cells) && cells.Length == 48
    ensures cells[..] == SlotMapOf(sessions)
  {
    cells := new Cell[48](_ => Free);
    for k := 0 to |sessions|
      invariant forall j :: 0 <= j < 48 ==> cells[j] == CellOf(sessions[..k], j)
    {
      var s := sessions[k];
      var startIndex := TimeToSlotIndex(s.session.startTime);
      var span := CalculateSlotSpan(s.session.durationMinutes);
      assert sessions[..k + 1][..k] == sessions[..k];
      ghost var before := cells[..];
      cells[startIndex] := Start(s);
      for i := 1 to span
        invariant forall j :: 0 <= j < 48 ==>
          cells[j] == (if j == startIndex then Start(s)
            else if startIndex < j < startIndex + i then Continuation
            else before[j])
      {
        if startIndex + i < 48 {
          cells[startIndex + i] := Continuation;
        }
      }
    }
    assert sessions[..|sessions|] == sessions;
  }

  /** A slot is free exactly when no session covers it. */
  lemma {:induction false} FreeIffUncovered(ss: seq<SessionDetails>, j: int)
    requires AllPlaceable(ss)
    ensures CellOf(ss, j) == Free <==> forall i :: 0 <= i < |ss| ==> !Covers(ss[i], j)
  {
    if |ss| > 0 {
      var p, x := ss[..|ss| - 1], ss[|ss| - 1];
      FreeIffUncovered(p, j);
      assert forall i :: 0 <= i < |p| ==> p[i] == ss[i];
    }
  }

  /**
   * A covered slot shows the last session in the list that covers it: its
   * block where it starts, a continuation further down its span.
   */
  lemma {:induction false} LastCoverDecides(ss: seq<SessionDetails>, j: int, i: int)
    requires AllPlaceable(ss)
    requires 0 <= i < |ss| && Covers(ss[i], j)
    requires forall k :: i < k < |ss| ==> !Covers(ss[k], j)
    ensures CellOf(ss, j) == if j == StartIndex(ss[i]) then Start(ss[i]) else Continuation
  {
    if i < |ss| - 1 {
      var p := ss[..|ss| - 1];
      assert !Covers(ss[|ss| - 1], j);
      LastCoverDecides(p, j, i);
    }
  }

  /** Every slot the map marks as a block start holds a listed session that starts there. */
  lemma StartCellIsListed(ss: seq<SessionDetails>, j: int)
    requires AllPlaceable(ss)
    requires CellOf(ss, j).Start?
    ensures CellOf(ss, j).session in ss
    ensures StartIndex(CellOf(ss, j).session) == j
  {
    FreeIffUncovered(ss, j);
    var i :| 0 <= i < |ss| && Covers(ss[i], j);
    LastCovered(ss, j, i);
  }

  /** From any covering session, a last covering session exists and decides the slot. */
  lemma LastCovered(ss: seq<SessionDetails>, j: int, i: int)
    requires AllPlaceable(ss)
    requires 0 <= i < |ss| && Covers(ss[i], j)
    ensures CellOf(ss, j) != Free
    ensures CellOf(ss, j).Start? ==> CellOf(ss, j).session in ss && StartIndex(CellOf(ss, j).session) == j
    decreases |ss| - i
  {
    if forall k :: i < k < |ss| ==> !Covers(ss[k], j) {
      LastCoverDecides(ss, j, i);
    } else {
      var k :| i < k < |ss| && Covers(ss[k], j);
      LastCovered(ss, j, k);
    }
  }

  // ----- Sessions that do not share slots -----

  /** The slot ranges of `x` and `y` do not meet. */
  predicate SpansApart(x: SessionDetails, y: SessionDetails)
    requires Placeable(x) && Placeable(y)
  {
    StartIndex(x) + Span(x) <= StartIndex(y) || StartIndex(y) + Span(y) <= StartIndex(x)
  }

  predicate SlotDisjoint(ss: seq<SessionDetails>)
    requires AllPlaceable(ss)
  {
    forall a, b :: 0 <= a < |ss| && 0 <= b < |ss| && a != b ==> SpansApart(ss[a], ss[b])
  }

  /** With disjoint spans, every slot a session covers shows that session: its block, then continuations. */
  lemma DisjointBlocks(ss: seq<SessionDetails>, i: int, j: int)
    requires AllPlaceable(ss) && SlotDisjoint(ss)
    requires 0 <= i < |ss| && Covers(ss[i], j)
    ensures CellOf(ss, j) == if j == StartIndex(ss[i]) then Start(ss[i]) else Continuation
  {
    forall k | i < k < |ss| ensures !Covers(ss[k], j) {
      assert SpansApart(ss[i], ss[k]);
    }
    LastCoverDecides(ss, j, i);
  }

  /** With disjoint spans, a slot shows the block of `x` exactly when `x` is listed and starts there. */
  lemma DisjointStartCells(ss: seq<SessionDetails>, x: SessionDetails, j: int)
    requires AllPlaceable(ss) && SlotDisjoint(ss)
    ensures CellOf(ss, j) == Start(x) <==> x in ss && StartIndex(x) == j
  {
    if x in ss && StartIndex(x) == j {
      var i :| 0 <= i < |ss| && ss[i] == x;
      DisjointBlocks(ss, i, j);
    }
    if CellOf(ss, j) == Start(x) {
      StartCellIsListed(ss, j);
    }
  }

  /** With disjoint spans the order the sessions arrive in does not change the map. */
  lemma DisjointOrderIrrelevant(ss: seq<SessionDetails>, tt: seq<SessionDetails>)
    requires AllPlaceable(ss) && AllPlaceable(tt)
    requires SlotDisjoint(ss) && SlotDisjoint(tt)
    requires multiset(ss) == multiset(tt)
    ensures SlotMapOf(ss) == SlotMapOf(tt)
  {
    forall j | 0 <= j < 48 ensures CellOf(ss, j) == CellOf(tt, j) {
      if i :| 0 <= i < |ss| && Covers(ss[i], j) {
        assert ss[i] in multiset(tt);
        var i' :| 0 <= i' < |tt| && tt[i'] == ss[i];
        DisjointBlocks(ss, i, j);
        DisjointBlocks(tt, i', j);
      } else {
        forall i' | 0 <= i' < |tt| ensures !Covers(tt[i'], j) {
          assert tt[i'] in multiset(ss);
          var i :| 0 <= i < |ss| && ss[i] == tt[i'];
        }
        FreeIffUncovered(ss, j);
        FreeIffUncovered(tt, j);
      }
    }
  }

  /** A stored row whose end time is its start plus its duration, before midnight. */
  predicate EndsConsistently(s: SessionDetails)
    requires Placeable(s)
  {
    s.session.durationMinutes < GetMaxDuration(s.session.startTime)
    && s.session.endTime == CalculateEndTime(s.session.startTime, s.session.durationMinutes)
  }

  /**
   * Two sessions of one day that the server's overlap rule lets coexist, each
   * with an end time that agrees with its duration, occupy disjoint slots.
   */
  lemma ApartWhenNoConflict(x: SessionDetails, y: SessionDetails)
    requires Placeable(x) && Placeable(y)
    requires EndsConsistently(x) && EndsConsistently(y)
    requires x.session.userId == Some(DefaultUser) && y.session.userId == Some(DefaultUser)
    requires x.session.date == y.session.date
    requires !Conflict(x.session, y.session)
    ensures SpansApart(x, y)
  {
    AlignedIsTime(x.session.startTime);
    AlignedIsTime(y.session.startTime);
    SessionModal.EndTimeIsLaterSlot(x.session.startTime, x.session.durationMinutes);
    SessionModal.EndTimeIsLaterSlot(y.session.startTime, y.session.durationMinutes);
    TimeOrderIsSlotOrder(x.session.startTime, y.session.endTime);
    TimeOrderIsSlotOrder(y.session.startTime, x.session.endTime);
  }

  /** A day's listing without conflicts and with consistent end times lays out without shared slots. */
  lemma ConflictFreeDayIsSlotDisjoint(ss: seq<SessionDetails>)
    requires AllPlaceable(ss)
    requires forall i :: 0 <= i < |ss| ==> EndsConsistently(ss[i]) && ss[i].session.userId == Some(DefaultUser)
    requires forall i :: 0 <= i < |ss| ==> ss[i].session.date == ss[0].session.date
    requires forall a, b :: 0 <= a < |ss| && 0 <= b < |ss| && a != b ==> !Conflict(ss[a].session, ss[b].session)
    ensures SlotDisjoint(ss)
  {
    forall a, b | 0 <= a < |ss| && 0 <= b < |ss| && a != b ensures SpansApart(ss[a], ss[b]) {
      ApartWhenNoConflict(ss[a], ss[b]);
    }
  }

  /** 09:00 and 10:00 are slot times 18 and 20. */
  lemma NineAndTen()
    ensures IsAligned("09:00") && TimeToSlotIndex("09:00") == 18
    ensures IsAligned("10:00") && TimeToSlotIndex("10:00") == 20
  {
    ClockFields("09:00");
    ClockFields("10:00");
  }

  /**
   * The server accepts a 09:00-09:30 session stored with 120 minutes next to a
   * 10:00-10:30 one, since it compares times only; the grid then draws slot 20
   * differently depending on which of the two comes first.
   */
  lemma InconsistentRowsDependOnOrder()
    ensures var a := SessionDetails(Session(1, 1, "2024-01-01", "09:00", "09:30", 120, None, Some(DefaultUser)), "A", None, 1, "C", "#000000");
      var b := SessionDetails(Session(2, 1, "2024-01-01", "10:00", "10:30", 30, None, Some(DefaultUser)), "B", None, 1, "C", "#000000");
      && !Conflict(a.session, b.session)
      && AllPlaceable([a, b]) && AllPlaceable([b, a])
      && CellOf([a, b], 20) == Start(b)
      && CellOf([b, a], 20) == Continuation
  {
    var a := SessionDetails(Session(1, 1, "2024-01-01", "09:00", "09:30", 120, None, Some(DefaultUser)), "A", None, 1, "C", "#000000");
    var b := SessionDetails(Session(2, 1, "2024-01-01", "10:00", "10:30", 30, None, Some(DefaultUser)), "B", None, 1, "C", "#000000");
    NineAndTen();
    assert !StrLt("10:00", "09:30");
    LastCoverDecides([a, b], 20, 1);
    LastCoverDecides([b, a], 20, 1);
  }

  // ----- The rows' props -----

  /** Every block in the map belongs to a placeable session. */
  predicate CellsPlaceable(cells: seq<Cell>) {
    forall j :: 0 <= j < |cells| && cells[j].Start? ==> Placeable(cells[j].session)
  }

  lemma SlotMapPlaceable(ss: seq<SessionDetails>)
    requires AllPlaceable(ss)
    ensures CellsPlaceable(SlotMapOf(ss))
  {
    forall j | 0 <= j < 48 && SlotMapOf(ss)[j].Start? ensures Placeable(SlotMapOf(ss)[j].session) {
      StartCellIsListed(ss, j);
    }
  }

  /**
   * The props the grid passes to row `j`: the slot spread as it is (its time,
   * and its `index` under a name the row does not read, so no `slotIndex`),
   * `session || undefined`, occupied unless `undefined`, and the block's span.
   */
  function PropsOf(cells: seq<Cell>, j: nat, date: string): SlotProps
    requires |cells| == 48 && j < 48 && CellsPlaceable(cells)
  {
    var c := cells[j];
    SlotProps(
      SlotIndexToTime(j), None, date,
      if c.Start? then Some(c.session) else None,
      c != Free,
      if c.Start? then Some(Span(c.session)) else None)
  }

  /** The rows of the grid, in slot order. */
  function GridProps(cells: seq<Cell>, date: string): (rows: seq<SlotProps>)
    requires |cells| == 48 && CellsPlaceable(cells)
    ensures |rows| == 48
  {
    seq(48, j requires 0 <= j < 48 => PropsOf(cells, j, date))
  }

  /**
   * What each row shows: a free cell its labelled, droppable slot; a block start
   * the session block with its span; a covered cell the empty continuation.
   */
  lemma RowViews(cells: seq<Cell>, j: nat, date: string)
    requires |cells| == 48 && j < 48 && CellsPlaceable(cells)
    ensures var p := GridProps(cells, date)[j];
      && p.time == SlotIndexToTime(j) && p.slotIndex.None? && p.date == date
      && (cells[j] == Free ==> Render(p) == FreeSlot(SlotIndexToTime(j), false))
      && (cells[j] == Continuation ==> Render(p) == ContinuationCell)
      && (cells[j].Start? ==> Render(p) == SessionBlock(cells[j].session, Span(cells[j].session)) && Span(cells[j].session) >= 1)
      && (DroppableOf(p).disabled <==> cells[j] != Free)
  {
    var p := GridProps(cells, date)[j];
    assert p == PropsOf(cells, j, date);
    if cells[j].Start? {
      assert Span(cells[j].session) >= 1;
    }
  }

  /**
   * No row receives a `slotIndex`, so all 48 droppables register the one id
   * `slot-undefined` and carry no index in their data.
   */
  lemma RowsShareOneDropId(cells: seq<Cell>, date: string)
    requires |cells| == 48 && CellsPlaceable(cells)
    ensures forall j :: 0 <= j < 48 ==> DroppableOf(GridProps(cells, date)[j]).id == "slot-undefined"
    ensures forall j :: 0 <= j < 48 ==> DroppableOf(GridProps(cells, date)[j]).data.slotIndex.None?
    ensures forall j, k :: 0 <= j < 48 && 0 <= k < 48 ==>
      DroppableOf(GridProps(cells, date)[j]).id == DroppableOf(GridProps(cells, date)[k]).id
  {
    forall j | 0 <= j < 48 ensures DroppableOf(GridProps(cells, date)[j]).id == "slot-undefined" {
      assert GridProps(cells, date)[j] == PropsOf(cells, j, date);
    }
  }

  // ----- Drag, drop and click -----

  /** `handleDragEnd`'s test: a drop on a time slot that is not occupied. */
  predicate DropAccepted(over: Option<DropData>) {
    over.Some? && over.value.kind == "timeSlot" && !over.value.isOccupied
  }

  /** A drop on row `j` of the grid opens the dialog exactly when the slot is free. */
  lemma DropOnRow(cells: seq<Cell>, j: nat, date: string)
    requires |cells| == 48 && j < 48 && CellsPlaceable(cells)
    ensures DropAccepted(Some(DroppableOf(GridProps(cells, date)[j]).data)) <==> cells[j] == Free
    ensures DroppableOf(GridProps(cells, date)[j]).data.time == SlotIndexToTime(j)
  {
    assert GridProps(cells, date)[j] == PropsOf(cells, j, date);
  }

  /** The state `TimeSlotGrid` keeps for the dialog and the drag overlay. */
  class Planner {
    var isModalOpen: bool
    var modalMode: SessionModal.Mode
    var selectedSession: Option<SessionDetails>
    var newSessionData: Option<SessionModal.InitialData>
    var activeDragItem: Option<ActivityDetails>

    constructor ()
      ensures !isModalOpen && modalMode == SessionModal.Create
      ensures selectedSession.None? && newSessionData.None? && activeDragItem.None?
    {
      isModalOpen := false;
      modalMode := SessionModal.Create;
      selectedSession := None;
      newSessionData := None;
      activeDragItem := None;
    }

    /** `handleDragStart`: the dragged activity is shown in the overlay. */
    method HandleDragStart(drag: ActivityDetails)
      modifies this
      ensures activeDragItem == Some(drag)
      ensures isModalOpen == old(isModalOpen) && modalMode == old(modalMode)
      ensures selectedSession == old(selectedSession) && newSessionData == old(newSessionData)
    {
      activeDragItem := Some(drag);
    }

    /**
     * `handleDragEnd`: the overlay is cleared; a drop on a free time slot opens
     * the dialog in create mode with the activity and the slot's date and time,
     * any other drop changes nothing else.
     */
    method HandleDragEnd(drag: ActivityDetails, over: Option<DropData>)
      modifies this
      ensures activeDragItem.None?
      ensures selectedSession == old(selectedSession)
      ensures DropAccepted(over) ==>
        && isModalOpen && modalMode == SessionModal.Create
        && newSessionData == Some(SessionModal.InitialData(drag.activity.id, drag.activity.name,
             drag.categoryColor, over.value.date, over.value.time))
      ensures !DropAccepted(over) ==>
        isModalOpen == old(isModalOpen) && modalMode == old(modalMode) && newSessionData == old(newSessionData)
    {
      activeDragItem := None;
      if over.None? {
        return;
      }
      var drop := over.value;
      if drop.kind != "timeSlot" || drop.isOccupied {
        return;
      }
      newSessionData := Some(SessionModal.InitialData(drag.activity.id, drag.activity.name,
        drag.categoryColor, drop.date, drop.time));
      modalMode := SessionModal.Create;
      isModalOpen := true;
    }

    /** `handleSessionClick`: the dialog opens in edit mode on the clicked session. */
    method HandleSessionClick(session: SessionDetails)
      modifies this
      ensures isModalOpen && modalMode == SessionModal.Edit && selectedSession == Some(session)
      ensures newSessionData == old(newSessionData) && activeDragItem == old(activeDragItem)
    {
      selectedSession := Some(session);
      modalMode := SessionModal.Edit;
      isModalOpen := true;
    }

    /** The dialog's `onClose`: only the open flag changes. */
    method CloseModal()
      modifies this
      ensures !isModalOpen
      ensures modalMode == old(modalMode) && selectedSession == old(selectedSession)
      ensures newSessionData == old(newSessionData) && activeDragItem == old(activeDragItem)
    {
      isModalOpen := false;
    }
  }

  // ----- Scrolling -----

  /**
   * The slot the grid scrolls to: an hour before the current slot when the day
   * is today, else two hours before the first listed session, else 06:00; never
   * above the top.
   */
  function ScrollTarget(isToday: bool, currentIndex: int, sessions: seq<SessionDetails>): int
    requires !isToday && |sessions| > 0 ==> IsClockShaped(sessions[0].session.startTime)
  {
    if isToday then (if currentIndex - 2 > 0 then currentIndex - 2 else 0)
    else if |sessions| > 0 then
      var first := TimeToSlotIndex(sessions[0].session.startTime);
      if first - 4 > 0 then first - 4 else 0
    else DefaultScrollSlot
  }

  /** The scroll offset in pixels of a target slot. */
  function ScrollOffset(target: int): int {
    target * SlotHeight
  }

  /** On today's grid the target is the slot an hour before the half hour holding the clock reading. */
  lemma ScrollOnToday(hour: int, minute: int, sessions: seq<SessionDetails>)
    requires 0 <= hour < 24 && 0 <= minute < 60
    ensures var t := ScrollTarget(true, SnapToSlot(hour, minute), sessions);
      && 0 <= t <= 45 && 0 <= ScrollOffset(t) <= 45 * 64
      && (t > 0 ==> 30 * (t + 2) <= 60 * hour + minute < 30 * (t + 3))
      && (t == 0 ==> 60 * hour + minute < 90)
  {
    var i := SnapToSlot(hour, minute);
  }

  /** The default target is the 06:00 slot. */
  lemma DefaultScrollIsSixAM()
    ensures ScrollTarget(false, 0, []) == DefaultScrollSlot
    ensures SlotIndexToTime(DefaultScrollSlot) == "06:00"
  {
    ClockString(6, 0);
  }

  /**
   * On another day with sessions, listed by date and start time, the target is
   * two hours before the earliest session, or the top.
   */
  lemma ScrollToEarliest(sessions: seq<SessionDetails>, currentIndex: int)
    requires |sessions| > 0 && AllPlaceable(sessions)
    requires SortedBy(sessions, SessionRoutes.SessionOrder)
    requires forall i :: 0 <= i < |sessions| ==> sessions[i].session.date == sessions[0].session.date
    ensures var t := ScrollTarget(false, currentIndex, sessions);
      && (forall i :: 0 <= i < |sessions| ==> t == 0 || t + 4 <= StartIndex(sessions[i]))
      && (t == 0 || t + 4 == StartIndex(sessions[0]))
  {
    var first := sessions[0].session.startTime;
    AlignedIsTime(first);
    forall i | 0 < i < |sessions| ensures StartIndex(sessions[0]) <= StartIndex(sessions[i]) {
      assert KeyLe(SessionRoutes.SessionOrder(sessions[0]), SessionRoutes.SessionOrder(sessions[i]));
      StrLtIrreflexive(sessions[0].session.date);
      AlignedIsTime(sessions[i].session.startTime);
      TimeOrderIsSlotOrder(first, sessions[i].session.startTime);
    }
  }
}
