/**
 * One row of the day grid (client/src/features/planner/TimeSlot.tsx): the
 * drop target it registers and which of three views it renders.
 */
module SlotView {
  import opened Wrappers
  import opened Text
  import opened Schemas

  /**
   * The props of a slot; the display label is left out. `slotIndex` is
   * `None` when the parent passes no such prop (`undefined`).
   */
  datatype SlotProps = SlotProps(
    time: string,
    slotIndex: Option<int>,
    date: string,
    session: Option<SessionDetails>,
    isOccupied: bool,
    slotSpan: Option<int>)

  /** The data a droppable slot carries; `kind` is the `type` tag. */
  datatype DropData = DropData(kind: string, slotIndex: Option<int>, time: string, date: string, isOccupied: bool)

  /** The droppable registration: its id, its data and whether drops are refused. */
  datatype Droppable = Droppable(id: string, data: DropData, disabled: bool)

  datatype View =
    | ContinuationCell                                  // the empty cell under a multi-slot session
    | SessionBlock(session: SessionDetails, span: int)  // the block drawn where a session starts
    | FreeSlot(time: string, notAllowed: bool)          // the labelled slot, greyed out when occupied

  /** A number or `undefined` as a template literal writes it. */
  function IndexText(x: Option<int>): (t: string)
    ensures |t| >= 1
  {
    if x.None? then "undefined"
    else if x.value >= 0 then DecimalString(x.value)
    else "-" + DecimalString(-x.value)
  }

  /** The droppable of a slot: id `slot-<index>`, tagged 'timeSlot', and disabled exactly when occupied. */
  function DroppableOf(p: SlotProps): (d: Droppable)
    ensures d.disabled <==> p.isOccupied
    ensures d.data == DropData("timeSlot", p.slotIndex, p.time, p.date, p.isOccupied)
  {
    Droppable("slot-" + IndexText(p.slotIndex), DropData("timeSlot", p.slotIndex, p.time, p.date, p.isOccupied), p.isOccupied)
  }

  /** The first character tells `undefined`, a non-negative and a negative number apart. */
  lemma IndexTextHead(x: Option<int>)
    ensures x.None? ==> IndexText(x)[0] == 'u'
    ensures x.Some? && x.value >= 0 ==> IsDigit(IndexText(x)[0])
    ensures x.Some? && x.value < 0 ==> IndexText(x)[0] == '-'
  {
  }

  /** Different numbers, and `undefined`, are written differently. */
  lemma IndexTextInjective(x: Option<int>, y: Option<int>)
    requires IndexText(x) == IndexText(y)
    ensures x == y
  {
    IndexTextHead(x);
    IndexTextHead(y);
    if x.Some? && y.Some? {
      if x.value >= 0 && y.value >= 0 {
        DecimalRoundTrip(x.value);
        DecimalRoundTrip(y.value);
      } else if x.value < 0 && y.value < 0 {
        assert IndexText(x)[1..] == DecimalString(-x.value);
        assert IndexText(y)[1..] == DecimalString(-y.value);
        DecimalRoundTrip(-x.value);
        DecimalRoundTrip(-y.value);
      }
    }
  }

  /** Two slots register the same droppable id exactly when they carry the same index. */
  lemma DroppableIdentifiesIndex(p: SlotProps, q: SlotProps)
    ensures DroppableOf(p).id == DroppableOf(q).id <==> p.slotIndex == q.slotIndex
  {
    if DroppableOf(p).id == DroppableOf(q).id {
      assert DroppableOf(p).id[5..] == IndexText(p.slotIndex);
      assert DroppableOf(q).id[5..] == IndexText(q.slotIndex);
      IndexTextInjective(p.slotIndex, q.slotIndex);
    }
  }

  /**
   * The three-way choice of the component: occupied without a session is a
   * continuation; a session with a non-zero span is its block; anything else is
   * the free slot, shown as not allowed when occupied.
   */
  function Render(p: SlotProps): (v: View)
    ensures v.ContinuationCell? <==> p.isOccupied && p.session.None?
    ensures v.SessionBlock? <==> p.session.Some? && p.slotSpan.Some? && p.slotSpan.value != 0
    ensures v.SessionBlock? ==> v.session == p.session.value && v.span == p.slotSpan.value
    ensures v.FreeSlot? ==> v.time == p.time && v.notAllowed == p.isOccupied
  {
    if p.isOccupied && p.session.None? then ContinuationCell
    else if p.session.Some? && p.slotSpan.Some? && p.slotSpan.value != 0 then SessionBlock(p.session.value, p.slotSpan.value)
    else FreeSlot(p.time, p.isOccupied)
  }
}
