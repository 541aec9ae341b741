/**
 * The event store of the schedule page (app/schedule/page.tsx): a list of
 * calendar events, the draft being edited in a modal, the two modal flags,
 * and the handlers that open the modals, save a draft and delete an event.
 */
module Schedule {
  import opened Wrappers
  import opened ListOps
  import JsString

  datatype WeekMode = Odd | Even | Both

  datatype Props = Props(category: Option<string>, weekMode: Option<WeekMode>)

  datatype TaskEvent = TaskEvent(
    id: string, title: string, location: Option<string>,
    start: string, end: Option<string>, extendedProps: Props)

  /** `Partial<TaskEvent>`: the modal's draft, in which every field may be missing. */
  datatype Draft = Draft(
    id: Option<string>, title: Option<string>, location: Option<string>,
    start: Option<string>, end: Option<string>, extendedProps: Option<Props>)

  const EmptyDraft := Draft(None, None, None, None, None, None)

  const DefaultCategory := "Activity"

  /** JavaScript truthiness of an optional string: present and not empty. */
  predicate Truthy(s: Option<string>)
  {
    s.Some? && s.value != ""
  }

  /** Why `saveEvent` refuses a draft (the two alerts). */
  datatype Rejection = MissingField | StartAfterEnd

  /** `{ ...ev, ...d }`: every field the draft holds replaces the event's; `extendedProps` is replaced whole. */
  function Overlay(ev: TaskEvent, d: Draft): TaskEvent
  {
    TaskEvent(
      d.id.GetOr(ev.id),
      d.title.GetOr(ev.title),
      if d.location.Some? then d.location else ev.location,
      d.start.GetOr(ev.start),
      if d.end.Some? then d.end else ev.end,
      d.extendedProps.GetOr(ev.extendedProps))
  }

  function EventIdIs(id: string): TaskEvent -> bool { (ev: TaskEvent) => ev.id == id }
  function EventIdIsNot(id: string): TaskEvent -> bool { (ev: TaskEvent) => ev.id != id }
  function OverlayWith(d: Draft): TaskEvent -> TaskEvent { (ev: TaskEvent) => Overlay(ev, d) }
  function EventId(ev: TaskEvent): string { ev.id }

  /** The edit updater: every event with the draft's id gets the draft's fields. */
  function Merge(events: seq<TaskEvent>, d: Draft): (r: seq<TaskEvent>)
    requires d.id.Some?
    ensures |r| == |events|
    ensures forall i :: 0 <= i < |events| && events[i].id != d.id.value ==> r[i] == events[i]
    ensures forall i :: 0 <= i < |events| && events[i].id == d.id.value ==> r[i] == Overlay(events[i], d)
  {
    MapWhere(events, EventIdIs(d.id.value), OverlayWith(d))
  }

  /** Merging never changes an event's id, nor the order of the events. */
  lemma MergeKeepsIds(events: seq<TaskEvent>, d: Draft)
    requires d.id.Some?
    ensures Map(Merge(events, d), EventId) == Map(events, EventId)
  {
    var l, r := Map(Merge(events, d), EventId), Map(events, EventId);
    assert forall i :: 0 <= i < |events| ==> l[i] == r[i];
  }

  /** Merging a draft whose id no event has changes nothing. */
  lemma MergeUnknownId(events: seq<TaskEvent>, d: Draft)
    requires d.id.Some?
    requires forall i :: 0 <= i < |events| ==> events[i].id != d.id.value
    ensures Merge(events, d) == events
  {
    MapWhereNoMatch(events, EventIdIs(d.id.value), OverlayWith(d));
  }

  /** The event `saveEvent` appends for a draft without an id. */
  function Created(d: Draft, freshId: string): (ev: TaskEvent)
    requires d.title.Some? && d.start.Some?
    ensures ev.id == freshId && ev.title == d.title.value && ev.start == d.start.value
    ensures ev.location == d.location && ev.end == d.end
    ensures ev.extendedProps.category.Some? && ev.extendedProps.weekMode.Some?
    ensures d.extendedProps.None? ==> ev.extendedProps == Props(Some(DefaultCategory), Some(Both))
    ensures d.extendedProps.Some? && Truthy(d.extendedProps.value.category) ==>
      ev.extendedProps.category == d.extendedProps.value.category
    ensures d.extendedProps.Some? && !Truthy(d.extendedProps.value.category) ==>
      ev.extendedProps.category == Some(DefaultCategory)
    ensures d.extendedProps.Some? ==> ev.extendedProps.weekMode == Some(d.extendedProps.value.weekMode.GetOr(Both))
  {
    var props := d.extendedProps.GetOr(Props(None, None));
    var category := if Truthy(props.category) then props.category.value else DefaultCategory;
    TaskEvent(freshId, d.title.value, d.location, d.start.value, d.end,
              Props(Some(category), Some(props.weekMode.GetOr(Both))))
  }

  datatype Outcome = Saved(events: seq<TaskEvent>) | Rejected(reason: Rejection)

  /** `saveEvent`'s checks and its update of the event list; `freshId` stands for `uuidv4()`. */
  function Save(events: seq<TaskEvent>, d: Draft, freshId: string): (r: Outcome)
    ensures r == Rejected(MissingField) <==> !Truthy(d.title) || !Truthy(d.start)
    ensures r == Rejected(StartAfterEnd) <==>
      Truthy(d.title) && Truthy(d.start) && Truthy(d.end) && JsString.Less(d.end.value, d.start.value)
    ensures r.Saved? && Truthy(d.id) ==> r.events == Merge(events, d)
    ensures r.Saved? && !Truthy(d.id) ==> r.events == events + [Created(d, freshId)]
  {
    if !Truthy(d.title) || !Truthy(d.start) then Rejected(MissingField)
    else if Truthy(d.end) && JsString.Less(d.end.value, d.start.value) then Rejected(StartAfterEnd)
    else if Truthy(d.id) then Saved(Merge(events, d))
    else Saved(events + [Created(d, freshId)])
  }

  /** An accepted draft that has an end does not start after it. */
  lemma SavedStartsBeforeEnd(events: seq<TaskEvent>, d: Draft, freshId: string)
    requires Save(events, d, freshId).Saved?
    requires Truthy(d.end)
    ensures d.start.value == d.end.value || JsString.Less(d.start.value, d.end.value)
  {
    JsString.LessTrichotomy(d.start.value, d.end.value);
  }

  /** A new event is appended at the end; the existing events stay where they were. */
  lemma SaveAppends(events: seq<TaskEvent>, d: Draft, freshId: string)
    requires Save(events, d, freshId).Saved? && !Truthy(d.id)
    ensures |Save(events, d, freshId).events| == |events| + 1
    ensures Save(events, d, freshId).events[..|events|] == events
    ensures Save(events, d, freshId).events[|events|].id == freshId
  {
    assert (events + [Created(d, freshId)])[..|events|] == events;
  }

  /** `deleteEvent`'s updater: drop every event with the id; the rest keep their order. */
  function RemoveEvent(events: seq<TaskEvent>, id: string): (r: seq<TaskEvent>)
    ensures forall ev :: ev in r <==> ev in events && ev.id != id
    ensures forall ev: TaskEvent :: ev.id != id ==> multiset(r)[ev] == multiset(events)[ev]
    ensures Subseq(r, events)
  {
    var r := Filter(events, EventIdIsNot(id));
    forall ev: TaskEvent | ev.id != id
      ensures multiset(r)[ev] == multiset(events)[ev]
    {
      FilterMultiset(events, EventIdIsNot(id), ev);
    }
    r
  }

  /** The schedule page's state. */
  class SchedulePage {
    var events: seq<TaskEvent>
    var isActivityModalOpen: bool
    var isSubjectModalOpen: bool
    var modalData: Draft

    constructor ()
      ensures events == [] && modalData == EmptyDraft
      ensures !isActivityModalOpen && !isSubjectModalOpen
    {
      events := [];
      isActivityModalOpen, isSubjectModalOpen := false, false;
      modalData := EmptyDraft;
    }

    method OpenActivityModal(d: Draft)
      modifies this`modalData, this`isActivityModalOpen
      ensures modalData == d && isActivityModalOpen
    {
      modalData := d;
      isActivityModalOpen := true;
    }

    method OpenSubjectModal()
      modifies this`modalData, this`isSubjectModalOpen
      ensures modalData == EmptyDraft && isSubjectModalOpen
    {
      modalData := EmptyDraft;
      isSubjectModalOpen := true;
    }

    method CloseModals()
      modifies this`modalData, this`isActivityModalOpen, this`isSubjectModalOpen
      ensures modalData == EmptyDraft && !isActivityModalOpen && !isSubjectModalOpen
    {
      modalData := EmptyDraft;
      isActivityModalOpen := false;
      isSubjectModalOpen := false;
    }

    /** `saveEvent`: a refused draft changes nothing; a saved one updates the list and closes the modals. */
    method SaveEvent(freshId: string) returns (r: Outcome)
      modifies this
      ensures r == Save(old(events), old(modalData), freshId)
      ensures r.Rejected? ==>
        && events == old(events) && modalData == old(modalData)
        && isActivityModalOpen == old(isActivityModalOpen) && isSubjectModalOpen == old(isSubjectModalOpen)
      ensures r.Saved? ==>
        events == r.events && modalData == EmptyDraft && !isActivityModalOpen && !isSubjectModalOpen
    {
      r := Save(events, modalData, freshId);
      if r.Rejected? {
        return;
      }
      events := r.events;
      CloseModals();
    }

    /** `deleteEvent`; `confirmed` is the answer to the confirmation dialog. */
    method DeleteEvent(id: string, confirmed: bool)
      modifies this`events
      ensures events == if confirmed then RemoveEvent(old(events), id) else old(events)
    {
      if confirmed {
        events := RemoveEvent(events, id);
      }
    }
  }
}
