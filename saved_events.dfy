// The saved-events grid on the client: unsaving an event drops it from the
// grid and from the saved ids at once; saving and failures change nothing.

module SavedEventsClient {

  import opened Types
  import opened Seqs
  import opened EventActions

  /** The saved ids without the given event's id. */
  function DropId(ids: seq<Id>, eventId: Id): seq<Id>
  {
    Filter(ids, (id: Id) => id != eventId)
  }

  /** The saved events without the one of the given id. */
  function DropEvent(events: seq<EventWithStats>, eventId: Id): seq<EventWithStats>
  {
    Filter(events, (e: EventWithStats) => e.event.id != eventId)
  }

  /** Dropping an event from the grid drops its id from the grid's ids, and keeps the other ids in order. */
  lemma {:induction false} DropKeepsIds(events: seq<EventWithStats>, eventId: Id)
    ensures EventIds(DropEvent(events, eventId)) == DropId(EventIds(events), eventId)
    decreases |events|
  {
    if events != [] {
      var ids := EventIds(events);
      DropKeepsIds(events[1..], eventId);
      assert ids[1..] == EventIds(events[1..]);
      if events[0].event.id != eventId {
        assert DropEvent(events, eventId) == [events[0]] + DropEvent(events[1..], eventId);
        assert DropId(ids, eventId) == [ids[0]] + DropId(ids[1..], eventId);
      } else {
        assert DropEvent(events, eventId) == DropEvent(events[1..], eventId);
        assert DropId(ids, eventId) == DropId(ids[1..], eventId);
      }
    }
  }

  /** An unsaved id is gone from both lists; the others stay in order. */
  lemma DropSpec(events: seq<EventWithStats>, ids: seq<Id>, eventId: Id)
    ensures eventId !in DropId(ids, eventId) && IsSubsequence(DropId(ids, eventId), ids)
    ensures forall e :: e in DropEvent(events, eventId) <==> e in events && e.event.id != eventId
    ensures IsSubsequence(DropEvent(events, eventId), events)
  {
    FilterMembers(ids, (id: Id) => id != eventId);
    FilterMembers(events, (e: EventWithStats) => e.event.id != eventId);
    FilterIsSubsequence(ids, (id: Id) => id != eventId);
    FilterIsSubsequence(events, (e: EventWithStats) => e.event.id != eventId);
  }

  /** The two lists of the grid. */
  class SavedGrid {
    var savedEventIds: seq<Id>
    var visibleEvents: seq<EventWithStats>

    /** The grid shows exactly the saved events, in the order of the saved ids. */
    predicate Valid()
      reads this
    {
      EventIds(visibleEvents) == savedEventIds
    }

    constructor (events: seq<EventWithStats>, initialIds: seq<Id>)
      ensures savedEventIds == initialIds && visibleEvents == events
      ensures EventIds(events) == initialIds ==> Valid()
    {
      savedEventIds := initialIds;
      visibleEvents := events;
    }

    /** handleToggleSave after salvaEvento answered `result`. */
    method HandleToggleSave(eventId: Id, result: ActionResult)
      modifies this
      ensures result == Toggled(false) ==>
                savedEventIds == DropId(old(savedEventIds), eventId) && visibleEvents == DropEvent(old(visibleEvents), eventId)
      ensures result != Toggled(false) ==> savedEventIds == old(savedEventIds) && visibleEvents == old(visibleEvents)
      ensures old(Valid()) ==> Valid()
    {
      if result.Toggled? && !result.saved {
        DropKeepsIds(visibleEvents, eventId);
        savedEventIds := DropId(savedEventIds, eventId);
        visibleEvents := DropEvent(visibleEvents, eventId);
      }
    }

    /** Whether a card shows the filled bookmark. */
    predicate IsSaved(eventId: Id)
      reads this
    {
      eventId in savedEventIds
    }
  }
}
