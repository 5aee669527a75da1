/**
 * `MemStorage`: the in-memory store with four maps, used by the seeding
 * script. It has no weekly patterns. Its getters sort newest first, except
 * for the slots, which are sorted by date (all of them) or by start time
 * (one day's).
 */
module MemStore {
  import opened Js
  import opened Calendar
  import opened Schema
  import opened Ordering
  import opened Tables
  import opened Rows

  /** Everything the store holds, as one value. */
  datatype MemTables = MemTables(
    contacts: map<Id, Contact>,
    bookings: map<Id, BookingRequest>,
    availabilitySlots: map<Id, AvailabilitySlot>,
    bookingSlots: map<Id, BookingSlot>,
    nextId: Id)

  class MemStorage {
    var contacts: map<Id, Contact>
    var bookings: map<Id, BookingRequest>
    var availabilitySlots: map<Id, AvailabilitySlot>
    var bookingSlots: map<Id, BookingSlot>
    var nextId: Id

    ghost function State(): MemTables
      reads this
    {
      MemTables(contacts, bookings, availabilitySlots, bookingSlots, nextId)
    }

    /** Rows live under their own ids, and the counter is past every id. */
    ghost predicate Valid()
      reads this
    {
      && IdsAreKeys(contacts, ContactId) && Below(contacts, nextId)
      && IdsAreKeys(bookings, BookingRequestId) && Below(bookings, nextId)
      && IdsAreKeys(availabilitySlots, SlotId) && Below(availabilitySlots, nextId)
      && IdsAreKeys(bookingSlots, BookingId) && Below(bookingSlots, nextId)
    }

    constructor()
      ensures Valid()
      ensures State() == MemTables(map[], map[], map[], map[], 0)
    {
      contacts := map[];
      bookings := map[];
      availabilitySlots := map[];
      bookingSlots := map[];
      nextId := 0;
    }

    method CreateContact(ins: InsertContact, now: int) returns (c: Contact)
      requires Valid()
      modifies this
      ensures Valid()
      ensures c == ContactRow(ins, old(nextId), now)
      ensures State() == old(State()).(contacts := old(contacts)[c.id := c], nextId := old(nextId) + 1)
    {
      c := ContactRow(ins, nextId, now);
      contacts := contacts[c.id := c];
      nextId := nextId + 1;
    }

    /** Every submission, newest first. */
    method GetAllContacts() returns (r: seq<Contact>)
      requires Valid()
      ensures SortedBy(r, ContactNewestFirst)
      ensures forall x :: x in r <==> x in contacts.Values
      ensures Distinct(r)
    {
      r := SelectSorted(contacts, (c: Contact) => true, ContactNewestFirst, ContactId);
    }

    method CreateBooking(ins: InsertBooking, now: int) returns (b: BookingRequest)
      requires Valid()
      modifies this
      ensures Valid()
      ensures b == BookingRequestRow(ins, old(nextId), now)
      ensures State() == old(State()).(bookings := old(bookings)[b.id := b], nextId := old(nextId) + 1)
    {
      b := BookingRequestRow(ins, nextId, now);
      bookings := bookings[b.id := b];
      nextId := nextId + 1;
    }

    /** Every simple booking request, newest first. */
    method GetAllBookings() returns (r: seq<BookingRequest>)
      requires Valid()
      ensures SortedBy(r, RequestNewestFirst)
      ensures forall x :: x in r <==> x in bookings.Values
      ensures Distinct(r)
    {
      r := SelectSorted(bookings, (b: BookingRequest) => true, RequestNewestFirst, BookingRequestId);
    }

    /** Adds exactly one key: the new slot, always active. */
    method CreateAvailabilitySlot(ins: InsertAvailabilitySlot, now: int) returns (s: AvailabilitySlot)
      requires Valid()
      modifies this
      ensures Valid()
      ensures s == MemSlotRow(ins, old(nextId), now)
      ensures old(nextId) !in old(availabilitySlots)
      ensures State() == old(State()).(availabilitySlots := old(availabilitySlots)[s.id := s], nextId := old(nextId) + 1)
    {
      s := MemSlotRow(ins, nextId, now);
      availabilitySlots := availabilitySlots[s.id := s];
      nextId := nextId + 1;
    }

    /** Every slot, by date. */
    method GetAllAvailabilitySlots() returns (r: seq<AvailabilitySlot>)
      requires Valid()
      ensures SortedBy(r, SlotDateOrder)
      ensures forall x :: x in r <==> x in availabilitySlots.Values
      ensures Distinct(r)
    {
      r := SelectSorted(availabilitySlots, (s: AvailabilitySlot) => true, SlotDateOrder, SlotId);
    }

    /** The active slots of one day, by start time. */
    method GetAvailabilitySlotsByDate(date: Day) returns (r: seq<AvailabilitySlot>)
      requires Valid()
      ensures SortedBy(r, SlotStartOrder)
      ensures forall x :: x in r <==> x in availabilitySlots.Values && x.date == date && x.isActive == "true"
      ensures Distinct(r)
    {
      r := SelectSorted(availabilitySlots, (s: AvailabilitySlot) => s.date == date && s.isActive == "true",
        SlotStartOrder, SlotId);
    }

    /** Only key `id` changes; a missing id is an error that changes nothing. */
    method UpdateAvailabilitySlot(id: Id, u: SlotUpdates, now: int) returns (r: Result<AvailabilitySlot>)
      requires Valid()
      modifies this
      ensures Valid()
      ensures id !in old(availabilitySlots) ==> r == Err(AvailabilitySlotNotFound) && State() == old(State())
      ensures id in old(availabilitySlots) ==>
        && r == Ok(MergeSlot(old(availabilitySlots)[id], u, now))
        && State() == old(State()).(availabilitySlots := old(availabilitySlots)[id := r.value])
    {
      if id !in availabilitySlots {
        return Err(AvailabilitySlotNotFound);
      }
      var s := MergeSlot(availabilitySlots[id], u, now);
      availabilitySlots := availabilitySlots[id := s];
      r := Ok(s);
    }

    /** Removes key `id`; an absent id changes nothing. */
    method DeleteAvailabilitySlot(id: Id)
      requires Valid()
      modifies this
      ensures Valid()
      ensures State() == old(State()).(availabilitySlots := old(availabilitySlots) - {id})
      ensures id !in old(availabilitySlots) ==> State() == old(State())
    {
      availabilitySlots := availabilitySlots - {id};
    }

    method CreateBookingSlot(ins: InsertBookingSlot, now: int) returns (b: BookingSlot)
      requires Valid()
      modifies this
      ensures Valid()
      ensures b == BookingRow(ins, old(nextId), now)
      ensures State() == old(State()).(bookingSlots := old(bookingSlots)[b.id := b], nextId := old(nextId) + 1)
    {
      b := BookingRow(ins, nextId, now);
      bookingSlots := bookingSlots[b.id := b];
      nextId := nextId + 1;
    }

    /** Every booking, newest first. */
    method GetAllBookingSlots() returns (r: seq<BookingSlot>)
      requires Valid()
      ensures SortedBy(r, BookingNewestFirst)
      ensures forall x :: x in r <==> x in bookingSlots.Values
      ensures Distinct(r)
    {
      r := SelectSorted(bookingSlots, (b: BookingSlot) => true, BookingNewestFirst, BookingId);
    }

    /** The bookings of one slot, newest first. */
    method GetBookingSlotsBySlotId(slotId: Id) returns (r: seq<BookingSlot>)
      requires Valid()
      ensures SortedBy(r, BookingNewestFirst)
      ensures forall x :: x in r <==> x in bookingSlots.Values && x.slotId == slotId
      ensures Distinct(r)
    {
      r := SelectSorted(bookingSlots, (b: BookingSlot) => b.slotId == slotId, BookingNewestFirst, BookingId);
    }

    method UpdateBookingSlot(id: Id, u: BookingUpdates, now: int) returns (r: Result<BookingSlot>)
      requires Valid()
      modifies this
      ensures Valid()
      ensures id !in old(bookingSlots) ==> r == Err(BookingSlotNotFound) && State() == old(State())
      ensures id in old(bookingSlots) ==>
        && r == Ok(MergeBooking(old(bookingSlots)[id], u, now))
        && State() == old(State()).(bookingSlots := old(bookingSlots)[id := r.value])
    {
      if id !in bookingSlots {
        return Err(BookingSlotNotFound);
      }
      var b := MergeBooking(bookingSlots[id], u, now);
      bookingSlots := bookingSlots[id := b];
      r := Ok(b);
    }
  }

  /** Creating then deleting a slot gives the table back; only the counter has moved. */
  lemma CreateThenDelete(slots: map<Id, AvailabilitySlot>, n: Id, ins: InsertAvailabilitySlot, now: int)
    requires Below(slots, n)
    ensures slots[n := MemSlotRow(ins, n, now)] - {n} == slots
  {
    assert n !in slots;
  }
}
