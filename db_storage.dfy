/**
 * `DatabaseStorage`: the store the HTTP routes use. Its four tables are maps
 * from id to row; `nextId` stands for the fresh ids `randomUUID` and
 * `gen_random_uuid()` hand out, so an id is never used twice. Every `now` is
 * the time the request is handled and every `today` the current day.
 */
module DbStorage {
  import opened Js
  import opened Calendar
  import opened Schema
  import opened Ordering
  import opened Tables
  import opened Rows
  import opened Expansion

  /** Everything the store holds, as one value. */
  datatype DbTables = DbTables(
    contacts: map<Id, Contact>,
    availabilitySlots: map<Id, AvailabilitySlot>,
    recurringSlots: map<Id, RecurringSlot>,
    bookings: map<Id, BookingSlot>,
    nextId: Id)

  /** The slots left after deleting pattern `id`'s slots: `delete ... where recurringId = id`. */
  function WithoutPattern(slots: map<Id, AvailabilitySlot>, id: Id): (r: map<Id, AvailabilitySlot>)
    ensures forall k :: k in r <==> k in slots && slots[k].recurringId != Some(id)
    ensures forall k :: k in r ==> r[k] == slots[k]
  {
    map k | k in slots && slots[k].recurringId != Some(id) :: slots[k]
  }

  /** The patterns whose slots are generated on the set of rows of a table. */
  ghost function Patterns(recurring: map<Id, RecurringSlot>): set<RecurringSlot> {
    recurring.Values
  }

  class DatabaseStorage {
    var contacts: map<Id, Contact>
    var availabilitySlots: map<Id, AvailabilitySlot>
    var recurringSlots: map<Id, RecurringSlot>
    var bookings: map<Id, BookingSlot>
    var nextId: Id

    ghost function State(): DbTables
      reads this
    {
      DbTables(contacts, availabilitySlots, recurringSlots, bookings, nextId)
    }

    /** Rows live under their own ids, and the counter is past every id. */
    ghost predicate Valid()
      reads this
    {
      && IdsAreKeys(contacts, ContactId) && Below(contacts, nextId)
      && IdsAreKeys(availabilitySlots, SlotId) && Below(availabilitySlots, nextId)
      && IdsAreKeys(recurringSlots, PatternId) && Below(recurringSlots, nextId)
      && IdsAreKeys(bookings, BookingId) && Below(bookings, nextId)
    }

    constructor()
      ensures Valid()
      ensures State() == DbTables(map[], map[], map[], map[], 0)
    {
      contacts := map[];
      availabilitySlots := map[];
      recurringSlots := map[];
      bookings := map[];
      nextId := 0;
    }

    // -------------------------------------------------------------------
    // Contact submissions, and the simple booking requests stored with them.
    // -------------------------------------------------------------------

    method CreateContact(ins: InsertContact, now: int) returns (c: Contact)
      requires Valid()
      modifies this
      ensures Valid()
      ensures c == ContactRow(ins, old(nextId), now)
      ensures State() == old(State()).(contacts := old(contacts)[c.id := c], nextId := old(nextId) + 1)
    {
      c := ContactRow(ins, nextId, now);
      contacts := contacts[c.id := c];
      nextId := nextId + 1;
    }

    /** Every submission, oldest first. */
    method GetAllContacts() returns (r: seq<Contact>)
      requires Valid()
      ensures SortedBy(r, ContactOldestFirst)
      ensures forall x :: x in r <==> x in contacts.Values
      ensures Distinct(r)
    {
      r := SelectSorted(contacts, (c: Contact) => true, ContactOldestFirst, ContactId);
    }

    /** A simple booking request is written to the contact table. */
    method CreateBooking(ins: InsertBooking, now: int) returns (c: Contact)
      requires Valid()
      modifies this
      ensures Valid()
      ensures c == BookingRequestContact(ins, old(nextId), now)
      ensures State() == old(State()).(contacts := old(contacts)[c.id := c], nextId := old(nextId) + 1)
    {
      c := BookingRequestContact(ins, nextId, now);
      contacts := contacts[c.id := c];
      nextId := nextId + 1;
    }

    /** The same rows as `GetAllContacts`: booking requests are contact submissions here. */
    method GetAllBookings() returns (r: seq<Contact>)
      requires Valid()
      ensures SortedBy(r, ContactOldestFirst)
      ensures forall x :: x in r <==> x in contacts.Values
      ensures Distinct(r)
    {
      r := SelectSorted(contacts, (c: Contact) => true, ContactOldestFirst, ContactId);
    }

    // -------------------------------------------------------------------
    // Availability slots.
    // -------------------------------------------------------------------

    method CreateAvailabilitySlot(ins: InsertAvailabilitySlot, now: int) returns (s: AvailabilitySlot)
      requires Valid()
      modifies this
      ensures Valid()
      ensures s == DbSlotRow(ins, old(nextId), now)
      ensures State() == old(State()).(availabilitySlots := old(availabilitySlots)[s.id := s], nextId := old(nextId) + 1)
    {
      s := DbSlotRow(ins, nextId, now);
      availabilitySlots := availabilitySlots[s.id := s];
      nextId := nextId + 1;
    }

    /** Every slot, by date and then start time. */
    method GetAllAvailabilitySlots() returns (r: seq<AvailabilitySlot>)
      requires Valid()
      ensures SortedBy(r, SlotDateTimeOrder)
      ensures forall x :: x in r <==> x in availabilitySlots.Values
      ensures Distinct(r)
    {
      r := SelectSorted(availabilitySlots, (s: AvailabilitySlot) => true, SlotDateTimeOrder, SlotId);
    }

    /** The active slots of one day, by start time. */
    method GetAvailabilitySlotsByDate(date: Day) returns (r: seq<AvailabilitySlot>)
      requires Valid()
      ensures SortedBy(r, SlotStartOrder)
      ensures forall x :: x in r <==> x in availabilitySlots.Values && x.date == date && x.isActive == "true"
      ensures Distinct(r)
    {
      r := SelectSorted(availabilitySlots, (s: AvailabilitySlot) => s.date == date && s.isActive == "true",
        SlotStartOrder, SlotId);
    }

    /** Overwrites the fields `u` sets and stamps the row; a missing id is an error that changes nothing. */
    method UpdateAvailabilitySlot(id: Id, u: SlotUpdates, now: int) returns (r: Result<AvailabilitySlot>)
      requires Valid()
      modifies this
      ensures Valid()
      ensures id !in old(availabilitySlots) ==> r == Err(AvailabilitySlotNotFound) && State() == old(State())
      ensures id in old(availabilitySlots) ==>
        && r == Ok(MergeSlot(old(availabilitySlots)[id], u, now))
        && State() == old(State()).(availabilitySlots := old(availabilitySlots)[id := r.value])
    {
      if id !in availabilitySlots {
        return Err(AvailabilitySlotNotFound);
      }
      var s := MergeSlot(availabilitySlots[id], u, now);
      availabilitySlots := availabilitySlots[id := s];
      r := Ok(s);
    }

    /** Removes the slot if it is there; the bookings of the slot stay. */
    method DeleteAvailabilitySlot(id: Id)
      requires Valid()
      modifies this
      ensures Valid()
      ensures State() == old(State()).(availabilitySlots := old(availabilitySlots) - {id})
    {
      availabilitySlots := availabilitySlots - {id};
    }

    // -------------------------------------------------------------------
    // Bookings of slots.
    // -------------------------------------------------------------------

    method CreateBookingSlot(ins: InsertBookingSlot, now: int) returns (b: BookingSlot)
      requires Valid()
      modifies this
      ensures Valid()
      ensures b == BookingRow(ins, old(nextId), now)
      ensures State() == old(State()).(bookings := old(bookings)[b.id := b], nextId := old(nextId) + 1)
    {
      b := BookingRow(ins, nextId, now);
      bookings := bookings[b.id := b];
      nextId := nextId + 1;
    }

    /** Every booking, oldest first. */
    method GetAllBookingSlots() returns (r: seq<BookingSlot>)
      requires Valid()
      ensures SortedBy(r, BookingOldestFirst)
      ensures forall x :: x in r <==> x in bookings.Values
      ensures Distinct(r)
    {
      r := SelectSorted(bookings, (b: BookingSlot) => true, BookingOldestFirst, BookingId);
    }

    /** The bookings of one slot, oldest first, whatever their status. */
    method GetBookingSlotsBySlotId(slotId: Id) returns (r: seq<BookingSlot>)
      requires Valid()
      ensures SortedBy(r, BookingOldestFirst)
      ensures forall x :: x in r <==> x in bookings.Values && x.slotId == slotId
      ensures Distinct(r)
    {
      r := SelectSorted(bookings, (b: BookingSlot) => b.slotId == slotId, BookingOldestFirst, BookingId);
    }

    method UpdateBookingSlot(id: Id, u: BookingUpdates, now: int) returns (r: Result<BookingSlot>)
      requires Valid()
      modifies this
      ensures Valid()
      ensures id !in old(bookings) ==> r == Err(BookingSlotNotFound) && State() == old(State())
      ensures id in old(bookings) ==>
        && r == Ok(MergeBooking(old(bookings)[id], u, now))
        && State() == old(State()).(bookings := old(bookings)[id := r.value])
    {
      if id !in bookings {
        return Err(BookingSlotNotFound);
      }
      var b := MergeBooking(bookings[id], u, now);
      bookings := bookings[id := b];
      r := Ok(b);
    }

    // -------------------------------------------------------------------
    // Weekly patterns.
    // -------------------------------------------------------------------

    method CreateRecurringSlot(ins: InsertRecurringSlot, now: int) returns (p: RecurringSlot)
      requires Valid()
      modifies this
      ensures Valid()
      ensures p == RecurringRow(ins, old(nextId), now)
      ensures State() == old(State()).(recurringSlots := old(recurringSlots)[p.id := p], nextId := old(nextId) + 1)
    {
      p := RecurringRow(ins, nextId, now);
      recurringSlots := recurringSlots[p.id := p];
      nextId := nextId + 1;
    }

    /** Every pattern, ordered by the text of its weekday. */
    method GetAllRecurringSlots() returns (r: seq<RecurringSlot>)
      requires Valid()
      ensures SortedBy(r, PatternDayOrder)
      ensures forall x :: x in r <==> x in recurringSlots.Values
      ensures Distinct(r)
    {
      r := SelectSorted(recurringSlots, (p: RecurringSlot) => true, PatternDayOrder, PatternId);
    }

    method UpdateRecurringSlot(id: Id, u: RecurringUpdates, now: int) returns (r: Result<RecurringSlot>)
      requires Valid()
      modifies this
      ensures Valid()
      ensures id !in old(recurringSlots) ==> r == Err(RecurringSlotNotFound) && State() == old(State())
      ensures id in old(recurringSlots) ==>
        && r == Ok(MergeRecurring(old(recurringSlots)[id], u, now))
        && State() == old(State()).(recurringSlots := old(recurringSlots)[id := r.value])
    {
      if id !in recurringSlots {
        return Err(RecurringSlotNotFound);
      }
      var p := MergeRecurring(recurringSlots[id], u, now);
      recurringSlots := recurringSlots[id := p];
      r := Ok(p);
    }

    /** Deletes the pattern's generated slots first, then the pattern. */
    method DeleteRecurringSlot(id: Id)
      requires Valid()
      modifies this
      ensures Valid()
      ensures State() == old(State()).(
        availabilitySlots := WithoutPattern(old(availabilitySlots), id),
        recurringSlots := old(recurringSlots) - {id})
      ensures forall k :: k in availabilitySlots ==> availabilitySlots[k].recurringId != Some(id)
    {
      availabilitySlots := WithoutPattern(availabilitySlots, id);
      recurringSlots := recurringSlots - {id};
    }

    /** The inner loop of the expansion: the days of one active pattern's window, in order. */
    method GenerateForPattern(p: RecurringSlot, today: Day, now: int)
      requires Valid() && p.isActive == "true"
      modifies this
      ensures Valid()
      ensures contacts == old(contacts) && recurringSlots == old(recurringSlots) && bookings == old(bookings)
      ensures Gen(availabilitySlots, nextId) == ExpandPattern(old(Gen(availabilitySlots, nextId)), p, today, now)
    {
      var end := WindowEnd(p, today);
      ghost var gp := Gen(availabilitySlots, nextId);
      var d := p.validFrom;
      while d <= end
        invariant p.validFrom <= d && (d <= end + 1 || d == p.validFrom)
        invariant Valid()
        invariant contacts == old(contacts) && recurringSlots == old(recurringSlots) && bookings == old(bookings)
        invariant Gen(availabilitySlots, nextId) == ExpandDays(gp, p, p.validFrom, d - 1, now)
        decreases end - d
      {
        if OnPatternDay(p, d) && !HasSlotFor(availabilitySlots, p, d) {
          var _ := CreateAvailabilitySlot(GeneratedInsert(p, d), now);
        }
        d := d + 1;
      }
    }

    /**
     * Expands every pattern over its window (see module `Expansion`). The
     * slots table ends up as `ExpandAll` of the old one over the patterns in
     * the order the pattern getter returns them; nothing else changes.
     */
    method GenerateAvailabilitySlotsFromRecurring(today: Day, now: int)
      requires Valid()
      modifies this
      ensures Valid()
      ensures contacts == old(contacts) && recurringSlots == old(recurringSlots) && bookings == old(bookings)
      ensures Grows(old(Gen(availabilitySlots, nextId)), Gen(availabilitySlots, nextId))
      ensures NoNewDuplicates(old(Gen(availabilitySlots, nextId)), Gen(availabilitySlots, nextId))
      ensures Sound(old(Gen(availabilitySlots, nextId)), Gen(availabilitySlots, nextId),
                    Patterns(recurringSlots), today, now)
      ensures Covered(availabilitySlots, Patterns(recurringSlots), today)
      ensures old(Covered(availabilitySlots, Patterns(recurringSlots), today)) ==>
                availabilitySlots == old(availabilitySlots) && nextId == old(nextId)
    {
      var ps := GetAllRecurringSlots();
      ghost var g0 := Gen(availabilitySlots, nextId);
      var i := 0;
      while i < |ps|
        invariant 0 <= i <= |ps|
        invariant Valid()
        invariant contacts == old(contacts) && recurringSlots == old(recurringSlots) && bookings == old(bookings)
        invariant Gen(availabilitySlots, nextId) == ExpandAll(g0, ps[..i], today, now)
      {
        var p := ps[i];
        assert ps[..i + 1][..i] == ps[..i];
        if p.isActive == "true" {
          GenerateForPattern(p, today, now);
        }
        i := i + 1;
      }
      assert ps[..|ps|] == ps;
      assert SetOf(ps) == Patterns(recurringSlots);
      ExpandAllSpec(g0, ps, today, now);
      if Covered(g0.slots, SetOf(ps), today) {
        ExpandAllNoop(g0, ps, today, now);
      }
    }
  }
}
