/**
 * The HTTP handlers of the booking engine, over the database store: the
 * availability listing of one day, the admission of a booking, the expansion
 * that follows every change to a pattern, and the status code each kind of
 * error is answered with. A handler's reply is its status code and the row
 * it returns, if any.
 */
module Routes {
  import opened Js
  import opened Calendar
  import opened Schema
  import opened Ordering
  import opened Tables
  import opened Rows
  import opened Expansion
  import opened Availability
  import opened DbStorage

  /** What a handler catches: a validation failure, or an error with a message. */
  datatype Thrown = ZodError | Error(message: string)

  datatype Route =
    | PostContact | PostBooking | PostAvailabilitySlot | PostBookingSlot | PostRecurringSlot
    | PutAvailabilitySlot | PutBookingSlot | PutRecurringSlot
    | GetRoute | DeleteRoute | GenerateRoute

  /** The routes that validate their body and answer a validation failure with 400. */
  predicate Validates(r: Route) {
    r.PostContact? || r.PostBooking? || r.PostAvailabilitySlot? || r.PostBookingSlot? || r.PostRecurringSlot?
  }

  /** The message an update route answers with 404. */
  function NotFoundMessage(r: Route): Option<string> {
    match r
    case PutAvailabilitySlot => Some(AvailabilitySlotNotFound)
    case PutBookingSlot => Some(BookingSlotNotFound)
    case PutRecurringSlot => Some(RecurringSlotNotFound)
    case _ => None
  }

  /** The status of the catch block of route `r` for error `e`. */
  function ErrorStatus(r: Route, e: Thrown): int {
    if Validates(r) && e.ZodError? then 400
    else if e.Error? && NotFoundMessage(r) == Some(e.message) then 404
    else 500
  }

  lemma ErrorStatusCases(r: Route, e: Thrown)
    ensures ErrorStatus(r, e) in {400, 404, 500}
    ensures ErrorStatus(r, e) == 400 <==> Validates(r) && e == ZodError
    ensures ErrorStatus(r, e) == 404 <==> NotFoundMessage(r).Some? && e == Error(NotFoundMessage(r).value)
  {
  }

  /** The store's not-found errors are the very messages the update routes test for. */
  lemma NotFoundErrorsAre404()
    ensures ErrorStatus(Route.PutAvailabilitySlot, Error(AvailabilitySlotNotFound)) == 404
    ensures ErrorStatus(Route.PutBookingSlot, Error(BookingSlotNotFound)) == 404
    ensures ErrorStatus(Route.PutRecurringSlot, Error(RecurringSlotNotFound)) == 404
    ensures ErrorStatus(Route.PutBookingSlot, Error(AvailabilitySlotNotFound)) == 500
    ensures ErrorStatus(Route.PutAvailabilitySlot, ZodError) == 500
    ensures ErrorStatus(Route.PostBookingSlot, Error(BookingSlotNotFound)) == 500
  {
  }

  /** The slots of an annotated listing. */
  function SlotsOf(r: seq<AnnotatedSlot>): (s: seq<AvailabilitySlot>)
    ensures |s| == |r| && forall i :: 0 <= i < |r| ==> s[i] == r[i].slot
  {
    if r == [] then [] else [r[0].slot] + SlotsOf(r[1..])
  }

  /** One slot with its places, from the listing of its bookings. */
  method AnnotateFromStore(store: DatabaseStorage, s: AvailabilitySlot) returns (a: AnnotatedSlot)
    requires store.Valid()
    ensures a == Annotate(s, |ActiveBookings(store.bookings, s.id)|)
  {
    var bs := store.GetBookingSlotsBySlotId(s.id);
    ListedActiveCount(store.bookings, bs, s.id);
    a := Annotate(s, |Filter(bs, Active)|);
  }

  /**
   * `GET /api/availability-slots/:date`: the day's active slots by start
   * time, each with its places computed from its bookings.
   */
  method GetAvailabilityByDate(store: DatabaseStorage, date: Day) returns (r: seq<AnnotatedSlot>)
    requires store.Valid()
    ensures SortedBy(SlotsOf(r), SlotStartOrder) && Distinct(SlotsOf(r))
    ensures forall x :: x in SlotsOf(r) <==> x in store.availabilitySlots.Values && x.date == date && x.isActive == "true"
    ensures forall i :: 0 <= i < |r| ==> r[i] == Annotate(r[i].slot, |ActiveBookings(store.bookings, r[i].slot.id)|)
  {
    var slots := store.GetAvailabilitySlotsByDate(date);
    r := [];
    var i := 0;
    while i < |slots|
      invariant 0 <= i <= |slots| && |r| == i
      invariant forall j :: 0 <= j < i ==> r[j].slot == slots[j]
      invariant forall j :: 0 <= j < i ==> r[j] == Annotate(r[j].slot, |ActiveBookings(store.bookings, r[j].slot.id)|)
    {
      var a := AnnotateFromStore(store, slots[i]);
      assert a.slot == slots[i];
      r := r + [a];
      i := i + 1;
    }
    assert SlotsOf(r) == slots;
  }

  /**
   * `POST /api/booking-slots`: validate, refuse when the slot already has a
   * booking that is not cancelled, otherwise create exactly one booking.
   * Whether the slot exists is not checked.
   */
  method PostBookingSlot(store: DatabaseStorage, ins: InsertBookingSlot, emailAccepted: bool, now: int)
    returns (status: int, created: Option<BookingSlot>)
    requires store.Valid()
    modifies store
    ensures store.Valid()
    ensures status == 200 || status == 400
    ensures status == 200 <==> ValidBookingSlotInput(ins, emailAccepted) && |ActiveBookings(old(store.bookings), ins.slotId)| == 0
    ensures status == 200 ==>
      && created == Some(BookingRow(ins, old(store.nextId), now))
      && store.State() == old(store.State()).(bookings := old(store.bookings)[old(store.nextId) := created.value],
                                              nextId := old(store.nextId) + 1)
    ensures status != 200 ==> created == None && store.State() == old(store.State())
  {
    if !ValidBookingSlotInput(ins, emailAccepted) {
      return ErrorStatus(Route.PostBookingSlot, ZodError), None;
    }
    var existing := store.GetBookingSlotsBySlotId(ins.slotId);
    var active := Filter(existing, Active);
    ListedActiveCount(store.bookings, existing, ins.slotId);
    if !Admits(|active|) {
      return 400, None;
    }
    var b := store.CreateBookingSlot(ins, now);
    return 200, Some(b);
  }

  /** `POST /api/availability-slots`: validate, then create. */
  method PostAvailabilitySlot(store: DatabaseStorage, ins: InsertAvailabilitySlot, dateText: string, now: int)
    returns (status: int, created: Option<AvailabilitySlot>)
    requires store.Valid()
    modifies store
    ensures store.Valid()
    ensures status == 200 <==> IsDateText(dateText) && ValidAvailabilitySlotInput(ins)
    ensures status == 200 ==>
      && created == Some(DbSlotRow(ins, old(store.nextId), now))
      && store.State() == old(store.State()).(availabilitySlots := old(store.availabilitySlots)[old(store.nextId) := created.value],
                                              nextId := old(store.nextId) + 1)
    ensures status != 200 ==> status == 400 && created == None && store.State() == old(store.State())
  {
    if !(IsDateText(dateText) && ValidAvailabilitySlotInput(ins)) {
      return ErrorStatus(Route.PostAvailabilitySlot, ZodError), None;
    }
    var s := store.CreateAvailabilitySlot(ins, now);
    return 200, Some(s);
  }

  /**
   * `POST /api/recurring-slots`: validate, create the pattern, then run one
   * expansion before answering. `validFromText` and `validUntilText` are the
   * request's date texts, whose shape the schema checks; `ins` carries them
   * as days.
   */
  method PostRecurringSlot(store: DatabaseStorage, ins: InsertRecurringSlot, validFromText: string,
                           validUntilText: Option<string>, today: Day, now: int)
    returns (status: int, created: Option<RecurringSlot>)
    requires store.Valid()
    modifies store
    ensures store.Valid()
    ensures status == 200 <==>
      && IsDateText(validFromText)
      && (validUntilText == None || IsDateText(validUntilText.value))
      && ValidRecurringSlotInput(ins)
    ensures status != 200 ==> status == 400 && created == None && store.State() == old(store.State())
    ensures status == 200 ==>
      && created == Some(RecurringRow(ins, old(store.nextId), now))
      && store.recurringSlots == old(store.recurringSlots)[old(store.nextId) := created.value]
      && store.contacts == old(store.contacts) && store.bookings == old(store.bookings)
      && Grows(old(Gen(store.availabilitySlots, store.nextId)), Gen(store.availabilitySlots, store.nextId))
      && NoNewDuplicates(old(Gen(store.availabilitySlots, store.nextId)), Gen(store.availabilitySlots, store.nextId))
      && Sound(old(Gen(store.availabilitySlots, store.nextId)), Gen(store.availabilitySlots, store.nextId),
               Patterns(store.recurringSlots), today, now)
      && Covered(store.availabilitySlots, Patterns(store.recurringSlots), today)
  {
    if !(IsDateText(validFromText) && (validUntilText == None || IsDateText(validUntilText.value))
         && ValidRecurringSlotInput(ins)) {
      return ErrorStatus(Route.PostRecurringSlot, ZodError), None;
    }
    ghost var g0 := Gen(store.availabilitySlots, store.nextId);
    var p := store.CreateRecurringSlot(ins, now);
    ghost var g1 := Gen(store.availabilitySlots, store.nextId);
    store.GenerateAvailabilitySlotsFromRecurring(today, now);
    GrowsTrans(g0, g1, Gen(store.availabilitySlots, store.nextId));
    return 200, Some(p);
  }

  /**
   * `PUT /api/recurring-slots/:id`: update the pattern, then run one
   * expansion; a missing pattern is answered with 404 before any expansion.
   * Slots generated from the old version of the pattern stay.
   */
  method PutRecurringSlot(store: DatabaseStorage, id: Id, u: RecurringUpdates, today: Day, now: int)
    returns (status: int, updated: Option<RecurringSlot>)
    requires store.Valid()
    modifies store
    ensures store.Valid()
    ensures status == 404 <==> id !in old(store.recurringSlots)
    ensures status == 404 ==> updated == None && store.State() == old(store.State())
    ensures status != 404 ==>
      && status == 200
      && updated == Some(MergeRecurring(old(store.recurringSlots)[id], u, now))
      && store.recurringSlots == old(store.recurringSlots)[id := updated.value]
      && store.contacts == old(store.contacts) && store.bookings == old(store.bookings)
      && Grows(old(Gen(store.availabilitySlots, store.nextId)), Gen(store.availabilitySlots, store.nextId))
      && NoNewDuplicates(old(Gen(store.availabilitySlots, store.nextId)), Gen(store.availabilitySlots, store.nextId))
      && Sound(old(Gen(store.availabilitySlots, store.nextId)), Gen(store.availabilitySlots, store.nextId),
               Patterns(store.recurringSlots), today, now)
      && Covered(store.availabilitySlots, Patterns(store.recurringSlots), today)
  {
    var r := store.UpdateRecurringSlot(id, u, now);
    if r.Err? {
      return ErrorStatus(Route.PutRecurringSlot, Error(r.message)), None;
    }
    store.GenerateAvailabilitySlotsFromRecurring(today, now);
    return 200, Some(r.value);
  }

  /** `PUT /api/availability-slots/:id`. */
  method PutAvailabilitySlot(store: DatabaseStorage, id: Id, u: SlotUpdates, now: int)
    returns (status: int, updated: Option<AvailabilitySlot>)
    requires store.Valid()
    modifies store
    ensures store.Valid()
    ensures status == 404 <==> id !in old(store.availabilitySlots)
    ensures status == 404 ==> updated == None && store.State() == old(store.State())
    ensures status != 404 ==>
      && status == 200
      && updated == Some(MergeSlot(old(store.availabilitySlots)[id], u, now))
      && store.State() == old(store.State()).(availabilitySlots := old(store.availabilitySlots)[id := updated.value])
  {
    var r := store.UpdateAvailabilitySlot(id, u, now);
    if r.Err? {
      return ErrorStatus(Route.PutAvailabilitySlot, Error(r.message)), None;
    }
    return 200, Some(r.value);
  }

  /** `PUT /api/booking-slots/:id`: how the admin page changes a booking's status. */
  method PutBookingSlot(store: DatabaseStorage, id: Id, u: BookingUpdates, now: int)
    returns (status: int, updated: Option<BookingSlot>)
    requires store.Valid()
    modifies store
    ensures store.Valid()
    ensures status == 404 <==> id !in old(store.bookings)
    ensures status == 404 ==> updated == None && store.State() == old(store.State())
    ensures status != 404 ==>
      && status == 200
      && updated == Some(MergeBooking(old(store.bookings)[id], u, now))
      && store.State() == old(store.State()).(bookings := old(store.bookings)[id := updated.value])
  {
    var r := store.UpdateBookingSlot(id, u, now);
    if r.Err? {
      return ErrorStatus(Route.PutBookingSlot, Error(r.message)), None;
    }
    return 200, Some(r.value);
  }

  /** `DELETE /api/recurring-slots/:id`: the cascade, answered with 204 whether or not the pattern existed. */
  method DeleteRecurringSlot(store: DatabaseStorage, id: Id) returns (status: int)
    requires store.Valid()
    modifies store
    ensures store.Valid()
    ensures status == 204
    ensures store.State() == old(store.State()).(
      availabilitySlots := WithoutPattern(old(store.availabilitySlots), id),
      recurringSlots := old(store.recurringSlots) - {id})
  {
    store.DeleteRecurringSlot(id);
    return 204;
  }

  /** `POST /api/recurring-slots/generate`. */
  method Generate(store: DatabaseStorage, today: Day, now: int) returns (status: int)
    requires store.Valid()
    modifies store
    ensures store.Valid()
    ensures status == 200
    ensures store.contacts == old(store.contacts) && store.recurringSlots == old(store.recurringSlots)
    ensures store.bookings == old(store.bookings)
    ensures Grows(old(Gen(store.availabilitySlots, store.nextId)), Gen(store.availabilitySlots, store.nextId))
    ensures NoNewDuplicates(old(Gen(store.availabilitySlots, store.nextId)), Gen(store.availabilitySlots, store.nextId))
    ensures Sound(old(Gen(store.availabilitySlots, store.nextId)), Gen(store.availabilitySlots, store.nextId),
                  Patterns(store.recurringSlots), today, now)
    ensures Covered(store.availabilitySlots, Patterns(store.recurringSlots), today)
    ensures old(Covered(store.availabilitySlots, Patterns(store.recurringSlots), today)) ==>
              store.State() == old(store.State())
  {
    store.GenerateAvailabilitySlotsFromRecurring(today, now);
    return 200;
  }

  /**
   * Once a pattern is deleted, expansion does not bring its slots back:
   * the remaining patterns carry other ids.
   */
  lemma DeletedPatternStaysGone(slots: map<Id, AvailabilitySlot>, recurring: map<Id, RecurringSlot>,
                                nextId: Id, id: Id, ps: seq<RecurringSlot>, today: Day, now: int)
    requires IdsAreKeys(recurring, PatternId) && Below(slots, nextId)
    requires forall p :: p in ps <==> p in (recurring - {id}).Values
    ensures var g := Gen(WithoutPattern(slots, id), nextId);
      forall k :: k in ExpandAll(g, ps, today, now).slots ==> ExpandAll(g, ps, today, now).slots[k].recurringId != Some(id)
  {
    var g := Gen(WithoutPattern(slots, id), nextId);
    forall p | p in ps ensures p.id != id {
      var k :| k in recurring - {id} && (recurring - {id})[k] == p;
      assert PatternId(recurring[k]) == k;
    }
    NoSlotsForMissingPattern(g, ps, today, now, id);
    ExpandAllSpec(g, ps, today, now);
  }
}
