/**
 * The four tables of the booking engine, the insert records that request
 * bodies are parsed into, the partial updates the update endpoints accept,
 * the column defaults and the insert validators.
 *
 * Booleans and integers are stored as text, as the tables declare them:
 * `isActive` is "true" or "false", `maxBookings` and `dayOfWeek` are decimal
 * text. Timestamps are integers (milliseconds); dates are day numbers.
 */
module Schema {
  import opened Js
  import opened Calendar

  /** Row identifiers. Every store hands them out from one counter, so they are never reused. */
  type Id = nat

  datatype Option<T> = None | Some(value: T)

  /** What a store operation gives back: a value, or the message of the error it throws. */
  datatype Result<T> = Ok(value: T) | Err(message: string)

  // Column defaults and the status vocabulary.
  const DefaultIsActive := "true"
  const DefaultMaxBookings := "1"
  const Pending := "pending"
  const Confirmed := "confirmed"
  const Cancelled := "cancelled"
  const DefaultStatus := Pending

  // Messages of the errors the stores throw for a missing row.
  const AvailabilitySlotNotFound := "Availability slot not found"
  const BookingSlotNotFound := "Booking slot not found"
  const RecurringSlotNotFound := "Recurring slot not found"

  /** A row of `contact_submissions`. */
  datatype Contact = Contact(id: Id, name: string, email: string, message: string, createdAt: int)

  /** A row of `booking_requests`. */
  datatype BookingRequest = BookingRequest(id: Id, email: string, createdAt: int)

  /** A row of `availability_slots`: one dated, bookable slot. */
  datatype AvailabilitySlot = AvailabilitySlot(
    id: Id,
    date: Day,
    startTime: string,
    endTime: string,
    description: Option<string>,
    isActive: string,
    maxBookings: string,
    recurringId: Option<Id>,
    createdAt: int,
    updatedAt: int)

  /** A row of `recurring_slots`: a weekly pattern. */
  datatype RecurringSlot = RecurringSlot(
    id: Id,
    dayOfWeek: string,
    startTime: string,
    endTime: string,
    description: Option<string>,
    isActive: string,
    maxBookings: string,
    validFrom: Day,
    validUntil: Option<Day>,
    createdAt: int,
    updatedAt: int)

  /** A row of `bookings`: one reservation of a slot. */
  datatype BookingSlot = BookingSlot(
    id: Id,
    slotId: Id,
    customerName: string,
    customerEmail: string,
    customerPhone: Option<string>,
    status: string,
    notes: Option<string>,
    createdAt: int,
    updatedAt: int)

  datatype InsertContact = InsertContact(name: string, email: string, message: string)

  datatype InsertBooking = InsertBooking(email: string)

  datatype InsertAvailabilitySlot = InsertAvailabilitySlot(
    date: Day,
    startTime: string,
    endTime: string,
    description: Option<string>,
    isActive: Option<string>,
    maxBookings: Number,
    recurringId: Option<Id>)

  datatype InsertRecurringSlot = InsertRecurringSlot(
    dayOfWeek: int,
    startTime: string,
    endTime: string,
    description: Option<string>,
    maxBookings: int,
    validFrom: Day,
    validUntil: Option<Day>)

  datatype InsertBookingSlot = InsertBookingSlot(
    slotId: Id,
    customerName: string,
    customerEmail: string,
    customerPhone: Option<string>,
    notes: Option<string>)

  /** `x || null`: an absent or empty string becomes null. */
  function NullIfEmpty(s: Option<string>): (r: Option<string>)
    ensures r == None <==> (s == None || s == Some(""))
    ensures r != None ==> r == s
  {
    if s == Some("") then None else s
  }

  /** The row `insert(contactSubmissions).values(c)` writes: id and createdAt come from the column defaults. */
  function ContactRow(c: InsertContact, id: Id, now: int): Contact {
    Contact(id, c.name, c.email, c.message, now)
  }

  // ---------------------------------------------------------------------
  // Partial updates: `{ ...row, ...updates, updatedAt: now }`.
  // ---------------------------------------------------------------------

  /** One field of a partial update: left as it is, or overwritten. */
  datatype Patch<T> = Keep | Set(value: T)

  function Patched<T>(p: Patch<T>, v: T): T {
    match p
    case Keep => v
    case Set(x) => x
  }

  datatype SlotUpdates = SlotUpdates(
    date: Patch<Day>,
    startTime: Patch<string>,
    endTime: Patch<string>,
    description: Patch<Option<string>>,
    isActive: Patch<string>,
    maxBookings: Patch<string>,
    recurringId: Patch<Option<Id>>)

  datatype RecurringUpdates = RecurringUpdates(
    dayOfWeek: Patch<string>,
    startTime: Patch<string>,
    endTime: Patch<string>,
    description: Patch<Option<string>>,
    isActive: Patch<string>,
    maxBookings: Patch<string>,
    validFrom: Patch<Day>,
    validUntil: Patch<Option<Day>>)

  datatype BookingUpdates = BookingUpdates(
    slotId: Patch<Id>,
    customerName: Patch<string>,
    customerEmail: Patch<string>,
    customerPhone: Patch<Option<string>>,
    status: Patch<string>,
    notes: Patch<Option<string>>)

  const NoSlotUpdates := SlotUpdates(Keep, Keep, Keep, Keep, Keep, Keep, Keep)

  /** The body the admin sends to change a booking's status: `{ status }`. */
  function StatusUpdate(status: string): BookingUpdates {
    BookingUpdates(Keep, Keep, Keep, Keep, Set(status), Keep)
  }

  function MergeSlot(s: AvailabilitySlot, u: SlotUpdates, now: int): (r: AvailabilitySlot)
    ensures r.id == s.id && r.createdAt == s.createdAt && r.updatedAt == now
  {
    AvailabilitySlot(s.id, Patched(u.date, s.date), Patched(u.startTime, s.startTime),
      Patched(u.endTime, s.endTime), Patched(u.description, s.description),
      Patched(u.isActive, s.isActive), Patched(u.maxBookings, s.maxBookings),
      Patched(u.recurringId, s.recurringId), s.createdAt, now)
  }

  function MergeRecurring(p: RecurringSlot, u: RecurringUpdates, now: int): (r: RecurringSlot)
    ensures r.id == p.id && r.createdAt == p.createdAt && r.updatedAt == now
  {
    RecurringSlot(p.id, Patched(u.dayOfWeek, p.dayOfWeek), Patched(u.startTime, p.startTime),
      Patched(u.endTime, p.endTime), Patched(u.description, p.description),
      Patched(u.isActive, p.isActive), Patched(u.maxBookings, p.maxBookings),
      Patched(u.validFrom, p.validFrom), Patched(u.validUntil, p.validUntil), p.createdAt, now)
  }

  function MergeBooking(b: BookingSlot, u: BookingUpdates, now: int): (r: BookingSlot)
    ensures r.id == b.id && r.createdAt == b.createdAt && r.updatedAt == now
  {
    BookingSlot(b.id, Patched(u.slotId, b.slotId), Patched(u.customerName, b.customerName),
      Patched(u.customerEmail, b.customerEmail), Patched(u.customerPhone, b.customerPhone),
      Patched(u.status, b.status), Patched(u.notes, b.notes), b.createdAt, now)
  }

  /** An empty update only stamps `updatedAt`. */
  lemma MergeSlotEmpty(s: AvailabilitySlot, now: int)
    ensures MergeSlot(s, NoSlotUpdates, now) == s.(updatedAt := now)
  {
  }

  /** Sending the same update twice leaves the row as one sending does, up to the stamp. */
  lemma MergeIdempotent(s: AvailabilitySlot, p: RecurringSlot, b: BookingSlot,
                        us: SlotUpdates, up: RecurringUpdates, ub: BookingUpdates, t1: int, t2: int)
    ensures MergeSlot(MergeSlot(s, us, t1), us, t2) == MergeSlot(s, us, t2)
    ensures MergeRecurring(MergeRecurring(p, up, t1), up, t2) == MergeRecurring(p, up, t2)
    ensures MergeBooking(MergeBooking(b, ub, t1), ub, t2) == MergeBooking(b, ub, t2)
  {
  }

  /** A status change touches the status and the stamp and nothing else. */
  lemma StatusUpdateOnlyStatus(b: BookingSlot, status: string, now: int)
    ensures MergeBooking(b, StatusUpdate(status), now) == b.(status := status, updatedAt := now)
  {
  }

  // ---------------------------------------------------------------------
  // Insert validators (the zod schemas).
  // ---------------------------------------------------------------------

  /** `/^\d{4}-\d{2}-\d{2}$/`: the shape of a date, nothing about the calendar. */
  predicate IsDateText(s: string) {
    |s| == 10 && s[4] == '-' && s[7] == '-'
    && AllDigits(s[..4]) && AllDigits(s[5..7]) && AllDigits(s[8..])
  }

  /** `/^\d{2}:\d{2}$/`: the shape of a time of day, nothing about its range. */
  predicate IsTimeText(s: string) {
    |s| == 5 && s[2] == ':' && AllDigits(s[..2]) && AllDigits(s[3..])
  }

  predicate IsActiveFlag(o: Option<string>) {
    o == None || o == Some("true") || o == Some("false")
  }

  /**
   * `insertAvailabilitySlotSchema`. The date is a day number here, so its
   * text check is `IsDateText` on its own; `maxBookings` must be a number >= 1.
   */
  predicate ValidAvailabilitySlotInput(b: InsertAvailabilitySlot) {
    && IsTimeText(b.startTime)
    && IsTimeText(b.endTime)
    && IsActiveFlag(b.isActive)
    && b.maxBookings.Finite? && b.maxBookings.value >= 1
  }

  /** `insertRecurringSlotSchema`: weekday 0..6, two well-shaped times, capacity >= 1. */
  predicate ValidRecurringSlotInput(b: InsertRecurringSlot) {
    && 0 <= b.dayOfWeek <= 6
    && IsTimeText(b.startTime)
    && IsTimeText(b.endTime)
    && b.maxBookings >= 1
  }

  /** `insertBookingSlotSchema`; `emailAccepted` is the verdict of zod's e-mail check. */
  predicate ValidBookingSlotInput(b: InsertBookingSlot, emailAccepted: bool) {
    |b.customerName| >= 2 && emailAccepted
  }

  /** `insertContactSchema`; `emailAccepted` is the verdict of zod's e-mail check. */
  predicate ValidContactInput(c: InsertContact, emailAccepted: bool) {
    |c.name| >= 2 && |c.message| >= 10 && emailAccepted
  }

  /** The date and time checks look at the shape only. */
  lemma ShapeChecksOnly()
    ensures IsDateText("2024-13-45")
    ensures IsTimeText("25:99")
    ensures !IsDateText("2024-1-05") && !IsTimeText("9:30")
    ensures ValidRecurringSlotInput(InsertRecurringSlot(1, "21:00", "18:00", None, 1, 0, None))
  {
    assert AllDigits("2024") && AllDigits("13") && AllDigits("45");
    assert "2024-13-45"[..4] == "2024" && "2024-13-45"[5..7] == "13" && "2024-13-45"[8..] == "45";
    assert "25:99"[..2] == "25" && "25:99"[3..] == "99";
    assert "21:00"[..2] == "21" && "21:00"[3..] == "00";
    assert "18:00"[..2] == "18" && "18:00"[3..] == "00";
  }

  /** The ranges the validators enforce, each shown at its boundary. */
  lemma RangeChecks(b: InsertRecurringSlot, s: InsertAvailabilitySlot)
    requires IsTimeText(b.startTime) && IsTimeText(b.endTime) && b.maxBookings >= 1
    requires IsTimeText(s.startTime) && IsTimeText(s.endTime) && s.maxBookings == Finite(1)
    ensures ValidRecurringSlotInput(b) <==> 0 <= b.dayOfWeek <= 6
    ensures !ValidRecurringSlotInput(b.(maxBookings := 0))
    ensures ValidAvailabilitySlotInput(s.(isActive := Some("false")))
    ensures !ValidAvailabilitySlotInput(s.(isActive := Some("yes")))
    ensures !ValidAvailabilitySlotInput(s.(maxBookings := Finite(0)))
    ensures !ValidAvailabilitySlotInput(s.(maxBookings := NaN))
  {
  }

  lemma LengthChecks(c: InsertContact, b: InsertBookingSlot)
    ensures ValidContactInput(c, true) <==> |c.name| >= 2 && |c.message| >= 10
    ensures ValidBookingSlotInput(b, true) <==> |b.customerName| >= 2
    ensures !ValidContactInput(c, false) && !ValidBookingSlotInput(b, false)
  {
  }
}
