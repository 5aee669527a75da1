/**
 * The helpers of the admin page: the booking count it shows per slot, the
 * orders it lists slots and bookings in, the labels it shows, the status
 * changes it offers, and how it sends a pattern's description.
 */
module AdminManager {
  import opened Js
  import opened Calendar
  import opened Schema
  import opened Ordering
  import opened Tables
  import opened Rows
  import opened Expansion
  import opened Availability

  /** `getBookingCountForSlot`: the listed bookings of the slot that are not cancelled. */
  function BookingCountForSlot(bookings: seq<BookingSlot>, slotId: Id): nat {
    |Filter(bookings, (b: BookingSlot) => b.slotId == slotId && Active(b))|
  }

  /** On a listing of the whole bookings table, the page counts what the server subtracts from the capacity. */
  lemma BookingCountMatchesServer(m: map<Id, BookingSlot>, bookings: seq<BookingSlot>, slotId: Id)
    requires Distinct(bookings)
    requires forall x :: x in bookings <==> x in m.Values
    ensures BookingCountForSlot(bookings, slotId) == |ActiveBookings(m, slotId)|
  {
    var p := (b: BookingSlot) => b.slotId == slotId && Active(b);
    FilterCount(bookings, p);
    assert Passing(bookings, p) == ActiveBookings(m, slotId);
  }

  /** `slots.sort(...)`: by date, then by start time, in place. */
  method SortSlots(a: array<AvailabilitySlot>)
    modifies a
    ensures a[..] == SortByKey(old(a[..]), SlotDateTimeOrder)
    ensures multiset(a[..]) == multiset(old(a[..]))
    ensures forall i, j :: 0 <= i < j < a.Length ==>
      a[i].date < a[j].date || (a[i].date == a[j].date && StrLe(a[i].startTime, a[j].startTime))
  {
    SortInPlace(a, SlotDateTimeOrder);
    SortedSlotsOrder(a[..]);
  }

  /** `bookings.sort(...)`: newest first, in place. */
  method SortBookings(a: array<BookingSlot>)
    modifies a
    ensures a[..] == SortByKey(old(a[..]), BookingNewestFirst)
    ensures multiset(a[..]) == multiset(old(a[..]))
    ensures forall i, j :: 0 <= i < j < a.Length ==> a[i].createdAt >= a[j].createdAt
  {
    SortInPlace(a, BookingNewestFirst);
    SortedBookingsOrder(a[..]);
  }

  /** What the slot order means: earlier dates first, and on one date earlier start times first. */
  lemma SortedSlotsOrder(s: seq<AvailabilitySlot>)
    requires SortedBy(s, SlotDateTimeOrder)
    ensures forall i, j :: 0 <= i < j < |s| ==>
      s[i].date < s[j].date || (s[i].date == s[j].date && StrLe(s[i].startTime, s[j].startTime))
  {
    forall i, j | 0 <= i < j < |s|
      ensures s[i].date < s[j].date || (s[i].date == s[j].date && StrLe(s[i].startTime, s[j].startTime))
    {
      assert KeyLe(SlotDateTimeOrder(s[i]), SlotDateTimeOrder(s[j]));
    }
  }

  lemma SortedBookingsOrder(s: seq<BookingSlot>)
    requires SortedBy(s, BookingNewestFirst)
    ensures forall i, j :: 0 <= i < j < |s| ==> s[i].createdAt >= s[j].createdAt
  {
    forall i, j | 0 <= i < j < |s| ensures s[i].createdAt >= s[j].createdAt {
      assert KeyLe(BookingNewestFirst(s[i]), BookingNewestFirst(s[j]));
    }
  }

  // ---------------------------------------------------------------------
  // Labels.
  // ---------------------------------------------------------------------

  const DayNames: seq<string> := ["Dimanche", "Lundi", "Mardi", "Mercredi", "Jeudi", "Vendredi", "Samedi"]

  /** `days[parseInt(dayOfWeek)] || dayOfWeek`. */
  function DayOfWeekText(dayOfWeek: string): string {
    var n := ParseInt(dayOfWeek);
    if n.Finite? && 0 <= n.value < |DayNames| then DayNames[n.value] else dayOfWeek
  }

  /** A stored weekday 0..6 is shown by its French name; any other text is shown as it is. */
  lemma DayOfWeekTextSpec(k: int, text: string)
    ensures 0 <= k < 7 ==> DayOfWeekText(IntToString(k)) == DayNames[k]
    ensures (ParseInt(text).NaN? || ParseInt(text).value < 0 || ParseInt(text).value > 6) ==> DayOfWeekText(text) == text
  {
    ParseIntOfToString(Finite(k));
  }

  /** The label of a pattern names the weekday of every day it is expanded on. */
  lemma PatternDayLabel(p: RecurringSlot, d: Day)
    requires OnPatternDay(p, d)
    ensures DayOfWeekText(p.dayOfWeek) == DayNames[Weekday(d)]
  {
  }

  function AdminStatusText(status: string): string {
    if status == Confirmed then "Confirmé"
    else if status == Pending then "En attente"
    else if status == Cancelled then "Annulé"
    else status
  }

  function AdminStatusColor(status: string): string {
    if status == Confirmed then "default"
    else if status == Pending then "secondary"
    else if status == Cancelled then "destructive"
    else "secondary"
  }

  /** The three known statuses get three different labels; an unknown status is shown as it is. */
  lemma AdminStatusTextSpec(status: string)
    ensures status !in {Pending, Confirmed, Cancelled} ==> AdminStatusText(status) == status
    ensures status in {Pending, Confirmed, Cancelled} ==> AdminStatusText(status) !in {Pending, Confirmed, Cancelled}
    ensures AdminStatusColor(status) == "destructive" <==> status == Cancelled
  {
  }

  // ---------------------------------------------------------------------
  // Status changes.
  // ---------------------------------------------------------------------

  /** The buttons shown for a booking of status `status`, as the status each one sets. */
  function Actions(status: string): seq<string> {
    if status == Pending then [Confirmed, Cancelled]
    else if status == Confirmed then [Cancelled]
    else if status == Cancelled then [Confirmed]
    else []
  }

  /** The transitions offered, both ways: pending to confirmed or cancelled, confirmed to cancelled, cancelled to confirmed. */
  lemma ActionsSpec(s: string, t: string)
    ensures t in Actions(s) <==>
      || (s == Pending && (t == Confirmed || t == Cancelled))
      || (s == Confirmed && t == Cancelled)
      || (s == Cancelled && t == Confirmed)
  {
  }

  /** No button keeps the status, and none goes back to pending. */
  lemma ActionsMove(s: string, t: string)
    requires t in Actions(s)
    ensures t != s && t != Pending
  {
    ActionsSpec(s, t);
  }

  /**
   * Reactivating a cancelled booking takes a place again: the slot's
   * count of active bookings grows by one, whatever its other bookings.
   */
  lemma ReactivateTakesPlace(m: map<Id, BookingSlot>, id: Id, now: int)
    requires IdsAreKeys(m, BookingId)
    requires id in m && m[id].status == Cancelled
    ensures var m2 := m[id := MergeBooking(m[id], StatusUpdate(Confirmed), now)];
      |ActiveBookings(m2, m[id].slotId)| == |ActiveBookings(m, m[id].slotId)| + 1
  {
    var b := m[id];
    var b2 := MergeBooking(b, StatusUpdate(Confirmed), now);
    var m2 := m[id := b2];
    StatusUpdateOnlyStatus(b, Confirmed, now);
    var before := ActiveBookings(m, b.slotId);
    var after := ActiveBookings(m2, b.slotId);
    assert id in m2 && m2[id] == b2;
    assert b2 !in before by {
      forall k | k in m && m[k].id == id ensures k == id {
        assert BookingId(m[k]) == k;
      }
    }
    forall x ensures x in after <==> x in before + {b2} {
      if x in after && x != b2 {
        var k :| k in m2 && m2[k] == x;
        assert k != id;
        assert x in m.Values;
      }
      if x in before {
        var k :| k in m && m[k] == x;
        assert k != id;
        assert m2[k] == x;
      }
    }
    assert after == before + {b2};
  }

  /**
   * The admin can bring a slot to two active bookings, past the limit
   * admission keeps: one confirmed booking, and a cancelled one reactivated.
   */
  lemma ReactivationPassesAdmissionLimit(b1: BookingSlot, b2: BookingSlot, now: int)
    requires b1.id == 0 && b2.id == 1 && b1.slotId == b2.slotId
    requires b1.status == Confirmed && b2.status == Cancelled
    ensures var m := map[0 := b1, 1 := b2];
      && |ActiveBookings(m, b1.slotId)| == 1 && !Admits(|ActiveBookings(m, b1.slotId)|)
      && Confirmed in Actions(b2.status)
      && |ActiveBookings(m[1 := MergeBooking(b2, StatusUpdate(Confirmed), now)], b1.slotId)| == 2
  {
    var m := map[0 := b1, 1 := b2];
    assert m.Values == {b1, b2} by {
      forall x | x in m.Values ensures x == b1 || x == b2 {
        var k :| k in m && m[k] == x;
      }
      assert m[0] == b1 && m[1] == b2;
    }
    assert ActiveBookings(m, b1.slotId) == {b1};
    ReactivateTakesPlace(m, 1, now);
  }

  // ---------------------------------------------------------------------
  // The description of a new pattern.
  // ---------------------------------------------------------------------

  /** The form's "none" choice is sent as an empty description. */
  function DescriptionForSubmit(d: string): string {
    if d == "none" then "" else d
  }

  /** A pattern created with "none" (or nothing) is stored without description; any other text is kept. */
  lemma DescriptionStored(ins: InsertRecurringSlot, d: string, id: Id, now: int)
    ensures var row := RecurringRow(ins.(description := Some(DescriptionForSubmit(d))), id, now);
      && (row.description == None <==> d == "none" || d == "")
      && (d != "none" && d != "" ==> row.description == Some(d))
  {
  }
}
