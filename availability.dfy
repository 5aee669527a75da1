/**
 * How many places a slot has left, and when a new booking is admitted.
 *
 * A slot of one day is shown with `availableSpots` = its capacity minus the
 * number of its bookings that are not cancelled, `totalSpots` = its
 * capacity, and `isAvailable` when `availableSpots` > 0. The capacity is
 * `parseInt(maxBookings)`, so a text that does not start with a number gives
 * NaN, and then the slot is not available.
 *
 * A new booking is admitted only while the slot has no booking that is not
 * cancelled, whatever its capacity.
 */
module Availability {
  import opened Js
  import opened Schema
  import opened Tables
  import opened Rows

  datatype AnnotatedSlot = AnnotatedSlot(slot: AvailabilitySlot, availableSpots: Number, totalSpots: Number, isAvailable: bool)

  /** `b.status !== "cancelled"`. */
  predicate Active(b: BookingSlot) {
    b.status != Cancelled
  }

  /** The bookings of slot `slotId` that hold a place. */
  ghost function ActiveBookings(m: map<Id, BookingSlot>, slotId: Id): set<BookingSlot> {
    set b | b in m.Values && b.slotId == slotId && Active(b)
  }

  /** JavaScript's `x > n`: false when x is NaN. */
  predicate Above(x: Number, n: int) {
    x.Finite? && x.value > n
  }

  /** One slot with its places: `{ ...slot, availableSpots, totalSpots, isAvailable }`. */
  function Annotate(s: AvailabilitySlot, activeCount: nat): AnnotatedSlot {
    var available := Minus(ParseInt(s.maxBookings), activeCount);
    AnnotatedSlot(s, available, ParseInt(s.maxBookings), Above(available, 0))
  }

  /** `activeBookings.length >= 1` rejects the request. */
  predicate Admits(activeCount: nat) {
    !(activeCount >= 1)
  }

  // ---------------------------------------------------------------------
  // What the numbers mean.
  // ---------------------------------------------------------------------

  /** For a capacity written as a number: places left = capacity - active bookings. */
  lemma AnnotateCounts(s: AvailabilitySlot, activeCount: nat, capacity: int)
    requires s.maxBookings == IntToString(capacity)
    ensures Annotate(s, activeCount).totalSpots == Finite(capacity)
    ensures Annotate(s, activeCount).availableSpots == Finite(capacity - activeCount)
    ensures Annotate(s, activeCount).isAvailable <==> activeCount < capacity
    ensures Annotate(s, activeCount).slot == s
  {
    ParseIntOfToString(Finite(capacity));
  }

  /** A capacity that is not a number makes the slot unavailable, with NaN places. */
  lemma AnnotateUnreadableCapacity(s: AvailabilitySlot, activeCount: nat)
    requires ParseInt(s.maxBookings) == NaN
    ensures Annotate(s, activeCount).availableSpots == NaN && Annotate(s, activeCount).totalSpots == NaN
    ensures !Annotate(s, activeCount).isAvailable
  {
  }

  /** A slot as the store created it shows the capacity it was created with. */
  lemma AnnotateCreatedSlot(ins: InsertAvailabilitySlot, id: Id, now: int, activeCount: nat, capacity: int)
    requires ins.maxBookings == Finite(capacity)
    ensures Annotate(DbSlotRow(ins, id, now), activeCount).availableSpots == Finite(capacity - activeCount)
    ensures Annotate(MemSlotRow(ins, id, now), activeCount).availableSpots == Finite(capacity - activeCount)
  {
    NumbersReadBack(ins, InsertRecurringSlot(0, "", "", None, 0, 0, None), id, now);
  }

  lemma AnnotateExample(s: AvailabilitySlot)
    requires s.maxBookings == "10"
    ensures Annotate(s, 3) == AnnotatedSlot(s, Finite(7), Finite(10), true)
    ensures Annotate(s, 10).isAvailable == false
  {
    assert "10" == IntToString(10);
    AnnotateCounts(s, 3, 10);
    AnnotateCounts(s, 10, 10);
  }

  /**
   * Admission looks at the count alone: a slot of capacity 10 with one
   * active booking is shown as available and still refuses a second one,
   * and a slot whose capacity was set to 0 is shown as full yet admits.
   */
  lemma AdmissionIgnoresCapacity(s: AvailabilitySlot, t: AvailabilitySlot)
    requires s.maxBookings == "10" && t.maxBookings == "0"
    ensures Annotate(s, 1).isAvailable && !Admits(1)
    ensures !Annotate(t, 0).isAvailable && Admits(0)
  {
    assert "10" == IntToString(10) && "0" == IntToString(0);
    AnnotateCounts(s, 1, 10);
    AnnotateCounts(t, 0, 0);
  }

  /** With a capacity of at least one, an admitted booking is for a slot shown as available. */
  lemma AdmittedImpliesShown(s: AvailabilitySlot, activeCount: nat, capacity: int)
    requires s.maxBookings == IntToString(capacity) && capacity >= 1
    requires Admits(activeCount)
    ensures Annotate(s, activeCount).isAvailable
  {
    AnnotateCounts(s, activeCount, capacity);
  }

  // ---------------------------------------------------------------------
  // Counting the active bookings of a slot.
  // ---------------------------------------------------------------------

  /** Counting a listing of the slot's bookings counts the slot's active bookings. */
  lemma ListedActiveCount(m: map<Id, BookingSlot>, bs: seq<BookingSlot>, slotId: Id)
    requires Distinct(bs)
    requires forall x :: x in bs <==> x in m.Values && x.slotId == slotId
    ensures |Filter(bs, Active)| == |ActiveBookings(m, slotId)|
  {
    FilterCount(bs, Active);
    assert Passing(bs, Active) == ActiveBookings(m, slotId);
  }

  /** Cancelling an active booking frees exactly one place. */
  lemma CancelFreesPlace(m: map<Id, BookingSlot>, id: Id, now: int)
    requires IdsAreKeys(m, BookingId)
    requires id in m && Active(m[id])
    ensures var m2 := m[id := MergeBooking(m[id], StatusUpdate(Cancelled), now)];
      |ActiveBookings(m2, m[id].slotId)| == |ActiveBookings(m, m[id].slotId)| - 1
  {
    var b := m[id];
    var m2 := m[id := MergeBooking(b, StatusUpdate(Cancelled), now)];
    StatusUpdateOnlyStatus(b, Cancelled, now);
    var before := ActiveBookings(m, b.slotId);
    var after := ActiveBookings(m2, b.slotId);
    forall x ensures x in after <==> x in before - {b} {
      if x in after {
        var k :| k in m2 && m2[k] == x;
        assert k != id;
        assert x in m.Values;
        assert BookingId(m[id]) == id && BookingId(m[k]) == k;
      }
      if x in before - {b} {
        var k :| k in m && m[k] == x;
        assert k != id;
        assert m2[k] == x;
      }
    }
    assert after == before - {b};
  }
}
