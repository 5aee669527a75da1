/**
 * Expanding weekly patterns into dated slots, as
 * `generateAvailabilitySlotsFromRecurring` does: for every active pattern,
 * walk the days from its `validFrom` to the earlier of today + 14 and its
 * `validUntil`, and on every day whose weekday is the pattern's, insert a
 * slot unless one with the same date, times and pattern id exists.
 *
 * The walk is written here as functions over the slots table and the id
 * counter; `DbStorage.DatabaseStorage.GenerateAvailabilitySlotsFromRecurring`
 * runs the same walk with loops and is proved equal to `ExpandAll`.
 */
module Expansion {
  import opened Js
  import opened Calendar
  import opened Schema
  import opened Rows
  import opened Tables

  /** How far ahead the walk goes: today + 14 days, inclusive. */
  const HorizonDays := 14

  /** The part of the store that expansion changes. */
  datatype Gen = Gen(slots: map<Id, AvailabilitySlot>, nextId: Id)

  /** The last day a pattern is expanded on: the horizon, or `validUntil` when that is earlier. */
  function WindowEnd(p: RecurringSlot, today: Day): (e: Day)
    ensures e <= today + HorizonDays
    ensures p.validUntil.Some? ==> e <= p.validUntil.value
    ensures e == today + HorizonDays || (p.validUntil.Some? && e == p.validUntil.value)
  {
    var horizon := today + HorizonDays;
    if p.validUntil.Some? && p.validUntil.value < horizon then p.validUntil.value else horizon
  }

  /** `date.getDay() === parseInt(recurringSlot.dayOfWeek)`. */
  predicate OnPatternDay(p: RecurringSlot, d: Day) {
    ParseInt(p.dayOfWeek) == Finite(Weekday(d))
  }

  predicate InWindow(p: RecurringSlot, d: Day, today: Day) {
    p.validFrom <= d <= WindowEnd(p, today)
  }

  /** The days a pattern is meant to have a slot on. */
  predicate Wanted(p: RecurringSlot, d: Day, today: Day) {
    p.isActive == "true" && InWindow(p, d, today) && OnPatternDay(p, d)
  }

  /** The existence query: same date, same times, same pattern. */
  predicate Matches(s: AvailabilitySlot, p: RecurringSlot, d: Day) {
    s.date == d && s.startTime == p.startTime && s.endTime == p.endTime && s.recurringId == Some(p.id)
  }

  predicate HasSlotFor(slots: map<Id, AvailabilitySlot>, p: RecurringSlot, d: Day) {
    exists k :: k in slots && Matches(slots[k], p, d)
  }

  /** The four fields the existence query compares. */
  predicate SameSlot(a: AvailabilitySlot, b: AvailabilitySlot) {
    a.date == b.date && a.startTime == b.startTime && a.endTime == b.endTime && a.recurringId == b.recurringId
  }

  /** What the walk passes to `createAvailabilitySlot` for pattern `p` on day `d`. */
  function GeneratedInsert(p: RecurringSlot, d: Day): InsertAvailabilitySlot {
    InsertAvailabilitySlot(d, p.startTime, p.endTime, NullIfEmpty(p.description), Some(p.isActive),
      ParseInt(p.maxBookings), Some(p.id))
  }

  function GeneratedRow(p: RecurringSlot, d: Day, id: Id, now: int): AvailabilitySlot {
    DbSlotRow(GeneratedInsert(p, d), id, now)
  }

  /** One day of the walk. */
  function ExpandDay(g: Gen, p: RecurringSlot, d: Day, now: int): Gen {
    if OnPatternDay(p, d) && !HasSlotFor(g.slots, p, d) then
      Gen(g.slots[g.nextId := GeneratedRow(p, d, g.nextId, now)], g.nextId + 1)
    else g
  }

  /** The days `from` .. `to`, inclusive, in increasing order. */
  function ExpandDays(g: Gen, p: RecurringSlot, from: Day, to: Day, now: int): Gen
    decreases to - from
  {
    if to < from then g else ExpandDay(ExpandDays(g, p, from, to - 1, now), p, to, now)
  }

  /** One pattern: nothing for an inactive one. */
  function ExpandPattern(g: Gen, p: RecurringSlot, today: Day, now: int): Gen {
    if p.isActive != "true" then g else ExpandDays(g, p, p.validFrom, WindowEnd(p, today), now)
  }

  /** All patterns, in the order given. */
  function ExpandAll(g: Gen, ps: seq<RecurringSlot>, today: Day, now: int): Gen {
    if ps == [] then g else ExpandPattern(ExpandAll(g, ps[..|ps| - 1], today, now), ps[|ps| - 1], today, now)
  }

  // ---------------------------------------------------------------------
  // Relations between the table before and after.
  // ---------------------------------------------------------------------

  /** Every key is below the counter, so the next id is unused. */
  ghost predicate Fresh(g: Gen) {
    Below(g.slots, g.nextId)
  }

  /** Nothing is removed or changed; new keys come from the counter. */
  ghost predicate Grows(g: Gen, h: Gen) {
    && g.nextId <= h.nextId
    && (forall k :: k in g.slots ==> k in h.slots && h.slots[k] == g.slots[k])
    && (forall k :: k in h.slots && k !in g.slots ==> g.nextId <= k < h.nextId)
  }

  /** No new slot repeats the date, times and pattern of another slot. */
  ghost predicate NoNewDuplicates(g: Gen, h: Gen) {
    forall k1, k2 :: k1 in h.slots && k2 in h.slots && k1 != k2 && k2 !in g.slots ==> !SameSlot(h.slots[k1], h.slots[k2])
  }

  /** Every new slot is pattern `p` on a matching day of `from` .. `to`. */
  ghost predicate DaysSound(g: Gen, h: Gen, p: RecurringSlot, from: Day, to: Day, now: int) {
    forall k :: k in h.slots && k !in g.slots ==>
      from <= h.slots[k].date <= to && OnPatternDay(p, h.slots[k].date)
      && h.slots[k] == GeneratedRow(p, h.slots[k].date, k, now)
  }

  /** Slot `s`, stored under `k`, is what one of `pats` generates on a day it is wanted. */
  ghost predicate GeneratedFrom(s: AvailabilitySlot, k: Id, pats: set<RecurringSlot>, today: Day, now: int) {
    exists p :: p in pats && Wanted(p, s.date, today) && s == GeneratedRow(p, s.date, k, now)
  }

  /** Every new slot was generated from one of `pats`. */
  ghost predicate Sound(g: Gen, h: Gen, pats: set<RecurringSlot>, today: Day, now: int) {
    forall k :: k in h.slots && k !in g.slots ==> GeneratedFrom(h.slots[k], k, pats, today, now)
  }

  /** Every pattern of `pats` has a slot on every day it is wanted. */
  ghost predicate Covered(slots: map<Id, AvailabilitySlot>, pats: set<RecurringSlot>, today: Day) {
    forall p, d :: p in pats && Wanted(p, d, today) ==> HasSlotFor(slots, p, d)
  }

  ghost function SetOf(ps: seq<RecurringSlot>): set<RecurringSlot> {
    set p | p in ps
  }

  // ---------------------------------------------------------------------
  // Small facts.
  // ---------------------------------------------------------------------

  /** A generated slot copies the pattern's times, description, capacity and id. */
  lemma GeneratedRowCopies(p: RecurringSlot, d: Day, id: Id, now: int)
    requires p.isActive == "true"
    ensures var s := GeneratedRow(p, d, id, now);
      && s.id == id && s.date == d && s.startTime == p.startTime && s.endTime == p.endTime
      && s.description == NullIfEmpty(p.description) && s.isActive == "true"
      && ParseInt(s.maxBookings) == ParseInt(p.maxBookings)
      && s.recurringId == Some(p.id) && Matches(s, p, d)
    ensures forall n :: p.maxBookings == IntToString(n) ==> GeneratedRow(p, d, id, now).maxBookings == p.maxBookings
  {
    ParseIntOfToString(ParseInt(p.maxBookings));
    forall n | p.maxBookings == IntToString(n) ensures GeneratedRow(p, d, id, now).maxBookings == p.maxBookings {
      ParseIntOfToString(Finite(n));
    }
  }

  lemma HasSlotForGrows(g: Gen, h: Gen, p: RecurringSlot, d: Day)
    requires Grows(g, h) && HasSlotFor(g.slots, p, d)
    ensures HasSlotFor(h.slots, p, d)
  {
    var k :| k in g.slots && Matches(g.slots[k], p, d);
    assert k in h.slots && Matches(h.slots[k], p, d);
  }

  /**
   * Only slots of the same pattern block generation: adding a hand-made slot,
   * or one of another pattern, at the same date and times changes nothing.
   */
  lemma OtherSlotsDoNotBlock(slots: map<Id, AvailabilitySlot>, k: Id, s: AvailabilitySlot, p: RecurringSlot, d: Day)
    requires k !in slots && s.recurringId != Some(p.id)
    ensures HasSlotFor(slots[k := s], p, d) == HasSlotFor(slots, p, d)
  {
    if HasSlotFor(slots[k := s], p, d) {
      var j :| j in slots[k := s] && Matches(slots[k := s][j], p, d);
      assert j != k;
      assert j in slots && Matches(slots[j], p, d);
    }
    if HasSlotFor(slots, p, d) {
      var j :| j in slots && Matches(slots[j], p, d);
      assert j in slots[k := s] && Matches(slots[k := s][j], p, d);
    }
  }

  lemma GrowsTrans(a: Gen, b: Gen, c: Gen)
    requires Grows(a, b) && Grows(b, c)
    ensures Grows(a, c)
  {
  }

  lemma NoNewDuplicatesTrans(a: Gen, b: Gen, c: Gen)
    requires Grows(a, b) && Grows(b, c)
    requires NoNewDuplicates(a, b) && NoNewDuplicates(b, c)
    ensures NoNewDuplicates(a, c)
  {
    forall k1, k2 | k1 in c.slots && k2 in c.slots && k1 != k2 && k2 !in a.slots
      ensures !SameSlot(c.slots[k1], c.slots[k2])
    {
      if k2 in b.slots && k1 !in b.slots {
        assert !SameSlot(c.slots[k2], c.slots[k1]);
      }
    }
  }

  // ---------------------------------------------------------------------
  // One day, a run of days, one pattern, all patterns.
  // ---------------------------------------------------------------------

  lemma ExpandDaySpec(g: Gen, p: RecurringSlot, d: Day, now: int)
    requires Fresh(g)
    ensures var h := ExpandDay(g, p, d, now);
      && Fresh(h) && Grows(g, h) && NoNewDuplicates(g, h) && DaysSound(g, h, p, d, d, now)
      && (OnPatternDay(p, d) ==> HasSlotFor(h.slots, p, d))
  {
    var h := ExpandDay(g, p, d, now);
    if OnPatternDay(p, d) && !HasSlotFor(g.slots, p, d) {
      var n := g.nextId;
      var s := GeneratedRow(p, d, n, now);
      assert n !in g.slots;
      assert Matches(h.slots[n], p, d);
      forall k1, k2 | k1 in h.slots && k2 in h.slots && k1 != k2 && k2 !in g.slots
        ensures !SameSlot(h.slots[k1], h.slots[k2])
      {
        assert k2 == n && k1 in g.slots;
        assert !Matches(g.slots[k1], p, d);
      }
    }
  }

  lemma {:induction false} ExpandDaysSpec(g: Gen, p: RecurringSlot, from: Day, to: Day, now: int)
    decreases to - from
    requires Fresh(g)
    ensures var h := ExpandDays(g, p, from, to, now);
      && Fresh(h) && Grows(g, h) && NoNewDuplicates(g, h) && DaysSound(g, h, p, from, to, now)
      && (forall d :: from <= d <= to && OnPatternDay(p, d) ==> HasSlotFor(h.slots, p, d))
  {
    if to >= from {
      var m := ExpandDays(g, p, from, to - 1, now);
      var h := ExpandDay(m, p, to, now);
      ExpandDaysSpec(g, p, from, to - 1, now);
      ExpandDaySpec(m, p, to, now);
      GrowsTrans(g, m, h);
      NoNewDuplicatesTrans(g, m, h);
      forall d | from <= d <= to && OnPatternDay(p, d) ensures HasSlotFor(h.slots, p, d) {
        if d < to {
          HasSlotForGrows(m, h, p, d);
        }
      }
      assert DaysSound(g, h, p, from, to, now) by {
        forall k | k in h.slots && k !in g.slots
          ensures from <= h.slots[k].date <= to && OnPatternDay(p, h.slots[k].date)
          ensures h.slots[k] == GeneratedRow(p, h.slots[k].date, k, now)
        {
          if k in m.slots {
            assert h.slots[k] == m.slots[k];
          }
        }
      }
    }
  }

  lemma ExpandPatternSpec(g: Gen, p: RecurringSlot, today: Day, now: int)
    requires Fresh(g)
    ensures var h := ExpandPattern(g, p, today, now);
      && Fresh(h) && Grows(g, h) && NoNewDuplicates(g, h)
      && (forall k :: k in h.slots && k !in g.slots ==>
            Wanted(p, h.slots[k].date, today) && h.slots[k] == GeneratedRow(p, h.slots[k].date, k, now))
      && (forall d :: Wanted(p, d, today) ==> HasSlotFor(h.slots, p, d))
      && (p.isActive != "true" ==> h == g)
  {
    if p.isActive == "true" {
      ExpandDaysSpec(g, p, p.validFrom, WindowEnd(p, today), now);
    }
  }

  lemma {:induction false} ExpandAllSpec(g: Gen, ps: seq<RecurringSlot>, today: Day, now: int)
    requires Fresh(g)
    ensures var h := ExpandAll(g, ps, today, now);
      && Fresh(h) && Grows(g, h) && NoNewDuplicates(g, h)
      && Sound(g, h, SetOf(ps), today, now)
      && Covered(h.slots, SetOf(ps), today)
  {
    if ps != [] {
      var init := ps[..|ps| - 1];
      var last := ps[|ps| - 1];
      assert ps == init + [last];
      var m := ExpandAll(g, init, today, now);
      var h := ExpandPattern(m, last, today, now);
      ExpandAllSpec(g, init, today, now);
      ExpandPatternSpec(m, last, today, now);
      GrowsTrans(g, m, h);
      NoNewDuplicatesTrans(g, m, h);
      assert SetOf(ps) == SetOf(init) + {last};
      forall k | k in h.slots && k !in g.slots ensures GeneratedFrom(h.slots[k], k, SetOf(ps), today, now) {
        if k in m.slots {
          var q :| q in SetOf(init) && Wanted(q, m.slots[k].date, today) && m.slots[k] == GeneratedRow(q, m.slots[k].date, k, now);
          assert q in SetOf(ps) && h.slots[k] == m.slots[k];
        } else {
          assert last in SetOf(ps);
        }
      }
      forall q, d | q in SetOf(ps) && Wanted(q, d, today) ensures HasSlotFor(h.slots, q, d) {
        if q != last {
          assert q in SetOf(init);
          HasSlotForGrows(m, h, q, d);
        }
      }
    }
  }

  // ---------------------------------------------------------------------
  // Idempotence.
  // ---------------------------------------------------------------------

  lemma {:induction false} ExpandDaysNoop(g: Gen, p: RecurringSlot, from: Day, to: Day, now: int)
    decreases to - from
    requires forall d :: from <= d <= to && OnPatternDay(p, d) ==> HasSlotFor(g.slots, p, d)
    ensures ExpandDays(g, p, from, to, now) == g
  {
    if to >= from {
      ExpandDaysNoop(g, p, from, to - 1, now);
    }
  }

  /** When every wanted day already has its slot, expansion changes nothing. */
  lemma {:induction false} ExpandAllNoop(g: Gen, ps: seq<RecurringSlot>, today: Day, now: int)
    requires Covered(g.slots, SetOf(ps), today)
    ensures ExpandAll(g, ps, today, now) == g
  {
    if ps != [] {
      var init := ps[..|ps| - 1];
      var last := ps[|ps| - 1];
      assert SetOf(init) <= SetOf(ps);
      ExpandAllNoop(g, init, today, now);
      if last.isActive == "true" {
        assert last in SetOf(ps);
        ExpandDaysNoop(g, last, last.validFrom, WindowEnd(last, today), now);
      }
    }
  }

  /** Running expansion a second time, on the same day, creates nothing. */
  lemma ExpandTwice(g: Gen, ps: seq<RecurringSlot>, today: Day, now1: int, now2: int)
    requires Fresh(g)
    ensures var h := ExpandAll(g, ps, today, now1); ExpandAll(h, ps, today, now2) == h
  {
    ExpandAllSpec(g, ps, today, now1);
    ExpandAllNoop(ExpandAll(g, ps, today, now1), ps, today, now2);
  }

  /** A pattern id that none of the patterns carries never appears on a new slot. */
  lemma NoSlotsForMissingPattern(g: Gen, ps: seq<RecurringSlot>, today: Day, now: int, id: Id)
    requires Fresh(g)
    requires forall p :: p in ps ==> p.id != id
    ensures var h := ExpandAll(g, ps, today, now);
      forall k :: k in h.slots && k !in g.slots ==> h.slots[k].recurringId != Some(id)
  {
    ExpandAllSpec(g, ps, today, now);
  }
}
