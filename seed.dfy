/**
 * The seeding script: the fixed weekly timetable of the club, and the
 * creation of its slots in the in-memory store for the next two weeks.
 * For each week offset, each day of the timetable and each class of that
 * day, one slot is created on the next occurrence of that weekday (moved a
 * week on when it is that weekday already and 20:00 is past), plus seven
 * days per week offset.
 */
module Seed {
  import opened Js
  import opened Calendar
  import opened Schema
  import opened Tables
  import opened Rows
  import opened MemStore

  /** One class of the timetable. */
  datatype SlotTemplate = SlotTemplate(startTime: string, endTime: string, maxBookings: int, description: string)

  datatype DaySchedule = DaySchedule(dayOfWeek: int, slots: seq<SlotTemplate>)

  const Monday := DaySchedule(1, [
    SlotTemplate("18:45", "20:00", 8, "Open Ring"),
    SlotTemplate("20:15", "21:15", 10, "Boxe Femme")])

  const Tuesday := DaySchedule(2, [
    SlotTemplate("14:00", "17:00", 12, "Open Ring"),
    SlotTemplate("18:00", "18:45", 10, "HIIT Mixte"),
    SlotTemplate("19:00", "20:00", 10, "Boxe Femme"),
    SlotTemplate("20:15", "21:15", 12, "Boxe Mixte")])

  const Wednesday := DaySchedule(3, [
    SlotTemplate("12:15", "13:00", 10, "HIIT Mixte"),
    SlotTemplate("14:00", "17:00", 12, "Open Ring"),
    SlotTemplate("18:00", "18:45", 8, "HIIT Femme"),
    SlotTemplate("19:00", "20:00", 12, "Boxe Mixte"),
    SlotTemplate("20:15", "21:15", 10, "Boxe Femme")])

  const Thursday := DaySchedule(4, [
    SlotTemplate("09:30", "10:30", 8, "Boxe Mixte"),
    SlotTemplate("12:15", "13:00", 8, "HIIT Femme"),
    SlotTemplate("14:00", "17:00", 12, "Open Ring"),
    SlotTemplate("18:00", "18:45", 10, "HIIT Mixte"),
    SlotTemplate("18:45", "20:00", 12, "Open Ring"),
    SlotTemplate("20:15", "21:15", 10, "Boxe Femme")])

  const Friday := DaySchedule(5, [
    SlotTemplate("09:30", "10:30", 8, "Boxe Femme"),
    SlotTemplate("12:15", "13:00", 10, "HIIT Mixte"),
    SlotTemplate("18:00", "18:45", 8, "HIIT Femme")])

  const Saturday := DaySchedule(6, [
    SlotTemplate("10:00", "12:00", 15, "Open Ring"),
    SlotTemplate("12:15", "13:00", 8, "HIIT Femme"),
    SlotTemplate("13:30", "14:30", 10, "Boxe Mixte")])

  const Sunday := DaySchedule(0, [
    SlotTemplate("11:00", "12:00", 8, "Boxe Mixte"),
    SlotTemplate("12:15", "13:00", 10, "HIIT Mixte"),
    SlotTemplate("13:30", "14:30", 8, "Boxe Femme"),
    SlotTemplate("15:00", "17:00", 15, "Open Ring")])

  /** The timetable, Monday to Saturday, then Sunday. */
  const WeeklySchedule: seq<DaySchedule> := [Monday, Tuesday, Wednesday, Thursday, Friday, Saturday, Sunday]

  /** The number of weeks seeded. */
  const Weeks := 2

  /** The evening hour from which today no longer counts as the next occurrence. */
  const CutoffHour := 20

  /**
   * `getNextDayOfWeek`: `today` plus `(dayOfWeek - weekday + 7) % 7` days,
   * or plus 7 when that is 0 and the hour is past the cutoff.
   */
  function NextDayOfWeek(today: Day, hour: int, dayOfWeek: int): Day {
    var daysToAdd := Rem(dayOfWeek - Weekday(today) + 7, 7);
    today + (if daysToAdd == 0 && hour >= CutoffHour then 7 else daysToAdd)
  }

  /** The next occurrence: the right weekday, no more than a week ahead, and no qualifying day before it. */
  lemma NextDayOfWeekSpec(today: Day, hour: int, dayOfWeek: int)
    requires 0 <= dayOfWeek < 7
    ensures var d := NextDayOfWeek(today, hour, dayOfWeek);
      && today <= d <= today + 7
      && Weekday(d) == dayOfWeek
      && (d == today + 7 <==> Weekday(today) == dayOfWeek && hour >= CutoffHour)
      && (forall e :: today <= e < d && Weekday(e) == dayOfWeek ==> e == today && hour >= CutoffHour)
  {
    var d := NextDayOfWeek(today, hour, dayOfWeek);
    var w := Weekday(today);
    var k := (dayOfWeek - w + 7) % 7;
    assert Rem(dayOfWeek - w + 7, 7) == k;
    WeekdayAfter(today, d - today);
    assert (w + k) % 7 == dayOfWeek;
    assert (w + 7) % 7 == w;
    forall e | today <= e < d && Weekday(e) == dayOfWeek
      ensures e == today && hour >= CutoffHour
    {
      WeekdayAfter(today, e - today);
      assert (w + (e - today)) % 7 == dayOfWeek;
    }
  }

  /** The day of the slots of `dayOfWeek` in week `week`. */
  function TargetDate(today: Day, hour: int, week: int, dayOfWeek: int): Day {
    NextDayOfWeek(today, hour, dayOfWeek) + 7 * week
  }

  /** The `slotData` passed to `createAvailabilitySlot`. */
  function SlotData(date: Day, t: SlotTemplate): InsertAvailabilitySlot {
    InsertAvailabilitySlot(date, t.startTime, t.endTime, Some(t.description), None, Finite(t.maxBookings), None)
  }

  /** The creation attempts of one day: one per class, in timetable order. */
  function DayAttempts(date: Day, ts: seq<SlotTemplate>): (r: seq<InsertAvailabilitySlot>)
    ensures |r| == |ts|
    ensures forall i :: 0 <= i < |ts| ==> r[i] == SlotData(date, ts[i])
  {
    if ts == [] then [] else DayAttempts(date, ts[..|ts| - 1]) + [SlotData(date, ts[|ts| - 1])]
  }

  /** The attempts of one week offset, day after day. */
  function WeekAttempts(today: Day, hour: int, week: int, sched: seq<DaySchedule>): seq<InsertAvailabilitySlot> {
    if sched == [] then []
    else
      var ds := sched[|sched| - 1];
      WeekAttempts(today, hour, week, sched[..|sched| - 1]) + DayAttempts(TargetDate(today, hour, week, ds.dayOfWeek), ds.slots)
  }

  /** The attempts of the first `weeks` week offsets. */
  function SeedAttempts(today: Day, hour: int, sched: seq<DaySchedule>, weeks: nat): seq<InsertAvailabilitySlot> {
    if weeks == 0 then []
    else SeedAttempts(today, hour, sched, weeks - 1) + WeekAttempts(today, hour, weeks - 1, sched)
  }

  /** The number of classes in a timetable. */
  function ScheduleSize(sched: seq<DaySchedule>): nat {
    if sched == [] then 0 else ScheduleSize(sched[..|sched| - 1]) + |sched[|sched| - 1].slots|
  }

  /** The slots table after creating `ins` in order from id `n` on. */
  function MemInsertAll(slots: map<Id, AvailabilitySlot>, n: Id, ins: seq<InsertAvailabilitySlot>, now: int): map<Id, AvailabilitySlot> {
    if ins == [] then slots
    else MemInsertAll(slots, n, ins[..|ins| - 1], now)[n + |ins| - 1 := MemSlotRow(ins[|ins| - 1], n + |ins| - 1, now)]
  }

  // ---------------------------------------------------------------------
  // The timetable.
  // ---------------------------------------------------------------------

  /**
   * Seven entries with seven different weekdays, all in 0..6: each weekday
   * has exactly one entry in the timetable.
   */
  lemma TimetableDays()
    ensures |WeeklySchedule| == 7
    ensures forall i :: 0 <= i < |WeeklySchedule| ==> 0 <= WeeklySchedule[i].dayOfWeek < 7
    ensures forall i, j :: 0 <= i < j < |WeeklySchedule| ==> WeeklySchedule[i].dayOfWeek != WeeklySchedule[j].dayOfWeek
  {
  }

  lemma WeeklyScheduleSize()
    ensures ScheduleSize(WeeklySchedule) == 27
  {
    var w := WeeklySchedule;
    assert w[..0] == [];
    assert w[..1][..0] == w[..0];
    assert w[..2][..1] == w[..1];
    assert w[..3][..2] == w[..2];
    assert w[..4][..3] == w[..3];
    assert w[..5][..4] == w[..4];
    assert w[..6][..5] == w[..5];
    assert w[..6] == w[..|w| - 1];
    assert ScheduleSize(w[..1]) == 2;
    assert ScheduleSize(w[..2]) == 6;
    assert ScheduleSize(w[..3]) == 11;
    assert ScheduleSize(w[..4]) == 17;
    assert ScheduleSize(w[..5]) == 20;
    assert ScheduleSize(w[..6]) == 23;
  }

  // ---------------------------------------------------------------------
  // The attempts.
  // ---------------------------------------------------------------------

  /** One attempt per class per week. */
  lemma {:induction false} WeekAttemptsCount(today: Day, hour: int, week: int, sched: seq<DaySchedule>)
    ensures |WeekAttempts(today, hour, week, sched)| == ScheduleSize(sched)
  {
    if sched != [] {
      WeekAttemptsCount(today, hour, week, sched[..|sched| - 1]);
    }
  }

  lemma MulSucc(w: nat, n: nat)
    ensures (w + 1) * n == w * n + n
  {
  }

  lemma {:induction false} SeedAttemptsCount(today: Day, hour: int, sched: seq<DaySchedule>, weeks: nat)
    ensures |SeedAttempts(today, hour, sched, weeks)| == weeks * ScheduleSize(sched)
  {
    if weeks > 0 {
      var size := ScheduleSize(sched);
      SeedAttemptsCount(today, hour, sched, weeks - 1);
      WeekAttemptsCount(today, hour, weeks - 1, sched);
      assert |SeedAttempts(today, hour, sched, weeks)|
          == |SeedAttempts(today, hour, sched, weeks - 1)| + |WeekAttempts(today, hour, weeks - 1, sched)|;
      MulSucc(weeks - 1, size);
    }
  }

  /** The script makes 2 x 27 creation attempts. */
  lemma FiftyFourAttempts(today: Day, hour: int)
    ensures |SeedAttempts(today, hour, WeeklySchedule, Weeks)| == 54
  {
    SeedAttemptsCount(today, hour, WeeklySchedule, Weeks);
    WeeklyScheduleSize();
  }

  /** Moving every attempt one week on. */
  function ShiftWeek(s: seq<InsertAvailabilitySlot>): (r: seq<InsertAvailabilitySlot>)
    ensures |r| == |s|
    ensures forall i :: 0 <= i < |s| ==> r[i] == s[i].(date := s[i].date + 7)
  {
    if s == [] then [] else ShiftWeek(s[..|s| - 1]) + [s[|s| - 1].(date := s[|s| - 1].date + 7)]
  }

  /** The attempts of week offset `week + 1` are those of week offset `week`, seven days later. */
  lemma {:induction false} NextWeekIsShifted(today: Day, hour: int, week: int, sched: seq<DaySchedule>)
    ensures WeekAttempts(today, hour, week + 1, sched) == ShiftWeek(WeekAttempts(today, hour, week, sched))
  {
    if sched != [] {
      var ds := sched[|sched| - 1];
      var init := sched[..|sched| - 1];
      NextWeekIsShifted(today, hour, week, init);
      var a := WeekAttempts(today, hour, week, init);
      var b := DayAttempts(TargetDate(today, hour, week, ds.dayOfWeek), ds.slots);
      var b1 := DayAttempts(TargetDate(today, hour, week + 1, ds.dayOfWeek), ds.slots);
      assert ShiftWeek(a + b) == ShiftWeek(a) + b1 by {
        var l, r := ShiftWeek(a + b), ShiftWeek(a) + b1;
        assert |l| == |r|;
        forall i | 0 <= i < |l| ensures l[i] == r[i] {
          if i >= |a| {
            assert (a + b)[i] == b[i - |a|];
          } else {
            assert (a + b)[i] == a[i];
          }
        }
      }
    }
  }

  /** Every attempt of a week lands on its day's weekday, in that week's window. */
  lemma {:induction false} WeekAttemptsDates(today: Day, hour: int, week: int, sched: seq<DaySchedule>)
    requires forall i :: 0 <= i < |sched| ==> 0 <= sched[i].dayOfWeek < 7
    ensures forall a :: a in WeekAttempts(today, hour, week, sched) ==>
      && today + 7 * week <= a.date <= today + 7 * week + 7
      && exists ds :: ds in sched && Weekday(a.date) == ds.dayOfWeek && a.date == TargetDate(today, hour, week, ds.dayOfWeek)
  {
    if sched != [] {
      var ds := sched[|sched| - 1];
      var init := sched[..|sched| - 1];
      WeekAttemptsDates(today, hour, week, init);
      var date := TargetDate(today, hour, week, ds.dayOfWeek);
      NextDayOfWeekSpec(today, hour, ds.dayOfWeek);
      WeekdayWeekLater(NextDayOfWeek(today, hour, ds.dayOfWeek), week);
      assert WeekAttempts(today, hour, week, sched) == WeekAttempts(today, hour, week, init) + DayAttempts(date, ds.slots);
      forall a | a in WeekAttempts(today, hour, week, sched)
        ensures && today + 7 * week <= a.date <= today + 7 * week + 7
                && exists ds :: ds in sched && Weekday(a.date) == ds.dayOfWeek && a.date == TargetDate(today, hour, week, ds.dayOfWeek)
      {
        if a in WeekAttempts(today, hour, week, init) {
          var e :| e in init && Weekday(a.date) == e.dayOfWeek && a.date == TargetDate(today, hour, week, e.dayOfWeek);
          assert e in sched;
        } else {
          var b := DayAttempts(date, ds.slots);
          assert a in b;
          var i :| 0 <= i < |b| && b[i] == a;
          assert a.date == date;
        }
      }
    }
  }

  /** All seeded slots fall in the fifteen days from today on. */
  lemma SeedWindow(today: Day, hour: int)
    ensures forall a :: a in SeedAttempts(today, hour, WeeklySchedule, Weeks) ==> today <= a.date <= today + 14
  {
    TimetableDays();
    SeedWindowOf(today, hour, WeeklySchedule);
  }

  lemma SeedWindowOf(today: Day, hour: int, sched: seq<DaySchedule>)
    requires forall i :: 0 <= i < |sched| ==> 0 <= sched[i].dayOfWeek < 7
    ensures forall a :: a in SeedAttempts(today, hour, sched, Weeks) ==> today <= a.date <= today + 14
  {
    var w0 := WeekAttempts(today, hour, 0, sched);
    var w1 := WeekAttempts(today, hour, 1, sched);
    assert SeedAttempts(today, hour, sched, 1) == w0;
    assert SeedAttempts(today, hour, sched, Weeks) == w0 + w1;
    WeekAttemptsDates(today, hour, 0, sched);
    WeekAttemptsDates(today, hour, 1, sched);
  }

  // ---------------------------------------------------------------------
  // What the store holds afterwards.
  // ---------------------------------------------------------------------

  /** Creating the attempts in order adds one row per attempt, under the next ids, and keeps the old rows. */
  lemma {:induction false} MemInsertAllSpec(slots: map<Id, AvailabilitySlot>, n: Id, ins: seq<InsertAvailabilitySlot>, now: int)
    requires Below(slots, n)
    ensures var r := MemInsertAll(slots, n, ins, now);
      && (forall k :: k in r <==> k in slots || n <= k < n + |ins|)
      && (forall k :: k in slots ==> r[k] == slots[k])
      && (forall i :: 0 <= i < |ins| ==> r[n + i] == MemSlotRow(ins[i], n + i, now))
  {
    if ins != [] {
      var init := ins[..|ins| - 1];
      var last := n + |ins| - 1;
      MemInsertAllSpec(slots, n, init, now);
      var r0 := MemInsertAll(slots, n, init, now);
      var r := MemInsertAll(slots, n, ins, now);
      assert r == r0[last := MemSlotRow(ins[|ins| - 1], last, now)];
      forall i | 0 <= i < |ins| ensures r[n + i] == MemSlotRow(ins[i], n + i, now) {
        if i < |init| {
          assert init[i] == ins[i];
        }
      }
    }
  }

  /** Creating `a` then `b` is creating `a + b`. */
  lemma {:induction false} MemInsertAllConcat(slots: map<Id, AvailabilitySlot>, n: Id, a: seq<InsertAvailabilitySlot>,
                                              b: seq<InsertAvailabilitySlot>, now: int)
    ensures MemInsertAll(slots, n, a + b, now) == MemInsertAll(MemInsertAll(slots, n, a, now), n + |a|, b, now)
  {
    if b == [] {
      assert a + b == a;
    } else {
      var init := b[..|b| - 1];
      MemInsertAllConcat(slots, n, a, init, now);
      assert (a + b)[..|a + b| - 1] == a + init;
      assert (a + b)[|a + b| - 1] == b[|b| - 1];
    }
  }

  /** Every class of the timetable has a description. */
  ghost predicate Described(sched: seq<DaySchedule>) {
    forall i, t :: 0 <= i < |sched| && t in sched[i].slots ==> t.description != ""
  }

  lemma TimetableDescribed()
    ensures Described(WeeklySchedule)
  {
    var w := WeeklySchedule;
    forall i, t | 0 <= i < |w| && t in w[i].slots ensures t.description != "" {
      var j :| 0 <= j < |w[i].slots| && w[i].slots[j] == t;
    }
  }

  /** An attempt whose description is stored as given. */
  predicate HasDescription(a: InsertAvailabilitySlot) {
    a.description.Some? && a.description.value != ""
  }

  lemma {:induction false} WeekAttemptsDescribed(today: Day, hour: int, week: int, sched: seq<DaySchedule>)
    requires Described(sched)
    ensures forall a :: a in WeekAttempts(today, hour, week, sched) ==> HasDescription(a)
  {
    if sched != [] {
      var ds := sched[|sched| - 1];
      var init := sched[..|sched| - 1];
      assert Described(init) by {
        forall i, t | 0 <= i < |init| && t in init[i].slots ensures t.description != "" {
          assert init[i] == sched[i];
        }
      }
      WeekAttemptsDescribed(today, hour, week, init);
      var b := DayAttempts(TargetDate(today, hour, week, ds.dayOfWeek), ds.slots);
      forall a | a in b ensures HasDescription(a) {
        var j :| 0 <= j < |b| && b[j] == a;
        assert ds.slots[j] in sched[|sched| - 1].slots;
      }
    }
  }

  lemma {:induction false} SeedAttemptsDescribed(today: Day, hour: int, sched: seq<DaySchedule>, weeks: nat)
    requires Described(sched)
    ensures forall a :: a in SeedAttempts(today, hour, sched, weeks) ==> HasDescription(a)
  {
    if weeks > 0 {
      var before := SeedAttempts(today, hour, sched, weeks - 1);
      var week := WeekAttempts(today, hour, weeks - 1, sched);
      SeedAttemptsDescribed(today, hour, sched, weeks - 1);
      WeekAttemptsDescribed(today, hour, weeks - 1, sched);
      assert SeedAttempts(today, hour, sched, weeks) == before + week;
      forall a | a in before + week ensures HasDescription(a) {
        assert a in before || a in week;
      }
    }
  }

  /**
   * The rows created from attempts that carry a description: each is
   * active, reads back its capacity, and keeps date, times and description.
   */
  lemma CreatedRowsReadBack(slots: map<Id, AvailabilitySlot>, n: Id, ins: seq<InsertAvailabilitySlot>, now: int)
    requires Below(slots, n)
    requires forall a :: a in ins ==> HasDescription(a)
    ensures forall i :: 0 <= i < |ins| ==> ReadsBack(MemInsertAll(slots, n, ins, now), n + i, ins[i])
  {
    var r := MemInsertAll(slots, n, ins, now);
    MemInsertAllSpec(slots, n, ins, now);
    forall i | 0 <= i < |ins|
      ensures ReadsBack(r, n + i, ins[i])
    {
      assert ins[i] in ins;
      ParseIntOfToString(ins[i].maxBookings);
    }
  }

  /** Row `k` of `r` is the active slot `a` asked for, with the capacity and description `a` gave. */
  predicate ReadsBack(r: map<Id, AvailabilitySlot>, k: Id, a: InsertAvailabilitySlot) {
    && k in r
    && r[k].isActive == "true"
    && ParseInt(r[k].maxBookings) == a.maxBookings
    && r[k].date == a.date
    && r[k].startTime == a.startTime && r[k].endTime == a.endTime
    && r[k].description == a.description
  }

  /**
   * Every slot seeded from a timetable whose classes all have a description
   * (as `WeeklySchedule` does, by `TimetableDescribed`) is active and keeps
   * its class's capacity, date and description.
   */
  lemma SeededSlotsAreActive(slots: map<Id, AvailabilitySlot>, n: Id, today: Day, hour: int, sched: seq<DaySchedule>, now: int)
    requires Below(slots, n) && Described(sched)
    ensures var ins := SeedAttempts(today, hour, sched, Weeks);
      forall i :: 0 <= i < |ins| ==> ReadsBack(MemInsertAll(slots, n, ins, now), n + i, ins[i])
  {
    SeedAttemptsDescribed(today, hour, sched, Weeks);
    CreatedRowsReadBack(slots, n, SeedAttempts(today, hour, sched, Weeks), now);
  }

  /** Creating the next class of a day adds its row under the next id. */
  lemma DayAttemptsStep(slots: map<Id, AvailabilitySlot>, n: Id, date: Day, ts: seq<SlotTemplate>, k: nat, now: int)
    requires k < |ts|
    ensures MemInsertAll(slots, n, DayAttempts(date, ts[..k + 1]), now)
         == MemInsertAll(slots, n, DayAttempts(date, ts[..k]), now)[n + k := MemSlotRow(SlotData(date, ts[k]), n + k, now)]
  {
    var done := DayAttempts(date, ts[..k]);
    var all := done + [SlotData(date, ts[k])];
    assert ts[..k + 1][..k] == ts[..k];
    assert DayAttempts(date, ts[..k + 1]) == all;
    assert all[..|all| - 1] == done && all[|all| - 1] == SlotData(date, ts[k]);
  }

  /** The classes of one day, created in order on `date`. */
  method SeedDay(store: MemStorage, date: Day, ts: seq<SlotTemplate>, now: int)
    requires store.Valid()
    modifies store
    ensures store.Valid()
    ensures store.State() == old(store.State()).(
      availabilitySlots := MemInsertAll(old(store.availabilitySlots), old(store.nextId), DayAttempts(date, ts), now),
      nextId := old(store.nextId) + |ts|)
  {
    ghost var s0, n0 := store.availabilitySlots, store.nextId;
    var k := 0;
    while k < |ts|
      invariant 0 <= k <= |ts|
      invariant store.Valid()
      invariant store.contacts == old(store.contacts) && store.bookings == old(store.bookings)
      invariant store.bookingSlots == old(store.bookingSlots)
      invariant store.availabilitySlots == MemInsertAll(s0, n0, DayAttempts(date, ts[..k]), now)
      invariant store.nextId == n0 + k
    {
      var slotData := SlotData(date, ts[k]);
      DayAttemptsStep(s0, n0, date, ts, k, now);
      var _ := store.CreateAvailabilitySlot(slotData, now);
      k := k + 1;
    }
    assert ts[..k] == ts;
  }

  /** One week offset: every day of the timetable, in order. */
  method SeedWeek(store: MemStorage, today: Day, hour: int, sched: seq<DaySchedule>, weekOffset: int, now: int)
    requires store.Valid()
    modifies store
    ensures store.Valid()
    ensures store.State() == old(store.State()).(
      availabilitySlots := MemInsertAll(old(store.availabilitySlots), old(store.nextId),
                                        WeekAttempts(today, hour, weekOffset, sched), now),
      nextId := old(store.nextId) + |WeekAttempts(today, hour, weekOffset, sched)|)
  {
    ghost var s0, n0 := store.availabilitySlots, store.nextId;
    var j := 0;
    while j < |sched|
      invariant 0 <= j <= |sched|
      invariant store.Valid()
      invariant store.contacts == old(store.contacts) && store.bookings == old(store.bookings)
      invariant store.bookingSlots == old(store.bookingSlots)
      invariant store.availabilitySlots == MemInsertAll(s0, n0, WeekAttempts(today, hour, weekOffset, sched[..j]), now)
      invariant store.nextId == n0 + |WeekAttempts(today, hour, weekOffset, sched[..j])|
    {
      var ds := sched[j];
      var targetDate := TargetDate(today, hour, weekOffset, ds.dayOfWeek);
      ghost var before := WeekAttempts(today, hour, weekOffset, sched[..j]);
      ghost var day := DayAttempts(targetDate, ds.slots);
      ghost var mid := store.availabilitySlots;
      SeedDay(store, targetDate, ds.slots, now);
      assert store.availabilitySlots == MemInsertAll(mid, n0 + |before|, day, now);
      assert sched[..j + 1][..j] == sched[..j];
      assert WeekAttempts(today, hour, weekOffset, sched[..j + 1]) == before + day;
      MemInsertAllConcat(s0, n0, before, day, now);
      j := j + 1;
    }
    assert sched[..j] == sched;
  }

  /** Seeding one more week creates that week's attempts after the earlier ones. */
  lemma SeedAttemptsStep(slots: map<Id, AvailabilitySlot>, n: Id, today: Day, hour: int, sched: seq<DaySchedule>,
                         w: nat, now: int)
    ensures MemInsertAll(slots, n, SeedAttempts(today, hour, sched, w + 1), now)
         == MemInsertAll(MemInsertAll(slots, n, SeedAttempts(today, hour, sched, w), now),
                         n + |SeedAttempts(today, hour, sched, w)|, WeekAttempts(today, hour, w, sched), now)
    ensures |SeedAttempts(today, hour, sched, w + 1)|
         == |SeedAttempts(today, hour, sched, w)| + |WeekAttempts(today, hour, w, sched)|
  {
    MemInsertAllConcat(slots, n, SeedAttempts(today, hour, sched, w), WeekAttempts(today, hour, w, sched), now);
  }

  /**
   * `seedInitialData` on the in-memory store: every attempt is created in
   * order, so the slots table gains `MemInsertAll` of the attempts and
   * nothing else changes.
   */
  method SeedInitialData(store: MemStorage, today: Day, hour: int, now: int)
    requires store.Valid()
    modifies store
    ensures store.Valid()
    ensures store.State() == old(store.State()).(
      availabilitySlots := MemInsertAll(old(store.availabilitySlots), old(store.nextId), SeedAttempts(today, hour, WeeklySchedule, Weeks), now),
      nextId := old(store.nextId) + |SeedAttempts(today, hour, WeeklySchedule, Weeks)|)
  {
    ghost var s0, n0 := store.availabilitySlots, store.nextId;
    var weekOffset := 0;
    while weekOffset < Weeks
      invariant 0 <= weekOffset <= Weeks
      invariant store.Valid()
      invariant store.contacts == old(store.contacts) && store.bookings == old(store.bookings)
      invariant store.bookingSlots == old(store.bookingSlots)
      invariant store.availabilitySlots == MemInsertAll(s0, n0, SeedAttempts(today, hour, WeeklySchedule, weekOffset), now)
      invariant store.nextId == n0 + |SeedAttempts(today, hour, WeeklySchedule, weekOffset)|
    {
      SeedAttemptsStep(s0, n0, today, hour, WeeklySchedule, weekOffset, now);
      SeedWeek(store, today, hour, WeeklySchedule, weekOffset, now);
      weekOffset := weekOffset + 1;
    }
  }
}
