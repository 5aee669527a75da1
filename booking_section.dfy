/**
 * The public booking page: the slots it shows for a chosen day, and the
 * labels and colours it shows them with.
 *
 * The page asks the server for the day's slots, already annotated with
 * their places, and for every weekly pattern. Each active pattern of the
 * day's weekday becomes a "virtual" slot shown with all its places free.
 * The list is the concrete slots followed by the virtual ones, filtered by
 * course type when one is chosen.
 */
module BookingSection {
  import opened Js
  import opened Calendar
  import opened Schema
  import opened Tables
  import opened Availability

  /** A slot as the page lists it. */
  datatype DisplaySlot = DisplaySlot(
    id: Id,
    date: Day,
    startTime: string,
    endTime: string,
    description: Option<string>,
    isActive: string,
    maxBookings: string,
    availableSpots: Number,
    totalSpots: Number,
    isAvailable: bool,
    isRecurring: bool)

  /** A slot from the server, with the places the server computed. */
  function Concrete(a: AnnotatedSlot): DisplaySlot {
    DisplaySlot(a.slot.id, a.slot.date, a.slot.startTime, a.slot.endTime, a.slot.description,
      a.slot.isActive, a.slot.maxBookings, a.availableSpots, a.totalSpots, a.isAvailable, false)
  }

  function ConcreteAll(s: seq<AnnotatedSlot>): (r: seq<DisplaySlot>)
    ensures |r| == |s| && forall i :: 0 <= i < |s| ==> r[i] == Concrete(s[i])
  {
    if s == [] then [] else [Concrete(s[0])] + ConcreteAll(s[1..])
  }

  /** A pattern is shown on `date` when it is active and `parseInt(dayOfWeek)` is the date's weekday. */
  predicate ShownOn(p: RecurringSlot, date: Day) {
    p.isActive == "true" && ParseInt(p.dayOfWeek) == Finite(Weekday(date))
  }

  /** The virtual slot of pattern `p` on `date`: every place counted as free. */
  function Virtual(p: RecurringSlot, date: Day): DisplaySlot {
    DisplaySlot(p.id, date, p.startTime, p.endTime, p.description, p.isActive, p.maxBookings,
      ParseInt(p.maxBookings), ParseInt(p.maxBookings), true, true)
  }

  function VirtualAll(ps: seq<RecurringSlot>, date: Day): (r: seq<DisplaySlot>)
    ensures |r| == |ps| && forall i :: 0 <= i < |ps| ==> r[i] == Virtual(ps[i], date)
  {
    if ps == [] then [] else [Virtual(ps[0], date)] + VirtualAll(ps[1..], date)
  }

  /** `recurringSlots.filter(...).map(...)`. */
  function VirtualSlots(recurring: seq<RecurringSlot>, date: Day): seq<DisplaySlot> {
    VirtualAll(Filter(recurring, (p: RecurringSlot) => ShownOn(p, date)), date)
  }

  /** `slot.description && slot.description.toLowerCase().includes(course.toLowerCase())`. */
  predicate MatchesCourse(s: DisplaySlot, course: string) {
    s.description.Some? && s.description.value != "" && Includes(ToLower(s.description.value), ToLower(course))
  }

  /** The course filter: no filter when the course is empty. */
  function FilterByCourse(all: seq<DisplaySlot>, course: string): seq<DisplaySlot> {
    if course == "" then all else Filter(all, (s: DisplaySlot) => MatchesCourse(s, course))
  }

  /** What `queryFn` returns for `date` and the chosen course. */
  function DaySlots(available: seq<AnnotatedSlot>, recurring: seq<RecurringSlot>, date: Day, course: string): seq<DisplaySlot> {
    FilterByCourse(ConcreteAll(available) + VirtualSlots(recurring, date), course)
  }

  // ---------------------------------------------------------------------
  // The virtual slots.
  // ---------------------------------------------------------------------

  /** Exactly the patterns shown on `date` give a virtual slot, in the order of the patterns. */
  lemma VirtualSlotsSpec(recurring: seq<RecurringSlot>, date: Day)
    ensures forall v :: v in VirtualSlots(recurring, date) ==> exists p :: p in recurring && ShownOn(p, date) && v == Virtual(p, date)
    ensures forall p :: p in recurring && ShownOn(p, date) ==> Virtual(p, date) in VirtualSlots(recurring, date)
  {
    var f := Filter(recurring, (p: RecurringSlot) => ShownOn(p, date));
    var r := VirtualSlots(recurring, date);
    forall v | v in r ensures exists p :: p in recurring && ShownOn(p, date) && v == Virtual(p, date) {
      var i :| 0 <= i < |r| && r[i] == v;
      assert f[i] in f;
    }
    forall p | p in recurring && ShownOn(p, date) ensures Virtual(p, date) in r {
      var i :| 0 <= i < |f| && f[i] == p;
      assert r[i] == Virtual(p, date);
    }
  }

  /** Every virtual slot is on the chosen date, available, with all its places free. */
  lemma VirtualSlotsFree(recurring: seq<RecurringSlot>, date: Day)
    ensures forall v :: v in VirtualSlots(recurring, date) ==>
      && v.date == date && v.isAvailable && v.isRecurring
      && v.availableSpots == v.totalSpots == ParseInt(v.maxBookings)
  {
    VirtualSlotsSpec(recurring, date);
  }

  /** A pattern shown on a date has that date's weekday, whichever date is chosen. */
  lemma ShownOnWeekly(p: RecurringSlot, date: Day)
    ensures ShownOn(p, date) <==> ShownOn(p, date + 7)
  {
    WeekdayWeekLater(date, 1);
  }

  /** With no course chosen, the list is the concrete slots in the server's order, then the virtual ones. */
  lemma DaySlotsUnfiltered(available: seq<AnnotatedSlot>, recurring: seq<RecurringSlot>, date: Day)
    ensures var r := DaySlots(available, recurring, date, "");
      && |r| == |available| + |VirtualSlots(recurring, date)|
      && (forall i :: 0 <= i < |available| ==> r[i] == Concrete(available[i]))
      && (forall i :: |available| <= i < |r| ==> r[i] == VirtualSlots(recurring, date)[i - |available|])
  {
    var c := ConcreteAll(available);
    assert DaySlots(available, recurring, date, "") == c + VirtualSlots(recurring, date);
  }

  // ---------------------------------------------------------------------
  // The course filter.
  // ---------------------------------------------------------------------

  lemma {:induction false} ToLowerIdempotent(s: string)
    ensures ToLower(ToLower(s)) == ToLower(s)
  {
    if s != [] {
      ToLowerIdempotent(s[1..]);
      assert ToLower(s)[1..] == ToLower(s[1..]);
    }
  }

  /** The filter keeps exactly the slots with a description that contains the course, case aside. */
  lemma FilterByCourseSpec(all: seq<DisplaySlot>, course: string)
    requires course != ""
    ensures forall s :: s in FilterByCourse(all, course) <==> s in all && MatchesCourse(s, course)
    ensures forall s :: s in FilterByCourse(all, course) ==> s.description.Some? && s.description.value != ""
  {
  }

  /** Writing the course in capitals or lower case selects the same slots. */
  lemma FilterIgnoresCase(all: seq<DisplaySlot>, course: string)
    ensures FilterByCourse(all, ToLower(course)) == FilterByCourse(all, course)
  {
    ToLowerIdempotent(course);
    if course != [] {
      assert ToLower(course) != [];
      FilterAgree(all, (s: DisplaySlot) => MatchesCourse(s, ToLower(course)), (s: DisplaySlot) => MatchesCourse(s, course));
    }
  }

  /** Filtering a second time by the same course changes nothing. */
  lemma FilterByCourseIdempotent(all: seq<DisplaySlot>, course: string)
    ensures FilterByCourse(FilterByCourse(all, course), course) == FilterByCourse(all, course)
  {
    if course != "" {
      FilterIdempotent(all, (s: DisplaySlot) => MatchesCourse(s, course));
    }
  }

  /** A slot whose description is exactly the chosen course is kept. */
  lemma OwnCourseMatches(s: DisplaySlot, course: string)
    requires course != "" && s.description == Some(course)
    ensures MatchesCourse(s, course)
  {
    assert OccursAt(ToLower(course), ToLower(course), 0);
  }

  // ---------------------------------------------------------------------
  // Labels and colours.
  // ---------------------------------------------------------------------

  /** JavaScript's `===` on numbers: NaN equals nothing. */
  predicate StrictEq(x: Number, y: Number) {
    x.Finite? && y.Finite? && x.value == y.value
  }

  function StatusText(availableSpots: Number, totalSpots: Number): string {
    if StrictEq(availableSpots, Finite(0)) then "Complet"
    else if StrictEq(availableSpots, totalSpots) then "Disponible"
    else NumberToString(availableSpots) + " place(s) restante(s)"
  }

  function StatusColor(availableSpots: Number, totalSpots: Number): string {
    if StrictEq(availableSpots, Finite(0)) then "destructive"
    else if StrictEq(availableSpots, totalSpots) then "default"
    else "secondary"
  }

  /** The badge's colour and its text follow the same three cases. */
  lemma StatusAgrees(a: Number, t: Number)
    ensures StatusText(a, t) == "Complet" <==> StatusColor(a, t) == "destructive"
    ensures StatusText(a, t) == "Disponible" <==> StatusColor(a, t) == "default"
    ensures StatusColor(a, t) == "secondary" <==> StatusText(a, t) == NumberToString(a) + " place(s) restante(s)"
  {
    var tail := " place(s) restante(s)";
    var m := NumberToString(a) + tail;
    assert |m| > 7 && |m| > 10;
    assert m[|m| - 1] == ')';
    assert "Complet"[6] == 't' && "Disponible"[9] == 'e';
  }

  /**
   * For a concrete slot of capacity `capacity` with `active` bookings: full
   * when every place is taken, "Disponible" when none is and the capacity is
   * not 0, and otherwise the number of places left.
   */
  lemma ConcreteStatus(s: AvailabilitySlot, active: nat, capacity: int)
    requires s.maxBookings == IntToString(capacity)
    ensures var a := Annotate(s, active);
      && (StatusText(a.availableSpots, a.totalSpots) == "Complet" <==> capacity == active)
      && (capacity != active && active == 0 ==> StatusText(a.availableSpots, a.totalSpots) == "Disponible")
      && (capacity != active && active != 0 ==>
            StatusText(a.availableSpots, a.totalSpots) == IntToString(capacity - active) + " place(s) restante(s)")
  {
    AnnotateCounts(s, active, capacity);
    var a := Annotate(s, active);
    StatusAgrees(a.availableSpots, a.totalSpots);
  }

  /** The status of a slot whose free places equal its capacity. */
  lemma StatusOfEqual(n: Number)
    ensures n == Finite(0) ==> StatusText(n, n) == "Complet"
    ensures n.Finite? && n.value != 0 ==> StatusText(n, n) == "Disponible"
    ensures n == NaN ==> StatusText(n, n) == "NaN place(s) restante(s)"
  {
    if n == NaN {
      assert !StrictEq(NaN, Finite(0)) && !StrictEq(NaN, NaN);
      assert NumberToString(NaN) == "NaN";
    }
  }

  /** A virtual slot is never shown as partly booked. */
  lemma VirtualStatus(p: RecurringSlot, date: Day)
    ensures ParseInt(p.maxBookings) == Finite(0) ==>
      StatusText(Virtual(p, date).availableSpots, Virtual(p, date).totalSpots) == "Complet"
    ensures ParseInt(p.maxBookings).Finite? && ParseInt(p.maxBookings).value != 0 ==>
      StatusText(Virtual(p, date).availableSpots, Virtual(p, date).totalSpots) == "Disponible"
    ensures ParseInt(p.maxBookings) == NaN ==>
      StatusText(Virtual(p, date).availableSpots, Virtual(p, date).totalSpots) == "NaN place(s) restante(s)"
  {
    StatusOfEqual(ParseInt(p.maxBookings));
  }

  /** The first entry of `table` whose key occurs in `lower`, or `fallback`. */
  function FirstMatch(lower: string, table: seq<(string, string)>, fallback: string): string {
    if table == [] then fallback
    else if Includes(lower, table[0].0) then table[0].1
    else FirstMatch(lower, table[1..], fallback)
  }

  lemma {:induction false} FirstMatchSpec(lower: string, table: seq<(string, string)>, fallback: string)
    ensures (forall i :: 0 <= i < |table| ==> !Includes(lower, table[i].0)) ==> FirstMatch(lower, table, fallback) == fallback
    ensures forall i :: (0 <= i < |table| && Includes(lower, table[i].0) && forall j :: 0 <= j < i ==> !Includes(lower, table[j].0))
              ==> FirstMatch(lower, table, fallback) == table[i].1
  {
    if table != [] {
      FirstMatchSpec(lower, table[1..], fallback);
      forall i | 0 < i < |table| && Includes(lower, table[i].0) && (forall j :: 0 <= j < i ==> !Includes(lower, table[j].0))
        ensures FirstMatch(lower, table, fallback) == table[i].1
      {
        assert !Includes(lower, table[0].0);
        assert table[1..][i - 1] == table[i];
        forall j | 0 <= j < i - 1 ensures !Includes(lower, table[1..][j].0) {
          assert table[1..][j] == table[j + 1];
        }
      }
    }
  }

  const CourseColors: seq<(string, string)> := [
    ("open ring", "bg-blue-500"), ("boxe femme", "bg-pink-500"), ("boxe mixte", "bg-purple-500"),
    ("hiit mixte", "bg-orange-500"), ("hiit femme", "bg-red-500")]

  const CourseVariants: seq<(string, string)> := [
    ("open ring", "secondary"), ("boxe femme", "destructive"), ("boxe mixte", "outline"),
    ("hiit mixte", "secondary"), ("hiit femme", "destructive")]

  /** `getCourseColor`: no description gives "default", no known course "bg-primary". */
  function CourseColor(description: Option<string>): string {
    if description == None || description == Some("") then "default"
    else FirstMatch(ToLower(description.value), CourseColors, "bg-primary")
  }

  /** `getCourseVariant`: the badge variant, "default" when nothing matches. */
  function CourseVariant(description: Option<string>): string {
    if description == None || description == Some("") then "default"
    else FirstMatch(ToLower(description.value), CourseVariants, "default")
  }

  /** The colour is "default" exactly when there is no description, or the colour of the first course it names. */
  lemma CourseColorSpec(description: Option<string>)
    ensures description == None || description == Some("") ==> CourseColor(description) == "default"
    ensures description.Some? && description.value != "" ==>
      var lower := ToLower(description.value);
      && ((forall i :: 0 <= i < |CourseColors| ==> !Includes(lower, CourseColors[i].0)) ==> CourseColor(description) == "bg-primary")
      && (forall i :: (0 <= i < |CourseColors| && Includes(lower, CourseColors[i].0)
                       && forall j :: 0 <= j < i ==> !Includes(lower, CourseColors[j].0))
            ==> CourseColor(description) == CourseColors[i].1)
  {
    if description.Some? && description.value != "" {
      FirstMatchSpec(ToLower(description.value), CourseColors, "bg-primary");
    }
  }

  /** The variant is "default" without a description, or the variant of the first course the description names. */
  lemma CourseVariantSpec(description: Option<string>)
    ensures description == None || description == Some("") ==> CourseVariant(description) == "default"
    ensures description.Some? && description.value != "" ==>
      var lower := ToLower(description.value);
      && ((forall i :: 0 <= i < |CourseVariants| ==> !Includes(lower, CourseVariants[i].0)) ==> CourseVariant(description) == "default")
      && (forall i :: (0 <= i < |CourseVariants| && Includes(lower, CourseVariants[i].0)
                       && forall j :: 0 <= j < i ==> !Includes(lower, CourseVariants[j].0))
            ==> CourseVariant(description) == CourseVariants[i].1)
  {
    if description.Some? && description.value != "" {
      FirstMatchSpec(ToLower(description.value), CourseVariants, "default");
    }
  }

  lemma NotIncludesSameLength(s: string, sub: string)
    requires |s| == |sub| && s != sub
    ensures !Includes(s, sub)
  {
    assert s[0..|s|] == s;
  }

  /** A text one longer than `sub` whose two windows differ from `sub` in their first two characters. */
  lemma NotIncludesOneShorter(s: string, sub: string)
    requires |s| == |sub| + 1 && |sub| >= 2
    requires s[0] != sub[0] || s[1] != sub[1]
    requires s[1] != sub[0] || s[2] != sub[1]
    ensures !Includes(s, sub)
  {
    forall m | 0 <= m <= 1 ensures !OccursAt(s, sub, m) {
      assert s[m..m + |sub|][0] == s[m] && s[m..m + |sub|][1] == s[m + 1];
    }
  }

  /**
   * None of the five course names contains an earlier one, so a description
   * that is a course's name in any case (a filter button's label, say) gets
   * that course's colour and badge variant.
   */
  lemma CourseNameColors(d: string, i: nat)
    requires i < |CourseColors| && ToLower(d) == CourseColors[i].0
    ensures CourseColor(Some(d)) == CourseColors[i].1
    ensures CourseVariant(Some(d)) == CourseVariants[i].1
  {
    var lower := ToLower(d);
    assert OccursAt(lower, lower, 0);
    assert d != "";
    forall j | 0 <= j < i ensures !Includes(lower, CourseColors[j].0) {
      var key := CourseColors[j].0;
      if j == 0 {
        NotIncludesOneShorter(lower, key);
      } else {
        assert lower[0] != key[0] || lower[5] != key[5];
        NotIncludesSameLength(lower, key);
      }
    }
    assert forall j :: 0 <= j < |CourseColors| ==> CourseVariants[j].0 == CourseColors[j].0;
    CourseColorSpec(Some(d));
    CourseVariantSpec(Some(d));
  }

  /** A description shorter than every course name names no course: "bg-primary", and the "default" badge. */
  lemma ShortDescriptionColor(d: string)
    requires 0 < |d| < 9
    ensures CourseColor(Some(d)) == "bg-primary"
    ensures CourseVariant(Some(d)) == "default"
  {
    var lower := ToLower(d);
    forall i | 0 <= i < |CourseColors| ensures !Includes(lower, CourseColors[i].0) && !Includes(lower, CourseVariants[i].0) {
      assert |CourseColors[i].0| >= 9 && CourseVariants[i].0 == CourseColors[i].0;
    }
    CourseColorSpec(Some(d));
    CourseVariantSpec(Some(d));
  }

  /**
   * `formatTime`: the first two ":"-separated parts joined with ":"; when
   * there is no second part JavaScript writes "undefined".
   */
  function FormatTime(time: string): string {
    var hours := UpTo(time, ':');
    if |hours| == |time| then hours + ":undefined"
    else hours + ":" + UpTo(time[|hours| + 1..], ':')
  }

  /** The longest prefix of `s` without `c`. */
  function UpTo(s: string, c: char): (r: string)
    ensures |r| <= |s| && r == s[..|r|] && c !in r
    ensures |r| < |s| ==> s[|r|] == c
  {
    if s == [] || s[0] == c then [] else [s[0]] + UpTo(s[1..], c)
  }

  lemma {:induction false} UpToOfPrefix(h: string, rest: string, c: char)
    requires c !in h && (rest == [] || rest[0] == c)
    ensures UpTo(h + rest, c) == h
  {
    if h != [] {
      assert (h + rest)[1..] == h[1..] + rest;
      UpToOfPrefix(h[1..], rest, c);
    } else {
      assert h + rest == rest;
    }
  }

  /** A time written `hh:mm`, followed by nothing or by more ":"-parts, is shown as `hh:mm`. */
  lemma FormatTimeKeepsTwoParts(hours: string, minutes: string, rest: string)
    requires ':' !in hours && ':' !in minutes && (rest == [] || rest[0] == ':')
    ensures FormatTime(hours + ":" + minutes + rest) == hours + ":" + minutes
  {
    var t := hours + ":" + minutes + rest;
    assert t == hours + (":" + minutes + rest);
    UpToOfPrefix(hours, ":" + minutes + rest, ':');
    assert t[|hours| + 1..] == minutes + rest;
    UpToOfPrefix(minutes, rest, ':');
  }

  /** A time that passed validation is shown as it is; `hh:mm:ss` from the database loses its seconds. */
  lemma FormatTimeOfValid(t: string)
    requires IsTimeText(t)
    ensures FormatTime(t) == t
    ensures FormatTime(t + ":00") == t
  {
    assert t == t[..2] + ":" + t[3..] + "";
    assert ':' !in t[..2] by { assert forall i :: 0 <= i < 2 ==> IsDigit(t[..2][i]); }
    assert ':' !in t[3..] by { assert forall i :: 0 <= i < 2 ==> IsDigit(t[3..][i]); }
    FormatTimeKeepsTwoParts(t[..2], t[3..], "");
    assert t + ":00" == t[..2] + ":" + t[3..] + ":00";
    FormatTimeKeepsTwoParts(t[..2], t[3..], ":00");
  }

  /** Formatting twice is formatting once, when the time has a ':'. */
  lemma FormatTimeIdempotent(t: string)
    requires ':' in t
    ensures FormatTime(FormatTime(t)) == FormatTime(t)
  {
    var hours := UpTo(t, ':');
    var minutes := UpTo(t[|hours| + 1..], ':');
    FormatTimeKeepsTwoParts(hours, minutes, "");
    assert FormatTime(t) == hours + ":" + minutes + "";
  }
}
