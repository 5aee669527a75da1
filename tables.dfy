/**
 * Reading a table: select the rows a condition keeps and return them in key
 * order (`Array.from(map.values()).filter(...).sort(...)` in the in-memory
 * store, `select ... where ... orderBy ...` in the database store), and
 * counting the rows of a list that pass a test (`.filter(...).length`).
 */
module Tables {
  import opened Schema
  import opened Ordering

  /** No value occurs twice. */
  ghost predicate Distinct<T>(s: seq<T>) {
    forall x :: x in s ==> multiset(s)[x] == 1
  }

  /** Every row is stored under its own id. */
  ghost predicate IdsAreKeys<T>(m: map<Id, T>, idOf: T -> Id) {
    forall k :: k in m ==> idOf(m[k]) == k
  }

  /** Every key is below the id counter, so the counter's next value is unused. */
  ghost predicate Below<T>(m: map<Id, T>, n: Id) {
    forall k :: k in m ==> k < n
  }

  /** The rows of `m` that `keep` accepts. */
  ghost function Selected<T>(m: map<Id, T>, keep: T -> bool): set<T> {
    SelectedAmong(m, keep, m.Keys)
  }

  /** The rows stored under the keys `ks` that `keep` accepts. */
  ghost function SelectedAmong<T>(m: map<Id, T>, keep: T -> bool, ks: set<Id>): set<T> {
    set k | k in ks && k in m && keep(m[k]) :: m[k]
  }

  /** Looking at one more key adds its row, if kept, and that row is new. */
  lemma SelectedStep<T>(m: map<Id, T>, keep: T -> bool, idOf: T -> Id, done: set<Id>, k: Id)
    requires IdsAreKeys(m, idOf) && k in m && k !in done
    ensures multiset(SelectedAmong(m, keep, done + {k}))
         == multiset(SelectedAmong(m, keep, done)) + (if keep(m[k]) then multiset{m[k]} else multiset{})
  {
    var before := SelectedAmong(m, keep, done);
    var after := SelectedAmong(m, keep, done + {k});
    forall j | j in done && j in m ensures m[j] != m[k] {
      assert idOf(m[j]) == j;
    }
    if keep(m[k]) {
      assert m[k] !in before;
      assert after == before + {m[k]};
    } else {
      assert after == before;
    }
  }

  /** A sequence holding the elements of a set once each has no repeats. */
  lemma MultisetOfSet<T>(r: seq<T>, s: set<T>)
    requires multiset(r) == multiset(s)
    ensures forall x :: x in r <==> x in s
    ensures Distinct(r)
  {
    forall x ensures x in r <==> x in s {
      assert x in r <==> x in multiset(r);
    }
  }

  /**
   * The rows of `m` that `keep` accepts, each exactly once, in `key` order.
   */
  method SelectSorted<T(==)>(m: map<Id, T>, keep: T -> bool, key: T -> SortKey, ghost idOf: T -> Id)
    returns (r: seq<T>)
    requires IdsAreKeys(m, idOf)
    ensures SortedBy(r, key)
    ensures multiset(r) == multiset(Selected(m, keep))
    ensures forall x :: x in r <==> x in m.Values && keep(x)
    ensures Distinct(r)
  {
    r := [];
    var rest := m.Keys;
    ghost var done: set<Id> := {};
    while rest != {}
      invariant rest <= m.Keys && done == m.Keys - rest
      invariant SortedBy(r, key)
      invariant multiset(r) == multiset(SelectedAmong(m, keep, done))
      decreases |rest|
    {
      var k :| k in rest;
      SelectedStep(m, keep, idOf, done, k);
      if keep(m[k]) {
        r := InsertByKey(m[k], r, key);
      }
      rest := rest - {k};
      done := done + {k};
    }
    assert done == m.Keys;
    MultisetOfSet(r, Selected(m, keep));
  }

  /** `s.filter(p)`. */
  function Filter<T>(s: seq<T>, p: T -> bool): (r: seq<T>)
    ensures |r| <= |s|
    ensures forall x :: x in r ==> x in s && p(x)
    ensures forall x :: x in s && p(x) ==> x in r
  {
    if s == [] then []
    else (if p(s[0]) then [s[0]] else []) + Filter(s[1..], p)
  }

  lemma {:induction false} FilterConcat<T>(a: seq<T>, b: seq<T>, p: T -> bool)
    ensures Filter(a + b, p) == Filter(a, p) + Filter(b, p)
  {
    if a == [] {
      assert a + b == b;
    } else {
      assert (a + b)[0] == a[0];
      assert (a + b)[1..] == a[1..] + b;
      FilterConcat(a[1..], b, p);
      var h := if p(a[0]) then [a[0]] else [];
      calc {
        Filter(a + b, p);
        h + Filter(a[1..] + b, p);
        h + (Filter(a[1..], p) + Filter(b, p));
        (h + Filter(a[1..], p)) + Filter(b, p);
        Filter(a, p) + Filter(b, p);
      }
    }
  }

  /** Filtering a filtered list again by the same predicate changes nothing. */
  lemma {:induction false} FilterIdempotent<T>(s: seq<T>, p: T -> bool)
    ensures Filter(Filter(s, p), p) == Filter(s, p)
  {
    if s != [] {
      FilterIdempotent(s[1..], p);
      var h := if p(s[0]) then [s[0]] else [];
      FilterConcat(h, Filter(s[1..], p), p);
      assert Filter(h, p) == h by {
        if p(s[0]) { assert [s[0]][1..] == []; }
      }
    }
  }

  /** Two predicates that agree everywhere filter alike. */
  lemma {:induction false} FilterAgree<T>(s: seq<T>, p: T -> bool, q: T -> bool)
    requires forall x :: p(x) == q(x)
    ensures Filter(s, p) == Filter(s, q)
  {
    if s != [] {
      FilterAgree(s[1..], p, q);
    }
  }

  /** The distinct values of `s` that pass `p`. */
  ghost function Passing<T>(s: seq<T>, p: T -> bool): set<T> {
    set x | x in s && p(x)
  }

  /** On a list without repeats, `s.filter(p).length` is the number of distinct values that pass. */
  lemma {:induction false} FilterCount<T>(s: seq<T>, p: T -> bool)
    requires Distinct(s)
    ensures |Filter(s, p)| == |Passing(s, p)|
  {
    if s != [] {
      var t := s[1..];
      assert s == [s[0]] + t;
      assert multiset(s) == multiset{s[0]} + multiset(t);
      assert Distinct(t) by {
        forall x | x in t ensures multiset(t)[x] == 1 {
          assert multiset(t)[x] <= multiset(s)[x];
        }
      }
      assert s[0] !in t by {
        assert multiset(s)[s[0]] == 1 + multiset(t)[s[0]];
      }
      FilterCount(t, p);
      var st := Passing(t, p);
      var ss := Passing(s, p);
      var h := if p(s[0]) then [s[0]] else [];
      assert Filter(s, p) == h + Filter(t, p);
      forall x ensures x in s <==> x == s[0] || x in t {
        assert x in s <==> x in [s[0]] + t;
      }
      if p(s[0]) {
        assert ss == st + {s[0]};
        assert s[0] !in st;
      } else {
        assert ss == st;
      }
    }
  }

  // ---------------------------------------------------------------------
  // Row ids and the orders the getters and the admin page sort by.
  // ---------------------------------------------------------------------

  function ContactId(c: Contact): Id { c.id }
  function BookingRequestId(b: BookingRequest): Id { b.id }
  function SlotId(s: AvailabilitySlot): Id { s.id }
  function PatternId(p: RecurringSlot): Id { p.id }
  function BookingId(b: BookingSlot): Id { b.id }

  /** Oldest first (`orderBy(createdAt)`). */
  function ContactOldestFirst(c: Contact): SortKey { SortKey(c.createdAt, "") }
  function BookingOldestFirst(b: BookingSlot): SortKey { SortKey(b.createdAt, "") }

  /** Newest first (`b.createdAt - a.createdAt`). */
  function ContactNewestFirst(c: Contact): SortKey { SortKey(0 - c.createdAt, "") }
  function RequestNewestFirst(b: BookingRequest): SortKey { SortKey(0 - b.createdAt, "") }
  function BookingNewestFirst(b: BookingSlot): SortKey { SortKey(0 - b.createdAt, "") }

  /** By date only. */
  function SlotDateOrder(s: AvailabilitySlot): SortKey { SortKey(s.date, "") }
  /** By date, then by start time. */
  function SlotDateTimeOrder(s: AvailabilitySlot): SortKey { SortKey(s.date, s.startTime) }
  /** By start time only. */
  function SlotStartOrder(s: AvailabilitySlot): SortKey { SortKey(0, s.startTime) }
  /** By the weekday text (`orderBy(dayOfWeek)` on a text column). */
  function PatternDayOrder(p: RecurringSlot): SortKey { SortKey(0, p.dayOfWeek) }
}
