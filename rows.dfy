/**
 * The rows the two stores write when something is created: which fields come
 * from the request, which from the column defaults, and how empty optional
 * strings are stored. The database store (`DatabaseStorage`) and the
 * in-memory store (`MemStorage`) differ for availability slots only.
 */
module Rows {
  import opened Js
  import opened Schema

  /**
   * `createAvailabilitySlot` of the database store: the request's fields,
   * `isActive || "true"`, `maxBookings?.toString() || "1"`; a missing
   * description is stored as null, an empty one as "".
   */
  function DbSlotRow(ins: InsertAvailabilitySlot, id: Id, now: int): AvailabilitySlot {
    var isActive := if ins.isActive == None || ins.isActive == Some("") then DefaultIsActive else ins.isActive.value;
    var maxText := NumberToString(ins.maxBookings);
    AvailabilitySlot(id, ins.date, ins.startTime, ins.endTime, ins.description, isActive,
      if maxText == "" then DefaultMaxBookings else maxText, ins.recurringId, now, now)
  }

  /**
   * `createAvailabilitySlot` of the in-memory store: always active, an empty
   * description becomes null, `maxBookings.toString()`.
   */
  function MemSlotRow(ins: InsertAvailabilitySlot, id: Id, now: int): AvailabilitySlot {
    AvailabilitySlot(id, ins.date, ins.startTime, ins.endTime, NullIfEmpty(ins.description), DefaultIsActive,
      NumberToString(ins.maxBookings), ins.recurringId, now, now)
  }

  /** `createRecurringSlot`: numbers written as text, an empty description dropped, always active. */
  function RecurringRow(ins: InsertRecurringSlot, id: Id, now: int): RecurringSlot {
    RecurringSlot(id, IntToString(ins.dayOfWeek), ins.startTime, ins.endTime, NullIfEmpty(ins.description),
      DefaultIsActive, IntToString(ins.maxBookings), ins.validFrom, ins.validUntil, now, now)
  }

  /** `createBookingSlot` (both stores): status "pending", empty phone and notes dropped. */
  function BookingRow(ins: InsertBookingSlot, id: Id, now: int): BookingSlot {
    BookingSlot(id, ins.slotId, ins.customerName, ins.customerEmail, NullIfEmpty(ins.customerPhone),
      DefaultStatus, NullIfEmpty(ins.notes), now, now)
  }

  /** `createBooking` of the in-memory store: a row of its own bookings map. */
  function BookingRequestRow(ins: InsertBooking, id: Id, now: int): BookingRequest {
    BookingRequest(id, ins.email, now)
  }

  const HexDigits: string := "0123456789abcdef"

  predicate IsHexDigit(c: char) {
    '0' <= c <= '9' || 'a' <= c <= 'f'
  }

  /** The value of a lower-case hexadecimal digit. */
  function HexValue(c: char): nat {
    if '0' <= c <= '9' then c as int - '0' as int
    else if 'a' <= c <= 'f' then c as int - 'a' as int + 10
    else 0
  }

  lemma HexDigitReadsBack(k: nat)
    requires k < 16
    ensures IsHexDigit(HexDigits[k]) && HexValue(HexDigits[k]) == k
  {
  }

  /** `n` split into its four base-16 digits, most significant first. */
  lemma HexSplit(n: nat)
    requires n < 0x1_0000
    ensures n / 0x1000 < 16
    ensures (n / 0x1000) * 0x1000 + ((n / 0x100) % 16) * 0x100 + ((n / 0x10) % 16) * 0x10 + n % 16 == n
  {
    var q1 := n / 16;
    var q2 := q1 / 16;
    var q3 := q2 / 16;
    assert n == q1 * 16 + n % 16;
    assert q1 == q2 * 16 + q1 % 16;
    assert q2 == q3 * 16 + q2 % 16;
    assert q2 == n / 0x100;
    assert q3 == n / 0x1000;
  }

  /** Four hexadecimal digits, lower case: `\u00XX` as `JSON.stringify` writes it. */
  function Hex4(n: nat): (s: string)
    requires n < 0x1_0000
    ensures |s| == 4
    ensures IsHexDigit(s[0]) && IsHexDigit(s[1]) && IsHexDigit(s[2]) && IsHexDigit(s[3])
    ensures HexValue(s[0]) * 0x1000 + HexValue(s[1]) * 0x100 + HexValue(s[2]) * 0x10 + HexValue(s[3]) == n
  {
    HexSplit(n);
    HexDigitReadsBack(n / 0x1000);
    HexDigitReadsBack((n / 0x100) % 16);
    HexDigitReadsBack((n / 0x10) % 16);
    HexDigitReadsBack(n % 16);
    [HexDigits[n / 0x1000], HexDigits[(n / 0x100) % 16], HexDigits[(n / 0x10) % 16], HexDigits[n % 16]]
  }

  /** The escape `JSON.stringify` writes for one character of a string. */
  function JsonChar(c: char): (s: string)
    ensures |s| >= 1
  {
    if c == '"' then "\\\""
    else if c == '\\' then "\\\\"
    else if c == '\n' then "\\n"
    else if c == '\r' then "\\r"
    else if c == '\t' then "\\t"
    else if c as int == 8 then "\\b"
    else if c as int == 12 then "\\f"
    else if (c as int) < 0x20 then "\\u" + Hex4(c as int)
    else [c]
  }

  /** A string's body as `JSON.stringify` writes it, without the quotes. */
  function JsonEscape(s: string): (r: string)
    ensures |r| >= |s|
  {
    if s == [] then [] else JsonChar(s[0]) + JsonEscape(s[1..])
  }

  predicate PlainChar(c: char) {
    c != '"' && c != '\\' && (c as int) >= 0x20
  }

  /** `JSON.stringify({ email })`. */
  function BookingJson(ins: InsertBooking): string {
    "{\"email\":\"" + JsonEscape(ins.email) + "\"}"
  }

  const BookingRequestName := "Booking Request"
  const BookingRequestPrefix := "Simple booking request: "

  /**
   * `createBooking` of the database store: a contact submission named
   * "Booking Request" whose message carries the request as JSON.
   */
  function BookingRequestContact(ins: InsertBooking, id: Id, now: int): Contact {
    Contact(id, BookingRequestName, ins.email, BookingRequestPrefix + BookingJson(ins), now)
  }

  // ---------------------------------------------------------------------
  // What the rows promise.
  // ---------------------------------------------------------------------

  /** The column defaults as the create methods apply them. */
  lemma CreateDefaults(s: InsertAvailabilitySlot, p: InsertRecurringSlot, b: InsertBookingSlot, id: Id, now: int)
    ensures BookingRow(b, id, now).status == "pending"
    ensures RecurringRow(p, id, now).isActive == "true"
    ensures MemSlotRow(s, id, now).isActive == "true"
    ensures DbSlotRow(s, id, now).isActive == (if s.isActive == None || s.isActive == Some("") then "true" else s.isActive.value)
    ensures s.isActive == Some("false") ==> DbSlotRow(s, id, now).isActive == "false"
    ensures DbSlotRow(s, id, now).maxBookings != "" && MemSlotRow(s, id, now).maxBookings != ""
  {
  }

  /** Every create stamps the row with its id and with `now` twice. */
  lemma CreateStamps(s: InsertAvailabilitySlot, p: InsertRecurringSlot, b: InsertBookingSlot, id: Id, now: int)
    ensures var r := DbSlotRow(s, id, now); r.id == id && r.createdAt == now && r.updatedAt == now
    ensures var r := MemSlotRow(s, id, now); r.id == id && r.createdAt == now && r.updatedAt == now
    ensures var r := RecurringRow(p, id, now); r.id == id && r.createdAt == now && r.updatedAt == now
    ensures var r := BookingRow(b, id, now); r.id == id && r.createdAt == now && r.updatedAt == now
  {
  }

  /** The numbers a create writes as text read back as the numbers given. */
  lemma NumbersReadBack(s: InsertAvailabilitySlot, p: InsertRecurringSlot, id: Id, now: int)
    ensures ParseInt(DbSlotRow(s, id, now).maxBookings) == s.maxBookings
    ensures ParseInt(MemSlotRow(s, id, now).maxBookings) == s.maxBookings
    ensures ParseInt(RecurringRow(p, id, now).dayOfWeek) == Finite(p.dayOfWeek)
    ensures ParseInt(RecurringRow(p, id, now).maxBookings) == Finite(p.maxBookings)
  {
    ParseIntOfToString(s.maxBookings);
    ParseIntOfToString(Finite(p.dayOfWeek));
    ParseIntOfToString(Finite(p.maxBookings));
  }

  /** The two stores write the same availability row except for the active flag and an empty description. */
  lemma StoresDiffer(s: InsertAvailabilitySlot, id: Id, now: int)
    requires (s.isActive == None || s.isActive == Some("true")) && s.description != Some("")
    ensures DbSlotRow(s, id, now) == MemSlotRow(s, id, now)
    ensures DbSlotRow(s.(isActive := Some("false")), id, now) != MemSlotRow(s.(isActive := Some("false")), id, now)
  {
  }

  /** Characters that need no escape are copied, so an ordinary address is written as it is. */
  lemma {:induction false} JsonEscapePlain(s: string)
    requires forall i :: 0 <= i < |s| ==> PlainChar(s[i])
    ensures JsonEscape(s) == s
  {
    if s != [] {
      JsonEscapePlain(s[1..]);
    }
  }

  lemma BookingRequestMessage(e: string, id: Id, now: int)
    requires forall i :: 0 <= i < |e| ==> PlainChar(e[i])
    ensures BookingRequestContact(InsertBooking(e), id, now).message
         == "Simple booking request: {\"email\":\"" + e + "\"}"
    ensures BookingRequestContact(InsertBooking(e), id, now).name == "Booking Request"
  {
    JsonEscapePlain(e);
  }

  lemma JsonEscapeQuote()
    ensures JsonEscape("a\"b") == "a\\\"b"
  {
  }

  lemma JsonEscapeControl()
    ensures JsonEscape([1 as char]) == "\\u0001"
  {
    assert Hex4(1) == "0001";
  }
}
