# A verified model of the MelringCoaching booking engine

MelringCoaching is a boxing club's web site with a small booking engine behind it. This project models that engine in Dafny and proves properties of the model. The engine has these parts:

- **Weekly patterns** ("recurring slots"). A pattern says, for example, "every Monday, 18:45–20:00, Open Ring, 8 places".
- **Expansion.** Patterns are expanded into dated **availability slots** for the coming two weeks.
- **Bookings** of those slots. A booking is "pending", "confirmed" or "cancelled".
- **Two stores.**
  - `DatabaseStorage` is the store the HTTP routes use.
  - `MemStorage` is an in-memory store with four maps; the seeding script fills it.
- **HTTP routes** on top of the stores. They:
  - compute the free places of each slot of a day;
  - admit a booking only while the slot has no active booking;
  - run an expansion after every change to a pattern;
  - turn errors into status codes.
- **Two pages.**
  - The public booking page adds "virtual" slots built from the patterns, and filters by course.
  - The admin page counts, sorts and labels slots and bookings, and offers the status changes.
- **The input validators** and the column defaults of the four tables.
- **The seeding script.** It creates the club's weekly timetable for the next two weeks.

## How things are represented

| In the engine | In the model |
|---|---|
| Dates (`YYYY-MM-DD`) | Day numbers; `Calendar.Weekday` is `Date#getDay` (0 = Sunday) |
| Times (`HH:MM`) | Strings, ordered code point by code point |
| Text columns holding numbers (`maxBookings`, `dayOfWeek`, `isActive`) | Text, as the tables store them |
| `parseInt` | `Js.ParseInt` on `Js.Number`, which is an integer or `NaN` |
| `toString` | `Js.NumberToString` on `Js.Number` |
| A table | `map<Id, Row>` |
| Fresh ids (`randomUUID`, `gen_random_uuid()`) | A counter `nextId` shared by all tables of a store, so ids are never reused |
| The current time, today's date and the current hour | Parameters |
| zod's e-mail check | A boolean parameter |

Each store is a class whose fields are its four tables and the counter:

- Every method states the store's whole new `State()`.
- Every method keeps `Valid()`: rows are stored under their own ids, and every id is below the counter.
- The getters return rows that are sorted by the source's order, exactly those the query selects, and each only once.

`DatabaseStorage.GenerateAvailabilitySlotsFromRecurring` is the source's pair of nested loops. Its specification is the function `Expansion.ExpandAll`, and the lemmas about `ExpandAll` prove what expansion promises:

- nothing existing is changed;
- no duplicate is created;
- every new slot comes from an active pattern, on a wanted day;
- every wanted day is covered;
- a second run creates nothing.

The admin page's in-place sorts keep their arrays. The seeding loops keep their loops, over a `MemStorage` object.

Expansion starts at `validFrom` (server/db-storage.ts:260-264), not at today, so slots on past days are generated too; `Expansion.InWindow` follows this.

## Model

| member | source | states |
|---|---|---|
| Calendar.WeekdayAfter | server/db-storage.ts:264-265 | Moving k days on moves the weekday k steps round the week. The expansion walk and the seed depend on this. |
| Calendar.Weekday | server/seed-data.ts:10 | `getDay` is in 0..6. |
| Calendar.WeekdayWeekLater | server/seed-data.ts:97-98 | A date seven days later has the same weekday. |
| Js.ParseIntOfToString | server/storage.ts:89 | `parseInt` reads back what `toString` wrote, for every number, NaN included. |
| Js.Minus | server/routes.ts:110 | `maxBookings - count` is NaN exactly when the capacity is NaN, and otherwise the difference. |
| Js.IntToString | server/db-storage.ts:203-204 | `toString` of an integer is never empty and starts with a digit or a minus sign. |
| Js.NumberToString | server/db-storage.ts:100 | `toString` of a number, NaN included, is never empty. |
| Js.ToLower | client/src/components/sections/EnhancedBookingSection.tsx:104 | The model's lower-casing folds the ASCII capitals only, so it keeps the length. |
| Js.Rem | server/seed-data.ts:12 | JavaScript's `%` agrees with the mathematical remainder on a non-negative dividend. |
| Js.LeadingDigits | server/routes.ts:110 | The digits `parseInt` reads: a prefix of the text, all digits, and followed by a non-digit or by nothing. |
| Schema.NullIfEmpty | server/storage.ts:88 | `x \|\| null` is null exactly for a missing or empty string; otherwise it is the string itself. |
| Schema.MergeSlotEmpty | server/db-storage.ts:126-140 | An update with no fields only stamps `updatedAt`. |
| Schema.MergeSlot | server/db-storage.ts:126-140 | A merged slot keeps its id and creation time, and is stamped with the time of the update. |
| Schema.MergeRecurring | server/db-storage.ts:222-236 | A merged pattern keeps its id and creation time, and is stamped with the time of the update. |
| Schema.MergeBooking | server/db-storage.ts:180-194 | A merged booking keeps its id and creation time, and is stamped with the time of the update. |
| Schema.MergeIdempotent | server/db-storage.ts:126-140 | Sending the same update twice, for slots, patterns and bookings, gives the row one sending gives, up to the stamp. |
| Schema.StatusUpdateOnlyStatus | server/db-storage.ts:180-194 | The admin's `{ status }` update changes the status and `updatedAt`, and nothing else. |
| Schema.ShapeChecksOnly | shared/schema.ts:84-86 | The date and time checks look at the shape only: "2024-13-45" and "25:99" pass, "2024-1-05" and "9:30" fail. A pattern ending before it starts passes. |
| Schema.RangeChecks | shared/schema.ts:85-89 | A pattern is valid exactly when its weekday is in 0..6; a capacity of 0 fails. For a slot, `isActive` must be "true" or "false" when given, and the capacity must be a number of at least 1 (0 and NaN fail). |
| Schema.LengthChecks | shared/schema.ts:26-27 | A contact needs a name of at least 2 and a message of at least 10 characters, and a booking a name of at least 2. Both need an accepted e-mail. |
| Rows.CreateDefaults | server/db-storage.ts:93-106 | Creation defaults: a booking is "pending" and a pattern "true". A database slot is active unless "false" was sent; a memory slot is always active. `maxBookings` is never empty. |
| Rows.CreateStamps | server/db-storage.ts:197-213 | Every create stamps the row with its id and the current time twice. |
| Rows.NumbersReadBack | server/db-storage.ts:100 | The capacity and weekday a create writes as text read back, with `parseInt`, as the numbers given. |
| Rows.StoresDiffer | server/storage.ts:81-95 | The two stores write the same slot row unless `isActive` was "false" or the description was empty. With "false", they differ. |
| Rows.JsonEscapePlain | server/db-storage.ts:79 | `JSON.stringify` copies a string that needs no escape. |
| Rows.BookingRequestMessage | server/db-storage.ts:72-83 | A simple booking request is written as a contact named "Booking Request", with message `Simple booking request: {"email":"…"}`. |
| Rows.JsonEscapeQuote | server/db-storage.ts:79 | A quote is escaped with a backslash. |
| Rows.JsonEscapeControl | server/db-storage.ts:79 | A control character without a short escape is written as `\u00XX`. |
| Rows.Hex4 | server/db-storage.ts:79 | The `\u` escape has four lower-case hexadecimal digits, and they read back, most significant first, as the character's code. |
| Rows.JsonEscape | server/db-storage.ts:79 | The escaped text is at least as long as the original. |
| Ordering.SortByKey | client/src/components/admin/AdminBookingManager.tsx:489-497 | The sort's result is sorted by the key and is a permutation of its input. |
| Ordering.InsertByKey | client/src/components/admin/AdminBookingManager.tsx:489-497 | Inserting into a sorted list keeps it sorted and adds exactly that element. |
| Ordering.SortInPlace | client/src/components/admin/AdminBookingManager.tsx:489-497 | The array is reordered in place into the sorted order of its old contents. |
| Ordering.StrLeTotal | server/storage.ts:106 | The order of `HH:MM` texts is total. |
| Ordering.StrLeTrans | server/storage.ts:106 | The order of `HH:MM` texts is transitive. |
| Tables.SelectSorted | server/storage.ts:103-107 | A query returns the rows the filter keeps, each once and no others, sorted by its key. |
| Tables.Filter | server/routes.ts:186 | `filter` keeps exactly the elements that pass, and is no longer than its input. |
| Tables.FilterCount | server/routes.ts:186-188 | On a list without repeats, `filter(p).length` is the number of distinct elements that pass. |
| Tables.FilterIdempotent | client/src/components/sections/EnhancedBookingSection.tsx:102-105 | Filtering twice by the same test is filtering once. |
| Expansion.WindowEnd | server/db-storage.ts:261-262 | The walk's last day is today + 14 or `validUntil`, whichever is earlier. |
| Expansion.GeneratedRowCopies | server/db-storage.ts:280-288 | A generated slot copies the pattern's times, its description (empty becomes null) and its capacity. It is active and sets `recurringId` to the pattern's id. |
| Expansion.OtherSlotsDoNotBlock | server/db-storage.ts:269-279 | A slot of another pattern, or a hand-made one, with the same date and times does not stop generation. |
| Expansion.ExpandDaySpec | server/db-storage.ts:265-289 | One day of the walk keeps every slot and adds no duplicate. It adds only the pattern's slot on a matching day, and after it that day is covered. |
| Expansion.ExpandDaysSpec | server/db-storage.ts:264-291 | The walk over `from`..`to` adds only the pattern's slots, on matching days of that range, and covers every matching day of it. |
| Expansion.ExpandPatternSpec | server/db-storage.ts:257-291 | One pattern: a new slot only on days it is wanted, every wanted day covered, and nothing at all for an inactive pattern. |
| Expansion.ExpandAllSpec | server/db-storage.ts:250-293 | All patterns: nothing old changes, no new duplicate, every new slot is generated from a pattern on a day it is wanted, and every wanted day is covered. |
| Expansion.ExpandAllNoop | server/db-storage.ts:269-279 | When every wanted day already has its slot, expansion changes nothing. |
| Expansion.ExpandDaysNoop | server/db-storage.ts:264-291 | A walk over days that all have their slot adds nothing. |
| Expansion.ExpandTwice | server/db-storage.ts:250-293 | A second run on the same day creates no slot. |
| Expansion.NoSlotsForMissingPattern | server/db-storage.ts:286-287 | Only patterns' own ids appear on new slots. |
| Expansion.GrowsTrans | server/db-storage.ts:250-293 | Keeping the old slots composes over successive runs. |
| Expansion.NoNewDuplicatesTrans | server/db-storage.ts:269-279 | "No new duplicate" composes over successive runs. |
| DbStorage.WithoutPattern | server/db-storage.ts:240-242 | The cascade keeps exactly the slots of other patterns (and the hand-made ones), unchanged. |
| DbStorage.DatabaseStorage.constructor | server/db-storage.ts:51-53 | A new store is empty and valid. |
| DbStorage.DatabaseStorage.CreateContact | server/db-storage.ts:56-62 | Stores the submission under a fresh id; nothing else changes. |
| DbStorage.DatabaseStorage.GetAllContacts | server/db-storage.ts:64-69 | Every submission once, oldest first. |
| DbStorage.DatabaseStorage.CreateBooking | server/db-storage.ts:72-83 | Stores the request as a contact named "Booking Request" under a fresh id. |
| DbStorage.DatabaseStorage.GetAllBookings | server/db-storage.ts:85-90 | The contact table, oldest first. |
| DbStorage.DatabaseStorage.CreateAvailabilitySlot | server/db-storage.ts:93-106 | Adds the row with the defaults applied under a fresh id; nothing else changes. |
| DbStorage.DatabaseStorage.GetAllAvailabilitySlots | server/db-storage.ts:108-113 | Every slot once, by date and then start time. |
| DbStorage.DatabaseStorage.GetAvailabilitySlotsByDate | server/db-storage.ts:115-124 | Exactly the active slots of the date, by start time. |
| DbStorage.DatabaseStorage.UpdateAvailabilitySlot | server/db-storage.ts:126-140 | A missing id gives "Availability slot not found" and changes nothing. Otherwise only that row changes, to the merge stamped with the time. |
| DbStorage.DatabaseStorage.DeleteAvailabilitySlot | server/db-storage.ts:142-146 | Removes that key only; the slot's bookings stay. |
| DbStorage.DatabaseStorage.CreateBookingSlot | server/db-storage.ts:149-163 | Adds a "pending" booking with empty phone and notes dropped; nothing else changes. |
| DbStorage.DatabaseStorage.GetAllBookingSlots | server/db-storage.ts:165-170 | Every booking once, oldest first. |
| DbStorage.DatabaseStorage.GetBookingSlotsBySlotId | server/db-storage.ts:172-178 | Exactly the bookings of the slot, whatever their status, oldest first. |
| DbStorage.DatabaseStorage.UpdateBookingSlot | server/db-storage.ts:180-194 | A missing id gives "Booking slot not found" and changes nothing. Otherwise only that row changes. |
| DbStorage.DatabaseStorage.CreateRecurringSlot | server/db-storage.ts:197-213 | Adds the pattern: numbers as text, always active, empty description dropped. |
| DbStorage.DatabaseStorage.GetAllRecurringSlots | server/db-storage.ts:215-220 | Every pattern once, ordered by the text of its weekday. |
| DbStorage.DatabaseStorage.UpdateRecurringSlot | server/db-storage.ts:222-236 | A missing id gives "Recurring slot not found" and changes nothing. Otherwise only that row changes. |
| DbStorage.DatabaseStorage.DeleteRecurringSlot | server/db-storage.ts:238-248 | Deletes every slot of the pattern, then the pattern. Other slots, patterns, bookings and contacts are unchanged. |
| DbStorage.DatabaseStorage.GenerateForPattern | server/db-storage.ts:260-290 | The day loop of one active pattern, from `validFrom` to the window's end, leaves the slots table and counter as `Expansion.ExpandPattern` of their old values; the other tables are unchanged. |
| DbStorage.DatabaseStorage.GenerateAvailabilitySlotsFromRecurring | server/db-storage.ts:250-293 | The nested loops give the slots table `ExpandAll` describes. They keep existing slots, add no duplicate, add only generated slots, and cover every wanted day. They change nothing when everything is covered, and leave the other tables alone. |
| MemStore.MemStorage.constructor | server/storage.ts:39-44 | Four empty maps. |
| MemStore.MemStorage.CreateContact | server/storage.ts:46-55 | Stores the submission under a fresh id. |
| MemStore.MemStorage.GetAllContacts | server/storage.ts:57-61 | Every submission once, newest first. |
| MemStore.MemStorage.CreateBooking | server/storage.ts:63-72 | Stores the request in its own map under a fresh id. |
| MemStore.MemStorage.GetAllBookings | server/storage.ts:74-78 | Every request once, newest first. |
| MemStore.MemStorage.CreateAvailabilitySlot | server/storage.ts:81-95 | Adds exactly one new key. The slot is always active, with an empty description stored as null and `maxBookings.toString()` as capacity. |
| MemStore.MemStorage.GetAllAvailabilitySlots | server/storage.ts:97-101 | Every slot once, by date. |
| MemStore.MemStorage.GetAvailabilitySlotsByDate | server/storage.ts:103-107 | Exactly the active slots of the date, by start time. |
| MemStore.MemStorage.UpdateAvailabilitySlot | server/storage.ts:109-121 | A missing id throws and changes nothing. Otherwise only that key changes, to the merge stamped with the time. |
| MemStore.MemStorage.DeleteAvailabilitySlot | server/storage.ts:123-125 | Removes only that key; an absent id changes nothing. |
| MemStore.MemStorage.CreateBookingSlot | server/storage.ts:128-142 | Adds a "pending" booking, with empty phone and notes stored as null. |
| MemStore.MemStorage.GetAllBookingSlots | server/storage.ts:144-148 | Every booking once, newest first. |
| MemStore.MemStorage.GetBookingSlotsBySlotId | server/storage.ts:150-154 | Exactly the bookings of the slot, newest first. |
| MemStore.MemStorage.UpdateBookingSlot | server/storage.ts:156-168 | A missing id throws "Booking slot not found" and changes nothing. Otherwise only that key changes. |
| MemStore.CreateThenDelete | server/storage.ts:123-125 | Deleting a slot just created gives the table back. |
| Availability.AnnotateCounts | server/routes.ts:107-118 | For a capacity written as a number: places left = capacity − active bookings, total = capacity, and available exactly when active < capacity. |
| Availability.AnnotateUnreadableCapacity | server/routes.ts:110-115 | A capacity that is not a number gives NaN places, and the slot is not available. |
| Availability.AnnotateCreatedSlot | server/routes.ts:110 | A slot either store created shows the capacity it was created with. |
| Availability.AnnotateExample | server/routes.ts:107-118 | An illustration of `AnnotateCounts`, not a further property: capacity "10" with 3 active bookings gives 7 of 10 free, available; with 10 it is not available. |
| Availability.AdmissionIgnoresCapacity | server/routes.ts:188 | A slot of capacity 10 with one active booking is shown as available and still refuses a booking. A slot of capacity 0 is shown as full and still admits one. |
| Availability.AdmittedImpliesShown | server/routes.ts:185-192 | With a capacity of at least 1, an admitted booking is for a slot shown as available. |
| Availability.ListedActiveCount | server/routes.ts:109-110 | Counting the non-cancelled entries of the slot's booking listing counts the slot's active bookings. |
| Availability.CancelFreesPlace | server/routes.ts:205-209 | Cancelling an active booking frees exactly one place. |
| Routes.ErrorStatusCases | server/routes.ts:143-156 | Every error gives 400, 404 or 500. 400 exactly for a validation failure on a validating route; 404 exactly for that route's not-found message. |
| Routes.NotFoundErrorsAre404 | server/routes.ts:260-267 | The stores' not-found messages are the ones the update routes answer with 404. Another message, or a validation error on an update route, gives 500. |
| Routes.SlotsOf | server/routes.ts:111-116 | The slots of an annotated listing, one per entry in order. |
| Routes.AnnotateFromStore | server/routes.ts:108-117 | One slot annotated from its booking listing is `Annotate` with its active-booking count. |
| Routes.GetAvailabilityByDate | server/routes.ts:101-125 | Exactly the active slots of the date, by start time, each carrying places = capacity − active bookings. |
| Routes.PostBookingSlot | server/routes.ts:180-203 | 200 exactly when the input is valid and the slot has no active booking, and then exactly one "pending" booking is created. Otherwise 400 and nothing changes. |
| Routes.PostAvailabilitySlot | server/routes.ts:127-141 | 200 and one new slot exactly when the input validates; otherwise 400 and nothing changes. |
| Routes.PostRecurringSlot | server/routes.ts:231-249 | 200 exactly when the `validFrom` text (and `validUntil`, when given) has the `YYYY-MM-DD` shape and the pattern is valid (shared/schema.ts:115-121); otherwise 400 and nothing changes. A valid pattern is created, then one expansion runs before the answer: old slots kept, no duplicate, new slots generated, every wanted day covered. |
| Routes.PutRecurringSlot | server/routes.ts:251-268 | A missing pattern gives 404 with no expansion and no change. Otherwise the pattern is updated and one expansion follows: old slots kept, no duplicate, every new slot generated from an active pattern on a wanted day, every wanted day covered, contacts and bookings unchanged. |
| Routes.PutAvailabilitySlot | server/routes.ts:143-156 | 404 exactly for a missing slot, and nothing changes; otherwise 200 and only that slot is merged. |
| Routes.PutBookingSlot | server/routes.ts:205-218 | 404 exactly for a missing booking, and nothing changes; otherwise 200 and only that booking is merged. |
| Routes.DeleteRecurringSlot | server/routes.ts:270-279 | 204, with the cascade applied. |
| Routes.Generate | server/routes.ts:281-289 | 200 after one expansion: contacts, bookings and patterns unchanged, old slots kept, no duplicate, every new slot generated from an active pattern on a wanted day, every wanted day covered, and no change when everything was covered. |
| Routes.DeletedPatternStaysGone | server/db-storage.ts:238-248 | After the cascade, a later expansion never brings back a slot of the deleted pattern. |
| Seed.NextDayOfWeekSpec | server/seed-data.ts:12-18 | The result is 0–7 days after today and on the requested weekday. It is 7 days on exactly when today is that weekday and the hour is 20 or later. No earlier day qualifies. |
| Seed.TimetableDays | server/seed-data.ts:22-92 | Seven timetable entries, with seven different weekdays, each in 0..6. |
| Seed.WeeklyScheduleSize | server/seed-data.ts:22-92 | The timetable has 27 classes. |
| Seed.SeedAttemptsCount | server/seed-data.ts:95-118 | The attempts are (weeks × classes): one per class per week offset. |
| Seed.WeekAttemptsCount | server/seed-data.ts:96-117 | One week offset makes one attempt per class of the timetable. |
| Seed.FiftyFourAttempts | server/seed-data.ts:95-118 | The script makes 2 × 27 = 54 creation attempts. |
| Seed.NextWeekIsShifted | server/seed-data.ts:95-98 | The attempts of week offset 1 are those of week offset 0, seven days later. |
| Seed.ShiftWeek | server/seed-data.ts:98 | Moving a week on moves every attempt seven days and keeps the rest of it. |
| Seed.WeekAttemptsDates | server/seed-data.ts:96-98 | Each attempt of a week is on its day's weekday, within that week's eight-day window. |
| Seed.SeedWindowOf | server/seed-data.ts:95-98 | For any timetable with weekdays 0..6, all seeded dates fall between today and today + 14. |
| Seed.SeedWindow | server/seed-data.ts:95-98 | All seeded slots of the club's timetable fall between today and today + 14. |
| Seed.DayAttempts | server/seed-data.ts:102-109 | One attempt per class of the day, in order, each with the class's times, description and capacity. |
| Seed.MemInsertAllSpec | server/seed-data.ts:111-112 | Creating the attempts in order adds one row per attempt under the next ids and keeps the old rows. |
| Seed.MemInsertAllConcat | server/seed-data.ts:95-102 | Creating one run of attempts after another is creating their concatenation. |
| Seed.TimetableDescribed | server/seed-data.ts:22-92 | Every class of the timetable has a description. |
| Seed.SeedAttemptsDescribed | server/seed-data.ts:103-109 | Every attempt carries its class's non-empty description. |
| Seed.CreatedRowsReadBack | server/storage.ts:81-95 | Each row created from a described attempt is active, reads back its capacity, and keeps its date, times and description. |
| Seed.SeededSlotsAreActive | server/seed-data.ts:95-118 | Every seeded slot is active and keeps its class's capacity, date, times and description. |
| Seed.SeedDay | server/seed-data.ts:102-117 | The inner loop creates the day's classes in order; nothing but the slots table and the counter changes. |
| Seed.SeedWeek | server/seed-data.ts:96-118 | The middle loop creates one week offset's attempts in order. |
| Seed.SeedInitialData | server/seed-data.ts:3-122 | The script leaves the store holding the old rows plus one row per attempt, created in order; nothing else changes. |
| BookingSection.ConcreteAll | client/src/components/sections/EnhancedBookingSection.tsx:65-66 | The server's slots, one display entry each, in order. |
| BookingSection.VirtualAll | client/src/components/sections/EnhancedBookingSection.tsx:83-96 | One virtual slot per pattern, in order. |
| BookingSection.VirtualSlotsSpec | client/src/components/sections/EnhancedBookingSection.tsx:76-96 | Exactly the active patterns of the date's weekday give a virtual slot: every virtual slot comes from one, and every one gives a virtual slot. |
| BookingSection.VirtualSlotsFree | client/src/components/sections/EnhancedBookingSection.tsx:83-96 | Every virtual slot is on the chosen date, available, and marked recurring, with free places = total = `parseInt(maxBookings)`. |
| BookingSection.ShownOnWeekly | client/src/components/sections/EnhancedBookingSection.tsx:73-81 | A pattern is shown on a date exactly when it is shown a week later. |
| BookingSection.DaySlotsUnfiltered | client/src/components/sections/EnhancedBookingSection.tsx:99-108 | With no course, the list is the concrete slots in the server's order, followed by the virtual ones. |
| BookingSection.FilterByCourseSpec | client/src/components/sections/EnhancedBookingSection.tsx:102-105 | With a course, a slot is kept exactly when it has a non-empty description that contains the course, case aside. |
| BookingSection.FilterIgnoresCase | client/src/components/sections/EnhancedBookingSection.tsx:104 | The course written in any case selects the same slots. |
| BookingSection.FilterByCourseIdempotent | client/src/components/sections/EnhancedBookingSection.tsx:102-108 | Filtering twice by the same course is filtering once. |
| BookingSection.OwnCourseMatches | client/src/components/sections/EnhancedBookingSection.tsx:104 | A slot described exactly by the course is kept. |
| BookingSection.ToLowerIdempotent | client/src/components/sections/EnhancedBookingSection.tsx:104 | Lower-casing twice is lower-casing once. |
| BookingSection.StatusAgrees | client/src/components/sections/EnhancedBookingSection.tsx:174-184 | The colour and the text follow the same three cases, in both directions. |
| BookingSection.ConcreteStatus | client/src/components/sections/EnhancedBookingSection.tsx:180-184 | For a server slot: "Complet" exactly when every place is taken; "Disponible" when none is; otherwise "N place(s) restante(s)" with N = capacity − active. |
| BookingSection.VirtualStatus | client/src/components/sections/EnhancedBookingSection.tsx:180-184 | A virtual slot is "Disponible" (or "Complet" at capacity 0), never partly booked. A capacity that is not a number gives "NaN place(s) restante(s)". |
| BookingSection.FirstMatchSpec | client/src/components/sections/EnhancedBookingSection.tsx:189-196 | With no key occurring, the result is the fallback. Otherwise it is the value of the first key that occurs. |
| BookingSection.CourseColorSpec | client/src/components/sections/EnhancedBookingSection.tsx:186-197 | "default" for no description. Otherwise the colour of the first course in table order that the description names, or "bg-primary". |
| BookingSection.CourseVariantSpec | client/src/components/sections/EnhancedBookingSection.tsx:199-210 | "default" for no description. Otherwise the variant of the first course in table order that the description names, or "default". |
| BookingSection.CourseNameColors | client/src/components/sections/EnhancedBookingSection.tsx:186-210 | No course name contains an earlier one, so a description that lowers to a course's name (a filter button's label, EnhancedBookingSection.tsx:336) gets that course's colour and badge variant. |
| BookingSection.ShortDescriptionColor | client/src/components/sections/EnhancedBookingSection.tsx:186-210 | A non-empty description shorter than every course name gets "bg-primary" and the "default" badge. |
| BookingSection.UpTo | client/src/components/sections/EnhancedBookingSection.tsx:170 | The first `split(":")` part: the longest prefix without ':', followed by ':' or by nothing. |
| BookingSection.FormatTimeKeepsTwoParts | client/src/components/sections/EnhancedBookingSection.tsx:169-172 | `formatTime` keeps the first two ":"-parts and drops the rest. |
| BookingSection.FormatTimeOfValid | client/src/components/sections/EnhancedBookingSection.tsx:169-172 | A validated `HH:MM` is shown as it is, and `HH:MM:SS` loses its seconds. |
| BookingSection.FormatTimeIdempotent | client/src/components/sections/EnhancedBookingSection.tsx:169-172 | Formatting a time that has a ':' twice is formatting it once. |
| AdminManager.BookingCountMatchesServer | client/src/components/admin/AdminBookingManager.tsx:462-464 | On a listing of all bookings, the page's count per slot is the number of active bookings the server subtracts. |
| AdminManager.SortSlots | client/src/components/admin/AdminBookingManager.tsx:489-493 | In place, as a permutation: by date, and by start time on equal dates. |
| AdminManager.SortBookings | client/src/components/admin/AdminBookingManager.tsx:495-497 | In place, as a permutation: newest first. |
| AdminManager.SortedSlotsOrder | client/src/components/admin/AdminBookingManager.tsx:489-493 | What the slot order means, pair by pair. |
| AdminManager.SortedBookingsOrder | client/src/components/admin/AdminBookingManager.tsx:495-497 | What the booking order means, pair by pair. |
| AdminManager.DayOfWeekTextSpec | client/src/components/admin/AdminBookingManager.tsx:484-487 | A stored weekday 0..6 is shown by its French name, Dimanche..Samedi. Text that reads as no number in 0..6 is shown as it is. |
| AdminManager.PatternDayLabel | client/src/components/admin/AdminBookingManager.tsx:484-487 | A pattern label names the weekday of every day the pattern is expanded on. |
| AdminManager.AdminStatusTextSpec | client/src/components/admin/AdminBookingManager.tsx:466-482 | Unknown statuses pass through. The three known ones get labels other than the status names. The colour is "destructive" exactly for "cancelled". |
| AdminManager.ActionsSpec | client/src/components/admin/AdminBookingManager.tsx:873-917 | The transitions offered, both ways: pending to confirmed or cancelled, confirmed to cancelled, cancelled to confirmed, and nothing else. |
| AdminManager.ActionsMove | client/src/components/admin/AdminBookingManager.tsx:873-917 | No button keeps the status, and none goes back to pending. |
| AdminManager.ReactivateTakesPlace | client/src/components/admin/AdminBookingManager.tsx:907-916 | Reactivating a cancelled booking adds one to its slot's active count. |
| AdminManager.ReactivationPassesAdmissionLimit | client/src/components/admin/AdminBookingManager.tsx:907-916 | A slot holding one confirmed booking admits no more, yet reactivating its cancelled booking brings it to two active bookings. |
| AdminManager.DescriptionStored | client/src/components/admin/AdminBookingManager.tsx:728-731 | A pattern created with "none" (or "") is stored without description; any other text is kept. |

## Left out

- Dates: JavaScript `Date`, time zones, `toISOString` shifting to UTC, `setDate` overflow and parsing of `YYYY-MM-DD` text. The model uses day numbers with a weekday function. `Schema.IsDateText` checks the text's shape on its own, and request records already carry days.
- Js.ToLower: folds the ASCII capitals only. `String#toLowerCase` also lowers non-ASCII letters ("É" to "é") and can change a string's length ("İ" becomes two code units), so for free-text slot descriptions with such letters the course filter and colours of the model may differ from the page's. The course names the page lists are ASCII.
- The current time, today and the hour are parameters. One expansion run uses a single `now` for every slot it creates.
- Ids: `randomUUID` and `gen_random_uuid()` are a counter shared by all tables of a store.
- Sorting:
  - `Ordering.SortByKey` is an insertion sort. It fixes one order among rows with equal keys, where JavaScript's stable sort and the database may choose another.
  - `localeCompare` is modelled as code-point order.
  - The order in which a `Map` or a table yields rows is not modelled; membership and the sort order are.
- Partial updates are modelled as records of "keep or set" fields. A body that sets `id`, `createdAt` or unknown fields, or that sends `null`, is not modelled.
- Validation:
  - zod's e-mail check is a boolean parameter. Its other error messages are not modelled.
  - `Number()` coercion of `maxBookings` and `dayOfWeek`: the insert records hold the parsed numbers (`Js.Number` for a slot's capacity, `int` for a pattern's).
  - `insertBookingSchema`: the e-mail check is its whole content, so it adds nothing beyond the boolean.
- `Js.ParseInt`: reads ASCII spaces, tab and line breaks as leading white space, not every Unicode space. Numbers other than integers and NaN are not modelled.
- `Rows.JsonEscape`: lone surrogates are copied, not escaped as `JSON.stringify` does.
- `Rows.DbSlotRow`: the `|| "1"` fallback for `maxBookings` is unreachable, because `toString` never gives "". The model keeps it.
- Seeding:
  - The `catch` around each creation (server/seed-data.ts:111-116) is not modelled. The in-memory create never throws, so every attempt is created, and the loop goes on either way.
  - The log lines are left out.
- Seed.SeedInitialData: runs on a `MemStorage` value passed in. That is the store behind `storage` (server/storage.ts:171), not the database.
- Routes:
  - `GET` routes that only return a getter's result, `POST /api/contact`, `POST /api/booking` and the health check are not modelled as handlers.
  - `DELETE /api/availability-slots/:id` is not modelled as a handler either.
  - The stores' methods, which those routes only call and return, are modelled.
- Races: two requests that both pass the existence check or the admission check at the same time are not modelled. Every request runs alone.
- Pages:
  - React state, queries, forms and rendering are left out.
  - `getDayName`, whose only logic is one array lookup, is left out.
  - The admin page's `formatTime` is the same function as the booking page's, modelled once (`BookingSection.FormatTime`).
- BookingSection.Virtual: the virtual slot carries the pattern's id, as the page does. Booking a virtual slot therefore books under a pattern id; the model does not follow that further.
- The e-mail service, the database connection, the server bootstrap and the admin login are outside this model.
