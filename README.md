# TurfPro booking core, modelled in Dafny

TurfPro books one cricket turf by the hour. A Google Apps Script backend keeps
three sheets: Bookings, Blocked and Config. Customers pick one of eighteen
hourly slots (06:00 to 24:00) on the booking screen, upload a payment
screenshot and get a PENDING booking. That booking holds its slot for four
hours (the soft lock) until an admin approves or rejects it. The admin
dashboard shows revenue and counts, filters and exports bookings, blocks
slots and edits prices. An offline mode keeps its own register of bookings on
the device, each CONFIRMED or CANCELLED, and a storage service keeps bookings, prices, blocks,
reviews and the signed-in user in browser storage.

The project has six modules, one file each:

- `common.dfy` (`Common`): the shared values. It has sheet cells (`Cell`: a
  number, a text or blank), `Option`, the client `Booking` record, and
  number-to-text and text-to-number conversion with round-trip lemmas. It
  also has `HH:00` clock strings, `includes`, ASCII case mapping, `split` and
  `join` with a round-trip lemma, `findIndex` (`FirstFrom`) and an
  order-keeping `filter` with its lemmas.
- `backend.dfy` (`Backend`): the spreadsheet backend. Pure functions state
  each operation's outcome on the sheet rows. The class `Spreadsheet` holds
  the three sheets and runs the source's loops over them, and each method is
  proved equal to its outcome function.
- `booking_system.dfy` (`BookingSystem`): the slot grid with its pricing
  rule, the configuration override, and the customer screen's state
  (`BookingForm`).
- `offline_mode.dfy` (`OfflineMode`): the offline register, its booking,
  cancel and clear operations, the admin password, and the component state
  (`OfflineBoard`).
- `storage_service.dfy` (`StorageService`): the browser-storage layer as a
  class (`LocalStore`) with one optional field per storage key.
- `admin_dashboard.dfy` (`AdminDashboard`): the dashboard's figures. These
  are revenue, counts, the seven-day chart (a loop over a map), the search
  filter, row actions, the blocking grid and the CSV export.

Modelling choices:

- Time is an integer number of milliseconds. A timestamp that does not parse
  is `None` (JavaScript's NaN).
- A JavaScript number read with `Number()` is `Option<int>`, with `None` for
  NaN.
- Ids, the clock, the uploaded screenshot's URL, the outcome of image
  compression, the backend's reply and the answers to `confirm()` are
  parameters.
- Every sheet starts with its header row, so row 0 is the header and scans
  start at 1.

Two behaviours of the code worth knowing:

- A PENDING row whose timestamp does not parse frees its slot, both for
  availability and for a new booking: `now - NaN < 4` is false
  (`Backend.WithinHold`, `Backend.ExpiredPendingIsFree`).
- `PricingConfig` in types.ts declares `weekendMultiplier`. The code stores
  `upiId` instead and uses a literal 1.2.

## Model

| member | source | states |
|---|---|---|
| Common.NatToString | components/BookingSystem.tsx:78-79 | `String(n)` of a natural number is a non-empty digit string, and it has exactly one digit iff n < 10 |
| Common.ParseNatToString | components/BookingSystem.tsx:78-79 | reading back the decimal text of n gives n |
| Common.NatToStringInjective | components/BookingSystem.tsx:78-79 | different hours give different decimal texts, so `slot-<hour>` ids never collide |
| Common.Pad2 | components/BookingSystem.tsx:87-88 | `padStart(2, '0')` gives a digit string that reads back as n, two characters long for n < 100 |
| Common.ClockTimeHour | components/BookingSystem.tsx:87-88 | `HH:00` is five characters, its first two read back as the hour, and it ends in `:00` |
| Common.ToNumber | components/BookingSystem.tsx:61-63 | `Number()` of a cell: a number is itself, blank is NaN, a digit string ("" included) is its decimal value, and any other text is NaN |
| Common.Get | components/BookingSystem.tsx:61-63 | a present property reads as its value and a missing one as blank (undefined) |
| Common.IncludesSlice | components/AdminDashboard.tsx:149 | `includes(t)` holds iff t occurs as a slice of the string at some position |
| Common.IncludesEmpty | components/AdminDashboard.tsx:149 | every string includes the empty string |
| Common.Utf16Length | services/storageService.ts:106 | `length` counts UTF-16 code units: between the number of characters and twice it, and equal to it when no character lies above U+FFFF |
| Common.ToLower | components/AdminDashboard.tsx:149 | lower-casing keeps the length, turns each capital A-Z into its lower-case letter (code + 32) and leaves every other character unchanged |
| Common.ToUpper | components/AdminDashboard.tsx:369 | upper-casing keeps the length, turns each letter a-z into its capital (code - 32) and leaves every other character unchanged |
| Common.Split | services/storageService.ts:107 | `split` always yields at least one piece |
| Common.SplitPrefix | services/storageService.ts:107 | a prefix without the separator is glued onto the first piece of the split |
| Common.FirstField | services/storageService.ts:107 | the first piece of a split is the longest separator-free prefix, and the separator follows it when the string is longer |
| Common.JoinExcludes | components/AdminDashboard.tsx:111-114 | a character in no part and different from the separator does not occur in the join |
| Common.SplitJoin | components/AdminDashboard.tsx:111-114 | splitting a join returns the parts when no part contains the separator |
| Common.FirstFrom | services/storageService.ts:32 | `findIndex` from a start index returns the first index whose element passes, or none iff no element from there passes |
| Common.Filter | components/OfflineMode.tsx:60 | `filter` keeps only passing elements, loses none of them, and never grows the list |
| Common.FilterAppend | components/AdminDashboard.tsx:148-152 | filtering distributes over concatenation, so filtering keeps list order |
| Common.FilterAll | components/AdminDashboard.tsx:148-152 | a filter every element passes returns the list unchanged |
| Common.FilterCongruent | components/AdminDashboard.tsx:148-152 | two tests that agree on every element filter to the same list |
| Common.FilterDisjoint | components/AdminDashboard.tsx:55-56 | two tests that never both hold keep at most as many elements together as the list has |
| Common.FilterComplement | components/OfflineMode.tsx:117-122 | a test and its negation split the list into two parts whose sizes and multisets add up to the list |
| Backend.WithinHold | backend/GoogleAppsScript.js:65-76 | definition: a creation time holds at `now` iff it parses and less than four hours (in milliseconds) have passed; NaN never holds |
| Backend.HeldSlotsMember | backend/GoogleAppsScript.js:61-79 | the availability scan lists a slot id iff some scanned row for the date is CONFIRMED or PENDING within four hours for it |
| Backend.Booked | backend/GoogleAppsScript.js:61-79 | definition: the `booked` list, the availability scan over the rows below the header |
| Backend.BookedIff | backend/GoogleAppsScript.js:61-79 | `booked` for a date contains a slot iff some non-header row holds it at `now` |
| Backend.PendingHeldInWindow | backend/GoogleAppsScript.js:70-75 | a PENDING row with a readable timestamp keeps its slot booked for every read in [created, created + 4h) |
| Backend.ExpiredPendingIsFree | backend/GoogleAppsScript.js:65-76 | if no row for a slot is CONFIRMED and every PENDING one is four hours old or unreadable (REJECTED and other rows never count), the slot is not booked |
| Backend.BlockedOnMember | backend/GoogleAppsScript.js:84-88 | the Blocked scan lists a slot id iff some scanned row pairs it with the date |
| Backend.BlockedSlots | backend/GoogleAppsScript.js:84-88 | definition: the `blocked` list, the Blocked scan over the rows below the header |
| Backend.BlockedSlotsIff | backend/GoogleAppsScript.js:84-88 | `blocked` for a date contains a slot iff a non-header Blocked row pairs them |
| Backend.PricingOfKeys | backend/GoogleAppsScript.js:93-95 | the pricing object has exactly the keys of the Config rows, each with the value of the last row carrying it |
| Backend.Pricing | backend/GoogleAppsScript.js:91-95 | definition: the `pricing` object, built from the Config rows below the header |
| Backend.Conflict | backend/GoogleAppsScript.js:115-132 | the re-check finds no conflict iff no row below the header holds the slot, and otherwise returns the message of the first holding row (already booked for CONFIRMED, on hold for PENDING) |
| Backend.NewRow | backend/GoogleAppsScript.js:140-156 | definition: the appended row: the fresh id, the request's date, slot, name, phone and amount, N/A for e-mail, PENDING, the time, the payment id or N/A, and the uploaded URL or N/A |
| Backend.CreateOutcome | backend/GoogleAppsScript.js:115-158 | createBooking refuses iff the slot is in `booked` at the same `now`, with the first conflicting row's message and the sheet unchanged; otherwise it returns the id, appends exactly one PENDING row, and the slot is booked afterwards |
| Backend.CreateHoldsForWindow | backend/GoogleAppsScript.js:140-158 | a new booking keeps its slot booked for every read in [now, now + 4h) while its row stays PENDING |
| Backend.BlockedSlotStillBookable | backend/GoogleAppsScript.js:104-165 | createBooking never reads the Blocked sheet: for any Bookings sheet on which no row holds the slot, a slot that a Blocked row pairs with the date is still accepted, and is then both blocked and booked |
| Backend.SetStatusOutcome | backend/GoogleAppsScript.js:167-181 | updateBookingStatus reports not found iff no row has the id, and then changes nothing; otherwise only the status of the first matching row changes |
| Backend.SetStatusUnique | backend/GoogleAppsScript.js:171-177 | for a row whose id is unique, the update succeeds and changes exactly that row's status |
| Backend.ApprovalCanConfirmTwice | backend/GoogleAppsScript.js:167-181 | nothing re-checks the slot, so two bookings can both be approved and both end up CONFIRMED |
| Backend.ToggleOutcome | backend/GoogleAppsScript.js:196-209 | toggleBlock blocks iff no row pairs (date, slot), and then appends a Manual Block row; otherwise it deletes the first matching row |
| Backend.AppendBlockFlips | backend/GoogleAppsScript.js:207-208 | appending a block makes the pair blocked, leaves other pairs as they were and keeps pairs unique |
| Backend.DeleteBlockFlips | backend/GoogleAppsScript.js:200-204 | deleting a pair's only row unblocks it, leaves other pairs as they were and keeps pairs unique |
| Backend.ToggleFlips | backend/GoogleAppsScript.js:196-209 | on a sheet with one row per pair, a toggle flips the pair's membership, keeps other pairs and keeps uniqueness |
| Backend.ToggleTwice | backend/GoogleAppsScript.js:196-209 | two toggles restore membership, and restore the sheet itself when the pair was absent |
| Backend.UpsertOutcome | backend/GoogleAppsScript.js:211-227 | updatePrice writes the value into the first row carrying the key and changes nothing else; without such a row it appends one row [key, value] |
| Backend.PricingOverwrite | backend/GoogleAppsScript.js:216-221 | overwriting the value of a key's last row changes the pricing object at that key only |
| Backend.PricingAppend | backend/GoogleAppsScript.js:224 | appending [key, value] sets that key in the pricing object and nothing else |
| Backend.PricingShadowed | backend/GoogleAppsScript.js:93-95 | overwriting a row whose key a later row repeats leaves the pricing object unchanged |
| Backend.DuplicateKeyUpdateUnseen | backend/GoogleAppsScript.js:211-227 | with a key on two Config rows, updatePrice edits the first while the pricing read takes the last, so the pricing read back is unchanged |
| Backend.UpsertPricing | backend/GoogleAppsScript.js:211-227 | updatePrice never creates a duplicate key, and the pricing read back is the old one with the key set to the value |
| Backend.Record | backend/GoogleAppsScript.js:262-265 | definition: the object for one row, assigning each header's cell in column order |
| Backend.RecordKeys | backend/GoogleAppsScript.js:262-265 | a row object has one property per header name, holding the cell under the last header with that name |
| Backend.RecordColumns | backend/GoogleAppsScript.js:262-265 | with distinct headers every column lands under its own header |
| Backend.SheetToJson | backend/GoogleAppsScript.js:256-269 | sheetToJson returns one object per row below the header, in order, each built from the header row |
| Backend.Spreadsheet.constructor | backend/GoogleAppsScript.js:11-13 | the three sheets start as given, each with a header row |
| Backend.Spreadsheet.GetAvailability | backend/GoogleAppsScript.js:50-102 | the three scans return exactly `Booked`, `BlockedSlots` and `Pricing` of the sheets |
| Backend.Spreadsheet.CreateBooking | backend/GoogleAppsScript.js:104-165 | the new Bookings sheet and the reply are `CreateOutcome` of the old sheet; Blocked and Config are untouched |
| Backend.Spreadsheet.UpdateBookingStatus | backend/GoogleAppsScript.js:167-181 | the new Bookings sheet and the reply are `SetStatusOutcome`; the other sheets are untouched |
| Backend.Spreadsheet.ToggleBlock | backend/GoogleAppsScript.js:196-209 | the new Blocked sheet and the reply are `ToggleOutcome`; the other sheets are untouched |
| Backend.Spreadsheet.UpdatePrice | backend/GoogleAppsScript.js:211-227 | the new Config sheet is `UpsertOutcome`; the other sheets are untouched |
| BookingSystem.SlotIdHour | components/BookingSystem.tsx:79 | a slot id is `slot-` followed by digits that read back as the hour |
| BookingSystem.WeekendPrice | components/BookingSystem.tsx:84 | the weekend price is the integer nearest to 1.2 times the price (10r - 12p lies in [-5, 5)) |
| BookingSystem.SlotPrice | components/BookingSystem.tsx:81-84 | definition: peakPrice from peakStartHour on and basePrice before (NaN peak hour: never peak), with the weekend surcharge; NaN stays NaN |
| BookingSystem.WeekendSurcharge | components/BookingSystem.tsx:76-84 | a slot's weekend price is its weekday price with the 20% surcharge, rounded, whenever the weekday price is a number |
| BookingSystem.SlotsForDate | components/BookingSystem.tsx:75-96 | getSlotsForDate returns exactly 18 slots |
| BookingSystem.SlotGrid | components/BookingSystem.tsx:78-93 | slot i starts at hour 6 + i and ends an hour later (both `HH:00`), its id names the hour, it is booked or blocked iff its id is listed, it is never pending, and its price is peakPrice from peakStartHour on and basePrice before, with the weekend surcharge |
| BookingSystem.SlotIdsDistinct | components/BookingSystem.tsx:78-79 | no two slots of the grid share an id |
| BookingSystem.OverrideConfig | components/BookingSystem.tsx:60-64 | a fetched value replaces the held one only when truthy; a truthy basePrice brings peakPrice with it (NaN if missing), and without it both prices stay |
| BookingSystem.ZeroPeakHourIgnored | components/BookingSystem.tsx:63 | a stored peak hour of 0 is falsy and never reaches the component |
| BookingSystem.BookingForm.constructor | components/BookingSystem.tsx:19-38 | the initial state: no selection, no error, empty lists, prices 800/1200, UPI id turfpro@upi, peak hour 18 |
| BookingSystem.BookingForm.FetchAvailability | components/BookingSystem.tsx:50-66 | missing lists read as empty, and the pricing object overrides the configuration as `OverrideConfig` says |
| BookingSystem.BookingForm.SelectSlot | components/BookingSystem.tsx:98-104 | a booked or blocked slot changes nothing; otherwise it becomes the selection and success mode and the error are cleared |
| BookingSystem.BookingForm.AttachScreenshot | components/BookingSystem.tsx:130-133 | choosing a file records a screenshot and changes nothing else |
| BookingSystem.BookingForm.Submit | components/BookingSystem.tsx:146-197 | no selection: nothing happens; no screenshot: an error and no request; failed compression: the processing error; otherwise the payload (paymentId defaulting to N/A) is sent; an error reply shows its message or the default and adds no id; success appends the slot id and enters success mode |
| BookingSystem.BookingForm.BookAnother | components/BookingSystem.tsx:222 | the button leaves success mode and clears the selection |
| BookingSystem.SelectingUnavailableSlotHasNoEffect | components/BookingSystem.tsx:91-92 | clicking a grid slot whose id is listed as booked or blocked leaves the selection as it was |
| OfflineMode.Slots | components/OfflineMode.tsx:52-58 | there are 17 slots |
| OfflineMode.SlotHours | components/OfflineMode.tsx:52-58 | slot i runs from hour 6 + i to hour 7 + i as `HH:00` strings, and each slot ends where the next starts |
| OfflineMode.SlotStartsDistinct | components/OfflineMode.tsx:52-58 | no two slots share a start time |
| OfflineMode.ForDate | components/OfflineMode.tsx:60 | definition: getBookingsForDate, the bookings of the date in register order |
| OfflineMode.SlotTaken | components/OfflineMode.tsx:72-75 | definition: isConflict, some booking of the day with that start is CONFIRMED |
| OfflineMode.SlotTakenIff | components/OfflineMode.tsx:60-75 | the conflict test over the day's bookings holds iff some booking is CONFIRMED for that date and start; CANCELLED ones never count |
| OfflineMode.Decide | components/OfflineMode.tsx:62-94 | handleBooking accepts iff a slot is selected, name and phone are non-empty and the slot is not taken, with the three refusal messages in that order; an accepted booking is CONFIRMED with the selected date, start and end |
| OfflineMode.AcceptKeepsUnique | components/OfflineMode.tsx:82-94 | appending an accepted booking keeps at most one CONFIRMED booking per date and start, and the slot is taken afterwards |
| OfflineMode.Cancel | components/OfflineMode.tsx:111-115 | cancelling keeps the length, turns every booking with the id CANCELLED without touching its other fields, and leaves the other bookings as they were |
| OfflineMode.CancelFreesSlot | components/OfflineMode.tsx:111-115 | cancelling a CONFIRMED booking's id keeps the register free of double bookings and frees that booking's slot |
| OfflineMode.CancelIdempotent | components/OfflineMode.tsx:111-115 | cancelling the same id twice is the same as once |
| OfflineMode.ClearDate | components/OfflineMode.tsx:117-122 | definition: clearDate keeps the bookings whose date differs from the selected one |
| OfflineMode.FilterKeepsUnique | components/OfflineMode.tsx:117-122 | removing bookings never creates a double booking |
| OfflineMode.ClearDateEffect | components/OfflineMode.tsx:117-122 | after clearing a date nothing is left on it, and every other date keeps exactly its bookings in order |
| OfflineMode.ClearDateRemovesDay | components/OfflineMode.tsx:117-122 | clearing removes exactly the day's bookings: the kept and the day's bookings together make up the register, as a multiset and by size |
| OfflineMode.ConfirmedCount | components/OfflineMode.tsx:124-125 | the confirmed count never exceeds the day's bookings |
| OfflineMode.AcceptCounts | components/OfflineMode.tsx:82-125 | a new CONFIRMED booking raises its date's count by one and leaves other dates' counts unchanged |
| OfflineMode.AdminLogin | components/OfflineMode.tsx:102-109 | the panel is unlocked afterwards iff it was already unlocked or the input is `turf123`, with the matching message |
| OfflineMode.OfflineBoard.constructor | components/OfflineMode.tsx:20-44 | the register starts as the saved list, with an empty form and the panel locked |
| OfflineMode.OfflineBoard.SelectSlot | components/OfflineMode.tsx:172-179 | a slot button is disabled while its slot is taken; otherwise the slot becomes the selection |
| OfflineMode.OfflineBoard.HandleBooking | components/OfflineMode.tsx:62-100 | a refusal shows its error and changes nothing else; an acceptance appends the record, shows the id and clears the form; the no-double-booking invariant is kept |
| OfflineMode.OfflineBoard.Login | components/OfflineMode.tsx:102-109 | the lock and the message become those of `AdminLogin` |
| OfflineMode.OfflineBoard.CancelBooking | components/OfflineMode.tsx:111-115 | once confirmed, the register becomes `Cancel` of it; the invariant is kept |
| OfflineMode.OfflineBoard.ClearSelectedDate | components/OfflineMode.tsx:117-122 | once confirmed, the selected date's bookings are dropped and the success message shown; the invariant is kept |
| StorageService.DefaultReviews | services/storageService.ts:83-87 | the three seeded reviews have distinct ids and ratings between 1 and 5 |
| StorageService.SetStatus | services/storageService.ts:30-37 | an unknown id writes nothing; otherwise only the status of the first booking with the id changes |
| StorageService.SetStatusIdempotent | services/storageService.ts:30-37 | setting the same status twice is the same as once |
| StorageService.ToggleIn | services/storageService.ts:69-73 | the slot is listed afterwards iff it was not before; removal drops every copy, addition appends it; other ids keep their membership |
| StorageService.ToggleInTwice | services/storageService.ts:69-73 | toggling twice lists exactly what was listed before |
| StorageService.ToggleBlocks | services/storageService.ts:65-75 | only the date's list changes, other dates are untouched, and a date without a list gains one |
| StorageService.EmailName | services/storageService.ts:107 | the name is the part of the email before the first '@' |
| StorageService.Login | services/storageService.ts:99-115 | login succeeds iff the admin credentials are given or the password is at least 3 UTF-16 code units long; the role is ADMIN iff the admin credentials match; a customer gets the fresh id and the email's local part as name |
| StorageService.AdminEmailName | services/storageService.ts:107 | the name taken from the admin address is `admin` |
| StorageService.AdminEmailWrongPassword | services/storageService.ts:102-109 | the admin email with another password of 3 or more characters signs in a customer named `admin` |
| StorageService.SurrogatePairCountsTwice | services/storageService.ts:106 | the two-character password `a` + U+1F600 has length 3 and signs in a customer |
| StorageService.LocalStore.constructor | services/storageService.ts:3-7 | every storage key starts empty |
| StorageService.LocalStore.Bookings | services/storageService.ts:13-16 | getBookings returns the stored list, or an empty list when nothing is stored |
| StorageService.LocalStore.SaveBooking | services/storageService.ts:18-28 | the saved booking copies the fields with the fresh id and timestamp, getBookings afterwards returns the old list plus that booking, and nothing else is stored |
| StorageService.LocalStore.UpdateBookingStatus | services/storageService.ts:30-37 | getBookings afterwards returns `SetStatus` of the old list, or the old list when the id is unknown (nothing is written then) |
| StorageService.LocalStore.Pricing | services/storageService.ts:48-51 | getPricingConfig returns the stored configuration, or the default 800/1200/18/turfpro@upi when nothing is stored |
| StorageService.LocalStore.SavePricingConfig | services/storageService.ts:53-55 | getPricingConfig afterwards returns the saved configuration, and nothing else changes |
| StorageService.LocalStore.Blocked | services/storageService.ts:59-63 | getBlockedSlots returns the stored map, or an empty map when nothing is stored |
| StorageService.LocalStore.ToggleBlockSlot | services/storageService.ts:65-75 | getBlockedSlots afterwards returns `ToggleBlocks` of the old map, and nothing else changes |
| StorageService.LocalStore.GetReviews | services/storageService.ts:79-90 | the stored reviews, or the three defaults, which are then stored |
| StorageService.LocalStore.CurrentUser | services/storageService.ts:94-97 | getCurrentUser returns the stored user, or none |
| StorageService.LocalStore.LoginUser | services/storageService.ts:99-115 | the result is `Login`, and after a successful login getCurrentUser returns that user |
| StorageService.LocalStore.LogoutUser | services/storageService.ts:117-119 | getCurrentUser afterwards returns none, and nothing else changes |
| AdminDashboard.AmountValue | components/AdminDashboard.tsx:54 | definition: `Number(Amount) \|\| 0`, NaN counting as 0 |
| AdminDashboard.TotalRevenue | components/AdminDashboard.tsx:54 | definition: totalRevenue, the reduce adding the amounts of the CONFIRMED bookings |
| AdminDashboard.RevenueIsConfirmedSum | components/AdminDashboard.tsx:54 | total revenue is the sum of `Number(Amount) \|\| 0` over exactly the CONFIRMED bookings |
| AdminDashboard.ConfirmedCount | components/AdminDashboard.tsx:55 | definition: the number of CONFIRMED bookings |
| AdminDashboard.PendingCount | components/AdminDashboard.tsx:56 | definition: the number of PENDING bookings |
| AdminDashboard.CountsBounded | components/AdminDashboard.tsx:55-56 | confirmed plus pending never exceeds the number of bookings |
| AdminDashboard.ConfirmedDatesIff | components/AdminDashboard.tsx:58-64 | a date is a key of the day map iff some CONFIRMED booking falls on it |
| AdminDashboard.ConfirmedDatesDistinct | components/AdminDashboard.tsx:58-64 | no date is a key twice |
| AdminDashboard.RevenueOnUnlisted | components/AdminDashboard.tsx:58-64 | a date without a CONFIRMED booking has no revenue |
| AdminDashboard.Last7DaysData | components/AdminDashboard.tsx:58-69 | the chart has min(7, number of dates) bars, the last dates in first-seen order, each with the sum of that date's confirmed amounts |
| AdminDashboard.FilteredBookings | components/AdminDashboard.tsx:148-152 | the table shows exactly the bookings whose lower-cased name includes the lower-cased term or whose phone includes the term, and whose status matches the filter (ALL matches all) |
| AdminDashboard.FilteredKeepsOrder | components/AdminDashboard.tsx:148-152 | filtering a concatenation gives the filtered parts in order |
| AdminDashboard.EmptySearchShowsAll | components/AdminDashboard.tsx:148-152 | an empty term under ALL shows every booking |
| AdminDashboard.ConfirmedFilterMatchesCount | components/AdminDashboard.tsx:148-152 | an empty term under CONFIRMED shows exactly the bookings the confirmed count counts |
| AdminDashboard.ActionsFor | components/AdminDashboard.tsx:369-392 | Approve and Reject appear iff the upper-cased status is PENDING, the cancel button iff the status is CONFIRMED, never both |
| AdminDashboard.ActionStatus | components/AdminDashboard.tsx:93-107 | only Approve writes CONFIRMED; Reject and the cancel button both write REJECTED |
| AdminDashboard.AnyBlocks | components/AdminDashboard.tsx:509 | definition: `blockedSlots.some(...)` for the date and slot, scanning from the front |
| AdminDashboard.AnyBlocksIff | components/AdminDashboard.tsx:509 | `some` over the blocked rows holds iff a row has that Date and SlotId |
| AdminDashboard.BlockGrid | components/AdminDashboard.tsx:507-509 | the grid has 18 cells |
| AdminDashboard.BlockGridCell | components/AdminDashboard.tsx:507-509 | cell i shows blocked iff some blocked row has the chosen date and SlotId `slot-<6 + i>` |
| AdminDashboard.CsvFields | components/AdminDashboard.tsx:110-113 | each booking yields eight fields, as many as the header has |
| AdminDashboard.CsvContent | components/AdminDashboard.tsx:109-114 | definition: the header line and one comma-joined line per booking, joined by newlines, nothing quoted |
| AdminDashboard.CsvReadsBack | components/AdminDashboard.tsx:109-114 | when no field holds a comma or line break, the export splits back into the header and one line per booking in order, each splitting into that booking's fields |
| AdminDashboard.CommaInNameAddsField | components/AdminDashboard.tsx:111-114 | nothing is quoted, so a comma in a name makes the line read back as nine fields instead of eight |

## Left out

- The script lock (`LockService`) around createBooking. This is concurrency; `Backend.Spreadsheet.CreateBooking` is one atomic step.
- `uploadToDrive` and the Drive and blob services. The uploaded URL is the parameter `uploadedUrl`, and that includes the `Error: ...` text returned on failure.
- The generic `catch` of createBooking, which turns any thrown exception into an error reply. No modelled step throws.
- `doGet`, `doPost` and `response()`. The HTTP plumbing and services/api.ts are not part of this model; approve and reject are `UpdateBookingStatus` with CONFIRMED and REJECTED.
- `getAllData`: its newest-first sort parses timestamps into `Date` values, and the comparator returns NaN for unreadable ones. It is left out; `Backend.SheetToJson` models the objects it returns.
- A sheet without its header row. `appendRow` on an empty sheet writes row 1, which every later scan skips as the header, so the first booking on a fresh sheet never holds its slot; the model assumes every sheet starts with its header row.
- Sheet dates. A date cell is compared as the `YYYY-MM-DD` string the clients send. A cell that Sheets turned into a `Date` value would never equal that string.
- Loose `==` on booking ids in updateBookingStatus is modelled as string equality. A numeric-looking id held as a number cell is not modelled.
- `Common.ToNumber`: reads only unsigned digit strings (and "" as 0). Signs, decimals, whitespace and exponents are not modelled.
- `Common.ToLower`, `Common.ToUpper`: map only the ASCII letters.
- `BookingSystem.WeekendPrice`: uses integer arithmetic for `Math.round(price * 1.2)`. It assumes integer prices and ignores floating-point error; 12p + 5 is never a multiple of 10, so no halfway cases arise.
- The date strip, the weekday computation, `toLocaleDateString`, the five-minute refresh timer, the QR code, image compression and the preview. The weekday is the input `isWeekend`.
- The re-fetch after a booking reply. `BookingForm.FetchAvailability` models it as a separate call.
- `BookingSystem.BookingForm.Submit`: the form reset after success is not modelled because form fields are not part of the state.
- The loading and submitting spinners, beyond the `submitting` flag.
- The admin dashboard's handlers (`refreshData`, `handleSaveSettings`, `handleToggleBlock`, `handleApprove`, `handleReject`). They call the backend operations modelled in `Backend` and then re-fetch; only the status each action writes is modelled (`AdminDashboard.ActionStatus`).
- The settings form's config merge.
- Blob download of the CSV and the file name with today's date.
- The AI features (services/geminiService.ts), App.tsx, Navigation.tsx and index.tsx. These are UI, routing and foreign calls.
- JSON encoding and decoding in browser storage. Storage holds the decoded values; an unreadable saved register in offline mode starts the register empty.
- The 800 ms delay of `loginUser`, `alert()`, and the `confirm()` dialogs. The dialogs are the `confirmed` parameters of the offline admin methods.
- The offline booking id `LOC-` plus base-36 `Date.now()`, and `generateId`. Both are parameters.
- `Object.keys` order in getLast7DaysData is insertion order only for keys that are not array indices. `YYYY-MM-DD` dates never are.
