/**
 * The spreadsheet backend: slot availability with a four-hour soft lock on
 * PENDING bookings, booking creation re-checked under the script lock, status
 * transitions, the manual block toggle, the pricing upsert and the generic
 * sheet-to-records conversion.
 *
 * Each sheet is a sequence of rows exactly as getDataRange().getValues()
 * returns it: row 0 is the header and every scan starts at row 1. Reading an
 * empty sheet still yields one (blank) row, so every sheet has at least one.
 * The clock is a parameter `now` in milliseconds; a creation time that does
 * not parse as a date is None.
 */
module Backend {
  import opened Common

  /** The soft-lock window: (now - created) / (1000 * 60 * 60) < 4, in milliseconds. */
  const HOLD_MS := 4 * 60 * 60 * 1000

  const MSG_BOOKED := "Slot already booked"
  const MSG_ON_HOLD := "Slot is currently on hold (Pending Approval)"
  const MSG_NOT_FOUND := "Booking not found"
  const MANUAL_BLOCK := "Manual Block"

  /** A row of the "Bookings" sheet, columns A to K. */
  datatype BookingRow = BookingRow(
    id: string,
    date: string,
    slotId: string,
    name: string,
    phone: string,
    email: string,
    amount: Cell,
    status: string,
    created: Option<int>,   // the Timestamp column as `new Date(...)` reads it
    paymentId: string,
    screenshotUrl: string)

  /** A row of the "Blocked" sheet. */
  datatype BlockRow = BlockRow(date: string, slotId: string, reason: string)

  /** A row of the "Config" sheet. */
  datatype ConfigRow = ConfigRow(key: string, value: Cell)

  /** The body of a createBooking POST. An absent paymentId is "". */
  datatype BookingRequest = BookingRequest(
    date: string,
    slotId: string,
    name: string,
    phone: string,
    amount: Cell,
    hasImage: bool,
    paymentId: string)

  datatype CreateResponse = Created(bookingId: string) | Refused(message: string)
  datatype StatusResponse = StatusUpdated | BookingNotFound(message: string)
  datatype ToggleResponse = Unblocked | Blocked

  // ---------------------------------------------------------------------------
  // Availability

  /** A creation time still inside the soft lock; an unparsable one (NaN) never is. */
  predicate WithinHold(created: Option<int>, now: int)
  {
    created.Some? && now - created.value < HOLD_MS
  }

  /** Row r makes (date, slotId) unavailable at time now. */
  predicate Holds(r: BookingRow, date: string, slotId: string, now: int)
  {
    && r.date == date
    && r.slotId == slotId
    && (r.status == CONFIRMED || (r.status == PENDING && WithinHold(r.created, now)))
  }

  /** The slot ids pushed by the scan of `rows` for `date`, in row order. */
  function HeldSlots(rows: seq<BookingRow>, date: string, now: int): seq<string>
  {
    if rows == [] then []
    else
      var r := rows[|rows| - 1];
      HeldSlots(rows[..|rows| - 1], date, now) + (if Holds(r, date, r.slotId, now) then [r.slotId] else [])
  }

  /** A slot id is listed exactly when some row holds it. */
  lemma {:induction false} HeldSlotsMember(rows: seq<BookingRow>, date: string, now: int, s: string)
    ensures s in HeldSlots(rows, date, now) <==> exists i :: 0 <= i < |rows| && Holds(rows[i], date, s, now)
    decreases |rows|
  {
    if rows != [] {
      var front := rows[..|rows| - 1];
      HeldSlotsMember(front, date, now, s);
      if exists i :: 0 <= i < |front| && Holds(front[i], date, s, now) {
        var i :| 0 <= i < |front| && Holds(front[i], date, s, now);
        assert rows[i] == front[i];
      }
      if i :| 0 <= i < |rows| && Holds(rows[i], date, s, now) {
        if i < |front| {
          assert front[i] == rows[i];
        }
      }
    }
  }

  /** The `booked` list of getAvailability(date) for a bookings sheet. */
  function Booked(sheet: seq<BookingRow>, date: string, now: int): seq<string>
    requires |sheet| >= 1
  {
    HeldSlots(sheet[1..], date, now)
  }

  /**
   * A slot is reported booked iff some non-header row for that exact date
   * and slot is CONFIRMED, or PENDING and created less than four hours ago.
   */
  lemma BookedIff(sheet: seq<BookingRow>, date: string, now: int, s: string)
    requires |sheet| >= 1
    ensures s in Booked(sheet, date, now) <==> exists i :: 1 <= i < |sheet| && Holds(sheet[i], date, s, now)
  {
    HeldSlotsMember(sheet[1..], date, now, s);
    if exists i :: 0 <= i < |sheet| - 1 && Holds(sheet[1..][i], date, s, now) {
      var i :| 0 <= i < |sheet| - 1 && Holds(sheet[1..][i], date, s, now);
      assert sheet[i + 1] == sheet[1..][i];
    }
    if i :| 1 <= i < |sheet| && Holds(sheet[i], date, s, now) {
      assert sheet[1..][i - 1] == sheet[i];
    }
  }

  /** A PENDING row stays held for every read within four hours of its creation. */
  lemma PendingHeldInWindow(sheet: seq<BookingRow>, k: nat, t: int)
    requires 1 <= k < |sheet|
    requires sheet[k].status == PENDING && sheet[k].created.Some?
    requires sheet[k].created.value <= t < sheet[k].created.value + HOLD_MS
    ensures sheet[k].slotId in Booked(sheet, sheet[k].date, t)
  {
    BookedIff(sheet, sheet[k].date, t, sheet[k].slotId);
    assert Holds(sheet[k], sheet[k].date, sheet[k].slotId, t);
  }

  /**
   * When no row for (date, slotId) is CONFIRMED and every PENDING one is four
   * hours old or carries an unparsable timestamp, the slot is free again.
   */
  lemma ExpiredPendingIsFree(sheet: seq<BookingRow>, date: string, slotId: string, t: int)
    requires |sheet| >= 1
    requires forall i :: 1 <= i < |sheet| && sheet[i].date == date && sheet[i].slotId == slotId ==>
               sheet[i].status != CONFIRMED
               && (sheet[i].status == PENDING ==> sheet[i].created.None? || sheet[i].created.value + HOLD_MS <= t)
    ensures slotId !in Booked(sheet, date, t)
  {
    BookedIff(sheet, date, t, slotId);
  }

  /** The slot ids pushed by the scan of the Blocked rows for `date`. */
  function BlockedOn(rows: seq<BlockRow>, date: string): seq<string>
  {
    if rows == [] then []
    else
      var r := rows[|rows| - 1];
      BlockedOn(rows[..|rows| - 1], date) + (if r.date == date then [r.slotId] else [])
  }

  /** The `blocked` list of getAvailability(date). */
  function BlockedSlots(sheet: seq<BlockRow>, date: string): seq<string>
    requires |sheet| >= 1
  {
    BlockedOn(sheet[1..], date)
  }

  /** (date, slotId) has a row in the Blocked sheet below the header. */
  predicate Paired(sheet: seq<BlockRow>, date: string, slotId: string)
  {
    exists i :: 1 <= i < |sheet| && sheet[i].date == date && sheet[i].slotId == slotId
  }

  lemma {:induction false} BlockedOnMember(rows: seq<BlockRow>, date: string, s: string)
    ensures s in BlockedOn(rows, date) <==> exists i :: 0 <= i < |rows| && rows[i].date == date && rows[i].slotId == s
    decreases |rows|
  {
    if rows != [] {
      var front := rows[..|rows| - 1];
      BlockedOnMember(front, date, s);
      if exists i :: 0 <= i < |front| && front[i].date == date && front[i].slotId == s {
        var i :| 0 <= i < |front| && front[i].date == date && front[i].slotId == s;
        assert rows[i] == front[i];
      }
      if i :| 0 <= i < |rows| && rows[i].date == date && rows[i].slotId == s {
        if i < |front| {
          assert front[i] == rows[i];
        }
      }
    }
  }

  /** getAvailability lists a blocked slot iff a Blocked row pairs it with the date. */
  lemma BlockedSlotsIff(sheet: seq<BlockRow>, date: string, s: string)
    requires |sheet| >= 1
    ensures s in BlockedSlots(sheet, date) <==> Paired(sheet, date, s)
  {
    BlockedOnMember(sheet[1..], date, s);
    if exists i :: 0 <= i < |sheet| - 1 && sheet[1..][i].date == date && sheet[1..][i].slotId == s {
      var i :| 0 <= i < |sheet| - 1 && sheet[1..][i].date == date && sheet[1..][i].slotId == s;
      assert sheet[i + 1] == sheet[1..][i];
    }
    if Paired(sheet, date, s) {
      var i :| 1 <= i < |sheet| && sheet[i].date == date && sheet[i].slotId == s;
      assert sheet[1..][i - 1] == sheet[i];
    }
  }

  /** key has a row among `rows` at index i and no later row repeats it. */
  predicate LastWithKey(rows: seq<ConfigRow>, key: string, i: int)
  {
    0 <= i < |rows| && rows[i].key == key && forall j :: i < j < |rows| ==> rows[j].key != key
  }

  /** The pricing object built from the Config rows: a later row with the same key wins. */
  function PricingOf(rows: seq<ConfigRow>): map<string, Cell>
  {
    if rows == [] then map[]
    else PricingOf(rows[..|rows| - 1])[rows[|rows| - 1].key := rows[|rows| - 1].value]
  }

  /** The pricing object has exactly the keys of the rows, each with the value of its last row. */
  lemma {:induction false} PricingOfKeys(rows: seq<ConfigRow>)
    ensures forall k :: k in PricingOf(rows) <==> exists i :: 0 <= i < |rows| && rows[i].key == k
    ensures forall k :: k in PricingOf(rows) ==> exists i :: LastWithKey(rows, k, i) && PricingOf(rows)[k] == rows[i].value
    decreases |rows|
  {
    if rows != [] {
      var front := rows[..|rows| - 1];
      var last := rows[|rows| - 1];
      PricingOfKeys(front);
      assert forall i :: 0 <= i < |front| ==> rows[i] == front[i];
      assert LastWithKey(rows, last.key, |rows| - 1);
      assert forall k, i :: k != last.key && LastWithKey(front, k, i) ==> LastWithKey(rows, k, i);
    }
  }

  /** The `pricing` object of getAvailability. */
  function Pricing(sheet: seq<ConfigRow>): map<string, Cell>
    requires |sheet| >= 1
  {
    PricingOf(sheet[1..])
  }

  // ---------------------------------------------------------------------------
  // createBooking

  /** The refusal a conflicting row produces. */
  function RefusalFor(r: BookingRow): string
  {
    if r.status == CONFIRMED then MSG_BOOKED else MSG_ON_HOLD
  }

  /** Row j is the first row at or after `from` that holds (date, slotId). */
  predicate FirstHolding(rows: seq<BookingRow>, date: string, slotId: string, now: int, from: nat, j: int)
  {
    && from <= j < |rows|
    && Holds(rows[j], date, slotId, now)
    && forall k :: from <= k < j ==> !Holds(rows[k], date, slotId, now)
  }

  /** The test of the re-check loop, as a value for `FirstFrom`. */
  function HoldsSlot(date: string, slotId: string, now: int): BookingRow -> bool
  {
    (r: BookingRow) => Holds(r, date, slotId, now)
  }

  /** The re-check of createBooking: the message of the first row below the header that holds the slot. */
  function Conflict(sheet: seq<BookingRow>, date: string, slotId: string, now: int): (m: Option<string>)
    requires |sheet| >= 1
    ensures m.None? <==> forall j :: 1 <= j < |sheet| ==> !Holds(sheet[j], date, slotId, now)
    ensures m.Some? ==> exists j :: FirstHolding(sheet, date, slotId, now, 1, j) && m.value == RefusalFor(sheet[j])
  {
    match FirstFrom(sheet, HoldsSlot(date, slotId, now), 1)
    case None => None
    case Some(j) =>
      assert FirstHolding(sheet, date, slotId, now, 1, j);
      Some(RefusalFor(sheet[j]))
  }

  /** The row createBooking appends. */
  function NewRow(req: BookingRequest, now: int, id: string, uploadedUrl: string): BookingRow
  {
    BookingRow(
      id, req.date, req.slotId, req.name, req.phone, NOT_AVAILABLE, req.amount,
      PENDING, Some(now),
      if req.paymentId == "" then NOT_AVAILABLE else req.paymentId,
      if req.hasImage then uploadedUrl else NOT_AVAILABLE)
  }

  /**
   * createBooking as one atomic step: the response and the new Bookings sheet.
   * `id` is the fresh random id and `uploadedUrl` what the upload returned.
   * The Blocked sheet is not an input: it is never consulted.
   */
  function CreateOutcome(sheet: seq<BookingRow>, req: BookingRequest, now: int, id: string, uploadedUrl: string)
    : (out: (CreateResponse, seq<BookingRow>))
    requires |sheet| >= 1
    ensures out.0.Refused? <==> req.slotId in Booked(sheet, req.date, now)
    ensures out.0.Refused? ==> out.1 == sheet
    ensures out.0.Refused? ==> exists j :: FirstHolding(sheet, req.date, req.slotId, now, 1, j) && out.0.message == RefusalFor(sheet[j])
    ensures out.0.Created? ==> out.0.bookingId == id && out.1 == sheet + [NewRow(req, now, id, uploadedUrl)]
    ensures out.0.Created? ==> req.slotId in Booked(out.1, req.date, now)
  {
    BookedIff(sheet, req.date, now, req.slotId);
    match Conflict(sheet, req.date, req.slotId, now)
    case Some(m) => (Refused(m), sheet)
    case None =>
      var after := sheet + [NewRow(req, now, id, uploadedUrl)];
      PendingHeldInWindow(after, |sheet|, now);
      (Created(id), after)
  }

  /** A successful booking keeps its slot booked for every read in [now, now + 4h) while it stays PENDING. */
  lemma CreateHoldsForWindow(sheet: seq<BookingRow>, later: seq<BookingRow>, req: BookingRequest, now: int,
                             id: string, uploadedUrl: string, t: int)
    requires |sheet| >= 1
    requires CreateOutcome(sheet, req, now, id, uploadedUrl).0.Created?
    requires |later| > |sheet| && later[|sheet|] == NewRow(req, now, id, uploadedUrl)
    requires now <= t < now + HOLD_MS
    ensures req.slotId in Booked(later, req.date, t)
  {
    PendingHeldInWindow(later, |sheet|, t);
  }

  /**
   * createBooking never reads the Blocked sheet: a slot the admin blocked for
   * the date is still accepted when no booking holds it.
   */
  lemma BlockedSlotStillBookable(sheet: seq<BookingRow>, blocked: seq<BlockRow>, req: BookingRequest, now: int,
                                 id: string, uploadedUrl: string)
    requires |sheet| >= 1 && |blocked| >= 1
    requires Paired(blocked, req.date, req.slotId)
    requires req.slotId !in Booked(sheet, req.date, now)
    ensures req.slotId in BlockedSlots(blocked, req.date)
    ensures CreateOutcome(sheet, req, now, id, uploadedUrl) == (Created(id), sheet + [NewRow(req, now, id, uploadedUrl)])
    ensures req.slotId in Booked(sheet + [NewRow(req, now, id, uploadedUrl)], req.date, now)
  {
    BlockedSlotsIff(blocked, req.date, req.slotId);
  }

  // ---------------------------------------------------------------------------
  // updateBookingStatus

  /** The first non-header row whose id matches (the loose comparison on strings). */
  function FindBooking(sheet: seq<BookingRow>, bookingId: string): Option<nat>
  {
    FirstFrom(sheet, (r: BookingRow) => r.id == bookingId, 1)
  }

  /** updateBookingStatus: overwrite column H of the first matching row only. */
  function SetStatusOutcome(sheet: seq<BookingRow>, bookingId: string, newStatus: string)
    : (out: (StatusResponse, seq<BookingRow>))
    ensures |out.1| == |sheet|
    ensures out.0.BookingNotFound? <==> forall i :: 1 <= i < |sheet| ==> sheet[i].id != bookingId
    ensures out.0.BookingNotFound? ==> out.1 == sheet && out.0.message == MSG_NOT_FOUND
    ensures out.0.StatusUpdated? ==> exists i :: (1 <= i < |sheet| && sheet[i].id == bookingId
      && (forall j :: 1 <= j < i ==> sheet[j].id != bookingId)
      && out.1 == sheet[i := sheet[i].(status := newStatus)])
  {
    match FindBooking(sheet, bookingId)
    case None => (BookingNotFound(MSG_NOT_FOUND), sheet)
    case Some(i) => (StatusUpdated, sheet[i := sheet[i].(status := newStatus)])
  }

  /** Row i is the only non-header row carrying its id. */
  predicate OnlyWithId(sheet: seq<BookingRow>, i: int)
  {
    1 <= i < |sheet| && forall j :: 1 <= j < |sheet| && j != i ==> sheet[j].id != sheet[i].id
  }

  /** Updating the status of a row whose id is unique changes that row's status and nothing else. */
  lemma SetStatusUnique(sheet: seq<BookingRow>, i: nat, newStatus: string)
    requires OnlyWithId(sheet, i)
    ensures SetStatusOutcome(sheet, sheet[i].id, newStatus) == (StatusUpdated, sheet[i := sheet[i].(status := newStatus)])
  {
    var out := SetStatusOutcome(sheet, sheet[i].id, newStatus);
    assert !out.0.BookingNotFound?;
    var k :| 1 <= k < |sheet| && sheet[k].id == sheet[i].id && out.1 == sheet[k := sheet[k].(status := newStatus)];
    assert k == i;
  }

  /**
   * Approval re-checks nothing: two bookings of the same date and slot can
   * both be approved one after the other, leaving two CONFIRMED rows for one
   * slot.
   */
  lemma ApprovalCanConfirmTwice(sheet: seq<BookingRow>, a: nat, b: nat)
    requires OnlyWithId(sheet, a) && OnlyWithId(sheet, b) && a != b
    ensures var once := SetStatusOutcome(sheet, sheet[a].id, CONFIRMED).1;
      var twice := SetStatusOutcome(once, sheet[b].id, CONFIRMED).1;
      && twice[a] == sheet[a].(status := CONFIRMED)
      && twice[b] == sheet[b].(status := CONFIRMED)
  {
    SetStatusUnique(sheet, a, CONFIRMED);
    var once := sheet[a := sheet[a].(status := CONFIRMED)];
    assert OnlyWithId(once, b);
    SetStatusUnique(once, b, CONFIRMED);
  }

  // ---------------------------------------------------------------------------
  // toggleBlock

  function FindBlock(sheet: seq<BlockRow>, date: string, slotId: string): Option<nat>
  {
    FirstFrom(sheet, (r: BlockRow) => r.date == date && r.slotId == slotId, 1)
  }

  /** toggleBlock: delete the first matching row, or append a manual block. */
  function ToggleOutcome(sheet: seq<BlockRow>, date: string, slotId: string): (out: (ToggleResponse, seq<BlockRow>))
    requires |sheet| >= 1
    ensures |out.1| >= 1 && out.1[0] == sheet[0]
    ensures out.0 == Blocked <==> !Paired(sheet, date, slotId)
    ensures out.0 == Blocked ==> out.1 == sheet + [BlockRow(date, slotId, MANUAL_BLOCK)]
    ensures out.0 == Unblocked ==> exists i :: (1 <= i < |sheet| && sheet[i].date == date && sheet[i].slotId == slotId
      && (forall j :: 1 <= j < i ==> !(sheet[j].date == date && sheet[j].slotId == slotId))
      && out.1 == sheet[..i] + sheet[i + 1..])
  {
    match FindBlock(sheet, date, slotId)
    case Some(i) => (Unblocked, sheet[..i] + sheet[i + 1..])
    case None => (Blocked, sheet + [BlockRow(date, slotId, MANUAL_BLOCK)])
  }

  /** No (date, slotId) pair has two rows in the Blocked sheet. */
  predicate UniquePairs(sheet: seq<BlockRow>)
  {
    forall i, j :: 1 <= i < j < |sheet| ==> !(sheet[i].date == sheet[j].date && sheet[i].slotId == sheet[j].slotId)
  }

  /** Appending a pair that was absent keeps pairs unique and adds only that pair. */
  lemma AppendBlockFlips(sheet: seq<BlockRow>, date: string, slotId: string)
    requires |sheet| >= 1 && UniquePairs(sheet) && !Paired(sheet, date, slotId)
    ensures var after := sheet + [BlockRow(date, slotId, MANUAL_BLOCK)];
      && UniquePairs(after)
      && Paired(after, date, slotId)
      && forall d, s :: !(d == date && s == slotId) ==> (Paired(after, d, s) <==> Paired(sheet, d, s))
  {
    var after := sheet + [BlockRow(date, slotId, MANUAL_BLOCK)];
    assert after[|sheet|] == BlockRow(date, slotId, MANUAL_BLOCK);
    assert forall i :: 0 <= i < |sheet| ==> after[i] == sheet[i];
    forall d, s | !(d == date && s == slotId) && Paired(after, d, s)
      ensures Paired(sheet, d, s)
    {
      var i :| 1 <= i < |after| && after[i].date == d && after[i].slotId == s;
      assert i < |sheet| && sheet[i] == after[i];
    }
  }

  /** Deleting the only row of a pair keeps pairs unique and removes only that pair. */
  lemma DeleteBlockFlips(sheet: seq<BlockRow>, i: nat)
    requires 1 <= i < |sheet| && UniquePairs(sheet)
    ensures var after := sheet[..i] + sheet[i + 1..];
      && UniquePairs(after)
      && !Paired(after, sheet[i].date, sheet[i].slotId)
      && forall d, s :: !(d == sheet[i].date && s == sheet[i].slotId) ==> (Paired(after, d, s) <==> Paired(sheet, d, s))
  {
    var after := sheet[..i] + sheet[i + 1..];
    assert forall j :: 0 <= j < i ==> after[j] == sheet[j];
    assert forall j :: i <= j < |after| ==> after[j] == sheet[j + 1];
    forall d, s | !(d == sheet[i].date && s == sheet[i].slotId)
      ensures Paired(after, d, s) <==> Paired(sheet, d, s)
    {
      if Paired(sheet, d, s) {
        var j :| 1 <= j < |sheet| && sheet[j].date == d && sheet[j].slotId == s;
        if j < i {
          assert after[j] == sheet[j];
        } else {
          assert j > i && after[j - 1] == sheet[j];
        }
      }
      if Paired(after, d, s) {
        var j :| 1 <= j < |after| && after[j].date == d && after[j].slotId == s;
        if j < i {
          assert sheet[j] == after[j];
        } else {
          assert sheet[j + 1] == after[j];
        }
      }
    }
    forall a, b | 1 <= a < b < |after|
      ensures !(after[a].date == after[b].date && after[a].slotId == after[b].slotId)
    {
      var a' := if a < i then a else a + 1;
      var b' := if b < i then b else b + 1;
      assert after[a] == sheet[a'] && after[b] == sheet[b'];
    }
  }

  /**
   * With at most one row per pair, a toggle flips the pair's membership,
   * leaves every other pair as it was and keeps pairs unique.
   */
  lemma ToggleFlips(sheet: seq<BlockRow>, date: string, slotId: string)
    requires |sheet| >= 1 && UniquePairs(sheet)
    ensures var after := ToggleOutcome(sheet, date, slotId).1;
      && UniquePairs(after)
      && (Paired(after, date, slotId) <==> !Paired(sheet, date, slotId))
      && forall d, s :: !(d == date && s == slotId) ==> (Paired(after, d, s) <==> Paired(sheet, d, s))
  {
    var (res, after) := ToggleOutcome(sheet, date, slotId);
    if res == Blocked {
      AppendBlockFlips(sheet, date, slotId);
    } else {
      var i :| 1 <= i < |sheet| && sheet[i].date == date && sheet[i].slotId == slotId
        && after == sheet[..i] + sheet[i + 1..];
      DeleteBlockFlips(sheet, i);
    }
  }

  /**
   * Two toggles restore the pair's membership; for an absent pair they
   * restore the sheet itself.
   */
  lemma ToggleTwice(sheet: seq<BlockRow>, date: string, slotId: string)
    requires |sheet| >= 1 && UniquePairs(sheet)
    ensures var once := ToggleOutcome(sheet, date, slotId).1;
      var twice := ToggleOutcome(once, date, slotId).1;
      && (Paired(twice, date, slotId) <==> Paired(sheet, date, slotId))
      && (!Paired(sheet, date, slotId) ==> twice == sheet)
  {
    var once := ToggleOutcome(sheet, date, slotId).1;
    ToggleFlips(sheet, date, slotId);
    ToggleFlips(once, date, slotId);
    if !Paired(sheet, date, slotId) {
      var twice := ToggleOutcome(once, date, slotId).1;
      assert once == sheet + [BlockRow(date, slotId, MANUAL_BLOCK)];
      assert FindBlock(once, date, slotId) == Some(|sheet|);
      assert twice == once[..|sheet|] + once[|sheet| + 1..];
      assert once[..|sheet|] == sheet;
    }
  }

  // ---------------------------------------------------------------------------
  // updatePrice

  function FindKey(sheet: seq<ConfigRow>, key: string): Option<nat>
  {
    FirstFrom(sheet, (r: ConfigRow) => r.key == key, 1)
  }

  /** updatePrice: overwrite the value of the first row with the key, or append one. */
  function UpsertOutcome(sheet: seq<ConfigRow>, key: string, value: Cell): (after: seq<ConfigRow>)
    requires |sheet| >= 1
    ensures |after| >= 1 && after[0] == sheet[0]
    ensures (exists i :: 1 <= i < |sheet| && sheet[i].key == key) ==>
      exists i :: (1 <= i < |sheet| && sheet[i].key == key
        && (forall j :: 1 <= j < i ==> sheet[j].key != key)
        && after == sheet[i := sheet[i].(value := value)])
    ensures (forall i :: 1 <= i < |sheet| ==> sheet[i].key != key) ==> after == sheet + [ConfigRow(key, value)]
  {
    match FindKey(sheet, key)
    case Some(i) => sheet[i := sheet[i].(value := value)]
    case None => sheet + [ConfigRow(key, value)]
  }

  /** No key has two rows in the Config sheet. */
  predicate UniqueKeys(sheet: seq<ConfigRow>)
  {
    forall i, j :: 1 <= i < j < |sheet| ==> sheet[i].key != sheet[j].key
  }

  /** Overwriting the value of a row whose key no later row repeats updates the pricing object at that key. */
  lemma {:induction false} PricingOverwrite(rows: seq<ConfigRow>, i: nat, value: Cell)
    requires i < |rows|
    requires forall j :: i < j < |rows| ==> rows[j].key != rows[i].key
    ensures PricingOf(rows[i := rows[i].(value := value)]) == PricingOf(rows)[rows[i].key := value]
    decreases |rows|
  {
    var rows' := rows[i := rows[i].(value := value)];
    var n := |rows| - 1;
    assert rows'[..n] == if i == n then rows[..n] else rows[..n][i := rows[i].(value := value)];
    if i < n {
      PricingOverwrite(rows[..n], i, value);
      assert rows[n].key != rows[i].key;
    }
  }

  /** Appending a row for a new key adds exactly that key to the pricing object. */
  lemma PricingAppend(rows: seq<ConfigRow>, key: string, value: Cell)
    ensures PricingOf(rows + [ConfigRow(key, value)]) == PricingOf(rows)[key := value]
  {
    assert (rows + [ConfigRow(key, value)])[..|rows|] == rows;
  }

  /** Overwriting a row whose key a later row repeats leaves the pricing object as it was. */
  lemma {:induction false} PricingShadowed(rows: seq<ConfigRow>, i: nat, j: nat, value: Cell)
    requires i < j < |rows| && rows[j].key == rows[i].key
    ensures PricingOf(rows[i := rows[i].(value := value)]) == PricingOf(rows)
    decreases |rows|
  {
    var rows' := rows[i := rows[i].(value := value)];
    var n := |rows| - 1;
    assert rows'[..n] == rows[..n][i := rows[i].(value := value)];
    assert rows'[n] == rows[n];
    if j < n {
      PricingShadowed(rows[..n], i, j, value);
    } else if k :| i < k < n && rows[k].key == rows[i].key {
      PricingShadowed(rows[..n], i, k, value);
    } else {
      PricingOverwrite(rows[..n], i, value);
    }
  }

  /**
   * With a key on two Config rows, updatePrice edits the first one while the
   * pricing read takes the last one, so the update is not seen.
   */
  lemma DuplicateKeyUpdateUnseen(sheet: seq<ConfigRow>, key: string, value: Cell, a: nat, b: nat)
    requires 1 <= a < b < |sheet| && sheet[a].key == key && sheet[b].key == key
    ensures Pricing(UpsertOutcome(sheet, key, value)) == Pricing(sheet)
  {
    var after := UpsertOutcome(sheet, key, value);
    var i :| 1 <= i < |sheet| && sheet[i].key == key
      && (forall j :: 1 <= j < i ==> sheet[j].key != key)
      && after == sheet[i := sheet[i].(value := value)];
    assert i <= a;
    assert after[1..] == sheet[1..][i - 1 := sheet[1..][i - 1].(value := value)];
    PricingShadowed(sheet[1..], i - 1, b - 1, value);
  }

  /**
   * updatePrice never creates a duplicate key, and on a sheet without
   * duplicates the pricing object afterwards is the old one with key set to value.
   */
  lemma UpsertPricing(sheet: seq<ConfigRow>, key: string, value: Cell)
    requires |sheet| >= 1 && UniqueKeys(sheet)
    ensures UniqueKeys(UpsertOutcome(sheet, key, value))
    ensures Pricing(UpsertOutcome(sheet, key, value)) == Pricing(sheet)[key := value]
  {
    var after := UpsertOutcome(sheet, key, value);
    match FindKey(sheet, key)
    case Some(i) =>
      assert after == sheet[i := sheet[i].(value := value)];
      assert after[1..] == sheet[1..][i - 1 := sheet[1..][i - 1].(value := value)];
      assert forall j :: 1 <= j < |after| ==> after[j].key == sheet[j].key;
      PricingOverwrite(sheet[1..], i - 1, value);
    case None =>
      assert after == sheet + [ConfigRow(key, value)];
      assert after[1..] == sheet[1..] + [ConfigRow(key, value)];
      PricingAppend(sheet[1..], key, value);
  }

  // ---------------------------------------------------------------------------
  // sheetToJson

  function CellAt(row: seq<Cell>, j: nat): Cell
  {
    if j < |row| then row[j] else Blank
  }

  /** header j names a property and no later header repeats the name. */
  predicate LastHeader(headers: seq<Cell>, key: string, j: int)
  {
    0 <= j < |headers| && CellText(headers[j]) == key
    && forall k :: j < k < |headers| ==> CellText(headers[k]) != key
  }

  /** The object built for one data row: row[headers[j]] = data[i][j], later headers winning. */
  function Record(headers: seq<Cell>, row: seq<Cell>): map<string, Cell>
  {
    if headers == [] then map[]
    else Record(headers[..|headers| - 1], row)[CellText(headers[|headers| - 1]) := CellAt(row, |headers| - 1)]
  }

  /** A row object has one property per header name, holding the cell under the last header with that name. */
  lemma {:induction false} RecordKeys(headers: seq<Cell>, row: seq<Cell>)
    ensures forall key :: key in Record(headers, row) <==> exists j :: 0 <= j < |headers| && CellText(headers[j]) == key
    ensures forall key :: key in Record(headers, row) ==>
      exists j :: LastHeader(headers, key, j) && Record(headers, row)[key] == CellAt(row, j)
    decreases |headers|
  {
    if headers != [] {
      var front := headers[..|headers| - 1];
      var n := |headers| - 1;
      RecordKeys(front, row);
      assert forall j :: 0 <= j < |front| ==> headers[j] == front[j];
      assert LastHeader(headers, CellText(headers[n]), n);
      assert forall key, j :: key != CellText(headers[n]) && LastHeader(front, key, j) ==> LastHeader(headers, key, j);
    }
  }

  /** With distinct header names every column lands under its own header. */
  lemma RecordColumns(headers: seq<Cell>, row: seq<Cell>, j: nat)
    requires forall a, b :: 0 <= a < b < |headers| ==> CellText(headers[a]) != CellText(headers[b])
    requires j < |headers|
    ensures CellText(headers[j]) in Record(headers, row)
    ensures Record(headers, row)[CellText(headers[j])] == CellAt(row, j)
  {
    RecordKeys(headers, row);
    var key := CellText(headers[j]);
    assert key in Record(headers, row);
    var j' :| LastHeader(headers, key, j') && Record(headers, row)[key] == CellAt(row, j');
  }

  /** sheetToJson: one object per row below the header, keyed by the header row. */
  method SheetToJson(data: seq<seq<Cell>>) returns (result: seq<map<string, Cell>>)
    ensures |data| >= 1 ==> |result| == |data| - 1
    ensures |data| == 0 ==> result == []
    ensures forall i :: 0 <= i < |result| ==> result[i] == Record(data[0], data[i + 1])
  {
    result := [];
    var i := 1;
    while i < |data|
      invariant 1 <= i && (|data| == 0 || i <= |data|)
      invariant |data| == 0 ==> i == 1
      invariant |result| == i - 1
      invariant forall k :: 0 <= k < |result| ==> result[k] == Record(data[0], data[k + 1])
    {
      var headers := data[0];
      var row: map<string, Cell> := map[];
      var j := 0;
      while j < |headers|
        invariant 0 <= j <= |headers|
        invariant row == Record(headers[..j], data[i])
      {
        assert headers[..j + 1][..j] == headers[..j];
        row := row[CellText(headers[j]) := CellAt(data[i], j)];
        j := j + 1;
      }
      assert headers[..|headers|] == headers;
      result := result + [row];
      i := i + 1;
    }
  }

  // ---------------------------------------------------------------------------
  // The spreadsheet

  class Spreadsheet {
    var bookings: seq<BookingRow>
    var blocked: seq<BlockRow>
    var config: seq<ConfigRow>

    /** Every sheet reads back with at least its header row. */
    predicate Valid()
      reads this
    {
      |bookings| >= 1 && |blocked| >= 1 && |config| >= 1
    }

    constructor (bookings: seq<BookingRow>, blocked: seq<BlockRow>, config: seq<ConfigRow>)
      requires |bookings| >= 1 && |blocked| >= 1 && |config| >= 1
      ensures Valid()
      ensures this.bookings == bookings && this.blocked == blocked && this.config == config
    {
      this.bookings := bookings;
      this.blocked := blocked;
      this.config := config;
    }

    /** getAvailability(date): three scans of the sheets, changing nothing. */
    method GetAvailability(date: string, now: int) returns (booked: seq<string>, blockedIds: seq<string>, pricing: map<string, Cell>)
      requires Valid()
      ensures booked == Booked(bookings, date, now)
      ensures blockedIds == BlockedSlots(blocked, date)
      ensures pricing == Pricing(config)
    {
      booked := [];
      var i := 1;
      while i < |bookings|
        invariant 1 <= i <= |bookings|
        invariant booked == HeldSlots(bookings[1..i], date, now)
      {
        assert bookings[1..i + 1][..i - 1] == bookings[1..i];
        var r := bookings[i];
        if r.date == date {
          if r.status == CONFIRMED {
            booked := booked + [r.slotId];
          } else if r.status == PENDING {
            if WithinHold(r.created, now) {
              booked := booked + [r.slotId];
            }
          }
        }
        i := i + 1;
      }
      assert bookings[1..i] == bookings[1..];

      blockedIds := [];
      i := 1;
      while i < |blocked|
        invariant 1 <= i <= |blocked|
        invariant blockedIds == BlockedOn(blocked[1..i], date)
      {
        assert blocked[1..i + 1][..i - 1] == blocked[1..i];
        if blocked[i].date == date {
          blockedIds := blockedIds + [blocked[i].slotId];
        }
        i := i + 1;
      }
      assert blocked[1..i] == blocked[1..];

      pricing := map[];
      i := 1;
      while i < |config|
        invariant 1 <= i <= |config|
        invariant pricing == PricingOf(config[1..i])
      {
        assert config[1..i + 1][..i - 1] == config[1..i];
        pricing := pricing[config[i].key := config[i].value];
        i := i + 1;
      }
      assert config[1..i] == config[1..];
    }

    /**
     * createBooking, with the script lock held throughout: re-check the slot
     * and append one PENDING row. Only the Bookings sheet is read or written.
     */
    method CreateBooking(req: BookingRequest, now: int, id: string, uploadedUrl: string) returns (res: CreateResponse)
      requires Valid()
      modifies this
      ensures Valid()
      ensures blocked == old(blocked) && config == old(config)
      ensures (res, bookings) == CreateOutcome(old(bookings), req, now, id, uploadedUrl)
    {
      var i := 1;
      while i < |bookings|
        invariant 1 <= i <= |bookings|
        invariant FirstFrom(bookings, HoldsSlot(req.date, req.slotId, now), 1) == FirstFrom(bookings, HoldsSlot(req.date, req.slotId, now), i)
      {
        var r := bookings[i];
        if r.date == req.date && r.slotId == req.slotId {
          if r.status == CONFIRMED {
            assert FirstFrom(bookings, HoldsSlot(req.date, req.slotId, now), i) == Some(i);
            return Refused(MSG_BOOKED);
          }
          if r.status == PENDING {
            if WithinHold(r.created, now) {
              assert FirstFrom(bookings, HoldsSlot(req.date, req.slotId, now), i) == Some(i);
              return Refused(MSG_ON_HOLD);
            }
          }
        }
        i := i + 1;
      }
      var screenshotUrl := NOT_AVAILABLE;
      if req.hasImage {
        screenshotUrl := uploadedUrl;
      }
      assert FirstFrom(bookings, HoldsSlot(req.date, req.slotId, now), i) == None;
      var row := BookingRow(
        id, req.date, req.slotId, req.name, req.phone, NOT_AVAILABLE, req.amount, PENDING, Some(now),
        if req.paymentId == "" then NOT_AVAILABLE else req.paymentId,
        screenshotUrl);
      assert row == NewRow(req, now, id, uploadedUrl);
      bookings := bookings + [row];
      res := Created(id);
    }

    /** updateBookingStatus(bookingId, newStatus), with no check of other rows of the slot. */
    method UpdateBookingStatus(bookingId: string, newStatus: string) returns (res: StatusResponse)
      requires Valid()
      modifies this
      ensures Valid()
      ensures blocked == old(blocked) && config == old(config)
      ensures (res, bookings) == SetStatusOutcome(old(bookings), bookingId, newStatus)
    {
      var i := 1;
      while i < |bookings|
        invariant 1 <= i <= |bookings|
        invariant forall j :: 1 <= j < i ==> bookings[j].id != bookingId
      {
        if bookings[i].id == bookingId {
          bookings := bookings[i := bookings[i].(status := newStatus)];
          return StatusUpdated;
        }
        i := i + 1;
      }
      return BookingNotFound(MSG_NOT_FOUND);
    }

    /** toggleBlock(date, slotId) */
    method ToggleBlock(date: string, slotId: string) returns (res: ToggleResponse)
      requires Valid()
      modifies this
      ensures Valid()
      ensures bookings == old(bookings) && config == old(config)
      ensures (res, blocked) == ToggleOutcome(old(blocked), date, slotId)
    {
      var i := 1;
      while i < |blocked|
        invariant 1 <= i <= |blocked|
        invariant forall j :: 1 <= j < i ==> !(blocked[j].date == date && blocked[j].slotId == slotId)
      {
        if blocked[i].date == date && blocked[i].slotId == slotId {
          blocked := blocked[..i] + blocked[i + 1..];
          return Unblocked;
        }
        i := i + 1;
      }
      blocked := blocked + [BlockRow(date, slotId, MANUAL_BLOCK)];
      return Blocked;
    }

    /** updatePrice(key, value) */
    method UpdatePrice(key: string, value: Cell)
      requires Valid()
      modifies this
      ensures Valid()
      ensures bookings == old(bookings) && blocked == old(blocked)
      ensures config == UpsertOutcome(old(config), key, value)
    {
      var found := false;
      var i := 1;
      while i < |config|
        invariant 1 <= i <= |config|
        invariant config == old(config)
        invariant forall j :: 1 <= j < i ==> config[j].key != key
      {
        if config[i].key == key {
          config := config[i := config[i].(value := value)];
          found := true;
          break;
        }
        i := i + 1;
      }
      if !found {
        config := config + [ConfigRow(key, value)];
      }
    }
  }
}
