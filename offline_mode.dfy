/**
 * Offline mode: a booking register kept on the device. Slots are identified by
 * their start time, a slot is taken on a date when a CONFIRMED booking for that
 * date starts there, and a password-unlocked admin panel cancels bookings or
 * clears a whole date.
 *
 * The clock (booking id and creation time), the confirm() dialogs and the
 * device storage are parameters; the register itself is the `bookings` field.
 */
module OfflineMode {
  import opened Common

  const ADMIN_PASS := "turf123"
  const FIRST_HOUR := 6
  const SLOT_COUNT := 17

  const MSG_SELECT_SLOT := "Please select a time slot."
  const MSG_REQUIRED := "Name and Phone are required."
  const MSG_TAKEN := "Slot already booked!"
  const MSG_CONFIRMED := "Booking Confirmed! ID: "
  const MSG_UNLOCKED := "Admin Mode Unlocked"
  const MSG_WRONG_PASSWORD := "Incorrect Password"
  const MSG_DAY_CLEARED := "Day cleared successfully."

  datatype LocalStatus = Confirmed | Cancelled

  datatype LocalBooking = LocalBooking(
    id: string,
    date: string,
    start: string,
    end: string,
    name: string,
    phone: string,
    note: string,
    status: LocalStatus,
    createdAt: string)

  datatype SlotTimes = SlotTimes(start: string, end: string)

  /** The banner under the form. */
  datatype Message = Message(text: string, success: bool)

  /** The 17 one-hour slots, 06:00-07:00 up to 22:00-23:00. */
  function Slots(): (slots: seq<SlotTimes>)
    ensures |slots| == SLOT_COUNT
  {
    seq(SLOT_COUNT, i requires 0 <= i < SLOT_COUNT => SlotTimes(ClockTime(FIRST_HOUR + i), ClockTime(FIRST_HOUR + i + 1)))
  }

  /** Slot i runs from hour 6 + i to the next hour, and each slot ends where the next one starts. */
  lemma SlotHours(i: nat)
    requires i < SLOT_COUNT
    ensures |Slots()[i].start| == 5 && AllDigits(Slots()[i].start[..2])
    ensures ParseDigits(Slots()[i].start[..2]) == FIRST_HOUR + i
    ensures |Slots()[i].end| == 5 && AllDigits(Slots()[i].end[..2])
    ensures ParseDigits(Slots()[i].end[..2]) == FIRST_HOUR + i + 1
    ensures i + 1 < SLOT_COUNT ==> Slots()[i].end == Slots()[i + 1].start
  {
    ClockTimeHour(FIRST_HOUR + i);
    ClockTimeHour(FIRST_HOUR + i + 1);
  }

  /** No two slots share a start time, so the start identifies the slot. */
  lemma SlotStartsDistinct(i: nat, j: nat)
    requires i < j < SLOT_COUNT
    ensures Slots()[i].start != Slots()[j].start
  {
    SlotHours(i);
    SlotHours(j);
  }

  /** The filter tests of getBookingsForDate and clearDate. */
  function OnDate(date: string): LocalBooking -> bool
  {
    (b: LocalBooking) => b.date == date
  }

  function NotOnDate(date: string): LocalBooking -> bool
  {
    (b: LocalBooking) => b.date != date
  }

  /** getBookingsForDate. */
  function ForDate(bookings: seq<LocalBooking>, date: string): seq<LocalBooking>
  {
    Filter(bookings, OnDate(date))
  }

  /** Booking b holds the slot starting at `start` on `date`. */
  predicate Occupies(b: LocalBooking, date: string, start: string)
  {
    b.date == date && b.start == start && b.status == Confirmed
  }

  /** The conflict test of handleBooking and the slot grid: scan the day's bookings. */
  predicate SlotTaken(bookings: seq<LocalBooking>, date: string, start: string)
  {
    var today := ForDate(bookings, date);
    exists k :: 0 <= k < |today| && today[k].start == start && today[k].status == Confirmed
  }

  /** A slot is taken exactly when some booking in the whole register occupies it. */
  lemma SlotTakenIff(bookings: seq<LocalBooking>, date: string, start: string)
    ensures SlotTaken(bookings, date, start) <==> exists k :: 0 <= k < |bookings| && Occupies(bookings[k], date, start)
  {
    var today := ForDate(bookings, date);
    if SlotTaken(bookings, date, start) {
      var k :| 0 <= k < |today| && today[k].start == start && today[k].status == Confirmed;
      var m :| 0 <= m < |bookings| && bookings[m] == today[k];
      assert Occupies(bookings[m], date, start);
    }
    if exists k :: 0 <= k < |bookings| && Occupies(bookings[k], date, start) {
      var k :| 0 <= k < |bookings| && Occupies(bookings[k], date, start);
      var m :| 0 <= m < |today| && today[m] == bookings[k];
      assert today[m].start == start && today[m].status == Confirmed;
    }
  }

  /** Two bookings that both hold the same slot of the same date. */
  predicate Clash(a: LocalBooking, b: LocalBooking)
  {
    a.status == Confirmed && b.status == Confirmed && a.date == b.date && a.start == b.start
  }

  /** At most one CONFIRMED booking per date and start time. */
  predicate UniqueConfirmed(bookings: seq<LocalBooking>)
  {
    forall i, j :: 0 <= i < j < |bookings| ==> !Clash(bookings[i], bookings[j])
  }

  datatype BookingDecision = Refused(text: string) | Accepted(booking: LocalBooking)

  /**
   * handleBooking: the guards in order (a slot, a name and a phone, no
   * CONFIRMED booking at that start on that date), then the new CONFIRMED
   * record.
   */
  function Decide(bookings: seq<LocalBooking>, date: string, selected: Option<SlotTimes>,
                  name: string, phone: string, note: string, id: string, createdAt: string): (r: BookingDecision)
    ensures r.Accepted? <==> selected.Some? && name != "" && phone != "" && !SlotTaken(bookings, date, selected.value.start)
    ensures selected.None? ==> r == Refused(MSG_SELECT_SLOT)
    ensures selected.Some? && (name == "" || phone == "") ==> r == Refused(MSG_REQUIRED)
    ensures selected.Some? && name != "" && phone != "" && SlotTaken(bookings, date, selected.value.start) ==>
      r == Refused(MSG_TAKEN)
    ensures r.Accepted? ==>
      r.booking == LocalBooking(id, date, selected.value.start, selected.value.end, name, phone, note, Confirmed, createdAt)
  {
    if selected.None? then Refused(MSG_SELECT_SLOT)
    else if name == "" || phone == "" then Refused(MSG_REQUIRED)
    else if SlotTaken(bookings, date, selected.value.start) then Refused(MSG_TAKEN)
    else Accepted(LocalBooking(id, date, selected.value.start, selected.value.end, name, phone, note, Confirmed, createdAt))
  }

  /** An accepted booking never double-books a slot, and afterwards its slot is taken. */
  lemma AcceptKeepsUnique(bookings: seq<LocalBooking>, date: string, selected: Option<SlotTimes>,
                          name: string, phone: string, note: string, id: string, createdAt: string)
    requires UniqueConfirmed(bookings)
    requires Decide(bookings, date, selected, name, phone, note, id, createdAt).Accepted?
    ensures var after := bookings + [Decide(bookings, date, selected, name, phone, note, id, createdAt).booking];
      UniqueConfirmed(after) && SlotTaken(after, date, selected.value.start)
  {
    var b := Decide(bookings, date, selected, name, phone, note, id, createdAt).booking;
    var after := bookings + [b];
    SlotTakenIff(bookings, date, b.start);
    forall i, j | 0 <= i < j < |after|
      ensures !Clash(after[i], after[j])
    {
      if j == |bookings| {
        assert !Occupies(bookings[i], date, b.start);
      }
    }
    SlotTakenIff(after, date, b.start);
    assert Occupies(after[|bookings|], date, b.start);
  }

  /** cancelBooking: every booking with the id becomes CANCELLED, nothing else changes. */
  function Cancel(bookings: seq<LocalBooking>, id: string): (r: seq<LocalBooking>)
    ensures |r| == |bookings|
    ensures forall k :: 0 <= k < |r| && bookings[k].id != id ==> r[k] == bookings[k]
    ensures forall k :: 0 <= k < |r| && bookings[k].id == id ==> r[k].status == Cancelled && r[k].(status := bookings[k].status) == bookings[k]
  {
    seq(|bookings|, k requires 0 <= k < |bookings| =>
      if bookings[k].id == id then bookings[k].(status := Cancelled) else bookings[k])
  }

  /** Cancelling keeps the register free of double bookings and frees the cancelled booking's slot. */
  lemma CancelFreesSlot(bookings: seq<LocalBooking>, k: nat)
    requires UniqueConfirmed(bookings)
    requires k < |bookings| && bookings[k].status == Confirmed
    ensures var after := Cancel(bookings, bookings[k].id);
      UniqueConfirmed(after) && !SlotTaken(after, bookings[k].date, bookings[k].start)
  {
    var b := bookings[k];
    var after := Cancel(bookings, b.id);
    forall i, j | 0 <= i < j < |after|
      ensures !Clash(after[i], after[j])
    {
      assert !Clash(bookings[i], bookings[j]);
    }
    SlotTakenIff(after, b.date, b.start);
    forall m | 0 <= m < |after|
      ensures !Occupies(after[m], b.date, b.start)
    {
      if m < k {
        assert !Clash(bookings[m], bookings[k]);
      } else if m > k {
        assert !Clash(bookings[k], bookings[m]);
      }
    }
  }

  /** Cancelling the same id twice is the same as cancelling it once. */
  lemma CancelIdempotent(bookings: seq<LocalBooking>, id: string)
    ensures Cancel(Cancel(bookings, id), id) == Cancel(bookings, id)
  {
  }

  /** clearDate: drop every booking of the date. */
  function ClearDate(bookings: seq<LocalBooking>, date: string): seq<LocalBooking>
  {
    Filter(bookings, NotOnDate(date))
  }

  /** Filtering a register keeps it free of double bookings. */
  lemma {:induction false} FilterKeepsUnique(bookings: seq<LocalBooking>, p: LocalBooking -> bool)
    requires UniqueConfirmed(bookings)
    ensures UniqueConfirmed(Filter(bookings, p))
    decreases |bookings|
  {
    if |bookings| > 0 {
      var init := bookings[..|bookings| - 1];
      var last := bookings[|bookings| - 1];
      assert UniqueConfirmed(init) by {
        forall i, j | 0 <= i < j < |init|
          ensures !Clash(init[i], init[j])
        {
          assert init[i] == bookings[i] && init[j] == bookings[j];
        }
      }
      FilterKeepsUnique(init, p);
      var f := Filter(init, p);
      if p(last) {
        assert Filter(bookings, p) == f + [last];
        forall i | 0 <= i < |f|
          ensures !Clash(f[i], last)
        {
          var m :| 0 <= m < |init| && init[m] == f[i];
          assert !Clash(bookings[m], bookings[|bookings| - 1]);
        }
      } else {
        assert Filter(bookings, p) == f;
      }
    }
  }

  /** After clearing a date nothing is left on it, and every other date keeps exactly its bookings. */
  lemma {:induction false} ClearDateEffect(bookings: seq<LocalBooking>, date: string, other: string)
    requires other != date
    ensures ForDate(ClearDate(bookings, date), date) == []
    ensures ForDate(ClearDate(bookings, date), other) == ForDate(bookings, other)
    decreases |bookings|
  {
    if |bookings| > 0 {
      var init := bookings[..|bookings| - 1];
      var last := bookings[|bookings| - 1];
      var cleared := ClearDate(init, date);
      ClearDateEffect(init, date, other);
      assert [last][..0] == [];
      assert bookings == init + [last];
      FilterAppend(init, [last], OnDate(other));
      if last.date == date {
        assert ClearDate(bookings, date) == cleared;
      } else {
        assert ClearDate(bookings, date) == cleared + [last];
        FilterAppend(cleared, [last], OnDate(date));
        FilterAppend(cleared, [last], OnDate(other));
      }
    }
  }

  /** Clearing a date removes exactly that day's bookings: what stays and what goes make up the register. */
  lemma ClearDateRemovesDay(bookings: seq<LocalBooking>, date: string)
    ensures |ClearDate(bookings, date)| == |bookings| - |ForDate(bookings, date)|
    ensures multiset(ClearDate(bookings, date)) + multiset(ForDate(bookings, date)) == multiset(bookings)
  {
    FilterComplement(bookings, NotOnDate(date), OnDate(date));
  }

  /** confirmedCount: the CONFIRMED bookings of the date. */
  function ConfirmedCount(bookings: seq<LocalBooking>, date: string): (n: nat)
    ensures n <= |ForDate(bookings, date)|
  {
    |Filter(ForDate(bookings, date), (b: LocalBooking) => b.status == Confirmed)|
  }

  /** An accepted booking raises its date's confirmed count by one and leaves other dates alone. */
  lemma AcceptCounts(bookings: seq<LocalBooking>, b: LocalBooking, date: string)
    requires b.status == Confirmed
    ensures ConfirmedCount(bookings + [b], date) == ConfirmedCount(bookings, date) + (if b.date == date then 1 else 0)
  {
    var onDate := OnDate(date);
    var confirmed := (x: LocalBooking) => x.status == Confirmed;
    FilterAppend(bookings, [b], onDate);
    FilterAppend(ForDate(bookings, date), Filter([b], onDate), confirmed);
    assert Filter([b], onDate) == if b.date == date then [b] else [] by {
      assert [b][..0] == [];
    }
    assert Filter([b], confirmed) == [b] by {
      assert [b][..0] == [];
    }
  }

  /** handleAdminLogin: the panel unlocks on the exact password and stays unlocked. */
  function AdminLogin(unlocked: bool, input: string): (r: (bool, Message))
    ensures r.0 <==> unlocked || input == ADMIN_PASS
    ensures r.1.success <==> input == ADMIN_PASS
    ensures r.1.text == if input == ADMIN_PASS then MSG_UNLOCKED else MSG_WRONG_PASSWORD
  {
    if input == ADMIN_PASS then (true, Message(MSG_UNLOCKED, true))
    else (unlocked, Message(MSG_WRONG_PASSWORD, false))
  }

  /** The OfflineMode component: the register, the form and the admin lock. */
  class OfflineBoard {
    var bookings: seq<LocalBooking>
    var selectedDate: string
    var selectedSlot: Option<SlotTimes>
    var name: string
    var phone: string
    var note: string
    var message: Option<Message>
    var isAdminUnlocked: bool

    /** The register starts from what the device had saved (empty when nothing could be read). */
    constructor (saved: seq<LocalBooking>, today: string)
      ensures bookings == saved && selectedDate == today && selectedSlot.None?
      ensures name == "" && phone == "" && note == "" && message.None? && !isAdminUnlocked
    {
      bookings := saved;
      selectedDate := today;
      selectedSlot := None;
      name := "";
      phone := "";
      note := "";
      message := None;
      isAdminUnlocked := false;
    }

    /** A slot button; it is disabled while the slot is taken on the selected date. */
    method SelectSlot(slot: SlotTimes)
      modifies this
      ensures selectedSlot == if SlotTaken(bookings, selectedDate, slot.start) then old(selectedSlot) else Some(slot)
      ensures bookings == old(bookings) && selectedDate == old(selectedDate) && name == old(name)
      ensures phone == old(phone) && note == old(note) && message == old(message) && isAdminUnlocked == old(isAdminUnlocked)
    {
      if !SlotTaken(bookings, selectedDate, slot.start) {
        selectedSlot := Some(slot);
      }
    }

    /** handleBooking, given the id and creation time the clock yields. */
    method HandleBooking(id: string, createdAt: string)
      modifies this
      ensures var d := Decide(old(bookings), old(selectedDate), old(selectedSlot), old(name), old(phone), old(note), id, createdAt);
        match d
        case Refused(text) =>
          message == Some(Message(text, false)) && bookings == old(bookings) && selectedSlot == old(selectedSlot)
          && name == old(name) && phone == old(phone) && note == old(note)
        case Accepted(b) =>
          message == Some(Message(MSG_CONFIRMED + id, true)) && bookings == old(bookings) + [b]
          && selectedSlot.None? && name == "" && phone == "" && note == ""
      ensures old(UniqueConfirmed(bookings)) ==> UniqueConfirmed(bookings)
      ensures selectedDate == old(selectedDate) && isAdminUnlocked == old(isAdminUnlocked)
    {
      var d := Decide(bookings, selectedDate, selectedSlot, name, phone, note, id, createdAt);
      match d {
        case Refused(text) =>
          message := Some(Message(text, false));
        case Accepted(b) =>
          if UniqueConfirmed(bookings) {
            AcceptKeepsUnique(bookings, selectedDate, selectedSlot, name, phone, note, id, createdAt);
          }
          bookings := bookings + [b];
          message := Some(Message(MSG_CONFIRMED + id, true));
          name := "";
          phone := "";
          note := "";
          selectedSlot := None;
      }
    }

    /** handleAdminLogin. */
    method Login(input: string)
      modifies this
      ensures message.Some? && (isAdminUnlocked, message.value) == AdminLogin(old(isAdminUnlocked), input)
      ensures bookings == old(bookings) && selectedDate == old(selectedDate) && selectedSlot == old(selectedSlot)
      ensures name == old(name) && phone == old(phone) && note == old(note)
    {
      var r := AdminLogin(isAdminUnlocked, input);
      isAdminUnlocked := r.0;
      message := Some(r.1);
    }

    /** cancelBooking, from the admin panel; `confirmed` is the answer to the confirm() dialog. */
    method CancelBooking(id: string, confirmed: bool)
      requires isAdminUnlocked
      modifies this
      ensures bookings == if confirmed then Cancel(old(bookings), id) else old(bookings)
      ensures old(UniqueConfirmed(bookings)) ==> UniqueConfirmed(bookings)
      ensures selectedDate == old(selectedDate) && selectedSlot == old(selectedSlot) && name == old(name)
      ensures phone == old(phone) && note == old(note) && message == old(message) && isAdminUnlocked
    {
      if !confirmed {
        return;
      }
      var after := Cancel(bookings, id);
      if UniqueConfirmed(bookings) {
        forall i, j | 0 <= i < j < |after|
          ensures !Clash(after[i], after[j])
        {
          assert !Clash(bookings[i], bookings[j]);
        }
      }
      bookings := after;
    }

    /** clearDate, from the admin panel; `confirmed` is the answer to the confirm() dialog. */
    method ClearSelectedDate(confirmed: bool)
      requires isAdminUnlocked
      modifies this
      ensures bookings == if confirmed then ClearDate(old(bookings), selectedDate) else old(bookings)
      ensures message == if confirmed then Some(Message(MSG_DAY_CLEARED, true)) else old(message)
      ensures old(UniqueConfirmed(bookings)) ==> UniqueConfirmed(bookings)
      ensures selectedDate == old(selectedDate) && selectedSlot == old(selectedSlot) && name == old(name)
      ensures phone == old(phone) && note == old(note) && isAdminUnlocked
    {
      if !confirmed {
        return;
      }
      if UniqueConfirmed(bookings) {
        FilterKeepsUnique(bookings, NotOnDate(selectedDate));
      }
      bookings := ClearDate(bookings, selectedDate);
      message := Some(Message(MSG_DAY_CLEARED, true));
    }
  }
}
