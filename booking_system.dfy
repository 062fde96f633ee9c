/**
 * The customer booking screen: the grid of eighteen hourly slots with their
 * prices, slot selection, the configuration taken over from the backend, and
 * the submit path with its guards and optimistic update.
 *
 * The weekday comes in as `isWeekend`; prices and the peak hour are JavaScript
 * numbers, with None standing for NaN (what Number() of a missing or
 * non-numeric value gives). The backend's reply and the outcome of the image
 * compression are parameters.
 */
module BookingSystem {
  import opened Common

  const FIRST_HOUR := 6
  const SLOT_COUNT := 18

  const MSG_NEED_SCREENSHOT := "Please upload the payment screenshot."
  const MSG_BOOKING_FAILED := "Booking failed. Please try again."
  const MSG_PROCESSING_ERROR := "Error processing booking. Please try again."

  /** A cell of the slot grid (TimeSlot in types.ts). */
  datatype TimeSlot = TimeSlot(
    id: string,
    startTime: string,
    endTime: string,
    price: Option<int>,
    isBooked: bool,
    isBlocked: bool,
    isPending: bool)

  /** The pricing, UPI id and peak hour the component holds. */
  datatype Config = Config(basePrice: Option<int>, peakPrice: Option<int>, upiId: Cell, peakStartHour: Option<int>)

  const INITIAL_CONFIG := Config(Some(800), Some(1200), Text("turfpro@upi"), Some(18))

  /** The payload handed to the createBooking call. */
  datatype Payload = Payload(date: string, slotId: string, name: string, phone: string, amount: Option<int>, paymentId: string)

  /** What createBooking answered: an error status with its message, or anything else. */
  datatype Reply = ErrorReply(message: string) | SuccessReply

  /** `slot-<hour>`, the hour unpadded. */
  function SlotId(hour: nat): string
  {
    "slot-" + NatToString(hour)
  }

  /** The hour can be read back from a slot id, so distinct hours give distinct ids. */
  lemma SlotIdHour(hour: nat)
    ensures |SlotId(hour)| > 5 && SlotId(hour)[..5] == "slot-"
    ensures AllDigits(SlotId(hour)[5..]) && ParseDigits(SlotId(hour)[5..]) == hour
  {
    assert SlotId(hour)[5..] == NatToString(hour);
    ParseNatToString(hour);
  }

  /**
   * Math.round(p * 1.2) for an integer price: the integer nearest to 6p/5,
   * a half rounded up (floor division here; 12p + 5 is never a multiple of 10,
   * so no halves occur).
   */
  function WeekendPrice(p: int): (r: int)
    ensures -5 <= 10 * r - 12 * p < 5
  {
    var q := (12 * p + 5) / 10;
    assert 10 * q <= 12 * p + 5 < 10 * q + 10;
    assert 10 * q != 12 * p + 5;
    q
  }

  /** The peak test `hour >= peakStartHour`, false when the peak hour is NaN. */
  predicate IsPeak(hour: nat, peakStartHour: Option<int>)
  {
    peakStartHour.Some? && hour >= peakStartHour.value
  }

  /** The price of the slot starting at `hour`; NaN stays NaN on weekends. */
  function SlotPrice(hour: nat, isWeekend: bool, c: Config): Option<int>
  {
    var price := if IsPeak(hour, c.peakStartHour) then c.peakPrice else c.basePrice;
    if isWeekend && price.Some? then Some(WeekendPrice(price.value)) else price
  }

  /** Weekend prices are the weekday prices with the 20% surcharge, rounded. */
  lemma WeekendSurcharge(hour: nat, c: Config)
    requires SlotPrice(hour, false, c).Some?
    ensures SlotPrice(hour, true, c).Some?
    ensures -5 <= 10 * SlotPrice(hour, true, c).value - 12 * SlotPrice(hour, false, c).value < 5
  {
  }

  function MakeSlot(hour: nat, isWeekend: bool, c: Config, booked: seq<string>, blocked: seq<string>): TimeSlot
  {
    var id := SlotId(hour);
    TimeSlot(id, ClockTime(hour), ClockTime(hour + 1), SlotPrice(hour, isWeekend, c), id in booked, id in blocked, false)
  }

  /** getSlotsForDate: one slot per hour from 06:00 to 23:00. */
  function SlotsForDate(isWeekend: bool, c: Config, booked: seq<string>, blocked: seq<string>): (slots: seq<TimeSlot>)
    ensures |slots| == SLOT_COUNT
  {
    seq(SLOT_COUNT, i requires 0 <= i < SLOT_COUNT => MakeSlot(FIRST_HOUR + i, isWeekend, c, booked, blocked))
  }

  /**
   * Slot i starts at hour 6 + i and ends an hour later, both printed as HH:00;
   * its id names the hour; it is booked or blocked exactly when its id is
   * listed; it is never pending; its price follows the peak/weekend rule.
   */
  lemma SlotGrid(isWeekend: bool, c: Config, booked: seq<string>, blocked: seq<string>, i: nat)
    requires i < SLOT_COUNT
    ensures var s := SlotsForDate(isWeekend, c, booked, blocked)[i];
      && |s.startTime| == 5 && |s.endTime| == 5
      && AllDigits(s.startTime[..2]) && ParseDigits(s.startTime[..2]) == FIRST_HOUR + i && s.startTime[2..] == ":00"
      && AllDigits(s.endTime[..2]) && ParseDigits(s.endTime[..2]) == FIRST_HOUR + i + 1 && s.endTime[2..] == ":00"
      && |s.id| > 5 && s.id[..5] == "slot-" && AllDigits(s.id[5..]) && ParseDigits(s.id[5..]) == FIRST_HOUR + i
      && (s.isBooked <==> s.id in booked)
      && (s.isBlocked <==> s.id in blocked)
      && !s.isPending
      && s.price == SlotPrice(FIRST_HOUR + i, isWeekend, c)
  {
    assert SlotsForDate(isWeekend, c, booked, blocked)[i] == MakeSlot(FIRST_HOUR + i, isWeekend, c, booked, blocked);
    ClockTimeHour(FIRST_HOUR + i);
    ClockTimeHour(FIRST_HOUR + i + 1);
    SlotIdHour(FIRST_HOUR + i);
  }

  /** No two slots of the grid share an id. */
  lemma SlotIdsDistinct(isWeekend: bool, c: Config, booked: seq<string>, blocked: seq<string>, i: nat, j: nat)
    requires i < j < SLOT_COUNT
    ensures SlotsForDate(isWeekend, c, booked, blocked)[i].id != SlotsForDate(isWeekend, c, booked, blocked)[j].id
  {
    var slots := SlotsForDate(isWeekend, c, booked, blocked);
    assert slots[i] == MakeSlot(FIRST_HOUR + i, isWeekend, c, booked, blocked);
    assert slots[j] == MakeSlot(FIRST_HOUR + j, isWeekend, c, booked, blocked);
    SlotIdHour(FIRST_HOUR + i);
    SlotIdHour(FIRST_HOUR + j);
  }

  /**
   * The configuration after fetchAvailability: each fetched value replaces the
   * held one only when it is truthy, and a truthy basePrice brings peakPrice
   * along with it (NaN when peakPrice is missing).
   */
  function OverrideConfig(c: Config, pricing: map<string, Cell>): (r: Config)
    ensures Truthy(Get(pricing, "basePrice")) ==>
      r.basePrice == ToNumber(Get(pricing, "basePrice")) && r.peakPrice == ToNumber(Get(pricing, "peakPrice"))
    ensures !Truthy(Get(pricing, "basePrice")) ==> r.basePrice == c.basePrice && r.peakPrice == c.peakPrice
    ensures r.upiId == if Truthy(Get(pricing, "upiId")) then Get(pricing, "upiId") else c.upiId
    ensures Truthy(Get(pricing, "peakStartHour")) ==> r.peakStartHour == ToNumber(Get(pricing, "peakStartHour"))
    ensures !Truthy(Get(pricing, "peakStartHour")) ==> r.peakStartHour == c.peakStartHour
  {
    var base := Get(pricing, "basePrice");
    var c1 := if Truthy(base) then c.(basePrice := ToNumber(base), peakPrice := ToNumber(Get(pricing, "peakPrice"))) else c;
    var upi := Get(pricing, "upiId");
    var c2 := if Truthy(upi) then c1.(upiId := upi) else c1;
    var peak := Get(pricing, "peakStartHour");
    if Truthy(peak) then c2.(peakStartHour := ToNumber(peak)) else c2
  }

  /** A stored peak hour of 0 is falsy and never reaches the component. */
  lemma ZeroPeakHourIgnored(c: Config, pricing: map<string, Cell>)
    requires Get(pricing, "peakStartHour") == Num(0)
    ensures OverrideConfig(c, pricing).peakStartHour == c.peakStartHour
  {
  }

  /** The state of the BookingSystem component. */
  class BookingForm {
    var selectedSlot: Option<TimeSlot>
    var successMode: bool
    var errorMsg: string
    var submitting: bool
    var bookedSlotIds: seq<string>
    var blockedSlotIds: seq<string>
    var config: Config
    var hasScreenshot: bool

    constructor ()
      ensures selectedSlot.None? && !successMode && errorMsg == "" && !submitting
      ensures bookedSlotIds == [] && blockedSlotIds == [] && config == INITIAL_CONFIG && !hasScreenshot
    {
      selectedSlot := None;
      successMode := false;
      errorMsg := "";
      submitting := false;
      bookedSlotIds := [];
      blockedSlotIds := [];
      config := INITIAL_CONFIG;
      hasScreenshot := false;
    }

    /** The grid the component renders for the selected date. */
    function Slots(isWeekend: bool): seq<TimeSlot>
      reads this
    {
      SlotsForDate(isWeekend, config, bookedSlotIds, blockedSlotIds)
    }

    /**
     * fetchAvailability, from the moment the day data arrives: missing lists
     * read as empty, and the pricing object, when present, overrides the
     * configuration.
     */
    method FetchAvailability(booked: Option<seq<string>>, blocked: Option<seq<string>>, pricing: Option<map<string, Cell>>)
      modifies this
      ensures bookedSlotIds == (if booked.Some? then booked.value else [])
      ensures blockedSlotIds == (if blocked.Some? then blocked.value else [])
      ensures config == (if pricing.Some? then OverrideConfig(old(config), pricing.value) else old(config))
      ensures selectedSlot == old(selectedSlot) && successMode == old(successMode) && errorMsg == old(errorMsg)
      ensures submitting == old(submitting) && hasScreenshot == old(hasScreenshot)
    {
      bookedSlotIds := if booked.Some? then booked.value else [];
      blockedSlotIds := if blocked.Some? then blocked.value else [];
      if pricing.Some? {
        var p := pricing.value;
        if Truthy(Get(p, "basePrice")) {
          config := config.(basePrice := ToNumber(Get(p, "basePrice")), peakPrice := ToNumber(Get(p, "peakPrice")));
        }
        if Truthy(Get(p, "upiId")) {
          config := config.(upiId := Get(p, "upiId"));
        }
        if Truthy(Get(p, "peakStartHour")) {
          config := config.(peakStartHour := ToNumber(Get(p, "peakStartHour")));
        }
      }
    }

    /** handleSlotSelect: booked or blocked slots are ignored. */
    method SelectSlot(slot: TimeSlot)
      modifies this
      ensures slot.isBooked || slot.isBlocked ==>
        selectedSlot == old(selectedSlot) && successMode == old(successMode) && errorMsg == old(errorMsg)
      ensures !(slot.isBooked || slot.isBlocked) ==> selectedSlot == Some(slot) && !successMode && errorMsg == ""
      ensures submitting == old(submitting) && bookedSlotIds == old(bookedSlotIds)
      ensures blockedSlotIds == old(blockedSlotIds) && config == old(config) && hasScreenshot == old(hasScreenshot)
    {
      if slot.isBooked || slot.isBlocked {
        return;
      }
      selectedSlot := Some(slot);
      successMode := false;
      errorMsg := "";
    }

    /** onFileChange: a payment screenshot was chosen. */
    method AttachScreenshot()
      modifies this
      ensures hasScreenshot
      ensures selectedSlot == old(selectedSlot) && successMode == old(successMode) && errorMsg == old(errorMsg)
      ensures submitting == old(submitting) && bookedSlotIds == old(bookedSlotIds)
      ensures blockedSlotIds == old(blockedSlotIds) && config == old(config)
    {
      hasScreenshot := true;
    }

    /**
     * onSubmit: returns the payload sent to createBooking, if any.
     * `imageEncoded` says whether compressing the screenshot succeeded and
     * `reply` is what createBooking answered.
     */
    method Submit(date: string, name: string, phone: string, transactionId: string, imageEncoded: bool, reply: Reply)
      returns (sent: Option<Payload>)
      modifies this
      ensures old(selectedSlot).None? ==>
        (sent.None? && errorMsg == old(errorMsg) && submitting == old(submitting)
         && successMode == old(successMode) && hasScreenshot == old(hasScreenshot))
      ensures old(selectedSlot).Some? && !old(hasScreenshot) ==>
        (sent.None? && errorMsg == MSG_NEED_SCREENSHOT && submitting == old(submitting)
         && successMode == old(successMode) && !hasScreenshot)
      ensures old(selectedSlot).Some? && old(hasScreenshot) && !imageEncoded ==>
        (sent.None? && errorMsg == MSG_PROCESSING_ERROR && !submitting && successMode == old(successMode) && hasScreenshot)
      ensures sent.Some? <==> old(selectedSlot).Some? && old(hasScreenshot) && imageEncoded
      ensures sent.Some? ==>
        (var slot := old(selectedSlot).value;
         sent.value == Payload(date, slot.id, name, phone, slot.price, if transactionId == "" then NOT_AVAILABLE else transactionId))
        && !submitting
      ensures sent.Some? && reply.ErrorReply? ==>
        (errorMsg == (if reply.message == "" then MSG_BOOKING_FAILED else reply.message)
         && successMode == old(successMode) && hasScreenshot)
      ensures sent.Some? && reply.SuccessReply? ==>
        (bookedSlotIds == old(bookedSlotIds) + [sent.value.slotId] && successMode && errorMsg == "" && !hasScreenshot)
      ensures !(sent.Some? && reply.SuccessReply?) ==> bookedSlotIds == old(bookedSlotIds)
      ensures selectedSlot == old(selectedSlot) && blockedSlotIds == old(blockedSlotIds) && config == old(config)
    {
      if selectedSlot.None? {
        return None;
      }
      if !hasScreenshot {
        errorMsg := MSG_NEED_SCREENSHOT;
        return None;
      }
      submitting := true;
      errorMsg := "";
      if !imageEncoded {
        errorMsg := MSG_PROCESSING_ERROR;
        submitting := false;
        return None;
      }
      var slot := selectedSlot.value;
      sent := Some(Payload(date, slot.id, name, phone, slot.price, if transactionId == "" then NOT_AVAILABLE else transactionId));
      if reply.ErrorReply? {
        errorMsg := if reply.message == "" then MSG_BOOKING_FAILED else reply.message;
        submitting := false;
        return;
      }
      bookedSlotIds := bookedSlotIds + [slot.id];
      submitting := false;
      successMode := true;
      hasScreenshot := false;
    }

    /** The "Book Another Slot" button of the success screen. */
    method BookAnother()
      modifies this
      ensures !successMode && selectedSlot.None?
      ensures errorMsg == old(errorMsg) && submitting == old(submitting) && bookedSlotIds == old(bookedSlotIds)
      ensures blockedSlotIds == old(blockedSlotIds) && config == old(config) && hasScreenshot == old(hasScreenshot)
    {
      successMode := false;
      selectedSlot := None;
    }
  }

  /** A slot the grid shows as booked or blocked can never become the selection. */
  method SelectingUnavailableSlotHasNoEffect(form: BookingForm, isWeekend: bool, i: nat)
    requires i < SLOT_COUNT
    requires var s := form.Slots(isWeekend)[i]; s.id in form.bookedSlotIds || s.id in form.blockedSlotIds
    modifies form
    ensures form.selectedSlot == old(form.selectedSlot)
  {
    SlotGrid(isWeekend, form.config, form.bookedSlotIds, form.blockedSlotIds, i);
    form.SelectSlot(form.Slots(isWeekend)[i]);
  }
}
