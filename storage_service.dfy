/**
 * The browser-storage layer: bookings, pricing, blocked slots, reviews and the
 * signed-in user, each kept under its own storage key. A key that holds
 * nothing is None; what a key holds is the decoded value (the JSON encoding
 * is taken to round-trip). Random ids, timestamps and the login delay are
 * parameters or left out.
 */
module StorageService {
  import opened Common

  const ADMIN_EMAIL := "admin@turfpro.com"
  const ADMIN_PASSWORD := "admin123"
  const ADMIN_ID := "admin1"
  const ADMIN_NAME := "Admin User"
  const MSG_INVALID_CREDENTIALS := "Invalid credentials"
  const MIN_PASSWORD := 3

  datatype PricingConfig = PricingConfig(basePrice: int, peakPrice: int, peakStartHour: int, upiId: string)

  const DEFAULT_PRICING := PricingConfig(800, 1200, 18, "turfpro@upi")

  datatype Review = Review(id: string, user: string, rating: int, comment: string)

  datatype Role = Admin | Customer

  datatype User = User(id: string, name: string, email: string, role: Role)

  /** The three reviews written to storage the first time reviews are read. */
  function DefaultReviews(): (r: seq<Review>)
    ensures |r| == 3
    ensures forall k :: 0 <= k < |r| ==> 1 <= r[k].rating <= 5
    ensures forall i, j :: 0 <= i < j < |r| ==> r[i].id != r[j].id
  {
    [ Review("1", "Rahul D.", 5, "Amazing turf quality! The bounce is consistent."),
      Review("2", "Vikram S.", 4, "Great lighting for night matches. Booking was smooth."),
      Review("3", "Amit K.", 5, "Best place for box cricket tournaments.") ]
  }

  /** The findIndex test of updateBookingStatus. */
  function HasId(id: string): Booking -> bool
  {
    (b: Booking) => b.BookingId == id
  }

  /** The filter test of toggleBlockSlot. */
  function Other(slotId: string): string -> bool
  {
    (x: string) => x != slotId
  }

  /** updateBookingStatus on a list: the first booking with the id takes the status; an unknown id changes nothing. */
  function SetStatus(bookings: seq<Booking>, id: string, status: string): (r: Option<seq<Booking>>)
    ensures r.None? <==> forall k :: 0 <= k < |bookings| ==> bookings[k].BookingId != id
    ensures r.Some? ==> exists i :: (0 <= i < |bookings| && bookings[i].BookingId == id
      && (forall j :: 0 <= j < i ==> bookings[j].BookingId != id)
      && r.value == bookings[i := bookings[i].(Status := status)])
  {
    match FirstFrom(bookings, HasId(id), 0)
    case None => None
    case Some(i) => Some(bookings[i := bookings[i].(Status := status)])
  }

  /** Setting the same status again leaves the list as it is. */
  lemma SetStatusIdempotent(bookings: seq<Booking>, id: string, status: string)
    requires SetStatus(bookings, id, status).Some?
    ensures SetStatus(SetStatus(bookings, id, status).value, id, status) == SetStatus(bookings, id, status)
  {
    var once := SetStatus(bookings, id, status).value;
    var i :| 0 <= i < |bookings| && bookings[i].BookingId == id
      && (forall j :: 0 <= j < i ==> bookings[j].BookingId != id)
      && once == bookings[i := bookings[i].(Status := status)];
    assert once[i].BookingId == id;
    var twice := SetStatus(once, id, status).value;
    var i' :| 0 <= i' < |once| && once[i'].BookingId == id
      && (forall j :: 0 <= j < i' ==> once[j].BookingId != id)
      && twice == once[i' := once[i'].(Status := status)];
    assert i' == i;
    assert twice == once;
  }

  /** One date's list after toggleBlockSlot: every copy of the slot removed, or the slot appended. */
  function ToggleIn(ids: seq<string>, slotId: string): (r: seq<string>)
    ensures slotId in r <==> slotId !in ids
    ensures slotId !in ids ==> r == ids + [slotId]
    ensures forall k :: 0 <= k < |ids| && ids[k] != slotId ==> ids[k] in r
    ensures forall k :: 0 <= k < |r| && r[k] != slotId ==> r[k] in ids
  {
    if slotId in ids then Filter(ids, Other(slotId)) else ids + [slotId]
  }

  /** Toggling twice lists exactly what was listed before. */
  lemma ToggleInTwice(ids: seq<string>, slotId: string, x: string)
    ensures x in ToggleIn(ToggleIn(ids, slotId), slotId) <==> x in ids
  {
    var once := ToggleIn(ids, slotId);
    var twice := ToggleIn(once, slotId);
    if x != slotId {
      if x in ids {
        var k :| 0 <= k < |ids| && ids[k] == x;
        var m :| 0 <= m < |once| && once[m] == x;
      }
      if x in twice {
        var k :| 0 <= k < |twice| && twice[k] == x;
        var m :| 0 <= m < |once| && once[m] == x;
      }
    }
  }

  /** toggleBlockSlot on the whole record: only the date's list changes, and the date gains a list. */
  function ToggleBlocks(blocks: map<string, seq<string>>, date: string, slotId: string): (r: map<string, seq<string>>)
    ensures r.Keys == blocks.Keys + {date}
    ensures r[date] == ToggleIn(if date in blocks then blocks[date] else [], slotId)
    ensures forall d :: d in blocks && d != date ==> r[d] == blocks[d]
  {
    var current := if date in blocks then blocks[date] else [];
    blocks[date := ToggleIn(current, slotId)]
  }

  /** The part of an email address before the first '@'. */
  function EmailName(email: string): (name: string)
    ensures |name| <= |email| && name == email[..|name|]
    ensures '@' !in name
    ensures |name| < |email| ==> email[|name|] == '@'
  {
    FirstField(email, '@');
    Split(email, '@')[0]
  }

  /**
   * loginUser: the fixed admin credentials give the admin account; otherwise
   * any password of at least three UTF-16 code units signs in a customer named after
   * the email's local part; anything else is refused.
   */
  function Login(email: string, password: string, freshId: string): (r: Option<User>)
    ensures r.Some? <==> (email == ADMIN_EMAIL && password == ADMIN_PASSWORD) || Utf16Length(password) >= MIN_PASSWORD
    ensures r.Some? ==> r.value.email == email
    ensures r.Some? ==> (r.value.role == Admin <==> email == ADMIN_EMAIL && password == ADMIN_PASSWORD)
    ensures r.Some? && r.value.role == Admin ==> r.value.id == ADMIN_ID && r.value.name == ADMIN_NAME
    ensures r.Some? && r.value.role == Customer ==> r.value.id == freshId && r.value.name == EmailName(email)
  {
    if email == ADMIN_EMAIL && password == ADMIN_PASSWORD then Some(User(ADMIN_ID, ADMIN_NAME, email, Admin))
    else if Utf16Length(password) >= MIN_PASSWORD then Some(User(freshId, EmailName(email), email, Customer))
    else None
  }

  /** The admin address with any other password of three or more characters signs in as a customer named "admin". */
  lemma AdminEmailWrongPassword(password: string, freshId: string)
    requires password != ADMIN_PASSWORD && Utf16Length(password) >= MIN_PASSWORD
    ensures Login(ADMIN_EMAIL, password, freshId) == Some(User(freshId, "admin", ADMIN_EMAIL, Customer))
  {
    AdminEmailName();
  }

  /** The local part of the admin address is "admin". */
  lemma AdminEmailName()
    ensures EmailName(ADMIN_EMAIL) == "admin"
  {
    assert ADMIN_EMAIL == "admin" + "@turfpro.com";
    SplitPrefix("admin", "@turfpro.com", '@');
    assert Split("@turfpro.com", '@')[0] == "";
  }

  /** A two-character password whose second character is outside the BMP has length 3, and signs in. */
  lemma SurrogatePairCountsTwice(email: string, freshId: string)
    requires email != ADMIN_EMAIL
    ensures |"a\U{1F600}"| == 2
    ensures Login(email, "a\U{1F600}", freshId).Some?
  {
    assert "a\U{1F600}"[..1] == "a";
    assert Utf16Length("a") == 1;
  }

  /** The storage area and the values kept under its keys. */
  class LocalStore {
    var bookingsData: Option<seq<Booking>>
    var pricingData: Option<PricingConfig>
    var blockedData: Option<map<string, seq<string>>>
    var reviewsData: Option<seq<Review>>
    var userData: Option<User>

    constructor ()
      ensures bookingsData.None? && pricingData.None? && blockedData.None? && reviewsData.None? && userData.None?
    {
      bookingsData := None;
      pricingData := None;
      blockedData := None;
      reviewsData := None;
      userData := None;
    }

    /** getBookings: the stored list, or an empty one when nothing is stored. */
    function Bookings(): (bookings: seq<Booking>)
      reads this
      ensures bookingsData.Some? ==> bookings == bookingsData.value
      ensures bookingsData.None? ==> bookings == []
    {
      if bookingsData.Some? then bookingsData.value else []
    }

    /** saveBooking, given the generated id and the current time. */
    method SaveBooking(booking: Booking, id: string, timestamp: string) returns (saved: Booking)
      modifies this
      ensures saved == booking.(BookingId := id, Timestamp := timestamp)
      ensures bookingsData == Some(old(Bookings()) + [saved])
      ensures Bookings() == old(Bookings()) + [saved]
      ensures pricingData == old(pricingData) && blockedData == old(blockedData)
      ensures reviewsData == old(reviewsData) && userData == old(userData)
    {
      saved := booking.(BookingId := id, Timestamp := timestamp);
      bookingsData := Some(Bookings() + [saved]);
    }

    /** updateBookingStatus: storage is written only when the id is found. */
    method UpdateBookingStatus(id: string, status: string)
      modifies this
      ensures var r := SetStatus(old(Bookings()), id, status);
        bookingsData == if r.Some? then Some(r.value) else old(bookingsData)
      ensures var r := SetStatus(old(Bookings()), id, status);
        Bookings() == if r.Some? then r.value else old(Bookings())
      ensures pricingData == old(pricingData) && blockedData == old(blockedData)
      ensures reviewsData == old(reviewsData) && userData == old(userData)
    {
      var bookings := Bookings();
      var index := FirstFrom(bookings, HasId(id), 0);
      if index.Some? {
        bookingsData := Some(bookings[index.value := bookings[index.value].(Status := status)]);
      }
    }

    /** getPricingConfig: the stored configuration, or the default one when nothing is stored. */
    function Pricing(): (config: PricingConfig)
      reads this
      ensures pricingData.Some? ==> config == pricingData.value
      ensures pricingData.None? ==> config == DEFAULT_PRICING
    {
      if pricingData.Some? then pricingData.value else DEFAULT_PRICING
    }

    /** savePricingConfig. */
    method SavePricingConfig(config: PricingConfig)
      modifies this
      ensures pricingData == Some(config)
      ensures Pricing() == config
      ensures bookingsData == old(bookingsData) && blockedData == old(blockedData)
      ensures reviewsData == old(reviewsData) && userData == old(userData)
    {
      pricingData := Some(config);
    }

    /** getBlockedSlots: the stored map from dates to slot ids, or an empty one. */
    function Blocked(): (blocks: map<string, seq<string>>)
      reads this
      ensures blockedData.Some? ==> blocks == blockedData.value
      ensures blockedData.None? ==> blocks == map[]
    {
      if blockedData.Some? then blockedData.value else map[]
    }

    /** toggleBlockSlot. */
    method ToggleBlockSlot(date: string, slotId: string)
      modifies this
      ensures blockedData == Some(ToggleBlocks(old(Blocked()), date, slotId))
      ensures Blocked() == ToggleBlocks(old(Blocked()), date, slotId)
      ensures bookingsData == old(bookingsData) && pricingData == old(pricingData)
      ensures reviewsData == old(reviewsData) && userData == old(userData)
    {
      var blocks := Blocked();
      var current := if date in blocks then blocks[date] else [];
      if slotId in current {
        current := Filter(current, Other(slotId));
      } else {
        current := current + [slotId];
      }
      blockedData := Some(blocks[date := current]);
    }

    /** getReviews: the first read seeds storage with the default reviews. */
    method GetReviews() returns (reviews: seq<Review>)
      modifies this
      ensures reviews == if old(reviewsData).Some? then old(reviewsData).value else DefaultReviews()
      ensures reviewsData == Some(reviews)
      ensures bookingsData == old(bookingsData) && pricingData == old(pricingData)
      ensures blockedData == old(blockedData) && userData == old(userData)
    {
      if reviewsData.Some? {
        return reviewsData.value;
      }
      reviews := DefaultReviews();
      reviewsData := Some(reviews);
    }

    /** getCurrentUser: the stored user, or null (None) when nobody is signed in. */
    function CurrentUser(): (user: Option<User>)
      reads this
      ensures user == userData
    {
      userData
    }

    /** loginUser, given the id the random generator yields; None is the 'Invalid credentials' rejection. */
    method LoginUser(email: string, password: string, freshId: string) returns (r: Option<User>)
      modifies this
      ensures r == Login(email, password, freshId)
      ensures userData == if r.Some? then r else old(userData)
      ensures r.Some? ==> CurrentUser() == r
      ensures bookingsData == old(bookingsData) && pricingData == old(pricingData)
      ensures blockedData == old(blockedData) && reviewsData == old(reviewsData)
    {
      r := Login(email, password, freshId);
      if r.Some? {
        userData := r;
      }
    }

    /** logoutUser. */
    method LogoutUser()
      modifies this
      ensures userData.None?
      ensures CurrentUser().None?
      ensures bookingsData == old(bookingsData) && pricingData == old(pricingData)
      ensures blockedData == old(blockedData) && reviewsData == old(reviewsData)
    {
      userData := None;
    }
  }
}
