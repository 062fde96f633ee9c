/**
 * The admin dashboard's figures over the booking list it fetched: confirmed
 * revenue, status counts, revenue per day for the chart, the search and status
 * filter of the bookings table, the row actions, the slot-blocking grid and
 * the CSV export.
 *
 * Amounts are sheet cells; Number(Amount) || 0 turns a cell into the integer
 * it holds, and anything that does not read as a number into 0.
 */
module AdminDashboard {
  import opened Common
  import BookingSystem

  const ALL := "ALL"
  const CHART_DAYS := 7

  const CSV_HEADERS: seq<string> := ["BookingId", "Date", "Slot", "Name", "Phone", "Amount", "Status", "Timestamp"]

  /** Number(Amount) || 0. */
  function AmountValue(c: Cell): int
  {
    match ToNumber(c)
    case Some(n) => n
    case None => 0
  }

  function StatusIs(status: string): Booking -> bool
  {
    (b: Booking) => b.Status == status
  }

  // ---------------------------------------------------------------------------
  // Revenue and counts

  /** totalRevenue: the reduce over the list, adding the amounts of CONFIRMED bookings. */
  function TotalRevenue(bookings: seq<Booking>): int
  {
    if bookings == [] then 0
    else
      var last := bookings[|bookings| - 1];
      TotalRevenue(bookings[..|bookings| - 1]) + (if last.Status == CONFIRMED then AmountValue(last.Amount) else 0)
  }

  /** The sum of all amounts of a list. */
  function SumAmounts(bookings: seq<Booking>): int
  {
    if bookings == [] then 0 else SumAmounts(bookings[..|bookings| - 1]) + AmountValue(bookings[|bookings| - 1].Amount)
  }

  /** The revenue is the sum of the amounts of exactly the CONFIRMED bookings. */
  lemma {:induction false} RevenueIsConfirmedSum(bookings: seq<Booking>)
    ensures TotalRevenue(bookings) == SumAmounts(Filter(bookings, StatusIs(CONFIRMED)))
    decreases |bookings|
  {
    if bookings != [] {
      var init := bookings[..|bookings| - 1];
      var last := bookings[|bookings| - 1];
      RevenueIsConfirmedSum(init);
      var f := Filter(init, StatusIs(CONFIRMED));
      assert bookings[..|bookings| - 1] == init;
      if last.Status == CONFIRMED {
        assert StatusIs(CONFIRMED)(last);
        assert Filter(bookings, StatusIs(CONFIRMED)) == f + [last];
        assert (f + [last])[..|f|] == f;
        assert SumAmounts(f + [last]) == SumAmounts(f) + AmountValue(last.Amount);
      } else {
        assert !StatusIs(CONFIRMED)(last);
        assert Filter(bookings, StatusIs(CONFIRMED)) == f;
      }
    }
  }

  /** confirmedBookings. */
  function ConfirmedCount(bookings: seq<Booking>): nat
  {
    |Filter(bookings, StatusIs(CONFIRMED))|
  }

  /** pendingBookings. */
  function PendingCount(bookings: seq<Booking>): nat
  {
    |Filter(bookings, StatusIs(PENDING))|
  }

  /** No booking is counted twice: the two counts together never exceed the list. */
  lemma CountsBounded(bookings: seq<Booking>)
    ensures ConfirmedCount(bookings) + PendingCount(bookings) <= |bookings|
  {
    FilterDisjoint(bookings, StatusIs(CONFIRMED), StatusIs(PENDING));
  }

  // ---------------------------------------------------------------------------
  // Revenue per day (getLast7DaysData)

  /** The revenue of one date: the CONFIRMED amounts booked on it. */
  function RevenueOn(bookings: seq<Booking>, date: string): int
  {
    if bookings == [] then 0
    else
      var last := bookings[|bookings| - 1];
      RevenueOn(bookings[..|bookings| - 1], date)
        + (if last.Status == CONFIRMED && last.Date == date then AmountValue(last.Amount) else 0)
  }

  /** The dates that have a CONFIRMED booking, in the order they first appear (the key order of the day map). */
  function ConfirmedDates(bookings: seq<Booking>): seq<string>
  {
    if bookings == [] then []
    else
      var dates := ConfirmedDates(bookings[..|bookings| - 1]);
      var last := bookings[|bookings| - 1];
      if last.Status == CONFIRMED && last.Date !in dates then dates + [last.Date] else dates
  }

  /** A date is listed exactly when some CONFIRMED booking falls on it. */
  lemma {:induction false} ConfirmedDatesIff(bookings: seq<Booking>, date: string)
    ensures date in ConfirmedDates(bookings) <==>
      exists k :: 0 <= k < |bookings| && bookings[k].Status == CONFIRMED && bookings[k].Date == date
    decreases |bookings|
  {
    if bookings != [] {
      var init := bookings[..|bookings| - 1];
      ConfirmedDatesIff(init, date);
      if exists k :: 0 <= k < |init| && init[k].Status == CONFIRMED && init[k].Date == date {
        var k :| 0 <= k < |init| && init[k].Status == CONFIRMED && init[k].Date == date;
        assert bookings[k] == init[k];
      }
      if exists k :: 0 <= k < |bookings| && bookings[k].Status == CONFIRMED && bookings[k].Date == date {
        var k :| 0 <= k < |bookings| && bookings[k].Status == CONFIRMED && bookings[k].Date == date;
        if k < |init| {
          assert init[k] == bookings[k];
        }
      }
    }
  }

  predicate Distinct(s: seq<string>)
  {
    forall i, j :: 0 <= i < j < |s| ==> s[i] != s[j]
  }

  /** No date is listed twice. */
  lemma {:induction false} ConfirmedDatesDistinct(bookings: seq<Booking>)
    ensures Distinct(ConfirmedDates(bookings))
    decreases |bookings|
  {
    if bookings != [] {
      var init := bookings[..|bookings| - 1];
      var last := bookings[|bookings| - 1];
      ConfirmedDatesDistinct(init);
      var dates := ConfirmedDates(init);
      if last.Status == CONFIRMED && last.Date !in dates {
        var all := dates + [last.Date];
        assert ConfirmedDates(bookings) == all;
        forall i, j | 0 <= i < j < |all|
          ensures all[i] != all[j]
        {
          if j < |dates| {
            assert all[i] == dates[i] && all[j] == dates[j];
          } else {
            assert all[i] == dates[i] && dates[i] in dates;
          }
        }
      } else {
        assert ConfirmedDates(bookings) == dates;
      }
    }
  }

  /** A date without a CONFIRMED booking earns nothing. */
  lemma {:induction false} RevenueOnUnlisted(bookings: seq<Booking>, date: string)
    requires date !in ConfirmedDates(bookings)
    ensures RevenueOn(bookings, date) == 0
    decreases |bookings|
  {
    if bookings != [] {
      var init := bookings[..|bookings| - 1];
      var last := bookings[|bookings| - 1];
      assert date !in ConfirmedDates(init);
      RevenueOnUnlisted(init, date);
    }
  }

  /** One bar of the chart. */
  datatype DayRevenue = DayRevenue(name: string, revenue: int)

  /**
   * getLast7DaysData: accumulate the CONFIRMED amounts per date in a map whose
   * keys keep insertion order, then chart the last seven dates.
   */
  method Last7DaysData(bookings: seq<Booking>) returns (chart: seq<DayRevenue>)
    ensures var dates := ConfirmedDates(bookings);
      |chart| == (if |dates| > CHART_DAYS then CHART_DAYS else |dates|)
    ensures var dates := ConfirmedDates(bookings);
      forall k :: 0 <= k < |chart| ==>
        chart[k] == DayRevenue(dates[|dates| - |chart| + k], RevenueOn(bookings, dates[|dates| - |chart| + k]))
  {
    var data: map<string, int> := map[];
    var keys: seq<string> := [];
    for i := 0 to |bookings|
      invariant keys == ConfirmedDates(bookings[..i])
      invariant forall d :: d in data <==> d in keys
      invariant forall d :: d in data ==> data[d] == RevenueOn(bookings[..i], d)
    {
      var b := bookings[i];
      assert bookings[..i + 1][..i] == bookings[..i];
      forall d
        ensures RevenueOn(bookings[..i + 1], d)
          == RevenueOn(bookings[..i], d) + (if b.Status == CONFIRMED && b.Date == d then AmountValue(b.Amount) else 0)
      {
      }
      if b.Status == CONFIRMED {
        var prev := if b.Date in data then data[b.Date] else 0;
        if b.Date !in data {
          RevenueOnUnlisted(bookings[..i], b.Date);
          keys := keys + [b.Date];
        }
        data := data[b.Date := prev + AmountValue(b.Amount)];
      }
    }
    assert bookings[..|bookings|] == bookings;
    var start := if |keys| > CHART_DAYS then |keys| - CHART_DAYS else 0;
    chart := seq(|keys| - start, k requires 0 <= k < |keys| - start =>
      DayRevenue(keys[start + k], data[keys[start + k]]));
  }

  // ---------------------------------------------------------------------------
  // Search and status filter (filteredBookings)

  predicate MatchesSearch(b: Booking, term: string)
  {
    Includes(ToLower(b.Name), ToLower(term)) || Includes(b.Phone, term)
  }

  predicate MatchesFilter(b: Booking, filter: string)
  {
    filter == ALL || b.Status == filter
  }

  function Keep(term: string, filter: string): Booking -> bool
  {
    (b: Booking) => MatchesSearch(b, term) && MatchesFilter(b, filter)
  }

  /** filteredBookings: the bookings matching both the search term and the status filter. */
  function FilteredBookings(bookings: seq<Booking>, term: string, filter: string): (r: seq<Booking>)
    ensures forall k :: 0 <= k < |r| ==> r[k] in bookings && MatchesSearch(r[k], term) && MatchesFilter(r[k], filter)
    ensures forall k :: 0 <= k < |bookings| && MatchesSearch(bookings[k], term) && MatchesFilter(bookings[k], filter) ==>
      bookings[k] in r
  {
    Filter(bookings, Keep(term, filter))
  }

  /** Filtering keeps the list order: a split list filters to the two filtered halves. */
  lemma FilteredKeepsOrder(a: seq<Booking>, b: seq<Booking>, term: string, filter: string)
    ensures FilteredBookings(a + b, term, filter) == FilteredBookings(a, term, filter) + FilteredBookings(b, term, filter)
  {
    FilterAppend(a, b, Keep(term, filter));
  }

  /** An empty search under the ALL filter shows every booking. */
  lemma EmptySearchShowsAll(bookings: seq<Booking>)
    ensures FilteredBookings(bookings, "", ALL) == bookings
  {
    assert ToLower("") == "";
    forall k | 0 <= k < |bookings|
      ensures Keep("", ALL)(bookings[k])
    {
      IncludesEmpty(ToLower(bookings[k].Name));
    }
    FilterAll(bookings, Keep("", ALL));
  }

  /** With an empty search, the CONFIRMED filter shows exactly the bookings the confirmed count counts. */
  lemma ConfirmedFilterMatchesCount(bookings: seq<Booking>)
    ensures FilteredBookings(bookings, "", CONFIRMED) == Filter(bookings, StatusIs(CONFIRMED))
    ensures |FilteredBookings(bookings, "", CONFIRMED)| == ConfirmedCount(bookings)
  {
    assert ToLower("") == "";
    forall k | 0 <= k < |bookings|
      ensures Keep("", CONFIRMED)(bookings[k]) <==> StatusIs(CONFIRMED)(bookings[k])
    {
      IncludesEmpty(ToLower(bookings[k].Name));
    }
    FilterCongruent(bookings, Keep("", CONFIRMED), StatusIs(CONFIRMED));
  }

  // ---------------------------------------------------------------------------
  // Row actions

  datatype Action = Approve | Reject | Cancel

  /** The buttons of a bookings-table row. */
  function ActionsFor(status: string): (r: seq<Action>)
    ensures Approve in r <==> ToUpper(status) == PENDING
    ensures Reject in r <==> ToUpper(status) == PENDING
    ensures Cancel in r <==> status == CONFIRMED
    ensures !(Approve in r && Cancel in r)
  {
    assert status == PENDING ==> ToUpper(status) == PENDING;
    assert status == CONFIRMED ==> ToUpper(status)[0] == 'C';
    (if status == PENDING || ToUpper(status) == PENDING then [Approve, Reject] else [])
      + (if status == CONFIRMED then [Cancel] else [])
  }

  /** The status an action asks the backend to write: the cancel button goes through reject. */
  function ActionStatus(a: Action): (status: string)
    ensures status == CONFIRMED <==> a == Approve
    ensures a != Approve ==> status == REJECTED
  {
    match a
    case Approve => CONFIRMED
    case Reject => REJECTED
    case Cancel => REJECTED
  }

  // ---------------------------------------------------------------------------
  // Slot-blocking grid

  /** A blocked row (as the backend's sheetToJson delivers it) that blocks the slot on the date. */
  predicate BlocksSlot(row: map<string, Cell>, date: string, slotId: string)
  {
    Get(row, "Date") == Text(date) && Get(row, "SlotId") == Text(slotId)
  }

  /** blockedSlots.some(...), scanning from the front. */
  function AnyBlocks(blocked: seq<map<string, Cell>>, date: string, slotId: string): bool
  {
    if blocked == [] then false else BlocksSlot(blocked[0], date, slotId) || AnyBlocks(blocked[1..], date, slotId)
  }

  lemma {:induction false} AnyBlocksIff(blocked: seq<map<string, Cell>>, date: string, slotId: string)
    ensures AnyBlocks(blocked, date, slotId) <==> exists k :: 0 <= k < |blocked| && BlocksSlot(blocked[k], date, slotId)
    decreases |blocked|
  {
    if blocked != [] {
      AnyBlocksIff(blocked[1..], date, slotId);
      if exists k :: 0 <= k < |blocked| && BlocksSlot(blocked[k], date, slotId) {
        var k :| 0 <= k < |blocked| && BlocksSlot(blocked[k], date, slotId);
        if k > 0 {
          assert blocked[1..][k - 1] == blocked[k];
        }
      }
    }
  }

  /** The grid of hours 6..23: whether each slot shows as blocked on the chosen date. */
  function BlockGrid(blocked: seq<map<string, Cell>>, blockDate: string): (grid: seq<bool>)
    ensures |grid| == BookingSystem.SLOT_COUNT
  {
    seq(BookingSystem.SLOT_COUNT, i requires 0 <= i < BookingSystem.SLOT_COUNT =>
      AnyBlocks(blocked, blockDate, BookingSystem.SlotId(BookingSystem.FIRST_HOUR + i)))
  }

  /** Cell i shows blocked exactly when some blocked row names the date and the id of hour 6 + i. */
  lemma BlockGridCell(blocked: seq<map<string, Cell>>, blockDate: string, i: nat)
    requires i < BookingSystem.SLOT_COUNT
    ensures BlockGrid(blocked, blockDate)[i] <==>
      exists k :: 0 <= k < |blocked| && BlocksSlot(blocked[k], blockDate, "slot-" + NatToString(BookingSystem.FIRST_HOUR + i))
  {
    AnyBlocksIff(blocked, blockDate, BookingSystem.SlotId(BookingSystem.FIRST_HOUR + i));
  }

  // ---------------------------------------------------------------------------
  // CSV export (handleExportCSV)

  /** The exported fields of a booking, in header order. */
  function CsvFields(b: Booking): (fields: seq<string>)
    ensures |fields| == |CSV_HEADERS|
  {
    [b.BookingId, b.Date, b.Slot, b.Name, b.Phone, CellText(b.Amount), b.Status, b.Timestamp]
  }

  function CsvLine(b: Booking): string
  {
    Join(CsvFields(b), ',')
  }

  /** The header line and one line per booking, joined by newlines, nothing quoted. */
  function CsvContent(bookings: seq<Booking>): string
  {
    Join([Join(CSV_HEADERS, ',')] + seq(|bookings|, k requires 0 <= k < |bookings| => CsvLine(bookings[k])), '\n')
  }

  /** No field of the booking holds a comma or a line break. */
  predicate PlainFields(b: Booking)
  {
    forall j :: 0 <= j < |CsvFields(b)| ==> ',' !in CsvFields(b)[j] && '\n' !in CsvFields(b)[j]
  }

  /**
   * When no field holds a comma or a line break, the export reads back: one
   * header line, then one line per booking in list order, each splitting into
   * that booking's fields.
   */
  lemma CsvReadsBack(bookings: seq<Booking>)
    requires forall k :: 0 <= k < |bookings| ==> PlainFields(bookings[k])
    ensures var lines := Split(CsvContent(bookings), '\n');
      |lines| == |bookings| + 1 && Split(lines[0], ',') == CSV_HEADERS
      && forall k :: 0 <= k < |bookings| ==> Split(lines[k + 1], ',') == CsvFields(bookings[k])
  {
    var lines := [Join(CSV_HEADERS, ',')] + seq(|bookings|, k requires 0 <= k < |bookings| => CsvLine(bookings[k]));
    forall j | 0 <= j < |CSV_HEADERS|
      ensures ',' !in CSV_HEADERS[j] && '\n' !in CSV_HEADERS[j]
    {
    }
    forall k | 0 <= k < |lines|
      ensures '\n' !in lines[k]
    {
      if k == 0 {
        JoinExcludes(CSV_HEADERS, ',', '\n');
      } else {
        JoinExcludes(CsvFields(bookings[k - 1]), ',', '\n');
      }
    }
    SplitJoin(lines, '\n');
    SplitJoin(CSV_HEADERS, ',');
    forall k | 0 <= k < |bookings|
      ensures Split(lines[k + 1], ',') == CsvFields(bookings[k])
    {
      SplitJoin(CsvFields(bookings[k]), ',');
    }
  }

  /** A comma inside a name is written unquoted, so the line reads back as nine fields, not eight. */
  lemma CommaInNameAddsField(b: Booking, first: string, second: string)
    requires b.Name == first + "," + second
    requires ',' !in first && ',' !in second
    requires forall j :: 0 <= j < |CsvFields(b)| && j != 3 ==> ',' !in CsvFields(b)[j]
    ensures |Split(CsvLine(b), ',')| == |CSV_HEADERS| + 1
  {
    var f := CsvFields(b);
    var nine := f[..3] + [first, second] + f[4..];
    assert Join(f[7..], ',') == f[7];
    assert Join(nine[8..], ',') == nine[8];
    assert nine[4..] == [second] + f[4..];
    assert f[3..] == [b.Name] + f[4..];
    assert Join(nine[3..], ',') == first + [','] + Join(nine[4..], ',');
    assert Join(nine[4..], ',') == second + [','] + Join(f[4..], ',');
    assert Join(f[3..], ',') == b.Name + [','] + Join(f[4..], ',');
    assert Join(nine[3..], ',') == Join(f[3..], ',');
    assert Join(nine, ',') == Join(f, ',') by {
      assert nine[3..] == nine[3..];
      assert Join(nine[2..], ',') == Join(f[2..], ',');
      assert Join(nine[1..], ',') == Join(f[1..], ',');
    }
    SplitJoin(nine, ',');
  }
}
