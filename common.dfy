/**
 * Shared vocabulary of the turf booking system: the record types declared in
 * types.ts and the handful of JavaScript built-ins the rest of the model leans
 * on (Number(), truthiness, String.prototype.includes, padStart, toLowerCase,
 * Array.prototype.join and filter), stated over Dafny's unbounded integers and
 * strings.
 */
module Common {

  datatype Option<T> = None | Some(value: T)

  /**
   * A spreadsheet cell or a JSON scalar as this system handles it: a number,
   * a string, or nothing at all (JavaScript's undefined).
   */
  datatype Cell = Num(n: int) | Text(s: string) | Blank

  /** The booking statuses the backend and the clients write. */
  const CONFIRMED := "CONFIRMED"
  const PENDING := "PENDING"
  const REJECTED := "REJECTED"

  /** The placeholder written for a missing e-mail, payment id or screenshot. */
  const NOT_AVAILABLE := "N/A"

  /** A booking record as the client sees it (the `Booking` interface of types.ts). */
  datatype Booking = Booking(
    BookingId: string,
    Date: string,
    Slot: string,
    Name: string,
    Phone: string,
    Amount: Cell,
    Status: string,
    Timestamp: string,
    PaymentId: string,
    ScreenshotUrl: string)

  // ---------------------------------------------------------------------------
  // Decimal digits

  predicate IsDigit(c: char) { '0' <= c <= '9' }

  predicate AllDigits(s: string) { forall i :: 0 <= i < |s| ==> IsDigit(s[i]) }

  function DigitChar(d: nat): (c: char)
    requires d < 10
    ensures IsDigit(c)
  {
    ('0' as int + d) as char
  }

  /** Number.prototype.toString() of a non-negative integer. */
  function NatToString(n: nat): (s: string)
    ensures |s| >= 1 && AllDigits(s)
    ensures n < 10 <==> |s| == 1
    decreases n
  {
    if n < 10 then [DigitChar(n)] else NatToString(n / 10) + [DigitChar(n % 10)]
  }

  /** The value of a string of decimal digits, most significant first. */
  function ParseDigits(s: string): nat
    requires AllDigits(s)
  {
    if s == [] then 0 else ParseDigits(s[..|s| - 1]) * 10 + (s[|s| - 1] as int - '0' as int)
  }

  /** Reading back what NatToString wrote gives the number again. */
  lemma {:induction false} ParseNatToString(n: nat)
    ensures ParseDigits(NatToString(n)) == n
    decreases n
  {
    if n >= 10 {
      ParseNatToString(n / 10);
      var s := NatToString(n);
      assert s[..|s| - 1] == NatToString(n / 10);
    }
  }

  /** Distinct numbers are written as distinct strings. */
  lemma NatToStringInjective(a: nat, b: nat)
    requires NatToString(a) == NatToString(b)
    ensures a == b
  {
    ParseNatToString(a);
    ParseNatToString(b);
  }

  /** String(n) for any integer. */
  function IntToString(i: int): string
  {
    if i < 0 then "-" + NatToString(-i) else NatToString(i)
  }

  /** n.toString().padStart(2, '0') */
  function Pad2(n: nat): (s: string)
    ensures AllDigits(s) && ParseDigits(s) == n
    ensures n < 100 ==> |s| == 2
  {
    ParseNatToString(n);
    var d := NatToString(n);
    if |d| < 2 then
      assert ParseDigits(("0" + d)[..1]) == 0;
      "0" + d
    else
      d
  }

  /** A wall-clock hour as the booking screens print it: `HH:00`. */
  function ClockTime(hour: nat): string
  {
    Pad2(hour) + ":00"
  }

  /** The hour can be read back from the first two characters of ClockTime. */
  lemma ClockTimeHour(hour: nat)
    requires hour < 100
    ensures |ClockTime(hour)| == 5
    ensures AllDigits(ClockTime(hour)[..2]) && ParseDigits(ClockTime(hour)[..2]) == hour
    ensures ClockTime(hour)[2..] == ":00"
  {
    assert ClockTime(hour)[..2] == Pad2(hour);
  }

  // ---------------------------------------------------------------------------
  // JavaScript value semantics

  /**
   * Number(c): None stands for NaN. Only plain digit strings are read as
   * numbers (and "" as 0); any other text is NaN.
   */
  function ToNumber(c: Cell): (r: Option<int>)
    ensures c.Num? ==> r == Some(c.n)
    ensures c.Blank? ==> r.None?
    ensures c.Text? && AllDigits(c.s) ==> r == Some(ParseDigits(c.s)) && r.value >= 0
    ensures c.Text? && !AllDigits(c.s) ==> r.None?
  {
    match c
    case Num(n) => Some(n)
    case Text(s) => if AllDigits(s) then Some(ParseDigits(s)) else None
    case Blank => None
  }

  /** JavaScript truthiness of a cell: 0, "" and undefined are falsy. */
  predicate Truthy(c: Cell)
  {
    match c
    case Num(n) => n != 0
    case Text(s) => s != ""
    case Blank => false
  }

  /** Property lookup on a plain object; a missing key reads as undefined. */
  function Get(m: map<string, Cell>, key: string): (c: Cell)
    ensures key !in m ==> c == Blank
    ensures key in m ==> c == m[key]
  {
    if key in m then m[key] else Blank
  }

  /** String(c), as Array.prototype.join writes an element (undefined as ""). */
  function CellText(c: Cell): string
  {
    match c
    case Num(n) => IntToString(n)
    case Text(s) => s
    case Blank => ""
  }

  // ---------------------------------------------------------------------------
  // Strings

  predicate IsPrefix(p: string, s: string) { |p| <= |s| && s[..|p|] == p }

  /** String.prototype.includes: t occurs somewhere in s. */
  predicate Includes(s: string, t: string)
    decreases |s|
  {
    IsPrefix(t, s) || (s != [] && Includes(s[1..], t))
  }

  /** t occurs in s at position i. */
  predicate SliceAt(s: string, t: string, i: int)
  {
    0 <= i <= |s| - |t| && s[i..i + |t|] == t
  }

  /** Includes means that t is some slice of s. */
  lemma {:induction false} IncludesSlice(s: string, t: string)
    ensures Includes(s, t) <==> exists i :: SliceAt(s, t, i)
    decreases |s|
  {
    if s != [] {
      IncludesSlice(s[1..], t);
      if IsPrefix(t, s) {
        assert SliceAt(s, t, 0);
      }
      if Includes(s[1..], t) {
        var i :| SliceAt(s[1..], t, i);
        assert s[i + 1..i + 1 + |t|] == s[1..][i..i + |t|];
        assert SliceAt(s, t, i + 1);
      }
      if i :| SliceAt(s, t, i) {
        if i > 0 {
          assert s[1..][i - 1..i - 1 + |t|] == s[i..i + |t|];
          assert SliceAt(s[1..], t, i - 1);
        } else {
          assert IsPrefix(t, s);
        }
      }
    } else {
      if i :| SliceAt(s, t, i) {
        assert IsPrefix(t, s);
      }
      if Includes(s, t) {
        assert SliceAt(s, t, 0);
      }
    }
  }

  /** Every string includes the empty string. */
  lemma IncludesEmpty(s: string)
    ensures Includes(s, "")
  {
    assert IsPrefix("", s);
  }

  /**
   * String.prototype.length: the number of UTF-16 code units, two for each
   * character above U+FFFF (a surrogate pair).
   */
  function Utf16Length(s: string): (n: nat)
    ensures |s| <= n <= 2 * |s|
    ensures (forall i :: 0 <= i < |s| ==> s[i] as int <= 0xFFFF) ==> n == |s|
  {
    if s == [] then 0 else Utf16Length(s[..|s| - 1]) + (if s[|s| - 1] as int > 0xFFFF then 2 else 1)
  }

  /** String.prototype.toLowerCase, for the ASCII letters. */
  function ToLower(s: string): (r: string)
    ensures |r| == |s|
    ensures forall i :: 0 <= i < |s| && !('A' <= s[i] <= 'Z') ==> r[i] == s[i]
    ensures forall i :: 0 <= i < |s| && 'A' <= s[i] <= 'Z' ==> r[i] as int == s[i] as int + 32 && 'a' <= r[i] <= 'z'
  {
    seq(|s|, i requires 0 <= i < |s| => if 'A' <= s[i] <= 'Z' then (s[i] as int + 32) as char else s[i])
  }

  /** String.prototype.toUpperCase, for the ASCII letters. */
  function ToUpper(s: string): (r: string)
    ensures |r| == |s|
    ensures forall i :: 0 <= i < |s| && !('a' <= s[i] <= 'z') ==> r[i] == s[i]
    ensures forall i :: 0 <= i < |s| && 'a' <= s[i] <= 'z' ==> r[i] as int == s[i] as int - 32 && 'A' <= r[i] <= 'Z'
  {
    seq(|s|, i requires 0 <= i < |s| => if 'a' <= s[i] <= 'z' then (s[i] as int - 32) as char else s[i])
  }

  /** Array.prototype.join(sep) over strings. */
  function Join(parts: seq<string>, sep: char): string
  {
    if |parts| == 0 then ""
    else if |parts| == 1 then parts[0]
    else parts[0] + [sep] + Join(parts[1..], sep)
  }

  /** String.prototype.split(sep) for a one-character separator. */
  function Split(s: string, sep: char): (r: seq<string>)
    ensures |r| >= 1
  {
    if s == [] then [""]
    else
      var rest := Split(s[1..], sep);
      if s[0] == sep then [""] + rest else [[s[0]] + rest[0]] + rest[1..]
  }

  /** Splitting a separator-free prefix glues it onto the first piece. */
  lemma {:induction false} SplitPrefix(p: string, t: string, sep: char)
    requires sep !in p
    ensures Split(p + t, sep) == [p + Split(t, sep)[0]] + Split(t, sep)[1..]
    decreases |p|
  {
    if p != [] {
      var st := Split(t, sep);
      assert (p + t)[0] == p[0] && p[0] != sep;
      assert (p + t)[1..] == p[1..] + t;
      SplitPrefix(p[1..], t, sep);
      var rest := Split(p[1..] + t, sep);
      assert rest[0] == p[1..] + st[0] && rest[1..] == st[1..];
      assert Split(p + t, sep) == [[p[0]] + rest[0]] + rest[1..];
      assert [p[0]] + (p[1..] + st[0]) == p + st[0];
      assert [p[0]] + rest[0] == p + st[0];
      assert Split(p + t, sep) == [p + st[0]] + st[1..];
    } else {
      assert p + t == t;
      assert p + Split(t, sep)[0] == Split(t, sep)[0];
    }
  }

  /** The first piece of a split is everything before the first separator. */
  lemma {:induction false} FirstField(s: string, sep: char)
    ensures var f := Split(s, sep)[0];
      |f| <= |s| && f == s[..|f|] && sep !in f && (|f| < |s| ==> s[|f|] == sep)
    decreases |s|
  {
    if s != [] {
      FirstField(s[1..], sep);
    }
  }

  /** A character that is neither the separator nor in any part is not in the joined string. */
  lemma {:induction false} JoinExcludes(parts: seq<string>, sep: char, c: char)
    requires c != sep
    requires forall k :: 0 <= k < |parts| ==> c !in parts[k]
    ensures c !in Join(parts, sep)
    decreases |parts|
  {
    if |parts| > 1 {
      JoinExcludes(parts[1..], sep, c);
    }
  }

  /** split undoes join when no part contains the separator. */
  lemma {:induction false} SplitJoin(parts: seq<string>, sep: char)
    requires |parts| >= 1
    requires forall k :: 0 <= k < |parts| ==> sep !in parts[k]
    ensures Split(Join(parts, sep), sep) == parts
    decreases |parts|
  {
    if |parts| == 1 {
      SplitPrefix(parts[0], "", sep);
      assert parts[0] + "" == parts[0];
    } else {
      var rest := Join(parts[1..], sep);
      SplitJoin(parts[1..], sep);
      assert Join(parts, sep) == parts[0] + ([sep] + rest);
      SplitPrefix(parts[0], [sep] + rest, sep);
      assert ([sep] + rest)[1..] == rest;
      assert Split([sep] + rest, sep) == [""] + parts[1..];
      assert parts[0] + "" == parts[0];
    }
  }

  // ---------------------------------------------------------------------------
  // Linear search (Array.prototype.findIndex and the sheet scans)

  /** The first index at or after `from` whose element satisfies p, if any. */
  function FirstFrom<T>(s: seq<T>, p: T -> bool, from: nat): (r: Option<nat>)
    ensures r.Some? ==> from <= r.value < |s| && p(s[r.value])
    ensures r.Some? ==> forall j :: from <= j < r.value ==> !p(s[j])
    ensures r.None? <==> forall j :: from <= j < |s| ==> !p(s[j])
    decreases |s| - from
  {
    if from >= |s| then None
    else if p(s[from]) then Some(from)
    else FirstFrom(s, p, from + 1)
  }

  // ---------------------------------------------------------------------------
  // Array.prototype.filter

  function Filter<T>(s: seq<T>, p: T -> bool): (r: seq<T>)
    ensures |r| <= |s|
    ensures forall k :: 0 <= k < |r| ==> r[k] in s && p(r[k])
    ensures forall k :: 0 <= k < |s| && p(s[k]) ==> s[k] in r
  {
    if s == [] then [] else Filter(s[..|s| - 1], p) + (if p(s[|s| - 1]) then [s[|s| - 1]] else [])
  }

  /** Filtering distributes over concatenation, so the kept elements stay in order. */
  lemma {:induction false} FilterAppend<T>(a: seq<T>, b: seq<T>, p: T -> bool)
    ensures Filter(a + b, p) == Filter(a, p) + Filter(b, p)
    decreases |b|
  {
    if b == [] {
      assert a + b == a;
    } else {
      var b' := b[..|b| - 1];
      assert (a + b)[..|a + b| - 1] == a + b';
      FilterAppend(a, b', p);
    }
  }

  /** Filtering with a predicate that holds of everything keeps the whole sequence. */
  lemma {:induction false} FilterAll<T>(s: seq<T>, p: T -> bool)
    requires forall k :: 0 <= k < |s| ==> p(s[k])
    ensures Filter(s, p) == s
    decreases |s|
  {
    if s != [] {
      FilterAll(s[..|s| - 1], p);
    }
  }

  /** Filters whose tests agree on every element keep the same elements. */
  lemma {:induction false} FilterCongruent<T>(s: seq<T>, p: T -> bool, q: T -> bool)
    requires forall k :: 0 <= k < |s| ==> (p(s[k]) <==> q(s[k]))
    ensures Filter(s, p) == Filter(s, q)
    decreases |s|
  {
    if s != [] {
      FilterCongruent(s[..|s| - 1], p, q);
    }
  }

  /** Two predicates that never hold together select at most |s| elements between them. */
  lemma {:induction false} FilterDisjoint<T>(s: seq<T>, p: T -> bool, q: T -> bool)
    requires forall k :: 0 <= k < |s| ==> !(p(s[k]) && q(s[k]))
    ensures |Filter(s, p)| + |Filter(s, q)| <= |s|
    decreases |s|
  {
    if s != [] {
      FilterDisjoint(s[..|s| - 1], p, q);
    }
  }

  /** A predicate and its negation split a sequence into two parts whose sizes add up. */
  lemma {:induction false} FilterComplement<T>(s: seq<T>, p: T -> bool, q: T -> bool)
    requires forall k :: 0 <= k < |s| ==> (q(s[k]) <==> !p(s[k]))
    ensures |Filter(s, p)| + |Filter(s, q)| == |s|
    ensures multiset(Filter(s, p)) + multiset(Filter(s, q)) == multiset(s)
    decreases |s|
  {
    if s != [] {
      FilterComplement(s[..|s| - 1], p, q);
      assert s == s[..|s| - 1] + [s[|s| - 1]];
    }
  }
}
