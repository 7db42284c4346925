/** The order / invoice number proposed on the order form:
    "ORD", the 8-digit `yyyyMMdd` date, then the day's order count plus one,
    zero-padded to at least three digits. The date and the count of orders
    already placed on that date are parameters here, since the program reads
    them from the clock and the database. */
module OrderNumber {
  import opened Wrappers
  import opened Digits

  /** A calendar date as `DateTime.Today` supplies it. */
  datatype Date = Date(year: int, month: int, day: int)

  /** The year, month and day ranges of the .NET `DateTime` type, with the
      day taken as 1..31 whatever the month: a coarser bound than the
      calendar, which is all the stamp needs. */
  predicate ValidDate(d: Date) {
    1 <= d.year <= 9999 && 1 <= d.month <= 12 && 1 <= d.day <= 31
  }

  const Prefix: string := "ORD"

  /** A number rendered in exactly `width` digits, zero-padded. */
  function Field(n: nat, width: nat): (r: string)
    requires 1 <= width && n < Pow10(width)
    ensures |r| == width && AllDigits(r) && Value(r) == n
  {
    PaddedLength(n, width);
    PaddedValue(n, width);
    ZeroPad(Decimal(n), width)
  }

  /** The `yyyyMMdd` rendering of a date: eight digits whose three fields
      read back as the year, month and day. */
  function DateStamp(d: Date): (r: string)
    requires ValidDate(d)
    ensures |r| == 8 && AllDigits(r)
    ensures AllDigits(r[..4]) && AllDigits(r[4..6]) && AllDigits(r[6..])
    ensures Value(r[..4]) == d.year && Value(r[4..6]) == d.month && Value(r[6..]) == d.day
  {
    assert Pow10(2) == 100 && Pow10(4) == 10000;
    var y, m, dd := Field(d.year, 4), Field(d.month, 2), Field(d.day, 2);
    StampLayout(y, m, dd);
    y + m + dd
  }

  /** Where the year, month and day sit in a date stamp. */
  lemma StampLayout(y: string, m: string, dd: string)
    requires |y| == 4 && |m| == 2 && |dd| == 2
    requires AllDigits(y) && AllDigits(m) && AllDigits(dd)
    ensures |y + m + dd| == 8 && AllDigits(y + m + dd)
    ensures (y + m + dd)[..4] == y && (y + m + dd)[4..6] == m && (y + m + dd)[6..] == dd
  {
    DigitsConcat(y, m);
    DigitsConcat(y + m, dd);
  }

  /** GenerateOrderNumber: the prefix, the date stamp, then the sequence
      number `todayOrderCount + 1` in at least three digits. */
  function Generate(today: Date, todayOrderCount: nat): (r: string)
    requires ValidDate(today)
    ensures |r| == 11 + Max(|Decimal(todayOrderCount + 1)|, 3)
    ensures r[..3] == Prefix
    ensures AllDigits(r[3..]) && AllDigits(r[11..])
    ensures r[3..11] == DateStamp(today)
    ensures Value(r[11..]) == todayOrderCount + 1
  {
    var stamp := DateStamp(today);
    var seqNo := ZeroPad(Decimal(todayOrderCount + 1), 3);
    PaddedValue(todayOrderCount + 1, 3);
    Layout(stamp, seqNo);
    Prefix + stamp + seqNo
  }

  /** Where the parts of an order number sit in the assembled string. */
  lemma Layout(stamp: string, seqNo: string)
    requires |stamp| == 8 && AllDigits(stamp) && AllDigits(seqNo)
    ensures |Prefix + stamp + seqNo| == 11 + |seqNo|
    ensures (Prefix + stamp + seqNo)[..3] == Prefix
    ensures (Prefix + stamp + seqNo)[3..11] == stamp
    ensures (Prefix + stamp + seqNo)[11..] == seqNo
    ensures AllDigits((Prefix + stamp + seqNo)[3..])
    ensures AllDigits((Prefix + stamp + seqNo)[11..])
  {
    var tail := stamp + seqNo;
    var r := Prefix + tail;
    assert Prefix + stamp + seqNo == r;
    assert r[3..] == tail;
    assert r[3..11] == r[3..][..8];
    DigitsConcat(stamp, seqNo);
  }

  /** Reads a `yyyyMMdd` stamp back into a valid date. */
  function ParseStamp(t: string): (r: Option<Date>)
    requires |t| == 8
    ensures r.Some? ==> ValidDate(r.value)
  {
    if !(AllDigits(t[..4]) && AllDigits(t[4..6]) && AllDigits(t[6..])) then None
    else
      var date := Date(Value(t[..4]), Value(t[4..6]), Value(t[6..]));
      if ValidDate(date) then Some(date) else None
  }

  /** Reads an order number back into its date and the count of orders that
      preceded it on that date; `None` for any string not of that shape. */
  function Parse(s: string): (r: Option<(Date, nat)>)
    ensures r.Some? ==> ValidDate(r.value.0) && |s| >= 14 && s[..3] == Prefix
  {
    if |s| < 14 || s[..3] != Prefix || !AllDigits(s[11..]) then None
    else
      match ParseStamp(s[3..11])
      case None => None
      case Some(date) =>
        var seqNo := Value(s[11..]);
        if seqNo == 0 then None else Some((date, seqNo - 1))
  }

  lemma StampRoundTrip(d: Date)
    requires ValidDate(d)
    ensures ParseStamp(DateStamp(d)) == Some(d)
  {
  }

  /** Every generated number parses back to the date and count it was made
      from. */
  lemma ParseGenerate(today: Date, todayOrderCount: nat)
    requires ValidDate(today)
    ensures Parse(Generate(today, todayOrderCount)) == Some((today, todayOrderCount))
  {
    StampRoundTrip(today);
  }
}
