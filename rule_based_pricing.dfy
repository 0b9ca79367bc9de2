/** The rule-based stay pricer (`calculate_price_with_rules`): a nightly
    base price is multiplied by a season factor and a Friday/Saturday
    factor for every night from check-in up to but excluding check-out;
    the nightly prices are summed and a platform fee is added. */
module RuleBasedPricing {
  import opened Calendar
  import opened Wrappers

  /** What the caller passed as a check-in or check-out string: an empty
      string, text that is not `YYYY-MM-DD`, or the three numeric fields
      of a `YYYY-MM-DD` string (which still may not name a real day). */
  datatype DateText = Blank | Unparseable | Iso(year: int, month: int, day: int)

  /** Why no price was returned; the source returns `None` for all three. */
  datatype Rejection =
    | MissingInput   // base price 0 or an empty date string
    | InvalidDate    // `date.fromisoformat` raised `ValueError`
    | InvalidRange   // check-out on or before check-in

  datatype Quote = Price(amount: real) | NoPrice(reason: Rejection)

  /** `date.fromisoformat` as Python 3.10 and earlier define it: it accepts
      only `YYYY-MM-DD`, and succeeds exactly when that names a real day. */
  function ParseDate(t: DateText): (r: Option<Date>)
    ensures r.Some? <==> t.Iso? && ValidDate(Date(t.year, t.month, t.day))
    ensures r.Some? ==> r.value == Date(t.year, t.month, t.day)
  {
    match t
    case Iso(y, m, d) => if ValidDate(Date(y, m, d)) then Some(Date(y, m, d)) else None
    case _ => None
  }

  /** Season rule: December to February is peak season, June to August the monsoon. */
  function SeasonMultiplier(month: int): (f: real)
    ensures f == 1.20 <==> month in {12, 1, 2}
    ensures f == 0.85 <==> month in {6, 7, 8}
    ensures f == 1.0 <==> month !in {12, 1, 2, 6, 7, 8}
  {
    if month == 12 || month == 1 || month == 2 then 1.20
    else if month == 6 || month == 7 || month == 8 then 0.85
    else 1.0
  }

  /** Weekend rule: the night beginning on a Friday (4) or Saturday (5) costs more. */
  function WeekendMultiplier(d: Date): (f: real)
    requires ValidDate(d)
    ensures f == 1.15 <==> Weekday(d) in {4, 5}
    ensures f == 1.0 <==> Weekday(d) !in {4, 5}
  {
    var w := Weekday(d);
    if w == 4 || w == 5 then 1.15 else 1.0
  }

  /** The factor of one night: the season factor, raised by 15% on a
      Friday or Saturday night. It lies between 0.85 and 1.38. */
  function NightFactor(d: Date): (f: real)
    requires ValidDate(d)
    ensures 0.85 <= f <= 1.38
  {
    var season := SeasonMultiplier(d.month);
    if Weekday(d) == 4 || Weekday(d) == 5 then season * 1.15 else season
  }

  /** The two rules apply independently and multiplicatively. */
  lemma NightFactorIsProduct(d: Date)
    requires ValidDate(d)
    ensures NightFactor(d) == SeasonMultiplier(d.month) * WeekendMultiplier(d)
  {
    if Weekday(d) == 4 || Weekday(d) == 5 {
      assert WeekendMultiplier(d) == 1.15;
    } else {
      assert WeekendMultiplier(d) == 1.0;
    }
  }

  /** The price of the night beginning on `d`. */
  function NightlyPrice(base: real, d: Date): real
    requires ValidDate(d)
  {
    base * NightFactor(d)
  }

  /** A night costs between 85% and 138% of a non-negative base price, and
      something when the base price is positive. */
  lemma NightlyPriceBounds(base: real, d: Date)
    requires ValidDate(d)
    ensures base >= 0.0 ==> 0.85 * base <= NightlyPrice(base, d) <= 1.38 * base
    ensures base > 0.0 ==> NightlyPrice(base, d) > 0.0
  {
    ScaleBounds(base, NightFactor(d));
  }

  /** The `n` nights starting on `d`: `d`, the day after, and so on. The day
      after the last night (the check-out day) must itself be a date. */
  function Nights(d: Date, n: nat): (r: seq<Date>)
    requires ValidDate(d) && DayNumber(d) + n <= MaxOrdinal
    ensures |r| == n
    ensures forall k :: 0 <= k < n ==> ValidDate(r[k]) && DayNumber(r[k]) == DayNumber(d) + k
    decreases n
  {
    if n == 0 then []
    else
      DayNumberBounded(LastDate);
      [d] + Nights(NextDay(d), n - 1)
  }

  /** Sum of the nightly prices of the given nights. */
  function StayTotal(base: real, nights: seq<Date>): (r: real)
    requires forall k :: 0 <= k < |nights| ==> ValidDate(nights[k])
    ensures base >= 0.0 ==> r >= 0.0
    ensures base > 0.0 && |nights| > 0 ==> r > 0.0
  {
    if nights == [] then 0.0
    else
      NightlyPriceBounds(base, nights[0]);
      NightlyPrice(base, nights[0]) + StayTotal(base, nights[1..])
  }

  /** Pricing a run of nights is pricing its first night, then the rest from the next day. */
  lemma StayTotalStep(base: real, d: Date, n: nat)
    requires ValidDate(d) && DayNumber(d) + n <= MaxOrdinal && n > 0
    ensures d != LastDate
    ensures StayTotal(base, Nights(d, n)) == NightlyPrice(base, d) + StayTotal(base, Nights(NextDay(d), n - 1))
  {
    DayNumberBounded(LastDate);
    var r := Nights(d, n);
    assert r[0] == d && r[1..] == Nights(NextDay(d), n - 1);
  }

  /** Rule 3: the platform fee, as a percentage of the stay total. */
  function WithFee(total: real, feePercent: real): (r: real)
    ensures feePercent == 0.0 ==> r == total
  {
    total * (1.0 + feePercent / 100.0)
  }

  /** A positive total stays positive under any fee above -100%. */
  lemma WithFeePositive(total: real, feePercent: real)
    ensures total > 0.0 && feePercent > -100.0 ==> WithFee(total, feePercent) > 0.0
  {
    var factor := 1.0 + feePercent / 100.0;
    if total > 0.0 && feePercent > -100.0 {
      ProductFacts(0.0, total, factor);
      assert WithFee(total, feePercent) == total * factor;
    }
  }

  /** The outcome of the input checks that precede any pricing. */
  datatype Checked = Accepted(checkIn: Date, checkOut: Date) | Rejected(reason: Rejection)

  /** The input checks: missing inputs first, then both dates must parse,
      then check-out must fall strictly after check-in. */
  function CheckStay(base: real, checkIn: DateText, checkOut: DateText): (c: Checked)
    ensures c == Rejected(MissingInput) <==> base == 0.0 || checkIn == Blank || checkOut == Blank
    ensures c == Rejected(InvalidDate) <==>
      !(base == 0.0 || checkIn == Blank || checkOut == Blank) &&
      (ParseDate(checkIn).None? || ParseDate(checkOut).None?)
    ensures c.Accepted? ==>
      ValidDate(c.checkIn) && ValidDate(c.checkOut) && Before(c.checkIn, c.checkOut) &&
      ParseDate(checkIn) == Some(c.checkIn) && ParseDate(checkOut) == Some(c.checkOut) && base != 0.0
  {
    if base == 0.0 || checkIn == Blank || checkOut == Blank then Rejected(MissingInput)
    else
      var i, o := ParseDate(checkIn), ParseDate(checkOut);
      if i.None? || o.None? then Rejected(InvalidDate)
      else if AtOrBefore(o.value, i.value) then Rejected(InvalidRange)
      else
        DateOrder(o.value, i.value);
        DateOrder(i.value, o.value);
        Accepted(i.value, o.value)
  }

  /** What `calculate_price_with_rules` returns, before rounding to cents. */
  function QuoteStay(base: real, checkIn: DateText, checkOut: DateText, feePercent: real): (r: Quote)
    ensures r.Price? <==> CheckStay(base, checkIn, checkOut).Accepted?
    ensures r.NoPrice? ==> r.reason == CheckStay(base, checkIn, checkOut).reason
    ensures r.Price? && base > 0.0 && feePercent > -100.0 ==> r.amount > 0.0
  {
    match CheckStay(base, checkIn, checkOut)
    case Rejected(why) => NoPrice(why)
    case Accepted(i, o) =>
      DayNumberBounded(o);
      var total := StayTotal(base, Nights(i, DaysBetween(i, o)));
      WithFeePositive(total, feePercent);
      Price(WithFee(total, feePercent))
  }

  /** The price of an accepted request: the fee applied to the stay total. */
  lemma AcceptedQuote(base: real, checkIn: DateText, checkOut: DateText, feePercent: real)
    requires CheckStay(base, checkIn, checkOut).Accepted?
    ensures var c := CheckStay(base, checkIn, checkOut);
      DayNumber(c.checkIn) + DaysBetween(c.checkIn, c.checkOut) <= MaxOrdinal &&
      QuoteStay(base, checkIn, checkOut, feePercent) ==
        Price(WithFee(StayTotal(base, Nights(c.checkIn, DaysBetween(c.checkIn, c.checkOut))), feePercent))
  {
    DayNumberBounded(CheckStay(base, checkIn, checkOut).checkOut);
  }

  /** The fee `calculate_price_with_rules` charges when the caller gives none. */
  const DefaultFeePercent: real := 10.0

  /** `calculate_price_with_rules` called without a fee. */
  method CalculatePriceWithDefaultFee(base: real, checkIn: DateText, checkOut: DateText) returns (q: Quote)
    ensures q == QuoteStay(base, checkIn, checkOut, DefaultFeePercent)
  {
    q := CalculatePriceWithRules(base, checkIn, checkOut, DefaultFeePercent);
  }

  /** `calculate_price_with_rules`: the input checks, the night-by-night
      loop, then the platform fee. */
  method CalculatePriceWithRules(base: real, checkIn: DateText, checkOut: DateText, feePercent: real)
    returns (q: Quote)
    ensures q == QuoteStay(base, checkIn, checkOut, feePercent)
  {
    var checked := CheckStay(base, checkIn, checkOut);
    if checked.Rejected? {
      return NoPrice(checked.reason);
    }
    var checkInDate, checkOutDate := checked.checkIn, checked.checkOut;
    var numNights := DaysBetween(checkInDate, checkOutDate);
    DayNumberBounded(checkOutDate);
    var total := SumNightlyPrices(base, checkInDate, numNights);
    q := Price(WithFee(total, feePercent));
  }

  /** The loop of `calculate_price_with_rules`: one iteration per night,
      pricing the current night and then moving to the next day. */
  method SumNightlyPrices(base: real, checkInDate: Date, numNights: nat) returns (total: real)
    requires ValidDate(checkInDate) && DayNumber(checkInDate) + numNights <= MaxOrdinal
    ensures total == StayTotal(base, Nights(checkInDate, numNights))
  {
    total := 0.0;
    var current := checkInDate;
    LoopStart(base, checkInDate, numNights);
    for k := 0 to numNights
      invariant NightsLeft(base, checkInDate, numNights, current, k, total)
    {
      NightStep(base, checkInDate, numNights, current, k, total);
      var nightlyPrice := NightlyPrice(base, current);
      total := total + nightlyPrice;
      current := NextDay(current);
    }
    LoopEnd(base, checkInDate, numNights, current, total);
  }

  /** The loop state after `k` nights: `current` is the `k`-th day after
      check-in, and `total` plus the price of the nights still to come is
      the price of the whole stay. */
  ghost predicate NightsLeft(base: real, checkInDate: Date, numNights: nat, current: Date, k: nat, total: real) {
    ValidDate(checkInDate) && DayNumber(checkInDate) + numNights <= MaxOrdinal &&
    k <= numNights && ValidDate(current) && DayNumber(current) == DayNumber(checkInDate) + k &&
    total + StayTotal(base, Nights(current, numNights - k)) == StayTotal(base, Nights(checkInDate, numNights))
  }

  lemma LoopStart(base: real, checkInDate: Date, numNights: nat)
    requires ValidDate(checkInDate) && DayNumber(checkInDate) + numNights <= MaxOrdinal
    ensures NightsLeft(base, checkInDate, numNights, checkInDate, 0, 0.0)
  {
  }

  /** One iteration of the loop keeps its invariant. */
  lemma NightStep(base: real, checkInDate: Date, numNights: nat, current: Date, k: nat, total: real)
    requires k < numNights && NightsLeft(base, checkInDate, numNights, current, k, total)
    ensures ValidDate(current) && current != LastDate
    ensures NightsLeft(base, checkInDate, numNights, NextDay(current), k + 1, total + NightlyPrice(base, current))
  {
    StayTotalStep(base, current, numNights - k);
  }

  lemma LoopEnd(base: real, checkInDate: Date, numNights: nat, current: Date, total: real)
    requires NightsLeft(base, checkInDate, numNights, current, numNights, total)
    ensures total == StayTotal(base, Nights(checkInDate, numNights))
  {
    assert Nights(current, 0) == [];
  }

  // Properties of the pricer.

  /** A price is returned exactly when the base price is non-zero, both
      dates parse, and check-out falls strictly after check-in; in
      particular a stay of zero or fewer nights is never priced. */
  lemma PricedExactlyForNonEmptyStays(base: real, checkIn: DateText, checkOut: DateText, feePercent: real)
    ensures QuoteStay(base, checkIn, checkOut, feePercent).Price? <==>
      base != 0.0 && ParseDate(checkIn).Some? && ParseDate(checkOut).Some? &&
      Before(ParseDate(checkIn).value, ParseDate(checkOut).value)
    ensures (ParseDate(checkIn).Some? && ParseDate(checkOut).Some? &&
             AtOrBefore(ParseDate(checkOut).value, ParseDate(checkIn).value)) ==>
      QuoteStay(base, checkIn, checkOut, feePercent) ==
        NoPrice(if base == 0.0 then MissingInput else InvalidRange)
  {
    var c := CheckStay(base, checkIn, checkOut);
    if ParseDate(checkIn).Some? && ParseDate(checkOut).Some? {
      var i, o := ParseDate(checkIn).value, ParseDate(checkOut).value;
      DateOrder(i, o);
      DateOrder(o, i);
    }
  }

  /** A zero base price or an empty date string is rejected before
      anything else is looked at. */
  lemma MissingInputRejected(base: real, checkIn: DateText, checkOut: DateText, feePercent: real)
    requires base == 0.0 || checkIn == Blank || checkOut == Blank
    ensures QuoteStay(base, checkIn, checkOut, feePercent) == NoPrice(MissingInput)
  {
  }

  /** The nights priced are exactly the dates from check-in up to but
      excluding check-out, each once, and there are `(check_out - check_in).days` of them. */
  lemma NightsAreTheStay(i: Date, o: Date)
    requires ValidDate(i) && ValidDate(o) && Before(i, o)
    ensures DayNumber(i) + DaysBetween(i, o) <= MaxOrdinal
    ensures |Nights(i, DaysBetween(i, o))| == DaysBetween(i, o)
    ensures forall x :: ValidDate(x) ==>
      (x in Nights(i, DaysBetween(i, o)) <==> AtOrBefore(i, x) && Before(x, o))
    ensures forall j, k :: 0 <= j < k < |Nights(i, DaysBetween(i, o))| ==>
      Nights(i, DaysBetween(i, o))[j] != Nights(i, DaysBetween(i, o))[k]
  {
    DayNumberBounded(o);
    var n := DaysBetween(i, o);
    var stay := Nights(i, n);
    forall x | ValidDate(x)
      ensures x in stay <==> AtOrBefore(i, x) && Before(x, o)
    {
      DateOrder(i, x);
      DateOrder(x, o);
      if AtOrBefore(i, x) && Before(x, o) {
        var k := DayNumber(x) - DayNumber(i);
        DayNumberInjective(stay[k], x);
      }
    }
  }

  /** The fee layer keeps the order of totals when the fee is above -100%. */
  lemma WithFeeMonotone(t1: real, t2: real, feePercent: real)
    requires t1 < t2 && feePercent > -100.0
    ensures WithFee(t1, feePercent) < WithFee(t2, feePercent)
  {
    var factor := 1.0 + feePercent / 100.0;
    ProductFacts(t1, t2, factor);
    assert WithFee(t1, feePercent) == t1 * factor && WithFee(t2, feePercent) == t2 * factor;
  }

  /** On a positive total, a higher fee gives a higher price. */
  lemma WithFeeGrowsWithFee(total: real, f1: real, f2: real)
    requires total > 0.0 && f1 < f2
    ensures WithFee(total, f1) < WithFee(total, f2)
  {
    ProductFacts(f1, f2, total);
    assert WithFee(total, f1) == total + f1 * total / 100.0;
    assert WithFee(total, f2) == total + f2 * total / 100.0;
  }

  lemma ScaleBounds(base: real, f: real)
    ensures base >= 0.0 && 0.85 <= f <= 1.38 ==> 0.85 * base <= base * f <= 1.38 * base
    ensures base > 0.0 && f > 0.0 ==> base * f > 0.0
  {
  }

  lemma ProductFacts(a: real, b: real, c: real)
    ensures b > 0.0 && c > 0.0 ==> b * c > 0.0
    ensures a < b && c > 0.0 ==> a * c < b * c
  {
  }

  /** Every night's price is a positive multiple of the base price. */
  lemma NightlyPriceMonotone(b1: real, b2: real, d: Date)
    requires ValidDate(d) && b1 < b2
    ensures NightlyPrice(b1, d) < NightlyPrice(b2, d)
    ensures b1 >= 0.0 ==> NightlyPrice(b2, d) > 0.0
  {
    var f := NightFactor(d);
    ProductFacts(b1, b2, f);
    ProductFacts(0.0, b2, f);
  }

  /** Over a non-empty stay, a higher base price gives a strictly higher total,
      and a positive base price a positive total. */
  lemma {:induction false} StayTotalMonotone(b1: real, b2: real, nights: seq<Date>)
    requires forall k :: 0 <= k < |nights| ==> ValidDate(nights[k])
    requires b1 < b2 && nights != []
    ensures StayTotal(b1, nights) < StayTotal(b2, nights)
    ensures b1 >= 0.0 ==> StayTotal(b2, nights) > 0.0
  {
    NightlyPriceMonotone(b1, b2, nights[0]);
    if |nights| > 1 {
      StayTotalMonotone(b1, b2, nights[1..]);
    }
  }

  /** With a zero platform fee the price is the plain sum of the nightly prices. */
  lemma ZeroFeeIsStayTotal(base: real, checkIn: DateText, checkOut: DateText)
    requires CheckStay(base, checkIn, checkOut).Accepted?
    ensures QuoteStay(base, checkIn, checkOut, 0.0).Price?
    ensures var c := CheckStay(base, checkIn, checkOut);
      DayNumber(c.checkIn) + DaysBetween(c.checkIn, c.checkOut) <= MaxOrdinal &&
      QuoteStay(base, checkIn, checkOut, 0.0).amount ==
        StayTotal(base, Nights(c.checkIn, DaysBetween(c.checkIn, c.checkOut)))
  {
    DayNumberBounded(CheckStay(base, checkIn, checkOut).checkOut);
  }

  /** For a non-negative fee, a higher base price gives a strictly higher price. */
  lemma PriceGrowsWithBase(b1: real, b2: real, checkIn: DateText, checkOut: DateText, feePercent: real)
    requires 0.0 < b1 < b2 && feePercent >= 0.0
    requires CheckStay(b1, checkIn, checkOut).Accepted?
    ensures QuoteStay(b1, checkIn, checkOut, feePercent).Price?
    ensures QuoteStay(b2, checkIn, checkOut, feePercent).Price?
    ensures QuoteStay(b1, checkIn, checkOut, feePercent).amount <
            QuoteStay(b2, checkIn, checkOut, feePercent).amount
  {
    var c := CheckStay(b1, checkIn, checkOut);
    assert CheckStay(b2, checkIn, checkOut) == c;
    AcceptedQuote(b1, checkIn, checkOut, feePercent);
    AcceptedQuote(b2, checkIn, checkOut, feePercent);
    var stay := Nights(c.checkIn, DaysBetween(c.checkIn, c.checkOut));
    StayTotalMonotone(b1, b2, stay);
    WithFeeMonotone(StayTotal(b1, stay), StayTotal(b2, stay), feePercent);
  }

  /** For a positive base price, a higher fee gives a strictly higher price. */
  lemma PriceGrowsWithFee(base: real, checkIn: DateText, checkOut: DateText, f1: real, f2: real)
    requires base > 0.0 && f1 < f2
    requires CheckStay(base, checkIn, checkOut).Accepted?
    ensures QuoteStay(base, checkIn, checkOut, f1).Price?
    ensures QuoteStay(base, checkIn, checkOut, f1).amount < QuoteStay(base, checkIn, checkOut, f2).amount
  {
    var c := CheckStay(base, checkIn, checkOut);
    AcceptedQuote(base, checkIn, checkOut, f1);
    AcceptedQuote(base, checkIn, checkOut, f2);
    var stay := Nights(c.checkIn, DaysBetween(c.checkIn, c.checkOut));
    StayTotalMonotone(0.0, base, stay);
    WithFeeGrowsWithFee(StayTotal(base, stay), f1, f2);
  }

  // The two worked examples of the source's demonstration block.

  /** Friday 20 and Saturday 21 December 2024, peak season: 2 x 7000 x 1.20 x 1.15 plus 10%. */
  lemma PeakWeekendExample()
    ensures QuoteStay(7000.0, Iso(2024, 12, 20), Iso(2024, 12, 22), 10.0) == Price(21252.0)
  {
    var fri, sat, sun := Date(2024, 12, 20), Date(2024, 12, 21), Date(2024, 12, 22);
    assert DayNumber(fri) == 739240;
    assert Weekday(fri) == 4 && Weekday(sat) == 5;
    DayNumberBounded(sun);
    assert CheckStay(7000.0, Iso(2024, 12, 20), Iso(2024, 12, 22)) == Accepted(fri, sun);
    assert DaysBetween(fri, sun) == 2;
    assert Nights(sat, 1) == [sat];
    assert Nights(fri, 2) == [fri, sat];
    assert StayTotal(7000.0, [sat]) == 9660.0;
    assert StayTotal(7000.0, [fri, sat]) == 19320.0;
  }

  /** Wednesday 10 July 2024, monsoon season: 7000 x 0.85 plus 10%. */
  lemma OffSeasonWeekdayExample()
    ensures QuoteStay(7000.0, Iso(2024, 7, 10), Iso(2024, 7, 11), 10.0) == Price(6545.0)
  {
    var wed, thu := Date(2024, 7, 10), Date(2024, 7, 11);
    assert DayNumber(wed) == 739077;
    assert Weekday(wed) == 2;
    DayNumberBounded(thu);
    assert CheckStay(7000.0, Iso(2024, 7, 10), Iso(2024, 7, 11)) == Accepted(wed, thu);
    assert DaysBetween(wed, thu) == 1;
    assert Nights(wed, 1) == [wed];
    assert StayTotal(7000.0, [wed]) == 5950.0;
  }
}
