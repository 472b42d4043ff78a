/**
 * computePoints: the seven additive scoring rules of a receipt.
 *
 * Amounts are read exactly as decimals (see Conv.Decimal): a total is a
 * whole dollar amount when 10^scale divides its mantissa, a multiple of
 * 0.25 when 10^scale divides four times its mantissa, and an item's bonus
 * is the ceiling of a fifth of its price.
 */
module Scoring {
  import opened Wrappers
  import opened Text
  import opened Conv
  import opened DateTime
  import opened Receipts

  /** One point per character the regexp `[^a-zA-Z0-9]+` leaves of the retailer name, counted in bytes. */
  function RetailerPoints(retailer: string): (p: nat)
    ensures p == |StripNonAlnum(retailer)| <= |retailer|
  {
    var kept := StripNonAlnum(retailer);
    assert forall i :: 0 <= i < |kept| ==> kept[i] as int < 0x80 by {
      forall i | 0 <= i < |kept| ensures kept[i] as int < 0x80 {
        assert IsAsciiAlnum(kept[i]);
      }
    }
    ByteLength(kept)
  }

  /** The retailer rule counts the alphanumeric characters of the name. */
  lemma {:induction false} RetailerPointsCount(retailer: string)
    ensures RetailerPoints(retailer) == |AlnumPositions(retailer)|
  {
    StripNonAlnumCounts(retailer);
  }

  /** The total is a whole number of dollars. */
  predicate IsWholeAmount(d: Decimal) {
    d.mantissa % Pow10(d.scale) == 0
  }

  /** The total is a multiple of 0.25: four times it is a whole number. */
  predicate IsQuarterMultiple(d: Decimal) {
    (4 * d.mantissa) % Pow10(d.scale) == 0
  }

  /** A multiple of p leaves no remainder when divided by p. */
  lemma {:induction false} MultipleHasNoRemainder(p: nat, k: nat)
    requires p > 0
    ensures (p * k) % p == 0
  {
    var q, r := (p * k) / p, (p * k) % p;
    assert p * k == p * q + r && 0 <= r < p;
    assert p * (k - q) == r;
    if k - q >= 1 {
      assert false;  // p * (k - q) would be at least p
    } else if k - q <= -1 {
      assert false;  // p * (k - q) would be negative
    }
  }

  /** A whole dollar amount is also a multiple of 0.25, so it earns both bonuses. */
  lemma {:induction false} WholeAmountIsQuarterMultiple(d: Decimal)
    requires IsWholeAmount(d)
    ensures IsQuarterMultiple(d)
  {
    var p := Pow10(d.scale);
    var q := d.mantissa / p;
    assert d.mantissa == p * q;
    assert 4 * d.mantissa == p * (4 * q);
    MultipleHasNoRemainder(p, 4 * q);
  }

  /**
   * The total rules: 50 for a whole dollar amount, 25 for a multiple of
   * 0.25 and 5 for each pair of items; none of them when the total does
   * not parse.
   */
  function TotalPoints(total: string, itemCount: nat): (p: nat)
    ensures ParseDecimal(total).None? ==> p == 0
    ensures p <= 75 + 5 * (itemCount / 2)
  {
    match ParseDecimal(total)
    case None => 0
    case Some(d) =>
      (if IsWholeAmount(d) then 50 else 0) + (if IsQuarterMultiple(d) then 25 else 0) + 5 * (itemCount / 2)
  }

  /** On a total with two fraction digits the rules read the number of cents. */
  lemma {:induction false} TotalPointsInCents(total: string, itemCount: nat, cents: nat)
    requires ParseDecimal(total) == Some(Decimal(false, cents, 2))
    ensures TotalPoints(total, itemCount)
         == (if cents % 100 == 0 then 50 else 0) + (if cents % 25 == 0 then 25 else 0) + 5 * (itemCount / 2)
  {
    assert Pow10(2) == 100 by {
      assert Pow10(1) == 10 * Pow10(0);
    }
    QuarterOfCents(cents);
  }

  /** Four times an amount of cents is a whole number of dollars exactly when the cents are a multiple of 25. */
  lemma {:induction false} QuarterOfCents(cents: nat)
    ensures (4 * cents) % 100 == 0 <==> cents % 25 == 0
  {
    var a, r := cents / 25, cents % 25;
    assert cents == 25 * a + r && 0 <= r < 25;
    assert 4 * cents == 100 * a + 4 * r && 0 <= 4 * r < 100;
    assert (4 * cents) % 100 == 4 * r;
  }

  /** The value of d times 10^scale, with its sign. */
  function Scaled(d: Decimal): int {
    if d.negative then -(d.mantissa as int) else d.mantissa
  }

  /** ceil(d * 0.2): the least whole number b with d <= 5 * b. */
  function CeilFifth(d: Decimal): (b: int)
    ensures var q := 5 * Pow10(d.scale); q * (b - 1) < Scaled(d) <= q * b
  {
    var q := 5 * Pow10(d.scale);
    var b: int := if d.negative then -(d.mantissa / q) else (d.mantissa + q - 1) / q;
    CeilFifthBounds(d.negative, d.mantissa, q, b);
    b
  }

  lemma {:induction false} CeilFifthBounds(negative: bool, m: nat, q: nat, b: int)
    requires q > 0
    requires b == if negative then -(m / q) else (m + q - 1) / q
    ensures q * (b - 1) < (if negative then -(m as int) else m) <= q * b
  {
    if negative {
      var c := m / q;
      assert q * c <= m < q * c + q;
      assert q * (b - 1) == -(q * c) - q;
    } else {
      var c := (m + q - 1) / q;
      assert q * c <= m + q - 1 < q * c + q;
      assert q * (b - 1) == q * c - q;
    }
  }

  /**
   * ceil(price * 0.2) for an item whose trimmed description is a multiple
   * of three bytes long; a price that does not parse reads as 0.
   */
  function ItemPoints(item: Item): (p: int)
    ensures p != 0 ==> ByteLength(TrimSpace(item.shortDescription)) % 3 == 0 && ParseDecimal(item.price).Some?
  {
    if ByteLength(TrimSpace(item.shortDescription)) % 3 == 0 then
      match ParseDecimal(item.price)
      case None => 0
      case Some(d) => CeilFifth(d)
    else 0
  }

  /** The item rule summed over the items, in order. */
  function ItemsPoints(items: seq<Item>): int {
    if items == [] then 0 else ItemsPoints(items[..|items| - 1]) + ItemPoints(items[|items| - 1])
  }

  /** The item rule is additive: the points of a list are those of its parts. */
  lemma {:induction false} ItemsPointsAppend(a: seq<Item>, b: seq<Item>)
    ensures ItemsPoints(a + b) == ItemsPoints(a) + ItemsPoints(b)
  {
    if b == [] {
      assert a + b == a;
    } else {
      var init := b[..|b| - 1];
      assert (a + b)[..|a + b| - 1] == a + init;
      assert (a + b)[|a + b| - 1] == b[|b| - 1];
      ItemsPointsAppend(a, init);
    }
  }

  /** Items whose descriptions do not qualify add nothing. */
  lemma {:induction false} ItemsWithoutBonus(items: seq<Item>)
    requires forall k :: 0 <= k < |items| ==> ByteLength(TrimSpace(items[k].shortDescription)) % 3 != 0
    ensures ItemsPoints(items) == 0
  {
    if items != [] {
      var init := items[..|items| - 1];
      assert forall k :: 0 <= k < |init| ==> init[k] == items[k];
      ItemsWithoutBonus(init);
    }
  }

  /** 6 points when the last character of the date, `PurchaseDate[9:10]`, is an odd digit. */
  function DayPoints(date: string): (p: nat)
    requires |date| >= 10
    ensures p == 0 || p == 6
  {
    var digit := date[9..10];
    if digit == "1" || digit == "3" || digit == "5" || digit == "7" || digit == "9" then 6 else 0
  }

  /** On a date the validator accepts, the day rule rewards exactly the odd days of the month. */
  lemma {:induction false} OddDayBonus(date: string)
    requires IsDateFormat(date)
    ensures DayPoints(date) == if Day(date) % 2 == 1 then 6 else 0
  {
    DateFormatMeaning(date);
    var digit := date[9..10];
    assert digit == [date[9]];
    assert Day(date) == 10 * DigitValue(date[8]) + DigitValue(date[9]);
    assert Day(date) % 2 == DigitValue(date[9]) % 2;
  }

  /** 10 points when the hour, `PurchaseTime[0:2]`, is "14" or "15", except at exactly "14:00". */
  function TimePoints(time: string): (p: nat)
    requires |time| >= 2
    ensures p == 0 || p == 10
  {
    var hour := time[0..2];
    if (hour == "14" || hour == "15") && time != "14:00" then 10 else 0
  }

  /** On a time the validator accepts, the time rule rewards exactly the minutes strictly between 14:00 and 16:00. */
  lemma {:induction false} AfternoonBonus(time: string)
    requires IsTimeFormat(time)
    ensures TimePoints(time) == if 14 * 60 < MinuteOfDay(time) < 16 * 60 then 10 else 0
  {
    TimeFormatMeaning(time);
    var hour := time[0..2];
    assert hour == [time[0], time[1]];
    assert Hour(time) == 10 * DigitValue(time[0]) + DigitValue(time[1]);
    assert Minute(time) == 10 * DigitValue(time[3]) + DigitValue(time[4]);
    if time == "14:00" {
      assert MinuteOfDay(time) == 14 * 60;
    } else if Hour(time) == 14 {
      assert time[0] == '1' && time[1] == '4';
    }
  }

  /** The body of the item loop: a price that does not parse is read as 0, whose fifth rounds up to 0. */
  method ItemBonus(item: Item) returns (bonus: int)
    ensures bonus == ItemPoints(item)
  {
    bonus := 0;
    if ByteLength(TrimSpace(item.shortDescription)) % 3 == 0 {
      var price := ParseDecimal(item.price);
      var totalVal := if price.Some? then price.value else Decimal(false, 0, 0);
      assert CeilFifth(Decimal(false, 0, 0)) == 0;
      bonus := CeilFifth(totalVal);
    }
  }

  /** An item price that does not parse, or that parses to an amount without a minus sign. */
  predicate NonNegativePrice(item: Item) {
    match ParseDecimal(item.price)
    case None => true
    case Some(d) => !d.negative
  }

  /** Items whose prices are not negative never take points away. */
  lemma {:induction false} ItemsPointsNonNegative(items: seq<Item>)
    requires forall k :: 0 <= k < |items| ==> NonNegativePrice(items[k])
    ensures ItemsPoints(items) >= 0
  {
    if items != [] {
      var init := items[..|items| - 1];
      assert forall k :: 0 <= k < |init| ==> init[k] == items[k];
      ItemsPointsNonNegative(init);
      ItemPointsNonNegative(items[|items| - 1]);
    }
  }

  lemma {:induction false} ItemPointsNonNegative(item: Item)
    requires NonNegativePrice(item)
    ensures ItemPoints(item) >= 0
  {
    var price := ParseDecimal(item.price);
    if price.Some? {
      CeilFifthNonNegative(price.value);
    }
  }

  /** A fifth of an amount without a minus sign, rounded up, is not negative. */
  lemma {:induction false} CeilFifthNonNegative(d: Decimal)
    requires !d.negative
    ensures CeilFifth(d) >= 0
  {
    var q, b := 5 * Pow10(d.scale), CeilFifth(d);
    assert 0 <= Scaled(d) <= q * b;
  }

  /**
   * Every rule but the item rule adds a non-negative amount, so a receipt
   * scores at least 0 when none of its item prices is negative. The
   * validator does not require this: a negative price is a valid float.
   */
  lemma {:induction false} PointsNonNegative(r: Receipt)
    requires |r.purchaseDate| >= 10 && |r.purchaseTime| >= 2
    requires forall k :: 0 <= k < |r.items| ==> NonNegativePrice(r.items[k])
    ensures Points(r) >= 0
  {
    ItemsPointsNonNegative(r.items);
  }

  /** The points of a receipt: the sum of the seven rules. */
  function Points(r: Receipt): int
    requires |r.purchaseDate| >= 10 && |r.purchaseTime| >= 2
  {
    RetailerPoints(r.retailer) + TotalPoints(r.total, |r.items|) + ItemsPoints(r.items)
    + DayPoints(r.purchaseDate) + TimePoints(r.purchaseTime)
  }

  /**
   * computePoints as the service runs it: a running total, the retailer
   * rule, the total rules when the total parses, one pass over the items,
   * then the day and time rules.
   */
  method ComputePoints(r: Receipt) returns (points: int)
    requires |r.purchaseDate| >= 10 && |r.purchaseTime| >= 2
    ensures points == Points(r)
  {
    points := 0;
    points := points + RetailerPoints(r.retailer);
    var totalVal := ParseDecimal(r.total);
    if totalVal.Some? {
      if IsWholeAmount(totalVal.value) {
        points := points + 50;
      }
      if IsQuarterMultiple(totalVal.value) {
        points := points + 25;
      }
      points := points + 5 * (|r.items| / 2);
    }
    assert points == RetailerPoints(r.retailer) + TotalPoints(r.total, |r.items|);
    for i := 0 to |r.items|
      invariant points == RetailerPoints(r.retailer) + TotalPoints(r.total, |r.items|) + ItemsPoints(r.items[..i])
    {
      var item := r.items[i];
      assert r.items[..i + 1][..i] == r.items[..i] && r.items[..i + 1][i] == item;
      var bonus := ItemBonus(item);
      points := points + bonus;
    }
    assert r.items[..|r.items|] == r.items;
    var dayDigit := r.purchaseDate[9..10];
    if dayDigit == "1" || dayDigit == "3" || dayDigit == "5" || dayDigit == "7" || dayDigit == "9" {
      points := points + 6;
    }
    if (r.purchaseTime[0..2] == "14" || r.purchaseTime[0..2] == "15") && r.purchaseTime != "14:00" {
      points := points + 10;
    }
  }
}
