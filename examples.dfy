/**
 * The worked receipts of the service's documentation, validated and scored
 * by the model, and the boundary cases of the validator and the time rule.
 *
 * Each fact about a piece of text (how much of it the alphanumeric filter
 * keeps, how long it is once trimmed, what number it parses to) is proved
 * once in a small lemma, and the receipt-level lemmas combine them.
 */
module Examples {
  import opened Wrappers
  import opened Text
  import opened Conv
  import opened DateTime
  import opened Receipts
  import opened Validator
  import opened Scoring

  function MountainDew(): Item { Item("Mountain Dew 12PK", "6.49") }
  function CheesePizza(): Item { Item("Emils Cheese Pizza", "12.25") }
  function CreamyChicken(): Item { Item("Knorr Creamy Chicken", "1.26") }
  function NachoCheese(): Item { Item("Doritos Nacho Cheese", "3.35") }
  function Klarbrunn(): Item { Item("   Klarbrunn 12-PK 12 FL OZ  ", "12.00") }
  function Gatorade(): Item { Item("Gatorade", "2.25") }

  function TargetReceipt(): Receipt {
    Receipt("Target", "2022-01-01", "13:01",
      [MountainDew(), CheesePizza(), CreamyChicken(), NachoCheese(), Klarbrunn()], "35.35", "")
  }

  /** The M&M Corner Market receipt with a single Gatorade. */
  function CornerMarketReceipt(): Receipt {
    Receipt("M&M Corner Market", "2022-03-20", "14:33", [Gatorade()], "9.00", "")
  }

  /** The same receipt with four Gatorades, which make two pairs of items. */
  function CornerMarketFourItems(): Receipt {
    Receipt("M&M Corner Market", "2022-03-20", "14:33", [Gatorade(), Gatorade(), Gatorade(), Gatorade()], "9.00", "")
  }

  // ---- Facts about single pieces of text ----

  lemma {:induction false} StripSplit(s: string, k: nat)
    requires k <= |s|
    ensures |StripNonAlnum(s)| == |StripNonAlnum(s[..k])| + |StripNonAlnum(s[k..])|
  {
    StripNonAlnumAppend(s[..k], s[k..]);
    assert s[..k] + s[k..] == s;
  }

  lemma {:induction false} TargetRetailer()
    ensures RetailerPoints("Target") == 6
  {
    StripNonAlnumRun("Target");
  }

  lemma {:induction false} MAndMKeepsTwo()
    ensures |StripNonAlnum("M&M ")| == 2
  {
    var s := "M&M ";
    StripSplit(s, 1);
    StripSplit(s[1..], 1);
    StripSplit(s[2..], 1);
    StripNonAlnumRun(s[..1]);
    StripNonAlnumRun(s[1..][..1]);
    StripNonAlnumRun(s[2..][..1]);
    StripNonAlnumRun(s[2..][1..]);
  }

  lemma {:induction false} CornerMarketKeepsTwelve()
    ensures |StripNonAlnum("Corner Market")| == 12
  {
    var s := "Corner Market";
    StripSplit(s, 6);
    StripSplit(s[6..], 1);
    StripNonAlnumRun(s[..6]);
    StripNonAlnumRun(s[6..][..1]);
    StripNonAlnumRun(s[6..][1..]);
  }

  /** "M&M Corner Market" has 14 alphanumeric characters: the '&' and the spaces do not count. */
  lemma {:induction false} CornerMarketRetailer()
    ensures RetailerPoints("M&M Corner Market") == 14
  {
    MAndMKeepsTwo();
    CornerMarketKeepsTwelve();
    StripSplit("M&M Corner Market", 4);
    assert "M&M Corner Market"[..4] == "M&M ";
    assert "M&M Corner Market"[4..] == "Corner Market";
  }

  /** A price written as dollars, a point and two digits of cents. */
  predicate IsPriceText(price: string, dollars: string, c1: char, c2: char) {
    price == dollars + "." + [c1, c2] && |dollars| > 0 && IsDigits(dollars) && IsDigit(c1) && IsDigit(c2)
  }

  function Cents(dollars: string, c1: char, c2: char): nat
    requires IsDigits(dollars) && IsDigit(c1) && IsDigit(c2)
  {
    100 * DigitsValue(dollars) + 10 * DigitValue(c1) + DigitValue(c2)
  }

  /** d is ASCII text that starts and ends with a non-space, after `front` spaces and before `back` spaces. */
  predicate Padded(d: string, front: nat, back: nat) {
    front + back < |d|
    && (forall i :: 0 <= i < front ==> IsSpace(d[i]))
    && (forall i :: |d| - back <= i < |d| ==> IsSpace(d[i]))
    && !IsSpace(d[front]) && !IsSpace(d[|d| - back - 1])
    && forall i :: 0 <= i < |d| ==> d[i] as int < 0x80
  }

  /** A price written "D.CC" is a numeral, is not blank, and reads as its number of cents at scale 2. */
  lemma {:induction false} PriceFacts(price: string, dollars: string, c1: char, c2: char)
    requires IsPriceText(price, dollars, c1, c2)
    ensures !IsBlank(price) && IsNumeral(price)
    ensures ParseDecimal(price) == Some(Decimal(false, Cents(dollars, c1, c2), 2))
  {
    TwoDecimalCents(dollars, c1, c2);
    NumeralParses(price);
    assert price[0] == dollars[0];
  }

  /** ASCII text between `front` and `back` spaces is not blank, and trimmed it is `|d| - front - back` bytes long. */
  lemma {:induction false} DescriptionFacts(d: string, front: nat, back: nat)
    requires Padded(d, front, back)
    ensures !IsBlank(d)
    ensures ByteLength(TrimSpace(d)) == |d| - front - back
  {
    TrimSpaceBetween(d, front, back);
    var t := d[front..|d| - back];
    assert forall i :: 0 <= i < |t| ==> t[i] == d[front + i];
    BlankIsTrimmedEmpty(d);
  }

  /** At scale 2, a fifth rounded up is the cents divided by 500, rounded up. */
  lemma {:induction false} CeilFifthOfCents(cents: nat)
    ensures CeilFifth(Decimal(false, cents, 2)) == (cents + 499) / 500
  {
    assert Pow10(2) == 100 by {
      assert Pow10(1) == 10 * Pow10(0);
    }
  }

  /**
   * An item whose price is written "D.CC" and whose description is ASCII
   * text between `front` and `back` spaces passes the item checks, and it
   * earns ceil(cents / 500) exactly when its trimmed description is a
   * multiple of three long: `points`.
   */
  lemma {:induction false} ItemFacts(item: Item, dollars: string, c1: char, c2: char, front: nat, back: nat, points: int)
    requires IsPriceText(item.price, dollars, c1, c2)
    requires Padded(item.shortDescription, front, back)
    requires points == if (|item.shortDescription| - front - back) % 3 == 0 then (Cents(dollars, c1, c2) + 499) / 500 else 0
    ensures ItemIsValid(item)
    ensures ItemPoints(item) == points
  {
    PriceFacts(item.price, dollars, c1, c2);
    DescriptionFacts(item.shortDescription, front, back);
    ItemPointsOfCents(item, Cents(dollars, c1, c2), |item.shortDescription| - front - back);
  }

  lemma {:induction false} ItemPointsOfCents(item: Item, cents: nat, length: nat)
    requires ParseDecimal(item.price) == Some(Decimal(false, cents, 2))
    requires ByteLength(TrimSpace(item.shortDescription)) == length
    ensures ItemPoints(item) == if length % 3 == 0 then (cents + 499) / 500 else 0
  {
    CeilFifthOfCents(cents);
  }

  // ---- Lists of items ----

  /** Appending an item adds its points. */
  lemma {:induction false} ItemsPointsSnoc(items: seq<Item>, item: Item)
    ensures ItemsPoints(items + [item]) == ItemsPoints(items) + ItemPoints(item)
  {
    var all := items + [item];
    assert all[..|all| - 1] == items && all[|all| - 1] == item;
  }

  /** The item rule over five items, one item at a time. */
  /** Extending a prefix by one item adds that item's points. */
  lemma {:induction false} ItemsPointsPrefix(items: seq<Item>, k: nat)
    requires k < |items|
    ensures ItemsPoints(items[..k + 1]) == ItemsPoints(items[..k]) + ItemPoints(items[k])
  {
    assert items[..k + 1][..k] == items[..k];
  }

  lemma {:induction false} ItemsPointsOfFive(a: Item, b: Item, c: Item, d: Item, e: Item)
    ensures ItemsPoints([a, b, c, d, e]) == ItemPoints(a) + ItemPoints(b) + ItemPoints(c) + ItemPoints(d) + ItemPoints(e)
  {
    var items := [a, b, c, d, e];
    assert items[..0] == [];
    ItemsPointsPrefix(items, 0);
    ItemsPointsPrefix(items, 1);
    ItemsPointsPrefix(items, 2);
    ItemsPointsPrefix(items, 3);
    ItemsPointsPrefix(items, 4);
    assert items[..5] == items;
  }

  lemma {:induction false} FiveValid(a: Item, b: Item, c: Item, d: Item, e: Item)
    requires ItemIsValid(a) && ItemIsValid(b) && ItemIsValid(c) && ItemIsValid(d) && ItemIsValid(e)
    ensures forall k :: 0 <= k < |[a, b, c, d, e]| ==> ItemIsValid([a, b, c, d, e][k])
  {
    forall k | 0 <= k < 5 ensures ItemIsValid([a, b, c, d, e][k]) {
      assert k == 0 || k == 1 || k == 2 || k == 3 || k == 4;
    }
  }

  lemma {:induction false} FourValid(a: Item)
    requires ItemIsValid(a)
    ensures forall k :: 0 <= k < |[a, a, a, a]| ==> ItemIsValid([a, a, a, a][k])
  {
    forall k | 0 <= k < 4 ensures ItemIsValid([a, a, a, a][k]) {
      assert k == 0 || k == 1 || k == 2 || k == 3;
    }
  }

  /** Four items without a bonus add nothing. */
  lemma {:induction false} FourWithoutBonus(a: Item)
    requires ItemPoints(a) == 0
    ensures ItemsPoints([a, a, a, a]) == 0
  {
    ItemsPointsSnoc([], a);
    assert [] + [a] == [a];
    ItemsPointsSnoc([a], a);
    assert [a] + [a] == [a, a];
    ItemsPointsSnoc([a, a], a);
    assert [a, a] + [a] == [a, a, a];
    ItemsPointsSnoc([a, a, a], a);
    assert [a, a, a] + [a] == [a, a, a, a];
  }

  // ---- The Target receipt: 28 points ----

  /** "Mountain Dew 12PK" is 17 characters long: no bonus. */
  lemma {:induction false} MountainDewFacts()
    ensures ItemIsValid(MountainDew()) && ItemPoints(MountainDew()) == 0
  {
    ItemFacts(MountainDew(), "6", '4', '9', 0, 0, 0);
  }

  /** "Emils Cheese Pizza" is 18 characters long: 12.25 * 0.2 = 2.45 rounds up to 3. */
  lemma {:induction false} CheesePizzaFacts()
    ensures ItemIsValid(CheesePizza()) && ItemPoints(CheesePizza()) == 3
  {
    CheesePizzaText();
    ItemFacts(CheesePizza(), "12", '2', '5', 0, 0, 3);
  }

  /** "Knorr Creamy Chicken" is 20 characters long: no bonus. */
  lemma {:induction false} CreamyChickenFacts()
    ensures ItemIsValid(CreamyChicken()) && ItemPoints(CreamyChicken()) == 0
  {
    ItemFacts(CreamyChicken(), "1", '2', '6', 0, 0, 0);
  }

  /** "Doritos Nacho Cheese" is 20 characters long: no bonus. */
  lemma {:induction false} NachoCheeseFacts()
    ensures ItemIsValid(NachoCheese()) && ItemPoints(NachoCheese()) == 0
  {
    ItemFacts(NachoCheese(), "3", '3', '5', 0, 0, 0);
  }

  /** The Klarbrunn line trims to 24 characters: 12.00 * 0.2 = 2.4 rounds up to 3. */
  lemma {:induction false} KlarbrunnFacts()
    ensures ItemIsValid(Klarbrunn()) && ItemPoints(Klarbrunn()) == 3
  {
    TwelveDollars('0', '0');
    KlarbrunnPadded();
    ItemFacts(Klarbrunn(), "12", '0', '0', 3, 2, 3);
  }

  lemma {:induction false} TwelveDollars(c1: char, c2: char)
    requires IsDigit(c1) && IsDigit(c2)
    ensures Cents("12", c1, c2) == 1200 + 10 * DigitValue(c1) + DigitValue(c2)
  {
    assert "12"[..1] == "1" && "1"[..0] == [];
  }

  lemma {:induction false} CheesePizzaText()
    ensures IsPriceText(CheesePizza().price, "12", '2', '5') && Cents("12", '2', '5') == 1225
    ensures Padded(CheesePizza().shortDescription, 0, 0)
  {
    TwelveDollars('2', '5');
  }

  lemma {:induction false} KlarbrunnPadded()
    ensures Padded(Klarbrunn().shortDescription, 3, 2)
  {
    KlarbrunnAscii();
  }

  lemma {:induction false} KlarbrunnAscii()
    ensures var d := Klarbrunn().shortDescription; forall i :: 0 <= i < |d| ==> d[i] as int < 0x80
  {
  }

  lemma {:induction false} TargetItemsValid()
    ensures forall k :: 0 <= k < |TargetReceipt().items| ==> ItemIsValid(TargetReceipt().items[k])
  {
    MountainDewFacts();
    CheesePizzaFacts();
    CreamyChickenFacts();
    NachoCheeseFacts();
    KlarbrunnFacts();
    FiveValid(MountainDew(), CheesePizza(), CreamyChicken(), NachoCheese(), Klarbrunn());
  }

  lemma {:induction false} TargetItemsPoints()
    ensures ItemsPoints(TargetReceipt().items) == 6
  {
    MountainDewFacts();
    CheesePizzaFacts();
    CreamyChickenFacts();
    NachoCheeseFacts();
    KlarbrunnFacts();
    ItemsPointsOfFive(MountainDew(), CheesePizza(), CreamyChicken(), NachoCheese(), Klarbrunn());
  }

  /** The fields other than the items: present, well formed, and what they score. */
  lemma {:induction false} TargetFields(itemCount: nat)
    ensures !IsBlank("Target") && !IsBlank("2022-01-01") && !IsBlank("13:01") && !IsBlank("35.35")
    ensures IsDateFormat("2022-01-01") && IsCalendarDate("2022-01-01") && IsTimeFormat("13:01") && IsNumeral("35.35")
    ensures RetailerPoints("Target") == 6
    ensures TotalPoints("35.35", itemCount) == 5 * (itemCount / 2)
    ensures DayPoints("2022-01-01") == 6 && TimePoints("13:01") == 0
  {
    TargetRetailer();
    TargetTotal(itemCount);
    TargetDateTime();
    TargetPresent();
  }

  lemma {:induction false} TargetPresent()
    ensures !IsBlank("Target") && !IsBlank("2022-01-01") && !IsBlank("13:01") && !IsBlank("35.35")
  {
  }

  lemma {:induction false} TargetTotal(itemCount: nat)
    ensures IsNumeral("35.35")
    ensures TotalPoints("35.35", itemCount) == 5 * (itemCount / 2)
  {
    TwoDecimalCents("35", '3', '5');
    assert "35" + "." + ['3', '5'] == "35.35";
    NumeralParses("35.35");
    TotalPointsInCents("35.35", itemCount, 3535);
  }

  lemma {:induction false} TargetDateTime()
    ensures IsDateFormat("2022-01-01") && IsCalendarDate("2022-01-01") && IsTimeFormat("13:01")
    ensures DayPoints("2022-01-01") == 6 && TimePoints("13:01") == 0
  {
    OddDayBonus("2022-01-01");
    AfternoonBonus("13:01");
  }

  /** The Target receipt passes every check. */
  lemma {:induction false} TargetAccepted()
    ensures Validate(TargetReceipt()) == Accepted
  {
    TargetItemsValid();
    TargetFields(5);
    ValidateAccepts(TargetReceipt());
  }

  /**
   * Target scores 28: 6 for the name, 10 for two pairs of items, 3 each for
   * the pizza and the Klarbrunn line, and 6 for the odd day.
   */
  lemma {:induction false} TargetScores28()
    ensures Points(TargetReceipt()) == 28
  {
    TargetFields(5);
    TargetItemsPoints();
  }

  // ---- The M&M Corner Market receipt ----

  /** "Gatorade" is 8 characters long: no bonus. */
  lemma {:induction false} GatoradeFacts()
    ensures ItemIsValid(Gatorade()) && ItemPoints(Gatorade()) == 0
  {
    ItemFacts(Gatorade(), "2", '2', '5', 0, 0, 0);
  }

  lemma {:induction false} CornerMarketFields(itemCount: nat)
    ensures !IsBlank("M&M Corner Market") && !IsBlank("2022-03-20") && !IsBlank("14:33") && !IsBlank("9.00")
    ensures IsDateFormat("2022-03-20") && IsCalendarDate("2022-03-20") && IsTimeFormat("14:33") && IsNumeral("9.00")
    ensures RetailerPoints("M&M Corner Market") == 14
    ensures TotalPoints("9.00", itemCount) == 75 + 5 * (itemCount / 2)
    ensures DayPoints("2022-03-20") == 0 && TimePoints("14:33") == 10
  {
    CornerMarketRetailer();
    CornerMarketTotal(itemCount);
    CornerMarketDateTime();
    CornerMarketPresent();
  }

  lemma {:induction false} CornerMarketPresent()
    ensures !IsBlank("M&M Corner Market") && !IsBlank("2022-03-20") && !IsBlank("14:33") && !IsBlank("9.00")
  {
  }

  lemma {:induction false} CornerMarketTotal(itemCount: nat)
    ensures IsNumeral("9.00")
    ensures TotalPoints("9.00", itemCount) == 75 + 5 * (itemCount / 2)
  {
    TwoDecimalCents("9", '0', '0');
    assert "9" + "." + ['0', '0'] == "9.00";
    NumeralParses("9.00");
    TotalPointsInCents("9.00", itemCount, 900);
  }

  lemma {:induction false} CornerMarketDateTime()
    ensures IsDateFormat("2022-03-20") && IsCalendarDate("2022-03-20") && IsTimeFormat("14:33")
    ensures DayPoints("2022-03-20") == 0 && TimePoints("14:33") == 10
  {
    OddDayBonus("2022-03-20");
    AfternoonBonus("14:33");
  }

  lemma {:induction false} CornerMarketAccepted()
    ensures Validate(CornerMarketReceipt()) == Accepted
  {
    GatoradeFacts();
    CornerMarketFields(1);
    ValidateAccepts(CornerMarketReceipt());
  }

  lemma {:induction false} CornerMarketFourItemsAccepted()
    ensures Validate(CornerMarketFourItems()) == Accepted
  {
    GatoradeFacts();
    FourValid(Gatorade());
    CornerMarketFields(4);
    ValidateAccepts(CornerMarketFourItems());
  }

  /**
   * With one item the receipt scores 99: 14 for the name, 50 for a whole
   * dollar total, 25 for a multiple of 0.25 and 10 for 14:33; the item's
   * description is 8 characters long and the 20th is an even day.
   */
  lemma {:induction false} CornerMarketScores99()
    ensures Points(CornerMarketReceipt()) == 99
  {
    CornerMarketFields(1);
    GatoradeFacts();
    assert [Gatorade()][..0] == [];
  }

  /** With four Gatorades the two pairs add 10 more: 109. */
  lemma {:induction false} CornerMarketFourItemsScore109()
    ensures Points(CornerMarketFourItems()) == 109
  {
    CornerMarketFields(4);
    GatoradeFacts();
    FourWithoutBonus(Gatorade());
  }

  // ---- Boundaries ----

  /** The time bonus starts after 14:00 and ends with 15:59. */
  lemma {:induction false} TimeWindowBoundaries()
    ensures TimePoints("13:59") == 0 && TimePoints("14:00") == 0
    ensures TimePoints("14:01") == 10 && TimePoints("15:59") == 10
    ensures TimePoints("16:00") == 0
  {
    AfternoonBonus("13:59");
    AfternoonBonus("14:00");
    AfternoonBonus("14:01");
    AfternoonBonus("15:59");
    AfternoonBonus("16:00");
  }

  /** The Target receipt without its items is accepted, and scores 12: the item rules add nothing to it. */
  lemma {:induction false} NoItems()
    ensures Validate(TargetReceipt().(items := [])) == Accepted
    ensures Points(TargetReceipt().(items := [])) == 12
  {
    TargetFields(0);
    ValidateAccepts(TargetReceipt().(items := []));
  }

  // ---- A negative price ----

  /** A refund line: a three-letter description priced at minus one hundred dollars. */
  function Refund(): Item {
    Item("abc", "-100.00")
  }

  /** "100.00" reads as 10000 cents. */
  lemma {:induction false} HundredDollars()
    ensures ParseDecimal("100.00") == Some(Decimal(false, 10000, 2))
  {
    assert "100" + "." + ['0', '0'] == "100.00";
    assert DigitsValue("100") == 100 by {
      assert "100"[..2] == "10" && "10"[..1] == "1" && "1"[..0] == [];
    }
    TwoDecimalCents("100", '0', '0');
  }

  /** "-100.00" is a numeral, and it reads as minus 10000 cents. */
  lemma {:induction false} RefundPrice()
    ensures !IsBlank("-100.00") && IsNumeral("-100.00")
    ensures ParseDecimal("-100.00") == Some(Decimal(true, 10000, 2))
  {
    var price := "-100.00";
    HundredDollars();
    assert price[0] == '-' && price[1..] == "100.00";
    NumeralParses(price);
  }

  /** The price is a valid numeral, and a fifth of it is subtracted: -20. */
  lemma {:induction false} RefundFacts()
    ensures ItemIsValid(Refund()) && ItemPoints(Refund()) == -20
  {
    RefundPrice();
    RefundDescription();
    ItemPointsOfNegativeCents(Refund(), 10000, 3);
  }

  /** "abc" is not blank and is three bytes long. */
  lemma {:induction false} RefundDescription()
    ensures !IsBlank("abc") && ByteLength(TrimSpace("abc")) == 3
  {
    DescriptionFacts("abc", 0, 0);
  }

  /** At scale 2, a fifth of a negative amount rounded up is minus the cents divided by 500, rounded down. */
  lemma {:induction false} ItemPointsOfNegativeCents(item: Item, cents: nat, length: nat)
    requires ParseDecimal(item.price) == Some(Decimal(true, cents, 2))
    requires ByteLength(TrimSpace(item.shortDescription)) == length
    ensures ItemPoints(item) == if length % 3 == 0 then -(cents / 500) else 0
  {
    assert Pow10(2) == 100 by {
      assert Pow10(1) == 10 * Pow10(0);
    }
  }

  /** The receipt with the refund as its only item passes every check. */
  lemma {:induction false} NegativePriceAccepted()
    ensures Validate(TargetReceipt().(items := [Refund()])) == Accepted
  {
    RefundFacts();
    TargetFields(1);
    ValidateAccepts(TargetReceipt().(items := [Refund()]));
  }

  /** It scores -8: 6 for the name, 6 for the odd day and -20 for the item. */
  lemma {:induction false} NegativePriceScoresBelowZero()
    ensures Points(TargetReceipt().(items := [Refund()])) == -8
  {
    TargetFields(1);
    RefundFacts();
    assert [Refund()][..0] == [];
  }

  /** Month 13 fails the date pattern, so the format message is reported, not the calendar one. */
  lemma {:induction false} MonthThirteenRejected()
    ensures Validate(TargetReceipt().(purchaseDate := "2022-13-01")) == Rejected(DateNotInFormat("2022-13-01"))
  {
    var r := TargetReceipt().(purchaseDate := "2022-13-01");
    TargetItemsValid();
    TargetFields(5);
    MonthThirteen();
    FormatsDecide(r);
    FormatVerdict(r);
  }

  /** The 29th of February 2023 has the right format but is not a date. */
  lemma {:induction false} NonLeapDayRejected()
    ensures Validate(TargetReceipt().(purchaseDate := "2023-02-29")) == Rejected(InvalidDate("2023-02-29"))
  {
    var r := TargetReceipt().(purchaseDate := "2023-02-29");
    TargetItemsValid();
    TargetFields(5);
    NotALeapDay();
    FormatsDecide(r);
    FormatVerdict(r);
  }

  lemma {:induction false} MonthThirteen()
    ensures !IsBlank("2022-13-01") && !IsDateFormat("2022-13-01")
  {
  }

  lemma {:induction false} NotALeapDay()
    ensures !IsBlank("2023-02-29") && IsDateFormat("2023-02-29") && !IsCalendarDate("2023-02-29")
  {
    assert IsDateShape("2023-02-29");
    assert Month("2023-02-29") == 2 && Day("2023-02-29") == 29 && Year("2023-02-29") == 2023;
    LeapDay("2023-02-29");
  }
}
