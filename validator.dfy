/**
 * validateReceipt: an ordered chain of checks over the receipt's text
 * fields that stops at the first one that fails and reports its message.
 *
 * The specification is a flat list of checks, each a condition and the
 * message reported when it fails, in the order the service applies them;
 * the verdict is the message of the first failing check. The method
 * ValidateReceipt is the service's own early-exit loop, proved to give
 * that verdict.
 */
module Validator {
  import opened Text
  import opened Conv
  import opened DateTime
  import opened Receipts

  /** What the validator reports, before it is written out as a message. */
  datatype Problem =
    | NoPurchaseDate
    | NoPurchaseTime
    | NoRetailer
    | NoTotal
    | NoPrice(number: int)
    | NoShortDescription(number: int)
    | InvalidPrice(number: int, price: string)
    | DateNotInFormat(date: string)
    | InvalidDate(date: string)
    | TimeNotInFormat(time: string)
    | InvalidTotal

  function ItemLabel(number: int): string {
    "Item Number " + FormatInt(number)
  }

  /**
   * The message the service returns for each problem, word for word; none
   * is the empty string the service returns with an acceptance.
   */
  function Message(p: Problem): (m: string)
    ensures |m| > 0
  {
    match p
    case NoPurchaseDate => "No Purchase Date Provided"
    case NoPurchaseTime => "No Purchase Time Provided"
    case NoRetailer => "No Retailer Provided"
    case NoTotal => "No Total Provided"
    case NoPrice(n) => ItemLabel(n) + " - No Price Provided"
    case NoShortDescription(n) => ItemLabel(n) + " - No Short Description Provided"
    case InvalidPrice(n, price) => ItemLabel(n) + " - Invalid Price Amount: " + price
    case DateNotInFormat(date) => "Invalid Purchase Date - Not In Expected Format YYYY-MM-DD: " + date
    case InvalidDate(date) => "Invalid Purchase Date: " + date
    case TimeNotInFormat(time) => "Invalid Purchase Time - Not In Expected 24-hour Format HH:MI : " + time
    case InvalidTotal => "Invalid Total"
  }

  /** The tests the validator applies to one text field. */
  datatype Test =
    | NotBlank(text: string)       // strings.TrimSpace(text) != ""
    | Number(text: string)         // strconv.ParseFloat(text, 32) succeeds
    | DateFormat(text: string)     // the YYYY-MM-DD regular expression matches
    | CalendarDate(text: string)   // time.Parse("2006-01-02", text) succeeds
    | TimeFormat(text: string)     // the HH:MM regular expression matches

  predicate Holds(t: Test) {
    match t
    case NotBlank(s) => !IsBlank(s)
    case Number(s) => IsNumeral(s)
    case DateFormat(s) => IsDateFormat(s)
    case CalendarDate(s) => IsCalendarDate(s)
    case TimeFormat(s) => IsTimeFormat(s)
  }

  /** One check: the test applied, and what is reported when it fails. */
  datatype Check = Check(test: Test, problem: Problem)

  datatype Verdict = Accepted | Rejected(problem: Problem)

  /** The problem of the first check that fails, or Accepted when none does. */
  function FirstFailure(checks: seq<Check>): Verdict {
    if checks == [] then Accepted
    else if !Holds(checks[0].test) then Rejected(checks[0].problem)
    else FirstFailure(checks[1..])
  }

  /** The four required fields, in the order they are tested. */
  function FieldChecks(r: Receipt): seq<Check> {
    [ Check(NotBlank(r.purchaseDate), NoPurchaseDate),
      Check(NotBlank(r.purchaseTime), NoPurchaseTime),
      Check(NotBlank(r.retailer), NoRetailer),
      Check(NotBlank(r.total), NoTotal) ]
  }

  /** The three checks on the item numbered `number` (counting from 1). */
  function ItemChecks(item: Item, number: int): (cs: seq<Check>)
    ensures |cs| == 3
  {
    [ Check(NotBlank(item.price), NoPrice(number)),
      Check(NotBlank(item.shortDescription), NoShortDescription(number)),
      Check(Number(item.price), InvalidPrice(number, item.price)) ]
  }

  /** The checks on items, the first of them numbered `first`, item after item. */
  function ItemsChecks(items: seq<Item>, first: int): (cs: seq<Check>)
    ensures |cs| == 3 * |items|
  {
    if items == [] then [] else ItemChecks(items[0], first) + ItemsChecks(items[1..], first + 1)
  }

  /** The format checks that follow the items. */
  function FormatChecks(r: Receipt): seq<Check> {
    [ Check(DateFormat(r.purchaseDate), DateNotInFormat(r.purchaseDate)),
      Check(CalendarDate(r.purchaseDate), InvalidDate(r.purchaseDate)),
      Check(TimeFormat(r.purchaseTime), TimeNotInFormat(r.purchaseTime)),
      Check(Number(r.total), InvalidTotal) ]
  }

  /** Every check the validator makes, in order. */
  function Checks(r: Receipt): seq<Check> {
    FieldChecks(r) + ItemsChecks(r.items, 1) + FormatChecks(r)
  }

  /** The verdict of validateReceipt on r. */
  function Validate(r: Receipt): (v: Verdict)
    ensures v == Accepted <==> AllPass(Checks(r))
  {
    FirstFailureAccepts(Checks(r));
    FirstFailure(Checks(r))
  }

  /** A receipt without items is judged by its field checks and format checks alone. */
  lemma {:induction false} WithoutItems(r: Receipt)
    ensures Validate(r.(items := [])) == FirstFailure(FieldChecks(r) + FormatChecks(r))
  {
    var e := r.(items := []);
    assert ItemsChecks(e.items, 1) == [];
    assert FieldChecks(e) + [] + FormatChecks(e) == FieldChecks(r) + FormatChecks(r);
  }

  predicate AllPass(checks: seq<Check>) {
    forall i :: 0 <= i < |checks| ==> Holds(checks[i].test)
  }

  /** A list of checks is accepted exactly when every check passes. */
  lemma {:induction false} FirstFailureAccepts(checks: seq<Check>)
    ensures FirstFailure(checks) == Accepted <==> AllPass(checks)
  {
    if checks != [] {
      FirstFailureAccepts(checks[1..]);
      assert AllPass(checks) <==> Holds(checks[0].test) && AllPass(checks[1..]) by {
        if Holds(checks[0].test) && AllPass(checks[1..]) {
          forall i | 0 <= i < |checks| ensures Holds(checks[i].test) {
            if i > 0 { assert checks[i] == checks[1..][i - 1]; }
          }
        }
      }
    }
  }

  /** When check i fails and every check before it passes, check i's message is reported. */
  lemma {:induction false} FirstFailureIsFirst(checks: seq<Check>, i: nat)
    requires i < |checks| && !Holds(checks[i].test)
    requires AllPass(checks[..i])
    ensures FirstFailure(checks) == Rejected(checks[i].problem)
  {
    if i > 0 {
      assert checks[..i][0] == checks[0];
      assert checks[1..][..i - 1] == checks[..i][1..];
      FirstFailureIsFirst(checks[1..], i - 1);
    }
  }

  /** Checks that all pass can be skipped. */
  lemma {:induction false} FirstFailureSkips(passed: seq<Check>, rest: seq<Check>)
    requires AllPass(passed)
    ensures FirstFailure(passed + rest) == FirstFailure(rest)
  {
    if passed != [] {
      assert (passed + rest)[1..] == passed[1..] + rest;
      FirstFailureSkips(passed[1..], rest);
    } else {
      assert passed + rest == rest;
    }
  }

  /** A failure among the first checks hides everything after them. */
  lemma {:induction false} FirstFailureStops(front: seq<Check>, rest: seq<Check>)
    requires FirstFailure(front).Rejected?
    ensures FirstFailure(front + rest) == FirstFailure(front)
  {
    assert front != [];
    if Holds(front[0].test) {
      assert (front + rest)[1..] == front[1..] + rest;
      FirstFailureStops(front[1..], rest);
    }
  }

  lemma {:induction false} AllPassSplit(a: seq<Check>, b: seq<Check>)
    ensures AllPass(a + b) <==> AllPass(a) && AllPass(b)
  {
    if AllPass(a) && AllPass(b) {
      forall i | 0 <= i < |a + b| ensures Holds((a + b)[i].test) {
        if i >= |a| { assert (a + b)[i] == b[i - |a|]; }
      }
    }
    if AllPass(a + b) {
      forall i | 0 <= i < |a| ensures Holds(a[i].test) {
        assert (a + b)[i] == a[i];
      }
      forall i | 0 <= i < |b| ensures Holds(b[i].test) {
        assert (a + b)[|a| + i] == b[i];
      }
    }
  }

  /** An item passes its three checks, and is then silent, exactly when it is valid. */
  predicate ItemIsValid(item: Item) {
    !IsBlank(item.price) && !IsBlank(item.shortDescription) && IsNumeral(item.price)
  }

  /** The reason an item is rejected: the first of its three checks that fails. */
  function ItemProblem(item: Item, number: int): Problem {
    if IsBlank(item.price) then NoPrice(number)
    else if IsBlank(item.shortDescription) then NoShortDescription(number)
    else InvalidPrice(number, item.price)
  }

  /** The item checks all pass exactly when every item is valid. */
  lemma {:induction false} ItemsChecksPass(items: seq<Item>, first: int)
    ensures AllPass(ItemsChecks(items, first)) <==> forall k :: 0 <= k < |items| ==> ItemIsValid(items[k])
  {
    if items != [] {
      var head := ItemChecks(items[0], first);
      ItemsChecksPass(items[1..], first + 1);
      AllPassSplit(head, ItemsChecks(items[1..], first + 1));
      assert AllPass(head) <==> ItemIsValid(items[0]) by {
        assert Holds(head[0].test) && Holds(head[1].test) && Holds(head[2].test) ==> AllPass(head);
      }
      if forall k :: 0 <= k < |items[1..]| ==> ItemIsValid(items[1..][k]) {
        if ItemIsValid(items[0]) {
          forall k | 0 <= k < |items| ensures ItemIsValid(items[k]) {
            if k > 0 { assert items[k] == items[1..][k - 1]; }
          }
        }
      } else {
        var k :| 0 <= k < |items[1..]| && !ItemIsValid(items[1..][k]);
        assert items[1..][k] == items[k + 1];
      }
    }
  }

  /** The checks on a prefix of the items, then the checks on the rest, numbered on. */
  lemma {:induction false} ItemsChecksSplit(items: seq<Item>, first: int, k: nat)
    requires k <= |items|
    ensures ItemsChecks(items, first) == ItemsChecks(items[..k], first) + ItemsChecks(items[k..], first + k)
  {
    if k == 0 {
      assert items[..0] == [] && items[0..] == items;
    } else {
      ItemsChecksSplit(items[1..], first + 1, k - 1);
      assert items[..k][0] == items[0] && items[..k][1..] == items[1..][..k - 1];
      assert items[1..][k - 1..] == items[k..];
    }
  }

  /** A valid item is silent; an invalid one reports the first of its problems under its number. */
  lemma {:induction false} ItemVerdict(item: Item, number: int)
    ensures FirstFailure(ItemChecks(item, number)) ==
      if ItemIsValid(item) then Accepted else Rejected(ItemProblem(item, number))
  {
    var cs := ItemChecks(item, number);
    if !IsBlank(item.price) {
      assert FirstFailure(cs) == FirstFailure(cs[1..]);
      assert cs[1..][0] == cs[1];
      if !IsBlank(item.shortDescription) {
        assert FirstFailure(cs[1..]) == FirstFailure(cs[1..][1..]);
        assert cs[1..][1..] == [cs[2]];
        assert FirstFailure([cs[2]]) == if IsNumeral(item.price) then Accepted else Rejected(cs[2].problem) by {
          assert [cs[2]][1..] == [];
        }
      }
    }
  }

  /**
   * The validator accepts a receipt exactly when every check passes: the
   * four required fields are not blank, every item is valid, the date has
   * the `YYYY-MM-DD` format and is a real calendar date, the time has the
   * `HH:MM` format and the total parses.
   */
  lemma {:induction false} ValidateAccepts(r: Receipt)
    ensures Validate(r) == Accepted <==>
      !IsBlank(r.purchaseDate) && !IsBlank(r.purchaseTime) && !IsBlank(r.retailer) && !IsBlank(r.total)
      && (forall k :: 0 <= k < |r.items| ==> ItemIsValid(r.items[k]))
      && IsDateFormat(r.purchaseDate) && IsCalendarDate(r.purchaseDate)
      && IsTimeFormat(r.purchaseTime) && IsNumeral(r.total)
  {
    var fields, items, formats := FieldChecks(r), ItemsChecks(r.items, 1), FormatChecks(r);
    FirstFailureAccepts(Checks(r));
    AllPassSplit(fields + items, formats);
    AllPassSplit(fields, items);
    ItemsChecksPass(r.items, 1);
    FieldChecksPass(r);
    FormatChecksPass(r);
  }

  lemma {:induction false} FieldChecksPass(r: Receipt)
    ensures AllPass(FieldChecks(r)) <==>
      !IsBlank(r.purchaseDate) && !IsBlank(r.purchaseTime) && !IsBlank(r.retailer) && !IsBlank(r.total)
  {
    var fields := FieldChecks(r);
    assert AllPass(fields) <==> Holds(fields[0].test) && Holds(fields[1].test) && Holds(fields[2].test) && Holds(fields[3].test);
  }

  lemma {:induction false} FormatChecksPass(r: Receipt)
    ensures AllPass(FormatChecks(r)) <==>
      IsDateFormat(r.purchaseDate) && IsCalendarDate(r.purchaseDate)
      && IsTimeFormat(r.purchaseTime) && IsNumeral(r.total)
  {
    var formats := FormatChecks(r);
    assert AllPass(formats) <==> Holds(formats[0].test) && Holds(formats[1].test) && Holds(formats[2].test) && Holds(formats[3].test);
  }

  /** With the required fields present and every item valid, the format tests decide. */
  lemma {:induction false} FormatsDecide(r: Receipt)
    requires !IsBlank(r.purchaseDate) && !IsBlank(r.purchaseTime) && !IsBlank(r.retailer) && !IsBlank(r.total)
    requires forall k :: 0 <= k < |r.items| ==> ItemIsValid(r.items[k])
    ensures Validate(r) == FirstFailure(FormatChecks(r))
  {
    FieldVerdict(r);
    ItemsChecksPass(r.items, 1);
    FirstFailureSkips(ItemsChecks(r.items, 1), FormatChecks(r));
  }

  /**
   * A receipt the validator accepts has a date ten characters long and a
   * time five characters long, so the slices `PurchaseDate[9:10]` and
   * `PurchaseTime[0:2]` the points calculation takes are in bounds.
   */
  lemma {:induction false} AcceptedReceiptIsCanonical(r: Receipt)
    requires Validate(r) == Accepted
    ensures IsDateFormat(r.purchaseDate) && IsCalendarDate(r.purchaseDate) && IsTimeFormat(r.purchaseTime)
    ensures |r.purchaseDate| == 10 && |r.purchaseTime| == 5
    ensures forall k :: 0 <= k < |r.items| ==> ParseDecimal(r.items[k].price).Some?
    ensures ParseDecimal(r.total).Some?
  {
    ValidateAccepts(r);
    NumeralParses(r.total);
    forall k | 0 <= k < |r.items| ensures ParseDecimal(r.items[k].price).Some? {
      NumeralParses(r.items[k].price);
    }
  }

  /**
   * Items are checked in order: when the required fields are present, the
   * items before item k are valid and item k is not, the verdict names item
   * k + 1 (counting from 1) and the first problem it has.
   */
  lemma {:induction false} FirstInvalidItemReported(r: Receipt, k: nat)
    requires !IsBlank(r.purchaseDate) && !IsBlank(r.purchaseTime) && !IsBlank(r.retailer) && !IsBlank(r.total)
    requires k < |r.items| && !ItemIsValid(r.items[k])
    requires forall j :: 0 <= j < k ==> ItemIsValid(r.items[j])
    ensures Validate(r) == Rejected(ItemProblem(r.items[k], k + 1))
  {
    FieldVerdict(r);
    var formats := FormatChecks(r);
    var before, bad, later := ItemsChecks(r.items[..k], 1), ItemChecks(r.items[k], 1 + k), ItemsChecks(r.items[k + 1..], 2 + k);
    ItemsChecksSplit(r.items, 1, k);
    assert ItemsChecks(r.items[k..], 1 + k) == bad + later by {
      assert r.items[k..][0] == r.items[k] && r.items[k..][1..] == r.items[k + 1..];
    }
    assert ItemsChecks(r.items, 1) + formats == before + (bad + (later + formats));
    ItemsChecksPass(r.items[..k], 1);
    FirstFailureSkips(before, bad + (later + formats));
    ItemVerdict(r.items[k], 1 + k);
    FirstFailureStops(bad, later + formats);
  }

  /**
   * validateReceipt as the service runs it: the four field tests, then a
   * loop over the items with a running item number, then the format tests.
   * It returns (true, "") or (false, the message of the first failing check).
   */
  method ValidateReceipt(r: Receipt) returns (ok: bool, message: string)
    ensures ok <==> Validate(r) == Accepted
    ensures ok ==> message == ""
    ensures !ok ==> message == Message(Validate(r).problem)
  {
    FieldVerdict(r);
    if IsBlank(r.purchaseDate) {
      return false, "No Purchase Date Provided";
    } else if IsBlank(r.purchaseTime) {
      return false, "No Purchase Time Provided";
    } else if IsBlank(r.retailer) {
      return false, "No Retailer Provided";
    } else if IsBlank(r.total) {
      return false, "No Total Provided";
    }
    var itemNumber := 0;
    var i := 0;
    while i < |r.items|
      invariant 0 <= i <= |r.items| && itemNumber == i
      invariant Validate(r) == FirstFailure(ItemsChecks(r.items[i..], i + 1) + FormatChecks(r))
    {
      itemNumber := itemNumber + 1;
      var these := ItemChecks(r.items[i], itemNumber);
      var rest := ItemsChecks(r.items[i + 1..], i + 2) + FormatChecks(r);
      assert r.items[i..][1..] == r.items[i + 1..];
      assert ItemsChecks(r.items[i..], i + 1) + FormatChecks(r) == these + rest;
      ok, message := ValidateItem(r.items[i], itemNumber);
      if !ok {
        FirstFailureStops(these, rest);
        return;
      }
      FirstFailureAccepts(these);
      FirstFailureSkips(these, rest);
      i := i + 1;
    }
    assert ItemsChecks(r.items[i..], i + 1) + FormatChecks(r) == FormatChecks(r);
    ok, message := ValidateFormats(r);
  }

  /** The required fields are tested first, in order; when all are present the items and formats decide. */
  lemma {:induction false} FieldVerdict(r: Receipt)
    ensures Validate(r) ==
      if IsBlank(r.purchaseDate) then Rejected(NoPurchaseDate)
      else if IsBlank(r.purchaseTime) then Rejected(NoPurchaseTime)
      else if IsBlank(r.retailer) then Rejected(NoRetailer)
      else if IsBlank(r.total) then Rejected(NoTotal)
      else FirstFailure(ItemsChecks(r.items, 1) + FormatChecks(r))
  {
    var fields, tail := FieldChecks(r), ItemsChecks(r.items, 1) + FormatChecks(r);
    assert Checks(r) == fields + tail;
    if IsBlank(r.purchaseDate) {
      FirstFailureIsFirst(Checks(r), 0);
    } else if IsBlank(r.purchaseTime) {
      FirstFailureIsFirst(Checks(r), 1);
    } else if IsBlank(r.retailer) {
      FirstFailureIsFirst(Checks(r), 2);
    } else if IsBlank(r.total) {
      FirstFailureIsFirst(Checks(r), 3);
    } else {
      FieldChecksPass(r);
      FirstFailureSkips(fields, tail);
    }
  }

  /** The body of the item loop: the three tests on the item numbered `itemNumber`. */
  method ValidateItem(item: Item, itemNumber: int) returns (ok: bool, message: string)
    ensures ok <==> FirstFailure(ItemChecks(item, itemNumber)) == Accepted
    ensures ok ==> message == ""
    ensures !ok ==> message == Message(FirstFailure(ItemChecks(item, itemNumber)).problem)
  {
    ItemVerdict(item, itemNumber);
    var itemLabel := "Item Number " + FormatInt(itemNumber);
    if IsBlank(item.price) {
      return false, itemLabel + " - No Price Provided";
    } else if IsBlank(item.shortDescription) {
      return false, itemLabel + " - No Short Description Provided";
    }
    NumeralParses(item.price);
    if ParseDecimal(item.price).None? {
      return false, itemLabel + " - Invalid Price Amount: " + item.price;
    }
    return true, "";
  }

  /** The tests after the item loop: date pattern, calendar date, time pattern, total. */
  method ValidateFormats(r: Receipt) returns (ok: bool, message: string)
    ensures ok <==> FirstFailure(FormatChecks(r)) == Accepted
    ensures ok ==> message == ""
    ensures !ok ==> message == Message(FirstFailure(FormatChecks(r)).problem)
  {
    FormatVerdict(r);
    if !IsDateFormat(r.purchaseDate) {
      return false, "Invalid Purchase Date - Not In Expected Format YYYY-MM-DD: " + r.purchaseDate;
    }
    if !IsCalendarDate(r.purchaseDate) {
      return false, "Invalid Purchase Date: " + r.purchaseDate;
    }
    if !IsTimeFormat(r.purchaseTime) {
      return false, "Invalid Purchase Time - Not In Expected 24-hour Format HH:MI : " + r.purchaseTime;
    }
    NumeralParses(r.total);
    if ParseDecimal(r.total).None? {
      return false, "Invalid Total";
    }
    return true, "";
  }

  /** The format tests in order: the first that fails is reported. */
  lemma {:induction false} FormatVerdict(r: Receipt)
    ensures FirstFailure(FormatChecks(r)) ==
      if !IsDateFormat(r.purchaseDate) then Rejected(DateNotInFormat(r.purchaseDate))
      else if !IsCalendarDate(r.purchaseDate) then Rejected(InvalidDate(r.purchaseDate))
      else if !IsTimeFormat(r.purchaseTime) then Rejected(TimeNotInFormat(r.purchaseTime))
      else if !IsNumeral(r.total) then Rejected(InvalidTotal)
      else Accepted
  {
    var formats := FormatChecks(r);
    assert FirstFailure(formats[3..]) == if !IsNumeral(r.total) then Rejected(InvalidTotal) else Accepted by {
      assert formats[3..][1..] == [];
    }
    assert formats[2..][1..] == formats[3..] && formats[2..][0] == formats[2];
    assert FirstFailure(formats[2..]) == if !IsTimeFormat(r.purchaseTime) then Rejected(TimeNotInFormat(r.purchaseTime)) else FirstFailure(formats[3..]);
    assert formats[1..][1..] == formats[2..] && formats[1..][0] == formats[1];
    assert FirstFailure(formats[1..]) == if !IsCalendarDate(r.purchaseDate) then Rejected(InvalidDate(r.purchaseDate)) else FirstFailure(formats[2..]);
  }
}
