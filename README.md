# Receipt processor, modelled in Dafny

The receipt processor is a small web service with two operations:

- it accepts a receipt, validates it, scores it and stores it under a fresh id;
- it looks up the points of a stored receipt by its id.

This project models the core of `main.go` in Dafny and proves properties of that model. The core has four parts:

- **the validator** (`validateReceipt`): an ordered chain of checks with early exit and word-for-word error messages;
- **the points calculation** (`computePoints`): seven additive rules over the receipt's text fields;
- **the receipt store**: a map from id to receipt, seeded with one test receipt;
- **the two handlers around the store**: processing a submitted receipt, and reading back its points with `strconv.Atoi`.

Layout:

| file | module | what |
|---|---|---|
| `wrappers.dfy` | `Wrappers` | `Option` |
| `text.dfy` | `Text` | `strings.TrimSpace`, blank test, UTF-8 byte length (`len`), the `[^a-zA-Z0-9]+` filter |
| `conv.dfy` | `Conv` | decimal digits, `strconv.FormatInt` / `Atoi`, decimal literals as `ParseFloat` reads them, exact decimals |
| `datetime.dfy` | `DateTime` | the date and time regular expressions, the calendar check of `time.Parse` |
| `receipts.dfy` | `Receipts` | the `receipt` and `receipt_items` records |
| `validator.dfy` | `Validator` | the ordered checks as a specification, and the service's loop as a method proved against it |
| `scoring.dfy` | `Scoring` | the seven rules as functions, and the service's accumulator loop as a method proved against them |
| `store.dfy` | `Store` | the receipt map as a class with the two handlers |
| `examples.dfy` | `Examples` | the documented receipts, validated and scored, and boundary cases |

Design notes:

- **Validation specification.** The specification of validation is a flat list of checks in the service's order. Each check is a test on one field and the problem it reports. The verdict is the first check that fails. `ValidateReceipt` is the service's early-exit code, and its contract says it returns that verdict's message.
- **Money.** Amounts are exact decimals: a sign, a mantissa and a scale. This replaces `float64`. With exact decimals:
  - "a whole dollar amount" means the mantissa is a multiple of 10^scale;
  - "a multiple of 0.25" means four times the mantissa is a multiple of 10^scale;
  - `ceil(price * 0.2)` is the least b with price <= 5b.
- **Store.** The store is a class whose one field is the receipt map. The handlers are methods that read and update it. The id `uuid.New()` would generate is a parameter.

## Model

| member | source | states |
|---|---|---|
| Text.IsSpace | main.go:103 | the characters `strings.TrimSpace` strips: the Unicode White_Space set that `unicode.IsSpace` tests; Text.TrimSpace and Text.BlankIsTrimmedEmpty state what trimming by it does |
| Text.TrimSpace | main.go:103 | the trimmed text is empty exactly when the input is all white space; otherwise it is the slice between the leading and trailing white space and starts and ends with a non-space |
| Text.BlankIsTrimmedEmpty | main.go:103-118 | the recursive blank test used by the model holds exactly when `strings.TrimSpace` leaves the empty string |
| Text.TrimSpaceBetween | main.go:174 | text between `front` and `back` spaces trims to exactly the part between them |
| Text.ByteLength | main.go:174 | `len` of a string is between its character count and four times it, and equals the character count on ASCII text |
| Text.StripNonAlnum | main.go:149-153 | replacing `[^a-zA-Z0-9]+` by "" keeps only alphanumeric characters and never lengthens the text |
| Text.StripNonAlnumAppend | main.go:153 | the filter works piece by piece: filtering a + b is filtering a, then b |
| Text.StripNonAlnumCounts | main.go:152-153 | the filtered text has one character per alphanumeric position of the input |
| Conv.FormatInt | main.go:87 | the base-10 text of n (also the item number of main.go:114) is non-empty and starts with '-' exactly when n is negative; Conv.AtoiFormatInt shows `Atoi` reads it back |
| Conv.Atoi | main.go:67 | `strconv.Atoi` succeeds only on non-empty text: a sign, then at least one digit and nothing else; Conv.AtoiFormatInt ties it to FormatInt |
| Conv.ParseDecimal | main.go:121 | `strconv.ParseFloat` (also at main.go:138, 154 and 171) succeeds only on non-empty text; Conv.NumeralParses, Conv.ParseFormatDecimal and Conv.TwoDecimalCents state which texts it accepts and what they read as |
| Conv.NatToDigits | main.go:87 | the decimal text of n is non-empty, all digits, denotes n, and has no leading zero |
| Conv.AtoiFormatInt | main.go:67-87 | `Atoi(FormatInt(n)) == n` for every n: the stored points read back as written |
| Conv.NumeralParses | main.go:121-124 | the character-by-character numeral syntax the validator tests holds exactly when the decimal parser succeeds |
| Conv.ParseFormatDecimal | main.go:154 | parsing the canonical text of a decimal gives the decimal back |
| Conv.TwoDecimalCents | main.go:171 | a price written `D.CC` parses to its number of cents at scale 2 |
| DateTime.IsDateFormat | main.go:126-127 | the `YYYY-MM-DD` regular expression; DateTime.DateFormatMeaning states the dates it accepts |
| DateTime.IsCalendarDate | main.go:130-131 | `time.Parse("2006-01-02", …)` succeeds on a pattern-shaped date exactly when the day exists in that month of that year; DateTime.LeapDay states the February case |
| DateTime.IsTimeFormat | main.go:134-135 | the `HH:MM` regular expression; DateTime.TimeFormatMeaning states the times it accepts |
| DateTime.DateFormatMeaning | main.go:126-127 | the date pattern accepts exactly the `YYYY-MM-DD` shapes with month 1-12 and day 1-31 |
| DateTime.DaysInMonth | main.go:130 | every month has 28 to 31 days |
| DateTime.LeapDay | main.go:130-133 | February 29th passes the calendar check exactly in leap years |
| DateTime.TimeFormatMeaning | main.go:134-135 | the time pattern accepts exactly the `HH:MM` shapes with hour 0-23 and minute 0-59 |
| Validator.Message | main.go:104-141 | the service's message for each problem, word for word; none is the empty string that accompanies an acceptance |
| Validator.Validate | main.go:100-145 | a receipt is accepted exactly when every check in the service's order passes; Validator.ValidateAccepts states that field by field |
| Validator.WithoutItems | main.go:112-125 | a receipt with no items is judged by the field checks and then the format checks: the item loop reports nothing |
| Validator.FirstFailureAccepts | main.go:100-145 | the chain accepts exactly when every check passes |
| Validator.FirstFailureIsFirst | main.go:100-145 | when check i fails and every earlier check passes, check i's problem is the one reported |
| Validator.FirstFailureStops | main.go:100-145 | a failure among the earlier checks hides every later one |
| Validator.FieldVerdict | main.go:103-111 | the date, time, retailer and total presence checks are applied in that order before anything else |
| Validator.ItemVerdict | main.go:113-124 | for one item the verdict is a missing price, else a missing description, else a non-numeric price, naming the item's number |
| Validator.FirstInvalidItemReported | main.go:112-125 | when the first invalid item is item k, the message names item k + 1, counting from 1 |
| Validator.FormatVerdict | main.go:126-143 | the date pattern, then the calendar check, then the time pattern, then the numeric total, each with its own message |
| Validator.FormatsDecide | main.go:126-144 | with the fields present and all items valid, the format checks alone decide the verdict |
| Validator.ValidateAccepts | main.go:100-145 | a receipt is accepted exactly when the four fields are present, every item is valid, date, calendar date and time match, and the total is numeric |
| Validator.AcceptedReceiptIsCanonical | main.go:126-143 | an accepted receipt has a 10-character date and a 5-character time, so the `[9:10]` and `[0:2]` slices are in bounds, and its total and prices parse |
| Validator.ValidateItem | main.go:113-124 | the loop body returns the item's verdict and its exact message |
| Validator.ValidateFormats | main.go:126-144 | the format tail returns the format verdict and its exact message |
| Validator.ValidateReceipt | main.go:100-145 | returns true with "" exactly when the receipt is accepted, and otherwise the exact message of the first failing check |
| Scoring.RetailerPoints | main.go:149-153 | the retailer earns one point per alphanumeric character, at most its length |
| Scoring.RetailerPointsCount | main.go:152-153 | the retailer's points are the number of its alphanumeric positions |
| Scoring.WholeAmountIsQuarterMultiple | main.go:156-163 | a whole dollar amount is always a multiple of 0.25, so it earns both 50 and 25 |
| Scoring.TotalPoints | main.go:154-168 | a total that does not parse earns nothing, not even the pair bonus; otherwise at most 75 plus 5 per pair of items |
| Scoring.TotalPointsInCents | main.go:154-166 | on a two-decimal total, 50 when the cents are a multiple of 100, 25 when a multiple of 25, and 5 per pair of items |
| Scoring.CeilFifth | main.go:176 | `ceil(d * 0.2)` is the least whole number b with d <= 5b |
| Scoring.ItemPoints | main.go:169-179 | an item earns something only if its trimmed description is a multiple of 3 bytes long and its price parses |
| Scoring.ItemsPointsAppend | main.go:169-179 | the item rule is additive over the list of items |
| Scoring.ItemsWithoutBonus | main.go:174 | items whose trimmed descriptions are not a multiple of 3 long add nothing |
| Scoring.DayPoints | main.go:181-188 | the day rule gives 0 or 6 |
| Scoring.OddDayBonus | main.go:180-188 | on a validated date the day rule gives 6 exactly when the day of the month is odd |
| Scoring.TimePoints | main.go:190-193 | the time rule gives 0 or 10 |
| Scoring.AfternoonBonus | main.go:189-193 | on a validated time the time rule gives 10 exactly for times strictly between 14:00 and 16:00 |
| Scoring.PointsNonNegative | main.go:148-196 | when no item price parses to a negative amount, the receipt scores at least 0: every other rule adds 0 or more |
| Scoring.ItemBonus | main.go:170-178 | the loop body adds the item's points; a price that does not parse counts as 0 |
| Scoring.Points | main.go:148-196 | the score as the sum of the seven rules; Scoring.ComputePoints shows the service's loop computes it, and Scoring.PointsNonNegative bounds it below |
| Scoring.ComputePoints | main.go:148-196 | the accumulator loop returns the sum of the seven rules |
| Store.PointsOf | main.go:67 | the empty points text of the seeded receipt reads as 0, and the text `FormatInt` writes for a score reads back as that score |
| Store.Seed | main.go:45-49 | the store's initial map, one test receipt under "someidhere" with no points text; Store.SeededEntryReadsZero states what it reads as |
| Store.LookupPoints | main.go:63-71 | a lookup finds points exactly when the id is stored |
| Store.SeededEntryReadsZero | main.go:45-49 | the seeded test receipt, whose points are never set, reads as 0 points |
| Store.Scored | main.go:87 | the stored receipt differs from the submitted one only in its points text, which reads back as its points |
| Store.StoredPointsReadBack | main.go:87-88 | after storing a scored receipt under an id, looking the id up gives its points |
| Store.OtherIdsUnchanged | main.go:88 | storing under one id changes what no other id reads |
| Store.ReceiptStore.constructor | main.go:45-49 | the store starts with the test receipt under "someidhere", which reads as 0 |
| Store.ReceiptStore.Put | main.go:88 | storing replaces the entry for that id and nothing else |
| Store.ReceiptStore.GetPoints | main.go:59-72 | the handler answers the stored receipt's points, or not found |
| Store.ReceiptStore.ProcessReceipt | main.go:75-97 | an accepted receipt is scored, stored under the id and the id returned; a rejected one leaves the store unchanged and returns "Validaiton Error: " and the message |
| Examples.TargetAccepted | main.go:100-145 | the Target receipt passes every check |
| Examples.TargetScores28 | main.go:148-196 | the Target receipt scores 28 |
| Examples.CornerMarketScores99 | main.go:148-196 | the M&M Corner Market receipt with one Gatorade scores 99 |
| Examples.CornerMarketFourItemsScore109 | main.go:148-196 | the M&M Corner Market receipt with four Gatorades scores 109 |
| Examples.CornerMarketAccepted | main.go:100-145 | the one-item M&M Corner Market receipt passes every check |
| Examples.CornerMarketFourItemsAccepted | main.go:100-145 | the four-item M&M Corner Market receipt passes every check |
| Examples.CornerMarketRetailer | main.go:149-153 | "M&M Corner Market" earns 14: the '&' and the spaces do not count |
| Examples.TimeWindowBoundaries | main.go:190-193 | 13:59, 14:00 and 16:00 earn no time bonus; 14:01 and 15:59 do |
| Examples.NoItems | main.go:112-125 | example: the Target receipt with its items removed is accepted and scores 12, since the item rules add nothing |
| Examples.NegativePriceAccepted | main.go:121-124 | example: the Target receipt whose only item is ("abc", "-100.00") passes every check, because a negative price is a valid float |
| Examples.NegativePriceScoresBelowZero | main.go:169-179 | example: that receipt scores -8: 6 for the name, 6 for the odd day and -20 for the item |
| Examples.MonthThirteenRejected | main.go:126-129 | month 13 fails the date pattern, and that message is the one reported |
| Examples.NonLeapDayRejected | main.go:130-133 | 2023-02-29 matches the pattern but fails the calendar check |

About the M&M Corner Market example: with a single Gatorade it is sometimes quoted at 109 points. Its own breakdown (14 + 50 + 25 + 10) adds up to 99, and 99 is what the code computes. 109 is the score with four Gatorades, because the two pairs of items add 10. The model follows the code and proves both figures.

Negative amounts: the validator accepts any text `strconv.ParseFloat` reads, so negative prices and negative totals pass. A negative price whose description qualifies subtracts `ceil(price * 0.2)` from the score, so a score can be below zero (Examples.NegativePriceScoresBelowZero). Scores are at least 0 only when no price is negative (Scoring.PointsNonNegative).

## Left out

- HTTP and the web framework: routing, `BindJSON`, JSON encoding and status codes are not modelled. `ProcessReceipt` and `GetPoints` return a response value instead. The code answers a rejected receipt with status 201 (`StatusCreated`); that status is not modelled.
- `uuid.New()` is not modelled. The id is a parameter of `ProcessReceipt`, so the model says nothing about freshness or uniqueness.
- Concurrency: the handlers share the global map without locking; the model runs one handler at a time.
- Conv.NumeralParses: models `strconv.ParseFloat` only as the decimal syntax `[+-]?digits[.digits]` with at least one digit. The exponent, `Inf`/`NaN`, hexadecimal and underscore forms Go also accepts are rejected by the model. Go's float32/float64 range errors are not modelled.
- Scoring.TotalPoints and Scoring.CeilFifth: compute on exact decimals, not `float64`. The model gives the exact answer where floating-point rounding could differ, for example for `price * 0.2` just above a whole number. On totals and prices written with two decimals and of ordinary size, the exact and the `float64` readings are expected to agree: `5k * 0.2` rounds to exactly k, an amount whose cents are a multiple of 25 is exact in binary, and one whose cents are not is neither a whole number nor a multiple of 0.25 in either reading. This agreement is not proved here.
- Conv.Atoi: has no 64-bit range limit, and `FormatInt` has no `int64` conversion. The points are unbounded integers, so overflow is not modelled.
- Text.IsSpace: is the Unicode White_Space set that `unicode.IsSpace` uses. Invalid UTF-8 is not modelled, because strings are sequences of characters.
- Scoring.DayPoints and Scoring.TimePoints: the Go slices `[9:10]` and `[0:2]` index bytes; the model indexes characters. The two agree on every date and time the validator accepts, because those are ASCII.
- The regular expressions and `time.Parse` are modelled by what they accept on these inputs, not as general regular-expression or time-parsing engines.
