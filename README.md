# Receipt processor: a verified model

The receipt processor is a small web service with two operations. A client
submits a receipt (retailer, purchase date and time, items with a short
description and a price, and a total). The service validates it, scores it
with seven points rules, stores the points under a fresh identifier and
returns that identifier. Later the client looks the points up by that
identifier.

This project models the service's logic in Dafny:

- `Receipts`: the receipt schema and its field validators. A raw receipt
  holds the submitted strings. Validation turns it into a parsed receipt or
  rejects it with `InvalidInput`. In a parsed receipt, money is exact
  integer cents, the date is year/month/day and the time is hour/minute.
- `Scorer`: the seven rules as functions and their sum `Points`.
  `ComputePoints` is the scorer as the service writes it: an imperative
  running total with a loop over the items. It is proved equal to `Points`.
- `Store`: the in-memory table from identifier to points. It is a class
  whose `map` field is updated in place by `ProcessReceipt` and read by
  `GetPoints`.
- `Money`, `Calendar` and `Text` support these modules. `Money` parses the
  `\d+\.\d{2}` money format into cents and computes the rule-5 ceiling.
  `Calendar` parses and prints `%Y-%m-%d` dates (Gregorian leap years,
  years 1 to 9999) and `%H:%M` times. `Text` holds ASCII character classes,
  digit strings and Python's `str.strip`.

Two facts about the code that a reader might not expect:

- A total ending in `.50` earns 25 points, from rule 3 alone. Rule 2 tests
  for whole dollars and rule 3 for multiples of 0.25 (`Scorer.TotalRules`).
- The retailer and short-description validators return their input
  unchanged, so an empty retailer name or description is accepted.

One place where the model departs from the code on purpose: the price
validator (main.py:21-29) accepts whatever `float()` reads, so it lets a
negative price such as `-100.00` through. Its comment states the format
`\d+\.\d{2}`, which has no sign. The model keeps both versions.
`Receipts.ValidateReceiptAsWritten` uses the price check as written and
`Receipts.ValidateReceipt` uses the stated format, so it rejects negative
prices. The store and the non-negativity of the score are built on the
stated format. The "## Findings" section shows a receipt that the code as
written accepts and scores at -20.

## Model

| member | source | states |
|---|---|---|
| Scorer.ComputePoints | main.py:97-141 | the running total the scorer accumulates, rule by rule and item by item, equals the sum of the seven rules `Points` |
| Scorer.PointsNonNegative | main.py:97-141 | a validated receipt scores at least its retailer and item-pair points, and never below zero |
| Scorer.CountAlnumAppend | main.py:101-102 | counting alphanumeric characters distributes over concatenation |
| Scorer.RetailerPointsZero | main.py:100-102 | the retailer rule gives 0 exactly when the name has no letter or digit (spaces and punctuation only) |
| Scorer.RetailerPointsFull | main.py:100-102 | the retailer rule gives the full name length exactly when every character is a letter or digit |
| Scorer.RoundDollarIsQuarter | main.py:108-114 | a whole-dollar total also earns the multiple-of-0.25 bonus |
| Scorer.TotalRules | main.py:104-114 | rules 2 and 3 together give 75 for `.00`, 25 for `.25`, `.50`, `.75` and 0 otherwise |
| Scorer.ItemPairSteps | main.py:116-117 | each further pair of items adds 5; one to five items earn 0, 5, 5, 10, 10 |
| Scorer.DescriptionPointsAppend | main.py:119-124 | rule 5 over a list is the sum over its parts, each item rounded up on its own |
| Scorer.ItemDescriptionPointsSpec | main.py:119-124 | an item contributes only when its stripped description length is a multiple of 3, and then the least integer at least a fifth of its price |
| Scorer.DescriptionPointsNonNegative | main.py:119-124 | with non-negative prices rule 5 never subtracts points |
| Scorer.OddDayRule | main.py:127-130 | an odd day of the month adds exactly 6 and an even day adds 0 |
| Scorer.AfternoonWindow | main.py:132-139 | the time rule adds 10 exactly for 14:01 through 15:59, and 0 otherwise |
| Scorer.AfternoonBoundaries | main.py:132-139 | 14:00 gives 0, 14:01 gives 10, 15:59 gives 10, 16:00 gives 0 |
| Scorer.KlarbrunnLength | main.py:121 | the padded description "   Klarbrunn 12-PK 12 FL OZ  " counts 24 characters once stripped |
| Scorer.TargetItems | main.py:119-124 | the five Target items earn 6 under rule 5, and the padded Klarbrunn description counts 24 characters once stripped |
| Scorer.TargetReceipt | main.py:97-141 | the Target receipt of 2022-01-01 13:01 with five items and total 35.35 scores 28 |
| Scorer.CornerMarketName | main.py:100-102 | "M&M Corner Market" earns 14; the ampersand and the spaces count nothing |
| Scorer.CornerMarketItems | main.py:119-124 | four "Gatorade" items (8 characters) earn nothing under rule 5 |
| Scorer.CornerMarketReceipt | main.py:97-141 | the M&M Corner Market receipt of 2022-03-20 14:33 with four items and total 9.00 scores 109 |
| Money.ParseCents | main.py:21-29 | a text is read as cents exactly when it has the form `\d+\.\d{2}`; the cents are the whole part times 100 plus the two fractional digits |
| Money.ParseSignedCents | main.py:66-76 | a money text with an optional leading minus is read: an unsigned text as its cents, and "-" followed by a money text as minus those cents; nothing else is read |
| Money.ParseFormatCents | main.py:104-106 | printing an amount of cents and reading it back gives the same amount |
| Money.FormatParseCents | main.py:104-106 | reading a money text without superfluous leading zeros and printing it gives the text back |
| Money.CeilFifthOfPrice | main.py:123-124 | `ceil(price * 0.2)` on exact cents: the least integer r with cents <= 500 r |
| Money.CeilFifthOfPriceSign | main.py:123-124 | a non-negative price earns a non-negative ceiling, a zero price nothing and a positive price at least 1 |
| Calendar.DaysInMonth | main.py:42-49 | months have 28 to 31 days: 31 in the seven long months, 30 in April, June, September, November, and February 29 days exactly in leap years |
| Calendar.ParseDateIff | main.py:42-49 | `strptime(s, "%Y-%m-%d")` accepts exactly the padded spellings of real dates and reads each back as the date it spells |
| Calendar.ParseFormatDate | main.py:42-49 | printing a valid date and parsing it gives the same date |
| Calendar.FormatParseDate | main.py:42-49 | every accepted date text is the spelling of the date read |
| Calendar.ParseDateSpelling | main.py:42-49 | a padded `YYYY-MM-DD` text of any numbers is accepted exactly when they form a real date |
| Calendar.LeapDay | main.py:42-49 | February 29 is a valid date exactly in leap years |
| Calendar.YearLength | main.py:42-49 | the month lengths add up to 366 days in leap years and 365 otherwise |
| Calendar.DateExamples | main.py:42-49 | 2023-02-29, 1900-02-29, 2023-04-31, 2023-13-01 and 0000-01-01 are not dates; 2024-02-29 and 2000-02-29 are |
| Calendar.ParseTimeIff | main.py:51-58 | `strptime(s, "%H:%M")` accepts exactly the padded spellings of times from 00:00 to 23:59 and reads each back |
| Calendar.ParseFormatTime | main.py:51-58 | printing a valid time and parsing it gives the same time |
| Calendar.FormatParseTime | main.py:51-58 | every accepted time text is the spelling of the time read |
| Calendar.ParseTimeSpelling | main.py:51-58 | a padded `HH:MM` text of any numbers is accepted exactly when the hour is below 24 and the minute below 60 |
| Receipts.ValidatePriceAsWritten | main.py:21-29 | the price validator as written: a money text with or without a leading minus passes |
| Receipts.ValidatePrice | main.py:21-29 | the price validator with its stated format: a price passes exactly when it is `\d+\.\d{2}`, as its exact cents |
| Receipts.ValidateItem | main.py:12-29 | an item passes exactly when its price has the stated format; its description is kept as given and its price is non-negative cents |
| Receipts.ValidateItemAsWritten | main.py:12-29 | with the price check as written: an item passes exactly when its price is a money text with or without a leading minus; its description is kept and its price is the signed cents |
| Receipts.ValidateItemList | main.py:35 | a list of items passes exactly when every item passes the item validator, and yields the parsed items one for one, in order |
| Receipts.ValidateItems | main.py:60-64 | the item list passes exactly when it is non-empty and every item passes, and yields the parsed items in order |
| Receipts.ValidatePurchaseDate | main.py:42-49 | the date passes as the date it spells, and fails exactly when it spells no real date |
| Receipts.ValidatePurchaseTime | main.py:51-58 | the time passes as the time it spells, and fails exactly when it spells no 24-hour clock time |
| Receipts.ValidateTotal | main.py:66-76 | the total passes exactly when it is a money text whose amount is not negative |
| Receipts.ValidateReceiptWith | main.py:31-76 | a receipt passes exactly when the date, time, items and total validators all pass; it then holds the submitted retailer and what each validator read; a rejection is always `InvalidInput` |
| Receipts.ValidateReceipt | main.py:31-76 | with the stated price format: an accepted receipt is well formed (real date and time, at least one item, prices and total non-negative) and holds the submitted retailer and the date, time, items and total its validators read; a rejection is always `InvalidInput` |
| Receipts.ValidateReceiptAsWritten | main.py:31-76 | with the price check as written: an accepted receipt holds the submitted retailer and the date, time, items and total its validators read; a rejection is always `InvalidInput` |
| Receipts.ValidateReceiptIff | main.py:31-76 | a receipt is accepted exactly when its date and time spell real ones, it has an item, every price is `\d+\.\d{2}` and the total is not negative |
| Receipts.ValidateSpell | main.py:31-76 | every well-formed receipt, spelled canonically, is accepted and read back as itself |
| Receipts.EmptyItemsRejected | main.py:60-64 | a receipt with no items is rejected |
| Receipts.NegativeTotalRejected | main.py:66-76 | a receipt with a negative total is rejected |
| Receipts.InvalidDateRejected | main.py:42-49 | a receipt whose date text spells no real date is rejected |
| Receipts.NonLeapFebruary29Rejected | main.py:42-49 | February 29 of a year that is not a leap year, such as 2023-02-29, is rejected |
| Receipts.InvalidTimeRejected | main.py:51-58 | a receipt whose time text spells no clock time is rejected |
| Receipts.OutOfRangeTimeRejected | main.py:51-58 | a padded time with an hour past 23 or a minute past 59, such as 24:00 or 12:60, is rejected |
| Receipts.ItemAsWrittenAgrees | main.py:21-29 | for a price without a leading minus, the item check as written and with the stated format give the same result |
| Receipts.ValidateReceiptAgreesAsWritten | main.py:21-76 | a receipt accepted under the stated price format is accepted as written and read the same; one accepted as written whose prices carry no minus is accepted under the stated format |
| Receipts.NegatedPriceAccepted | main.py:21-29 | the price check as written accepts every negated money text as a negative amount, where the stated format rejects it |
| Receipts.NegativePriceAccepted | main.py:21-29 | "-100.00" passes the price check as written as -10000 cents and fails the stated format |
| Receipts.NegativePriceReceiptDate | main.py:42-49 | the date 2022-01-02 passes the date validator |
| Receipts.NegativePriceReceiptTime | main.py:51-58 | the time 13:00 passes the time validator |
| Receipts.NegativePriceReceiptTotal | main.py:66-76 | the total 0.01 passes the total validator |
| Receipts.NegativePriceReceiptAccepted | main.py:21-76 | the receipt with one item "abc" at "-100.00", empty retailer, 2022-01-02, 13:00 and total 0.01 is accepted as written with a price of -10000 cents, and rejected under the stated format |
| Scorer.NegativePriceScoresNegative | main.py:97-141 | that receipt, accepted as written, scores -20 |
| Scorer.NegativePricePoints | main.py:97-141 | the receipt read from it earns -20 under rule 5, that is `ceil(-100.00 * 0.2)`, and scores -20 in all |
| Text.StripSpec | main.py:121 | `strip` keeps a contiguous part of the text with no white space at either end and drops only white space |
| Text.StripIdempotent | main.py:121 | stripping twice is stripping once |
| Text.StripPadded | main.py:121 | white space around a text is removed and the text is kept whole |
| Text.StripAllSpace | main.py:121 | a text of white space only strips to nothing |
| Text.CanonicalDigitsRoundTrip | main.py:104-106 | printing the number a canonical digit string denotes gives the string back |
| Text.Pad4OfValue | main.py:42-49 | every four-digit year text is the zero-padded spelling of its value |
| Store.ReceiptStore.constructor | main.py:10 | the store starts empty |
| Store.ReceiptStore.ProcessReceipt | main.py:79-87 | an invalid receipt is rejected and the table is unchanged; a valid one is scored and stored under the fresh identifier, which is returned, and no other entry changes; stored points stay non-negative |
| Store.ReceiptStore.GetPoints | main.py:90-94 | a known identifier gives its stored points, which are never negative, and an unknown one gives `NotFound` |
| Store.ProcessThenGet | main.py:79-94 | looking up a just-stored receipt gives its points, and every other identifier gives what it gave before |
| Store.RejectThenGet | main.py:79-94 | a rejected receipt leaves the table unchanged, so its would-be identifier stays unknown |

## Left out

- The web layer is not modelled: routing, the asynchronous endpoints and the translation of `InvalidInput` and `NotFound` into HTTP 400 and 404 responses (main.py:79-94, 144-149). The model returns the two errors as values.
- `uuid.uuid4()` is random, so `ProcessReceipt` takes the fresh identifier as a parameter. If that identifier is already stored, the old entry is overwritten, as a dictionary assignment would do. A random UUID is assumed never to collide.
- Concurrent requests on the shared table are not modelled. The store's operations are modelled one at a time.
- Money is exact integer cents in the `\d+\.\d{2}` format. `float()` also accepts `nan`, `inf`, exponent notation, surrounding white space, a leading `+` and any number of decimals. It also accepts underscores between digits (`1_000.00`) and non-ASCII decimal digits such as fullwidth ones. Such texts are rejected by the model.
- Receipts.ValidateTotal: does not accept these extra float spellings, because the format the total is meant to have is `\d+\.\d{2}`.
- Receipts.ValidatePriceAsWritten: same restriction to signed `\d+\.\d{2}` texts.
- Store.ReceiptStore.ProcessReceipt: validates with the stated price format (`Receipts.ValidateReceipt`), so a receipt with a negative price is rejected where the code as written would store a negative score; the as-written behaviour is modelled in `Receipts.ValidateReceiptAsWritten`.
- Binary floating point in `round(total * 100)` and `ceil(price * 0.2)` is replaced by exact arithmetic on cents. The service may differ from the model where a rounding error carries a value across a whole number, for example with amounts too large for a double's 53-bit mantissa.
- `strptime` also accepts month, day, hour and minute fields without zero padding, such as `2022-1-5`. Its digit fields also match non-ASCII decimal digits, such as fullwidth ones. The model accepts only the zero-padded `YYYY-MM-DD` and `HH:MM` forms in ASCII digits.
- `str.isalnum` and `str.strip` are modelled on ASCII. Non-ASCII letters, digits and white space are not classified as Python classifies them.
- The schema's own type checks are not modelled, for example a missing field or a number where a string is expected. A raw receipt already holds strings.

## Findings

| source | as written | input that shows it | evidently intended | confidence | as-written member | corrected member |
|---|---|---|---|---|---|---|
| main.py:21-29 | `validate_price` accepts any text `float()` reads, including a negative amount; rule 5 then adds `ceil(price * 0.2)`, which is negative | a receipt with one item `{"shortDescription": "abc", "price": "-100.00"}`, retailer "", date 2022-01-02, time 13:00, total 0.01: accepted, and scored -20 | the price must match `\d+\.\d{2}` as the validator's comment states, so it is never negative and no receipt scores below zero | not executed | Receipts.ValidateReceiptAsWritten, Receipts.NegativePriceReceiptAccepted, Scorer.NegativePriceScoresNegative | Receipts.ValidateReceipt, Scorer.PointsNonNegative |
