/**
 * The receipt schema and its field validators.  A raw receipt holds the
 * JSON strings as submitted; validation either rejects the whole receipt
 * with one `InvalidInput` error or yields a parsed receipt: money as exact
 * cents, the date as year/month/day, the time as hour/minute.
 */
module Receipts {
  import opened Wrappers
  import opened Text
  import opened Money
  import opened Calendar

  /** The two caller-visible failures: a rejected submission and a lookup
      of an unknown identifier. */
  datatype Error = InvalidInput | NotFound

  datatype RawItem = RawItem(shortDescription: string, price: string)

  datatype RawReceipt = RawReceipt(
    retailer: string,
    purchaseDate: string,
    purchaseTime: string,
    items: seq<RawItem>,
    total: string)

  datatype Item = Item(shortDescription: string, priceCents: int)

  datatype Receipt = Receipt(
    retailer: string,
    purchaseDate: Date,
    purchaseTime: Time,
    items: seq<Item>,
    totalCents: int)

  /** What every receipt that passed validation satisfies. */
  predicate WellFormed(r: Receipt) {
    && ValidDate(r.purchaseDate)
    && ValidTime(r.purchaseTime)
    && |r.items| >= 1
    && r.totalCents >= 0
    && forall i :: 0 <= i < |r.items| ==> r.items[i].priceCents >= 0
  }

  /** The price validator as it is written: whatever `float` accepts passes,
      so a negative price such as "-100.00" is let through. */
  function ValidatePriceAsWritten(s: string): (r: Result<int, Error>)
    ensures r.Ok? <==> IsMoneyText(s) || (|s| >= 1 && s[0] == '-' && IsMoneyText(s[1..]))
    ensures r.Ok? ==> ParseSignedCents(s) == Some(r.value)
  {
    match ParseSignedCents(s)
    case Some(c) => Ok(c)
    case None => Err(InvalidInput)
  }

  /** The price validator with the `\d+\.\d{2}` format its comment states:
      only unsigned amounts with two fractional digits pass. */
  function ValidatePrice(s: string): (r: Result<nat, Error>)
    ensures r.Ok? <==> IsMoneyText(s)
    ensures r.Ok? ==> ParseCents(s) == Some(r.value)
  {
    match ParseCents(s)
    case Some(c) => Ok(c)
    case None => Err(InvalidInput)
  }

  /** The description validator accepts any text; the price decides. */
  function ValidateItem(raw: RawItem): (r: Result<Item, Error>)
    ensures r.Ok? <==> IsMoneyText(raw.price)
    ensures r.Ok? ==> r.value.shortDescription == raw.shortDescription
    ensures r.Ok? ==> r.value.priceCents >= 0 && ParseCents(raw.price) == Some(r.value.priceCents)
  {
    match ValidatePrice(raw.price)
    case Ok(c) => Ok(Item(raw.shortDescription, c))
    case Err(e) => Err(e)
  }

  /** An item checked with the price validator as written: a leading minus
      sign is let through and gives a negative amount. */
  function ValidateItemAsWritten(raw: RawItem): (r: Result<Item, Error>)
    ensures r.Ok? <==> IsMoneyText(raw.price) || (|raw.price| >= 1 && raw.price[0] == '-' && IsMoneyText(raw.price[1..]))
    ensures r.Ok? ==> r.value.shortDescription == raw.shortDescription
    ensures r.Ok? ==> ParseSignedCents(raw.price) == Some(r.value.priceCents)
  {
    match ValidatePriceAsWritten(raw.price)
    case Ok(c) => Ok(Item(raw.shortDescription, c))
    case Err(e) => Err(e)
  }

  /** Every item of the list checked in order by the item validator; the
      first failure wins. */
  function ValidateItemList(raws: seq<RawItem>, validateItem: RawItem -> Result<Item, Error>)
    : (r: Result<seq<Item>, Error>)
    ensures r.Ok? <==> forall i :: 0 <= i < |raws| ==> validateItem(raws[i]).Ok?
    ensures r.Ok? ==> |r.value| == |raws|
    ensures r.Ok? ==> forall i :: 0 <= i < |raws| ==> validateItem(raws[i]) == Ok(r.value[i])
    ensures r.Err? ==> r.error == InvalidInput
  {
    if raws == [] then Ok([])
    else
      match validateItem(raws[0])
      case Err(_) => Err(InvalidInput)
      case Ok(item) =>
        match ValidateItemList(raws[1..], validateItem)
        case Err(e) => Err(e)
        case Ok(rest) =>
          assert forall i :: 1 <= i < |raws| ==> raws[i] == raws[1..][i - 1];
          Ok([item] + rest)
  }

  /** `validate_items`: the list must hold at least one item, and every
      item must pass. */
  function ValidateItems(raws: seq<RawItem>, validateItem: RawItem -> Result<Item, Error>)
    : (r: Result<seq<Item>, Error>)
    ensures r.Ok? <==> |raws| >= 1 && forall i :: 0 <= i < |raws| ==> validateItem(raws[i]).Ok?
    ensures r.Ok? ==> |r.value| == |raws| >= 1
    ensures r.Ok? ==> forall i :: 0 <= i < |raws| ==> validateItem(raws[i]) == Ok(r.value[i])
    ensures r.Err? ==> r.error == InvalidInput
  {
    if |raws| < 1 then Err(InvalidInput) else ValidateItemList(raws, validateItem)
  }

  /** `validate_purchase_date`: the text must spell a real calendar date. */
  function ValidatePurchaseDate(s: string): (r: Result<Date, Error>)
    ensures r.Ok? ==> ValidDate(r.value) && FormatDate(r.value) == s
    ensures r.Err? ==> forall d :: ValidDate(d) ==> FormatDate(d) != s
  {
    match ParseDate(s)
    case Some(d) => ParseDateIff(s, d); Ok(d)
    case None => ParseDateNone(s); Err(InvalidInput)
  }

  /** `validate_purchase_time`: the text must spell a 24-hour clock time. */
  function ValidatePurchaseTime(s: string): (r: Result<Time, Error>)
    ensures r.Ok? ==> ValidTime(r.value) && FormatTime(r.value) == s
    ensures r.Err? ==> forall t :: ValidTime(t) ==> FormatTime(t) != s
  {
    match ParseTime(s)
    case Some(t) => ParseTimeIff(s, t); Ok(t)
    case None => ParseTimeNone(s); Err(InvalidInput)
  }

  lemma ParseDateNone(s: string)
    requires ParseDate(s) == None
    ensures forall d :: ValidDate(d) ==> FormatDate(d) != s
  {
    forall d | ValidDate(d) ensures FormatDate(d) != s {
      ParseDateIff(s, d);
    }
  }

  lemma ParseTimeNone(s: string)
    requires ParseTime(s) == None
    ensures forall t :: ValidTime(t) ==> FormatTime(t) != s
  {
    forall t | ValidTime(t) ensures FormatTime(t) != s {
      ParseTimeIff(s, t);
    }
  }

  /** `validate_total`: the text must be a number, and not a negative one. */
  function ValidateTotal(s: string): (r: Result<nat, Error>)
    ensures r.Ok? <==> ParseSignedCents(s).Some? && ParseSignedCents(s).value >= 0
    ensures r.Ok? ==> ParseSignedCents(s) == Some(r.value as int)
  {
    match ParseSignedCents(s)
    case Some(c) => if c < 0 then Err(InvalidInput) else Ok(c)
    case None => Err(InvalidInput)
  }

  /** The whole receipt, with a given item validator: it is accepted only
      when every field validator accepts, and then holds the retailer as
      given and each field as its validator read it. */
  function ValidateReceiptWith(raw: RawReceipt, validateItem: RawItem -> Result<Item, Error>)
    : (r: Result<Receipt, Error>)
    ensures r.Ok? <==>
      && ValidatePurchaseDate(raw.purchaseDate).Ok?
      && ValidatePurchaseTime(raw.purchaseTime).Ok?
      && ValidateItems(raw.items, validateItem).Ok?
      && ValidateTotal(raw.total).Ok?
    ensures r.Ok? ==>
      && r.value.retailer == raw.retailer
      && ValidatePurchaseDate(raw.purchaseDate) == Ok(r.value.purchaseDate)
      && ValidatePurchaseTime(raw.purchaseTime) == Ok(r.value.purchaseTime)
      && ValidateItems(raw.items, validateItem) == Ok(r.value.items)
      && ValidateTotal(raw.total) == Ok(r.value.totalCents)
    ensures r.Err? ==> r.error == InvalidInput
  {
    var date := ValidatePurchaseDate(raw.purchaseDate);
    var time := ValidatePurchaseTime(raw.purchaseTime);
    var items := ValidateItems(raw.items, validateItem);
    var total := ValidateTotal(raw.total);
    if date.Ok? && time.Ok? && items.Ok? && total.Ok? then
      Ok(Receipt(raw.retailer, date.value, time.value, items.value, total.value))
    else Err(InvalidInput)
  }

  /** The receipt validator with the stated price format: an accepted
      receipt is well formed and holds the submitted retailer and the
      date, time, items and total its field validators read. */
  function ValidateReceipt(raw: RawReceipt): (r: Result<Receipt, Error>)
    ensures r.Ok? ==> WellFormed(r.value)
    ensures r.Ok? ==>
      && r.value.retailer == raw.retailer
      && ValidatePurchaseDate(raw.purchaseDate) == Ok(r.value.purchaseDate)
      && ValidatePurchaseTime(raw.purchaseTime) == Ok(r.value.purchaseTime)
      && ValidateItems(raw.items, ValidateItem) == Ok(r.value.items)
      && ValidateTotal(raw.total) == Ok(r.value.totalCents)
    ensures r.Err? ==> r.error == InvalidInput
  {
    ValidateReceiptWith(raw, ValidateItem)
  }

  /** The receipt validator as written, with the price validator as
      written. */
  function ValidateReceiptAsWritten(raw: RawReceipt): (r: Result<Receipt, Error>)
    ensures r.Ok? ==>
      && r.value.retailer == raw.retailer
      && ValidatePurchaseDate(raw.purchaseDate) == Ok(r.value.purchaseDate)
      && ValidatePurchaseTime(raw.purchaseTime) == Ok(r.value.purchaseTime)
      && ValidateItems(raw.items, ValidateItemAsWritten) == Ok(r.value.items)
      && ValidateTotal(raw.total) == Ok(r.value.totalCents)
    ensures r.Err? ==> r.error == InvalidInput
  {
    ValidateReceiptWith(raw, ValidateItemAsWritten)
  }

  /** The canonical spelling of a well-formed receipt. */
  function Spell(r: Receipt): (raw: RawReceipt)
    requires WellFormed(r)
    ensures |raw.items| == |r.items|
  {
    RawReceipt(
      r.retailer,
      FormatDate(r.purchaseDate),
      FormatTime(r.purchaseTime),
      seq(|r.items|, i requires 0 <= i < |r.items| =>
        RawItem(r.items[i].shortDescription, FormatCents(r.items[i].priceCents))),
      FormatCents(r.totalCents))
  }

  /** Validation succeeds exactly when the date and time spell real ones,
      there is at least one item, every price is `\d+\.\d{2}` and the
      total is a number that is not negative. */
  lemma ValidateReceiptIff(raw: RawReceipt)
    ensures ValidateReceipt(raw).Ok? <==>
      && (exists d :: ValidDate(d) && FormatDate(d) == raw.purchaseDate)
      && (exists t :: ValidTime(t) && FormatTime(t) == raw.purchaseTime)
      && |raw.items| >= 1
      && (forall i :: 0 <= i < |raw.items| ==> IsMoneyText(raw.items[i].price))
      && ParseSignedCents(raw.total).Some? && ParseSignedCents(raw.total).value >= 0
  {
    var vd := ValidatePurchaseDate(raw.purchaseDate);
    var vt := ValidatePurchaseTime(raw.purchaseTime);
    if vd.Ok? {
      assert ValidDate(vd.value) && FormatDate(vd.value) == raw.purchaseDate;
    }
    if vt.Ok? {
      assert ValidTime(vt.value) && FormatTime(vt.value) == raw.purchaseTime;
    }
  }

  /** Every well-formed receipt, spelled canonically, is accepted and read
      back as itself. */
  lemma ValidateSpell(r: Receipt)
    requires WellFormed(r)
    ensures ValidateReceipt(Spell(r)) == Ok(r)
  {
    var raw := Spell(r);
    ParseFormatDate(r.purchaseDate);
    ParseFormatTime(r.purchaseTime);
    assert ValidatePurchaseDate(raw.purchaseDate) == Ok(r.purchaseDate);
    assert ValidatePurchaseTime(raw.purchaseTime) == Ok(r.purchaseTime);
    ParseFormatCents(r.totalCents);
    forall i | 0 <= i < |r.items|
      ensures ValidateItem(raw.items[i]) == Ok(r.items[i])
    {
      ParseFormatCents(r.items[i].priceCents);
    }
    var items := ValidateItems(raw.items, ValidateItem).value;
    assert items == r.items;
  }

  /** A receipt with no items is rejected. */
  lemma EmptyItemsRejected(raw: RawReceipt)
    requires raw.items == []
    ensures ValidateReceipt(raw) == Err(InvalidInput)
  {
  }

  /** A receipt whose total is negative is rejected. */
  lemma NegativeTotalRejected(raw: RawReceipt)
    requires ParseSignedCents(raw.total).Some? && ParseSignedCents(raw.total).value < 0
    ensures ValidateReceipt(raw) == Err(InvalidInput)
  {
  }

  /** A receipt whose date text spells no real date (2023-02-29, say) is
      rejected. */
  lemma InvalidDateRejected(raw: RawReceipt)
    requires forall d :: ValidDate(d) ==> FormatDate(d) != raw.purchaseDate
    ensures ValidateReceipt(raw) == Err(InvalidInput)
  {
  }

  /** A receipt whose time text spells no time in 00:00-23:59 is rejected. */
  lemma InvalidTimeRejected(raw: RawReceipt)
    requires forall t :: ValidTime(t) ==> FormatTime(t) != raw.purchaseTime
    ensures ValidateReceipt(raw) == Err(InvalidInput)
  {
  }

  /** February 29 of a year that is not a leap year (2023-02-29, say) is
      rejected. */
  lemma NonLeapFebruary29Rejected(raw: RawReceipt, y: nat)
    requires y < 10000 && !IsLeapYear(y)
    requires raw.purchaseDate == Pad4(y) + "-" + Pad2(2) + "-" + Pad2(29)
    ensures ValidateReceipt(raw) == Err(InvalidInput)
  {
    ParseDateSpelling(y, 2, 29);
  }

  /** A zero-padded clock text with an hour past 23 or a minute past 59
      (24:00 or 12:60, say) is rejected. */
  lemma OutOfRangeTimeRejected(raw: RawReceipt, h: nat, m: nat)
    requires h < 100 && m < 100 && (h >= 24 || m >= 60)
    requires raw.purchaseTime == Pad2(h) + ":" + Pad2(m)
    ensures ValidateReceipt(raw) == Err(InvalidInput)
  {
    ParseTimeSpelling(h, m);
  }

  // The price validator as written

  /** The two item validators agree on every price of the stated format. */
  lemma ItemAsWrittenAgrees(raw: RawItem)
    requires |raw.price| == 0 || raw.price[0] != '-'
    ensures ValidateItemAsWritten(raw) == ValidateItem(raw)
  {
  }

  /** The stated price format makes the receipt validator stricter than it
      is as written, and only by the negative prices: a receipt it accepts
      is accepted as written and read the same way, and a receipt accepted
      as written whose prices carry no minus sign is accepted by it. */
  lemma ValidateReceiptAgreesAsWritten(raw: RawReceipt)
    ensures ValidateReceipt(raw).Ok? ==> ValidateReceiptAsWritten(raw) == ValidateReceipt(raw)
    ensures ValidateReceiptAsWritten(raw).Ok?
      && (forall i :: 0 <= i < |raw.items| ==> |raw.items[i].price| == 0 || raw.items[i].price[0] != '-')
      ==> ValidateReceipt(raw) == ValidateReceiptAsWritten(raw)
  {
    var corrected := ValidateItems(raw.items, ValidateItem);
    var asWritten := ValidateItems(raw.items, ValidateItemAsWritten);
    if corrected.Ok? || (asWritten.Ok? &&
      forall i :: 0 <= i < |raw.items| ==> |raw.items[i].price| == 0 || raw.items[i].price[0] != '-')
    {
      forall i | 0 <= i < |raw.items|
        ensures ValidateItemAsWritten(raw.items[i]) == ValidateItem(raw.items[i])
      {
        if corrected.Ok? {
          assert IsMoneyText(raw.items[i].price);
          assert raw.items[i].price[0] in "0123456789" by {
            assert raw.items[i].price[0] == WholePart(raw.items[i].price)[0];
          }
        }
        ItemAsWrittenAgrees(raw.items[i]);
      }
      assert corrected.Ok? && asWritten.Ok?;
      assert corrected.value == asWritten.value;
    }
  }

  /** The price validator as written lets every negated money text
      through, as a negative amount, where the stated format rejects it. */
  lemma NegatedPriceAccepted(s: string)
    requires IsMoneyText(s)
    ensures ValidatePriceAsWritten("-" + s) == Ok(0 - ParseCents(s).value as int)
    ensures ValidatePrice("-" + s).Err?
  {
    var t := "-" + s;
    assert t[1..] == s;
    assert !AllDigits(t[..|t| - 3]) by { assert t[..|t| - 3][0] == '-'; }
  }

  /** "100.00" is 10000 cents. */
  lemma HundredParses()
    ensures ParseCents("100.00") == Some(10000)
  {
    assert WholePart("100.00") == "100" && CentsPart("100.00") == "00";
    assert Pad2(0) == "00";
    assert "100"[..2] == "10" && "10"[..1] == "1";
    assert DigitsValue("100") == 100;
  }

  /** In particular "-100.00" passes as -100.00 where the stated format
      rejects it. */
  lemma NegativePriceAccepted()
    ensures ValidatePriceAsWritten("-100.00") == Ok(-10000)
    ensures ValidatePrice("-100.00").Err?
  {
    HundredParses();
    NegatedPriceAccepted("100.00");
    assert "-" + "100.00" == "-100.00";
  }

  /** The other fields of the receipt in `NegativePriceReceiptAccepted`
      pass their validators: the date 2022-01-02, ... */
  lemma NegativePriceReceiptDate()
    ensures ValidatePurchaseDate("2022-01-02") == Ok(Date(2022, 1, 2))
  {
    assert FormatDate(Date(2022, 1, 2)) == "2022-01-02";
    ParseFormatDate(Date(2022, 1, 2));
  }

  /** ... the time 13:00, ... */
  lemma NegativePriceReceiptTime()
    ensures ValidatePurchaseTime("13:00") == Ok(Time(13, 0))
  {
    assert FormatTime(Time(13, 0)) == "13:00";
    ParseFormatTime(Time(13, 0));
  }

  /** ... and the total 0.01. */
  lemma NegativePriceReceiptTotal()
    ensures ValidateTotal("0.01") == Ok(1)
  {
    assert "0.01"[..1] == "0" && "0.01"[2..] == "01";
    assert Pad2(1) == "01" && NatToDigits(0) == "0";
    assert ParseCents("0.01") == Some(1);
  }

  /** A receipt with one item "abc" priced "-100.00", an empty retailer,
      the date 2022-01-02, the time 13:00 and the total 0.01 is accepted
      as written, with a price of -10000 cents, and rejected under the
      stated price format. */
  lemma NegativePriceReceiptAccepted(raw: RawReceipt)
    requires raw == RawReceipt("", "2022-01-02", "13:00", [RawItem("abc", "-100.00")], "0.01")
    ensures ValidateReceiptAsWritten(raw) == Ok(Receipt("", Date(2022, 1, 2), Time(13, 0), [Item("abc", -10000)], 1))
    ensures ValidateReceipt(raw) == Err(InvalidInput)
  {
    NegativePriceAccepted();
    NegativePriceReceiptDate();
    NegativePriceReceiptTime();
    NegativePriceReceiptTotal();
    var items := ValidateItems(raw.items, ValidateItemAsWritten);
    assert items.Ok? && items.value[0] == Item("abc", -10000);
    assert items.value == [Item("abc", -10000)];
  }
}
