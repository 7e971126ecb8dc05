/**
 * The points scorer.  Each of the seven rules is a function of the parsed
 * receipt; `Points` is their sum, and `ComputePoints` accumulates the same
 * sum step by step, item by item, as the scorer does.
 */
module Scorer {
  import opened Wrappers
  import opened Text
  import opened Money
  import opened Calendar
  import opened Receipts

  /** The number of ASCII letters and digits in a text. */
  function CountAlnum(s: string): (n: nat)
    ensures n <= |s|
  {
    if s == [] then 0
    else (if IsAlnum(s[0]) then 1 else 0) + CountAlnum(s[1..])
  }

  /** Rule 1: one point per alphanumeric character of the retailer name. */
  function RetailerPoints(retailer: string): nat
  {
    CountAlnum(retailer)
  }

  /** Rule 2: 50 points when the total is a whole number of dollars. */
  function RoundDollarPoints(totalCents: int): nat
  {
    if totalCents % 100 == 0 then 50 else 0
  }

  /** Rule 3: 25 points when the total is a multiple of 0.25. */
  function QuarterPoints(totalCents: int): nat
  {
    if totalCents % 25 == 0 then 25 else 0
  }

  /** Rule 4: 5 points for every two items. */
  function ItemPairPoints(count: nat): nat
  {
    (count / 2) * 5
  }

  /** Rule 5 for one item: when the stripped description's length is a
      multiple of 3, the price times 0.2 rounded up. */
  function ItemDescriptionPoints(item: Item): int
  {
    if |Strip(item.shortDescription)| % 3 == 0 then CeilFifthOfPrice(item.priceCents) else 0
  }

  /** Rule 5 over a list of items: each item rounded up on its own, then
      summed. */
  function DescriptionPoints(items: seq<Item>): int
  {
    if items == [] then 0
    else DescriptionPoints(items[..|items| - 1]) + ItemDescriptionPoints(items[|items| - 1])
  }

  /** Rule 6: 6 points when the day of the month is odd. */
  function OddDayPoints(date: Date): nat
  {
    if date.day % 2 == 1 then 6 else 0
  }

  /** Rule 7: 10 points when the time is after 14:00 and before 16:00. */
  function AfternoonPoints(time: Time): nat
  {
    if (time.hour > 14 || (time.hour == 14 && time.minute > 0)) && time.hour < 16 then 10 else 0
  }

  /** The score: the sum of the seven rules. */
  function Points(r: Receipt): int
  {
    RetailerPoints(r.retailer)
    + RoundDollarPoints(r.totalCents)
    + QuarterPoints(r.totalCents)
    + ItemPairPoints(|r.items|)
    + DescriptionPoints(r.items)
    + OddDayPoints(r.purchaseDate)
    + AfternoonPoints(r.purchaseTime)
  }

  /** `compute_points`: accumulates the seven rules into one running total,
      the fifth rule one item at a time. */
  method ComputePoints(r: Receipt) returns (total: int)
    ensures total == Points(r)
  {
    total := 0;
    total := total + RetailerPoints(r.retailer);
    if r.totalCents % 100 == 0 {
      total := total + 50;
    }
    if r.totalCents % 25 == 0 {
      total := total + 25;
    }
    total := total + (|r.items| / 2) * 5;
    var i := 0;
    while i < |r.items|
      invariant 0 <= i <= |r.items|
      invariant total == RetailerPoints(r.retailer) + RoundDollarPoints(r.totalCents)
        + QuarterPoints(r.totalCents) + ItemPairPoints(|r.items|) + DescriptionPoints(r.items[..i])
    {
      var item := r.items[i];
      var desc := Strip(item.shortDescription);
      if |desc| % 3 == 0 {
        total := total + CeilFifthOfPrice(item.priceCents);
      }
      assert r.items[..i + 1][..i] == r.items[..i];
      i := i + 1;
    }
    assert r.items[..i] == r.items;
    if r.purchaseDate.day % 2 == 1 {
      total := total + 6;
    }
    var hour, minute := r.purchaseTime.hour, r.purchaseTime.minute;
    if (hour > 14 || (hour == 14 && minute > 0)) && hour < 16 {
      total := total + 10;
    }
  }

  // Rule 1

  /** Counting distributes over concatenation. */
  lemma {:induction false} CountAlnumAppend(a: string, b: string)
    ensures CountAlnum(a + b) == CountAlnum(a) + CountAlnum(b)
  {
    if a == [] {
      assert a + b == b;
    } else {
      assert (a + b)[0] == a[0];
      assert (a + b)[1..] == a[1..] + b;
      CountAlnumAppend(a[1..], b);
    }
  }

  /** A retailer name scores nothing exactly when it holds no letter or
      digit (only spaces and punctuation, say). */
  lemma {:induction false} RetailerPointsZero(s: string)
    ensures RetailerPoints(s) == 0 <==> forall i :: 0 <= i < |s| ==> !IsAlnum(s[i])
  {
    if s != [] {
      RetailerPointsZero(s[1..]);
      assert forall i :: 1 <= i < |s| ==> s[i] == s[1..][i - 1];
    }
  }

  /** A retailer name scores its full length exactly when every character
      is a letter or digit. */
  lemma {:induction false} RetailerPointsFull(s: string)
    ensures RetailerPoints(s) == |s| <==> forall i :: 0 <= i < |s| ==> IsAlnum(s[i])
  {
    if s != [] {
      RetailerPointsFull(s[1..]);
      assert forall i :: 1 <= i < |s| ==> s[i] == s[1..][i - 1];
    }
  }

  // Rules 2 and 3

  /** A whole-dollar total is also a multiple of 0.25. */
  lemma RoundDollarIsQuarter(totalCents: int)
    requires RoundDollarPoints(totalCents) == 50
    ensures QuarterPoints(totalCents) == 25
  {
  }

  /** Rules 2 and 3 together, by the total's cents: .00 earns 75, .25, .50
      and .75 earn 25, anything else earns nothing. */
  lemma TotalRules(totalCents: nat)
    ensures var cents := totalCents % 100;
      RoundDollarPoints(totalCents) + QuarterPoints(totalCents)
      == if cents == 0 then 75 else if cents in {25, 50, 75} then 25 else 0
  {
  }

  // Rule 4

  /** Each further pair of items adds 5; one to five items earn 0, 5, 5,
      10, 10. */
  lemma ItemPairSteps(count: nat)
    ensures ItemPairPoints(count + 2) == ItemPairPoints(count) + 5
    ensures ItemPairPoints(count + 1) >= ItemPairPoints(count)
    ensures ItemPairPoints(1) == 0 && ItemPairPoints(2) == 5 && ItemPairPoints(3) == 5
    ensures ItemPairPoints(4) == 10 && ItemPairPoints(5) == 10
  {
  }

  // Rule 5

  /** The rule sums over the items: a list split in two scores the sum of
      its halves. */
  lemma {:induction false} DescriptionPointsAppend(a: seq<Item>, b: seq<Item>)
    ensures DescriptionPoints(a + b) == DescriptionPoints(a) + DescriptionPoints(b)
  {
    if b == [] {
      assert a + b == a;
    } else {
      var ab, b' := a + b, b[..|b| - 1];
      assert ab[..|ab| - 1] == a + b';
      assert ab[|ab| - 1] == b[|b| - 1];
      DescriptionPointsAppend(a, b');
      calc {
        DescriptionPoints(ab);
        DescriptionPoints(a + b') + ItemDescriptionPoints(b[|b| - 1]);
        DescriptionPoints(a) + DescriptionPoints(b') + ItemDescriptionPoints(b[|b| - 1]);
        DescriptionPoints(a) + DescriptionPoints(b);
      }
    }
  }

  /** Only items whose stripped description length is a multiple of 3
      contribute, each with the least whole number of points at least a
      fifth of its price in dollars. */
  lemma ItemDescriptionPointsSpec(item: Item)
    ensures |Strip(item.shortDescription)| % 3 != 0 ==> ItemDescriptionPoints(item) == 0
    ensures |Strip(item.shortDescription)| % 3 == 0 ==>
      var p := ItemDescriptionPoints(item);
      500 * (p - 1) < item.priceCents <= 500 * p
  {
  }

  /** With non-negative prices the rule never subtracts points. */
  lemma {:induction false} DescriptionPointsNonNegative(items: seq<Item>)
    requires forall i :: 0 <= i < |items| ==> items[i].priceCents >= 0
    ensures DescriptionPoints(items) >= 0
  {
    if items != [] {
      DescriptionPointsNonNegative(items[..|items| - 1]);
      CeilFifthOfPriceSign(items[|items| - 1].priceCents);
    }
  }

  // Rule 6

  lemma OddDayRule(date: Date)
    ensures OddDayPoints(date) == 6 <==> date.day % 2 == 1
    ensures OddDayPoints(date) == 0 <==> date.day % 2 == 0
  {
  }

  // Rule 7

  /** Minutes since midnight. */
  function MinuteOfDay(time: Time): int
  {
    60 * time.hour + time.minute
  }

  /** The afternoon rule holds exactly for the minutes strictly between
      14:00 and 16:00, that is 14:01 through 15:59. */
  lemma AfternoonWindow(time: Time)
    requires ValidTime(time)
    ensures AfternoonPoints(time) == 10 <==> 14 * 60 < MinuteOfDay(time) < 16 * 60
    ensures AfternoonPoints(time) == 0 <==> !(14 * 60 < MinuteOfDay(time) < 16 * 60)
  {
  }

  /** Both ends of the window are excluded. */
  lemma AfternoonBoundaries()
    ensures AfternoonPoints(Time(14, 0)) == 0
    ensures AfternoonPoints(Time(14, 1)) == 10
    ensures AfternoonPoints(Time(15, 59)) == 10
    ensures AfternoonPoints(Time(16, 0)) == 0
  {
  }

  // The whole score

  /** A validated receipt scores at least the points of rules 1-4, 6 and
      7, and never a negative number. */
  lemma PointsNonNegative(r: Receipt)
    requires WellFormed(r)
    ensures Points(r) >= RetailerPoints(r.retailer) + ItemPairPoints(|r.items|)
    ensures Points(r) >= 0
  {
    DescriptionPointsNonNegative(r.items);
  }

  // Worked receipts

  /** Rule 5 on a list of items is the sum over its items, here spelled
      out for five. */
  lemma DescriptionPointsOfFive(a: Item, b: Item, c: Item, d: Item, e: Item)
    ensures DescriptionPoints([a, b, c, d, e])
      == ItemDescriptionPoints(a) + ItemDescriptionPoints(b) + ItemDescriptionPoints(c)
       + ItemDescriptionPoints(d) + ItemDescriptionPoints(e)
  {
    assert DescriptionPoints([a]) == ItemDescriptionPoints(a) by { assert [a][..0] == []; }
    assert DescriptionPoints([a, b]) == DescriptionPoints([a]) + ItemDescriptionPoints(b)
      by { assert [a, b][..1] == [a]; }
    assert DescriptionPoints([a, b, c]) == DescriptionPoints([a, b]) + ItemDescriptionPoints(c)
      by { assert [a, b, c][..2] == [a, b]; }
    assert DescriptionPoints([a, b, c, d]) == DescriptionPoints([a, b, c]) + ItemDescriptionPoints(d)
      by { assert [a, b, c, d][..3] == [a, b, c]; }
    assert DescriptionPoints([a, b, c, d, e]) == DescriptionPoints([a, b, c, d]) + ItemDescriptionPoints(e)
      by { assert [a, b, c, d, e][..4] == [a, b, c, d]; }
  }

  /** Four identical items earn four times what one earns under rule 5. */
  lemma DescriptionPointsOfFour(g: Item)
    ensures DescriptionPoints([g, g, g, g]) == 4 * ItemDescriptionPoints(g)
  {
    DescriptionPointsOfFive(g, g, g, g, g);
    assert [g, g, g, g, g][..4] == [g, g, g, g];
  }

  /** The stripped lengths of the Target descriptions: only "Emils Cheese
      Pizza" and the padded "Klarbrunn 12-PK 12 FL OZ" are multiples of 3. */
  lemma TargetDescriptionLengths()
    ensures |Strip("Mountain Dew 12PK")| == 17
    ensures |Strip("Emils Cheese Pizza")| == 18
    ensures |Strip("Knorr Creamy Chicken")| == 20
    ensures |Strip("Doritos Nacho Cheese")| == 20
  {
  }

  /** Leading and trailing blanks do not count toward the length. */
  lemma KlarbrunnLength()
    ensures |Strip("   Klarbrunn 12-PK 12 FL OZ  ")| == 24
  {
    StripPadded("   ", "Klarbrunn 12-PK 12 FL OZ", "  ");
    assert "   " + "Klarbrunn 12-PK 12 FL OZ" + "  " == "   Klarbrunn 12-PK 12 FL OZ  ";
  }

  /** The items of the Target receipt earn 6 under rule 5: 3 for "Emils
      Cheese Pizza" at 12.25 and 3 for the Klarbrunn pack at 12.00. */
  lemma TargetItems()
    ensures DescriptionPoints(
      [Item("Mountain Dew 12PK", 649), Item("Emils Cheese Pizza", 1225),
       Item("Knorr Creamy Chicken", 126), Item("Doritos Nacho Cheese", 335),
       Item("   Klarbrunn 12-PK 12 FL OZ  ", 1200)]) == 6
    ensures |Strip("   Klarbrunn 12-PK 12 FL OZ  ")| == 24
  {
    TargetDescriptionLengths();
    KlarbrunnLength();
    assert CeilFifthOfPrice(1225) == 3 && CeilFifthOfPrice(1200) == 3;
    DescriptionPointsOfFive(
      Item("Mountain Dew 12PK", 649), Item("Emils Cheese Pizza", 1225),
      Item("Knorr Creamy Chicken", 126), Item("Doritos Nacho Cheese", 335),
      Item("   Klarbrunn 12-PK 12 FL OZ  ", 1200));
  }

  /** "Target" has six letters. */
  lemma TargetName()
    ensures RetailerPoints("Target") == 6
  {
  }

  /** The other rules on the Target receipt: 6 for the name, nothing for
      a total of 35.35, 10 for five items, 6 for the odd day, nothing
      for 13:01. */
  lemma TargetRules(r: Receipt)
    requires r.retailer == "Target" && r.purchaseDate == Date(2022, 1, 1)
    requires r.purchaseTime == Time(13, 1) && r.totalCents == 3535
    requires |r.items| == 5
    ensures Points(r) == 22 + DescriptionPoints(r.items)
  {
    TargetName();
  }

  /** Target, 2022-01-01 at 13:01, five items, total 35.35: 28 points. */
  lemma TargetReceipt(r: Receipt)
    requires r.retailer == "Target" && r.purchaseDate == Date(2022, 1, 1)
    requires r.purchaseTime == Time(13, 1) && r.totalCents == 3535
    requires r.items ==
      [Item("Mountain Dew 12PK", 649), Item("Emils Cheese Pizza", 1225),
       Item("Knorr Creamy Chicken", 126), Item("Doritos Nacho Cheese", 335),
       Item("   Klarbrunn 12-PK 12 FL OZ  ", 1200)]
    ensures Points(r) == 28
  {
    TargetItems();
    TargetRules(r);
  }

  /** "M&M Corner Market" has 14 letters: the ampersand and the spaces
      count nothing. */
  lemma CornerMarketName(name: string)
    requires name == "M&M Corner Market"
    ensures RetailerPoints(name) == 14
  {
    assert name == "M&M" + " Corner" + " Market";
    MAndMWord();
    CornerWord();
    MarketWord();
    CountAlnumAppend("M&M", " Corner");
    CountAlnumAppend("M&M" + " Corner", " Market");
  }

  /** The words of "M&M Corner Market", the ones after the first each
      with its leading blank: "M&M" has two letters, ... */
  lemma MAndMWord()
    ensures CountAlnum("M&M") == 2
  {
  }

  /** ... " Corner" six, ... */
  lemma CornerWord()
    ensures CountAlnum(" Corner") == 6
  {
  }

  /** ... and " Market" six. */
  lemma MarketWord()
    ensures CountAlnum(" Market") == 6
  {
  }

  /** Four Gatorades at 2.25 earn nothing under rule 5: "Gatorade" has 8
      characters. */
  lemma CornerMarketItems(items: seq<Item>)
    requires items ==
      [Item("Gatorade", 225), Item("Gatorade", 225), Item("Gatorade", 225), Item("Gatorade", 225)]
    ensures DescriptionPoints(items) == 0
  {
    var g := items[0];
    assert items == [g, g, g, g];
    assert |Strip("Gatorade")| == 8;
    DescriptionPointsOfFour(g);
  }

  /** The other rules on the M&M Corner Market receipt: 14 for the name,
      50 and 25 for a total of 9.00, 10 for four items, nothing for the
      even day, 10 for 14:33. */
  lemma CornerMarketRules(r: Receipt)
    requires RetailerPoints(r.retailer) == 14 && r.purchaseDate == Date(2022, 3, 20)
    requires r.purchaseTime == Time(14, 33) && r.totalCents == 900
    requires |r.items| == 4
    ensures Points(r) == 109 + DescriptionPoints(r.items)
  {
  }

  /** M&M Corner Market, 2022-03-20 at 14:33, four items, total 9.00: 109
      points. */
  lemma CornerMarketReceipt(r: Receipt)
    requires r.retailer == "M&M Corner Market" && r.purchaseDate == Date(2022, 3, 20)
    requires r.purchaseTime == Time(14, 33) && r.totalCents == 900
    requires r.items ==
      [Item("Gatorade", 225), Item("Gatorade", 225), Item("Gatorade", 225), Item("Gatorade", 225)]
    ensures Points(r) == 109
  {
    CornerMarketName(r.retailer);
    CornerMarketItems(r.items);
    CornerMarketRules(r);
  }

  // The price validator as written

  /** The receipt of `NegativePriceReceiptAccepted`, accepted as written,
      scores below zero: rule 5 adds ceil(-100.00 * 0.2) = -20 for the
      three-letter item, and every other rule gives nothing. */
  lemma NegativePriceScoresNegative(raw: RawReceipt)
    requires raw == RawReceipt("", "2022-01-02", "13:00", [RawItem("abc", "-100.00")], "0.01")
    ensures ValidateReceiptAsWritten(raw).Ok?
    ensures Points(ValidateReceiptAsWritten(raw).value) == -20
  {
    NegativePriceReceiptAccepted(raw);
    NegativePricePoints(ValidateReceiptAsWritten(raw).value);
  }

  /** The score of that receipt once read. */
  lemma NegativePricePoints(r: Receipt)
    requires r == Receipt("", Date(2022, 1, 2), Time(13, 0), [Item("abc", -10000)], 1)
    ensures DescriptionPoints(r.items) == -20
    ensures Points(r) == -20
  {
    assert DescriptionPoints(r.items) == -20 by {
      assert r.items[..0] == [];
    }
  }
}
