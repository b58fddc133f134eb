/** The cell formatters of src/components/app.js: `formatPrice` (currency
    conversion and precision tier), `formatSupply` and `formatChanges`.
    Display strings are kept as data: `toLocaleString` and template strings
    are not modelled, only the rounded numbers and the branch taken. */
module Formatting {
  import opened Wrappers
  import opened JsSemantics
  import opened Currencies

  /** `amount.toLocaleString('en-US', {style: 'currency', currency, maximumSignificantDigits: 8})`. */
  datatype PriceText = PriceText(amount: Number, currency: string)

  /** The four shapes `formatSupply` returns. */
  datatype SupplyText =
    | Fraction(supply: Number, max: Option<Number>)  // `${round(supply)}/${round(max)}`, `None` printing as ∞
    | Unbounded                                       // '∞'
    | Percent(total: Number)                          // `${total}%`
    | Full                                            // '100%'

  /** The `className` of a change cell. */
  datatype Polarity = Green | Red

  /** `<span className={polarity}><strong>{`${percent}%`}</strong></span>`. */
  datatype ChangeText = ChangeText(percent: Number, polarity: Polarity)

  /** `parseFloat(val) * (1/currency.rateUsd)`: a USD amount in the display
      currency. An unparseable amount stays NaN, and only a finite USD amount
      can convert to a finite price. */
  function ConvertedPrice(val: Value, currency: Currency): (r: Number)
    ensures ParseFloat(val) == NaN ==> r == NaN
    ensures IsFinite(r) ==> IsFinite(ParseFloat(val))
  {
    Mul(ParseFloat(val), Div(Finite(1.0), ToNumber(currency.rateUsd)))
  }

  /** The decimals kept for a converted price: 2 above 1, 4 strictly between
      0.0005 and 1, 8 for everything else (exactly 1, at most 0.0005, NaN). */
  function PriceDigits(price: Number): (d: nat)
    ensures d == 2 || d == 4 || d == 8
  {
    if GreaterThan(price, 1.0) then 2
    else if LessThan(price, 1.0) && GreaterThan(price, 0.0005) then 4
    else 8
  }

  /** `formatPrice(val)` under the selected currency. */
  function FormatPrice(val: Value, currency: Currency): (r: PriceText)
    ensures r.currency == currency.symbol
    ensures IsFinite(r.amount) <==> IsFinite(ConvertedPrice(val, currency))
  {
    var price := ConvertedPrice(val, currency);
    PriceText(Round(price, PriceDigits(price)), currency.symbol)
  }

  /** The precision tiers: above 1 the price keeps 2 decimals, strictly
      between 0.0005 and 1 it keeps 4, and at exactly 1 or at most 0.0005 it
      keeps 8; the kept amount lies on the tier's decimal grid. A non-finite
      price (NaN, an infinity) is passed on unchanged. */
  lemma PriceTiers(val: Value, currency: Currency, x: real)
    requires ConvertedPrice(val, currency) == Finite(x)
    ensures x > 1.0 ==> FormatPrice(val, currency).amount == Finite(RoundReal(x, 2))
    ensures 0.0005 < x < 1.0 ==> FormatPrice(val, currency).amount == Finite(RoundReal(x, 4))
    ensures x == 1.0 || x <= 0.0005 ==> FormatPrice(val, currency).amount == Finite(RoundReal(x, 8))
    ensures var d := PriceDigits(Finite(x));
      FormatPrice(val, currency).amount.v * Scale(d) == Shifted(x, d) as real
  {
    RoundOnGrid(x, PriceDigits(Finite(x)));
  }

  /** A price that is not a finite number is handed to the display unrounded. */
  lemma NonFinitePriceUnchanged(val: Value, currency: Currency)
    requires !IsFinite(ConvertedPrice(val, currency))
    ensures FormatPrice(val, currency).amount == ConvertedPrice(val, currency)
  {
  }

  /** Under a finite non-zero rate, the converted price is the USD value divided by the rate. */
  lemma ConvertedPriceQuotient(val: Value, currency: Currency, usd: real, rate: real)
    requires ParseFloat(val) == Finite(usd)
    requires ToNumber(currency.rateUsd) == Finite(rate) && rate != 0.0
    ensures ConvertedPrice(val, currency) == Finite(usd / rate)
  {
    assert usd * (1.0 / rate) == usd / rate;
  }

  /** Under `DEFAULT_RATE` the price is the parsed USD value itself. */
  lemma DefaultCurrencyKeepsUsd(val: Value)
    ensures ConvertedPrice(val, DefaultRate) == ParseFloat(val)
  {
    MulOne(ParseFloat(val));
  }

  /** Every finite price is rounded to within half a cent of its value
      before it is handed to `toLocaleString`. */
  lemma PriceAbsoluteError(val: Value, currency: Currency, x: real)
    requires ConvertedPrice(val, currency) == Finite(x)
    ensures FormatPrice(val, currency).amount.Finite?
    ensures var y := FormatPrice(val, currency).amount.v; x - 0.005 < y <= x + 0.005
  {
    var d := PriceDigits(Finite(x));
    RoundErrorBound(x, d);
    assert Scale(2) == 100.0 && Scale(4) == 10000.0 && Scale(8) == 100000000.0;
  }

  /** Above 0.0005 the tiering keeps the rounded amount within a tenth of the
      price: no price in that range is rounded to zero or doubled. */
  lemma PriceRelativeError(val: Value, currency: Currency, x: real)
    requires ConvertedPrice(val, currency) == Finite(x) && x > 0.0005
    ensures FormatPrice(val, currency).amount.Finite?
    ensures var y := FormatPrice(val, currency).amount.v; x - x / 10.0 < y < x + x / 10.0
  {
    var d := PriceDigits(Finite(x));
    assert Scale(2) == 100.0 && Scale(4) == 10000.0;
    if x == 1.0 {
      RoundInteger(1, d);
    } else {
      assert d == 2 || d == 4;
      RoundErrorBound(x, d);
    }
  }

  /** A non-negative finite price is rounded to zero exactly when it is below
      half of the eighth decimal. */
  lemma PriceShownAsZeroIff(val: Value, currency: Currency, x: real)
    requires ConvertedPrice(val, currency) == Finite(x) && x >= 0.0
    ensures FormatPrice(val, currency).amount == Finite(0.0) <==> x < 0.000000005
  {
    var d := PriceDigits(Finite(x));
    assert Scale(2) == 100.0 && Scale(4) == 10000.0 && Scale(8) == 100000000.0;
    RoundPositiveIff(x, d);
    RoundAtLeast(x, d, 0);
  }

  /** A price of exactly 1 takes the 8-decimal tier, yet it is rounded to 1,
      the same number the 2- and 4-decimal tiers give. */
  lemma PriceOfOne(val: Value, currency: Currency)
    requires ConvertedPrice(val, currency) == Finite(1.0)
    ensures PriceDigits(Finite(1.0)) == 8
    ensures FormatPrice(val, currency).amount == Finite(1.0) == Round(Finite(1.0), 4) == Round(Finite(1.0), 2)
  {
    RoundInteger(1, 8);
    RoundInteger(1, 4);
    RoundInteger(1, 2);
  }

  /** A zero rate turns a positive price into +Infinity (2-decimal tier), a
      zero price into NaN; an unparseable price is NaN under any rate. */
  lemma PriceAtZeroRateOrNaN(val: Value, currency: Currency)
    ensures ToNumber(currency.rateUsd) == Finite(0.0) && GreaterThan(ParseFloat(val), 0.0) ==>
      FormatPrice(val, currency).amount == Infinity(false)
    ensures ToNumber(currency.rateUsd) == Finite(0.0) && ParseFloat(val) == Finite(0.0) ==>
      FormatPrice(val, currency).amount == NaN
    ensures ParseFloat(val) == NaN ==> FormatPrice(val, currency).amount == NaN
  {
  }

  /** `formatSupply(supply, max, percent)`; `max` is the raw `maxSupply`
      (a missing one defaults to `null`, which is just as falsy). */
  function FormatSupply(supply: Value, max: Value, percent: bool): (r: SupplyText)
    ensures !percent ==> r.Fraction?
    ensures percent ==> !r.Fraction?
  {
    if !percent then
      Fraction(Round(ToNumber(supply), 0), if Truthy(max) then Some(Round(ToNumber(max), 0)) else None)
    else if !Truthy(max) then Unbounded
    else
      var total := Round(Mul(Div(ToNumber(supply), ToNumber(max)), Finite(100.0)), 2);
      if IsFinite(total) then Percent(total) else Full
  }

  /** The plain form is the rounded supply over the rounded max, with ∞ exactly
      when the max is falsy. */
  lemma SupplyFraction(supply: Value, max: Value)
    ensures var r := FormatSupply(supply, max, false);
      r.Fraction? && r.supply == Round(ToNumber(supply), 0) &&
      (r.max.None? <==> !Truthy(max)) &&
      (r.max.Some? ==> r.max.value == Round(ToNumber(max), 0))
  {
  }

  /** The percent form: ∞ exactly for a falsy max; otherwise "100%" exactly when
      supply/max is not a finite number, and a finite total in every other case. */
  lemma SupplyPercentCases(supply: Value, max: Value)
    ensures var r := FormatSupply(supply, max, true);
      (r == Unbounded <==> !Truthy(max)) &&
      (r == Full <==> Truthy(max) && !IsFinite(Div(ToNumber(supply), ToNumber(max)))) &&
      (r.Percent? ==> IsFinite(r.total))
  {
    if Truthy(max) {
      MulFinite(Div(ToNumber(supply), ToNumber(max)), Finite(100.0));
    }
  }

  /** With a truthy finite non-zero max and a finite supply, the percent form is
      the ratio times 100 rounded to 2 decimals. */
  lemma SupplyPercentOfFinite(supply: Value, max: Value, s: real, m: real)
    requires Truthy(max) && ToNumber(supply) == Finite(s) && ToNumber(max) == Finite(m) && m != 0.0
    ensures FormatSupply(supply, max, true) == Percent(Finite(RoundReal(s / m * 100.0, 2)))
  {
  }

  /** A supply between 0 and a positive max is shown as a percentage from 0 to 100. */
  lemma SupplyPercentBounded(supply: Value, max: Value, s: real, m: real)
    requires Truthy(max) && ToNumber(supply) == Finite(s) && ToNumber(max) == Finite(m)
    requires 0.0 <= s <= m && m > 0.0
    ensures FormatSupply(supply, max, true).Percent?
    ensures var t := FormatSupply(supply, max, true).total; t.Finite? && 0.0 <= t.v <= 100.0
  {
    var q := s / m * 100.0;
    assert s / m <= 1.0 by {
      DivideOrder(s, m, m);
    }
    assert 0.0 <= q <= 100.0;
    RoundAtLeast(q, 2, 0);
    RoundAtMost(q, 2, 100);
  }

  /** A numeric zero max is falsy and shows ∞; the string "0" is truthy, its
      ratio is infinite, and it shows the "100%" fallback. */
  lemma SupplyZeroMax(supply: Value)
    ensures FormatSupply(supply, Num(Finite(0.0)), true) == Unbounded
    ensures FormatSupply(supply, Str("0", Finite(0.0)), true) == Full
  {
  }

  /** Bitcoin-like examples: 21000000 with no max, and 19000000 of 21000000. */
  lemma SupplyExamples()
    ensures FormatSupply(Num(Finite(21000000.0)), Null, false) == Fraction(Finite(21000000.0), None)
    ensures FormatSupply(Num(Finite(19000000.0)), Num(Finite(21000000.0)), true) == Percent(Finite(90.48))
  {
    RoundInteger(21000000, 0);
    var q := 19000000.0 / 21000000.0 * 100.0;
    assert Shifted(q, 2) == 9048 by {
      assert Scale(2) == 100.0;
      assert 9048.0 <= q * 100.0 + 0.5 < 9049.0;
    }
  }

  /** `formatChanges(val)`: the 24-hour change rounded to 2 decimals, green when
      that rounded value is above zero. */
  function FormatChanges(val: Value): (r: ChangeText)
    ensures r.percent == Round(ToNumber(val), 2)
  {
    var percent := Round(ToNumber(val), 2);
    ChangeText(percent, if GreaterThan(percent, 0.0) then Green else Red)
  }

  /** A change is green exactly when it is +Infinity or at least 0.005: zero,
      negative, NaN and changes that round to zero are red. */
  lemma ChangesGreenIff(val: Value)
    ensures FormatChanges(val).polarity == Green <==>
      ToNumber(val) == Infinity(false) || (ToNumber(val).Finite? && ToNumber(val).v >= 0.005)
  {
    if ToNumber(val).Finite? {
      RoundPositiveIff(ToNumber(val).v, 2);
      assert Scale(2) == 100.0;
    }
  }

  /** A change of exactly zero is red. */
  lemma ZeroChangeIsRed(val: Value)
    requires ToNumber(val) == Finite(0.0)
    ensures FormatChanges(val).polarity == Red
  {
    ChangesGreenIff(val);
  }
}
