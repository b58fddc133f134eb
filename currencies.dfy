/** Exchange rates and the display-currency selection (`DEFAULT_RATE` and
    `onChangeRate` in src/components/app.js). */
module Currencies {
  import opened Wrappers
  import opened JsSemantics

  /** One entry of the CoinCap `rates` list; `kind` is its JSON `type` field
      (`"fiat"` or `"crypto"`). */
  datatype Rate = Rate(id: string, symbol: string, kind: string, rateUsd: Value)

  /** The currency prices are shown in: `rateUsd` is the number 1 for the
      default and the JSON string of the chosen rate otherwise. */
  datatype Currency = Currency(rateUsd: Value, symbol: string)

  /** `DEFAULT_RATE`: US dollars at rate 1. */
  const DefaultRate: Currency := Currency(Num(Finite(1.0)), "USD")

  /** The option value that resets to `DEFAULT_RATE`. */
  const DefaultOption: string := "default"

  /** The test applied to each rate while scanning: a fiat rate with the chosen symbol. */
  predicate Selectable(r: Rate, selected: string) {
    selected == r.symbol && r.kind == "fiat"
  }

  /** The currency `setCurrency` is given for a matching rate. */
  function CurrencyOf(r: Rate): Currency {
    Currency(r.rateUsd, r.symbol)
  }

  /** The currency left by the last `setCurrency` call of the scan, if any: the
      last selectable rate of the list. */
  function LastMatch(rates: seq<Rate>, selected: string): (r: Option<Currency>)
    ensures r.Some? ==> r.value.symbol == selected
  {
    if |rates| == 0 then None
    else if Selectable(rates[|rates| - 1], selected) then Some(CurrencyOf(rates[|rates| - 1]))
    else LastMatch(rates[..|rates| - 1], selected)
  }

  /** The scan finds a match exactly when some rate is selectable, and then it
      is the currency of the last selectable rate. */
  lemma {:induction false} LastMatchSpec(rates: seq<Rate>, selected: string)
    ensures LastMatch(rates, selected).None? <==> (forall i :: 0 <= i < |rates| ==> !Selectable(rates[i], selected))
    ensures LastMatch(rates, selected).Some? ==>
      exists k :: 0 <= k < |rates| && Selectable(rates[k], selected) &&
        LastMatch(rates, selected).value == CurrencyOf(rates[k]) &&
        forall j :: k < j < |rates| ==> !Selectable(rates[j], selected)
  {
    if |rates| > 0 {
      var n := |rates| - 1;
      var init := rates[..n];
      if Selectable(rates[n], selected) {
        assert Selectable(rates[n], selected) && LastMatch(rates, selected).value == CurrencyOf(rates[n]);
      } else {
        LastMatchSpec(init, selected);
        assert forall i :: 0 <= i < n ==> init[i] == rates[i];
        if LastMatch(init, selected).Some? {
          var k :| 0 <= k < n && Selectable(init[k], selected) &&
            LastMatch(init, selected).value == CurrencyOf(init[k]) &&
            forall j :: k < j < n ==> !Selectable(init[j], selected);
          assert Selectable(rates[k], selected);
        }
      }
    }
  }

  /** Extending the scanned prefix by one rate: the match changes exactly when
      the new rate is selectable. */
  lemma LastMatchStep(rates: seq<Rate>, i: nat, selected: string)
    requires i < |rates|
    ensures LastMatch(rates[..i + 1], selected) ==
      if Selectable(rates[i], selected) then Some(CurrencyOf(rates[i])) else LastMatch(rates[..i], selected)
  {
    assert rates[..i + 1][..i] == rates[..i];
  }

  /** `onChangeRate`: the sentinel resets to `DEFAULT_RATE`; otherwise, when the
      rate list is loaded, the last selectable rate wins; with no list or no
      match the currency stays as it was. */
  function SelectCurrency(current: Currency, rates: Option<seq<Rate>>, selected: string): (r: Currency)
    ensures selected == DefaultOption ==> r == DefaultRate
    ensures selected != DefaultOption && rates.None? ==> r == current
    ensures selected != DefaultOption && r != current ==> r.symbol == selected
  {
    if selected == DefaultOption then DefaultRate
    else if rates.None? then current
    else LastMatch(rates.value, selected).GetOr(current)
  }

  /** A selection either keeps the currency, resets it to the default, or
      takes it from a fiat rate with the chosen symbol: a crypto rate is never
      the display currency. */
  lemma NeverCrypto(current: Currency, rates: seq<Rate>, selected: string)
    ensures var r := SelectCurrency(current, Some(rates), selected);
      r == current || r == DefaultRate ||
      exists k :: 0 <= k < |rates| && rates[k].kind == "fiat" && rates[k].symbol == selected && r == CurrencyOf(rates[k])
  {
    LastMatchSpec(rates, selected);
  }

  /** With no selectable rate (for instance, only a crypto rate has the symbol),
      the currency is unchanged. */
  lemma NoMatchKeepsCurrency(current: Currency, rates: seq<Rate>, selected: string)
    requires selected != DefaultOption
    requires forall i :: 0 <= i < |rates| ==> !(rates[i].kind == "fiat" && rates[i].symbol == selected)
    ensures SelectCurrency(current, Some(rates), selected) == current
  {
    LastMatchSpec(rates, selected);
  }

  /** When several fiat rates share the symbol, the last one wins. */
  lemma LastOneWins(current: Currency, rates: seq<Rate>, selected: string, k: nat)
    requires selected != DefaultOption
    requires k < |rates| && Selectable(rates[k], selected)
    requires forall j :: k < j < |rates| ==> !Selectable(rates[j], selected)
    ensures SelectCurrency(current, Some(rates), selected) == CurrencyOf(rates[k])
  {
    LastMatchSpec(rates, selected);
  }

  /** The page's "USD" option sends the symbol `"USD"`, not the sentinel: before
      the rates have loaded, choosing it changes nothing. This is the instance
      of `SelectCurrency`'s no-rates clause for that option. */
  lemma UsdOptionBeforeRatesLoad(current: Currency)
    ensures SelectCurrency(current, None, "USD") == current
  {
  }

  /** A EUR fiat rate is chosen by its symbol, and an ETH crypto rate is not. */
  lemma EuroAndEther(current: Currency)
    ensures var eur := Rate("euro", "EUR", "fiat", Str("0.9", Finite(0.9)));
      var eth := Rate("ethereum", "ETH", "crypto", Str("1800", Finite(1800.0)));
      SelectCurrency(current, Some([eur, eth]), "EUR") == Currency(Str("0.9", Finite(0.9)), "EUR") &&
      SelectCurrency(current, Some([eur, eth]), "ETH") == current
  {
    var eur := Rate("euro", "EUR", "fiat", Str("0.9", Finite(0.9)));
    var eth := Rate("ethereum", "ETH", "crypto", Str("1800", Finite(1800.0)));
    assert [eur, eth][..1] == [eur];
    assert [eur][..0] == [];
    assert !Selectable(eth, "EUR") && !Selectable(eth, "ETH") && !Selectable(eur, "ETH");
    assert LastMatch([eur], "ETH") == None;
  }

  /** The symbols of the fiat rates, in list order: the `<option>`s the rate
      list adds to the currency selector. */
  function FiatSymbols(rates: seq<Rate>): (r: seq<string>)
    ensures |r| <= |rates|
  {
    if |rates| == 0 then []
    else (if rates[0].kind == "fiat" then [rates[0].symbol] else []) + FiatSymbols(rates[1..])
  }

  /** The option values of the currency selector: a fixed "USD" option, then
      one per fiat rate once the rates have loaded. */
  function OptionValues(rates: Option<seq<Rate>>): (r: seq<string>)
    ensures |r| >= 1 && r[0] == "USD"
  {
    ["USD"] + if rates.None? then [] else FiatSymbols(rates.value)
  }

  /** A symbol is offered by the rate list exactly when some fiat rate has it. */
  lemma {:induction false} FiatSymbolsSpec(rates: seq<Rate>, s: string)
    ensures s in FiatSymbols(rates) <==> exists k :: 0 <= k < |rates| && Selectable(rates[k], s)
  {
    if |rates| > 0 {
      FiatSymbolsSpec(rates[1..], s);
      if s in FiatSymbols(rates[1..]) {
        var k :| 0 <= k < |rates| - 1 && Selectable(rates[1..][k], s);
        assert Selectable(rates[k + 1], s);
      }
      if exists k :: 0 <= k < |rates| && Selectable(rates[k], s) {
        var k :| 0 <= k < |rates| && Selectable(rates[k], s);
        if k > 0 {
          assert Selectable(rates[1..][k - 1], s);
        }
      }
    }
  }

  /** Choosing a currency that the rate list offers always selects a fiat rate
      of that symbol (unless a rate is literally named like the sentinel). */
  lemma OfferedSymbolsSelect(current: Currency, rates: seq<Rate>, s: string)
    requires s in OptionValues(Some(rates))[1..] && s != DefaultOption
    ensures var r := SelectCurrency(current, Some(rates), s);
      exists k :: 0 <= k < |rates| && Selectable(rates[k], s) && r == CurrencyOf(rates[k])
  {
    assert OptionValues(Some(rates))[1..] == FiatSymbols(rates);
    FiatSymbolsSpec(rates, s);
    LastMatchSpec(rates, s);
  }

  /** No option of the selector sends the reset sentinel unless a fiat rate
      carries that very symbol. */
  lemma SentinelNotOffered(rates: Option<seq<Rate>>)
    requires rates.Some? ==> forall k :: 0 <= k < |rates.value| ==> !Selectable(rates.value[k], DefaultOption)
    ensures DefaultOption !in OptionValues(rates)
  {
    if rates.Some? {
      FiatSymbolsSpec(rates.value, DefaultOption);
    }
  }
}
