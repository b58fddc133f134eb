# Koin Cek dashboard: a Dafny model of the `App` component

Koin Cek is a browser dashboard. It lists CoinCap assets in a table. The user can switch the display currency, turn optional columns on and off, and reverse the list order. This project models the view state and the formatting logic of its `App` component (`src/components/app.js`):

- **State.** The `useState` hooks become fields of the class `Dashboard.App`. The event handlers become methods that assign those fields:
  - `onChangeRate` scans the rate list in a loop;
  - `onFiltering` sets one column switch;
  - `sortRank` reverses the asset array in place;
  - the continuations of `getAssets`/`getRates` replace the held value only on status 200.
- **Formatters.** `formatPrice`, `formatSupply` and `formatChanges` are pure functions. They compute over a model of JavaScript numbers (`JsSemantics.Number`: finite reals, ±Infinity and NaN) and of JSON field values (`JsSemantics.Value`: null, undefined, numbers, decimal strings), together with truthiness and coercion. Because of this, a zero rate (`1/0`), unparseable fields and the `'100%'` fallback are modelled as the code behaves, with no precondition needed.
- **Rounding.** lodash `round` is modelled exactly as half-up rounding at the requested decimals.
- **Display.** Display strings are data that record the rounded numbers and the branch taken: `PriceText`, `SupplyText` and `ChangeText`.
- **Table.** The table is a header of columns plus one row of cells per asset. It is proved that every row has exactly the header's columns.

Modules: `Wrappers` (Option), `JsSemantics`, `Currencies`, `Formatting`, `Filters`, `Listing`, `Table`, `Dashboard`.

Behaviours of the code that are easy to misread, and which the model keeps as written:

- A converted price of exactly 1 takes the 8-decimal tier, because neither `price > 1` nor the strict `price < 1` holds (src/components/app.js:47-51). `Formatting.PriceOfOne` shows that the rounded number is still 1.
- When several fiat rates share the chosen symbol, the last one wins, not the first: the loop calls `setCurrency` for every match (src/components/app.js:98-106).
- `formatSupply(100, 0, true)` with a numeric 0 gives `'∞'`, because numeric 0 is falsy (src/components/app.js:74-75). The `'100%'` fallback happens for a truthy max whose ratio is not finite, such as the JSON string `"0"` (src/components/app.js:76-78).
- The selector's "USD" option sends `'USD'`, not the `'default'` sentinel (src/components/app.js:137). So choosing it goes through the rate scan.

## Model

| member | source | states |
|---|---|---|
| `Currencies.LastMatch` | src/components/app.js:98-109 | a match found by the scan carries the chosen symbol |
| `Currencies.LastMatchSpec` | src/components/app.js:98-109 | the scan finds nothing iff no rate is fiat with that symbol; otherwise its currency is that of a selectable rate with no selectable rate after it |
| `Currencies.SelectCurrency` | src/components/app.js:91-110 | the `'default'` sentinel resets to `DEFAULT_RATE`; with the rates not loaded any other choice keeps the currency; apart from the reset, a changed currency carries the chosen symbol |
| `Currencies.NeverCrypto` | src/components/app.js:98-106 | the result is the old currency, `DEFAULT_RATE`, or the `{rateUsd, symbol}` of a fiat rate with the chosen symbol, never a crypto rate |
| `Currencies.NoMatchKeepsCurrency` | src/components/app.js:98-110 | with no fiat rate of that symbol the currency is unchanged |
| `Currencies.LastOneWins` | src/components/app.js:98-106 | among several matching fiat rates the last one is the one kept |
| `Currencies.UsdOptionBeforeRatesLoad` | src/components/app.js:94-98 | before rates load, choosing the "USD" option (value `'USD'`) leaves the currency unchanged |
| `Currencies.EuroAndEther` | src/components/app.js:91-110 | EUR (fiat) is selected with its rate and symbol, ETH (crypto) changes nothing |
| `Currencies.OptionValues` | src/components/app.js:136-140 | the selector always starts with the "USD" option |
| `Currencies.FiatSymbols` | src/components/app.js:138-140 | the rate list adds at most one option per rate |
| `Currencies.FiatSymbolsSpec` | src/components/app.js:138-140 | the rate list offers a symbol iff some fiat rate has it |
| `Currencies.OfferedSymbolsSelect` | src/components/app.js:136-140 | choosing any offered fiat symbol selects a fiat rate of that symbol |
| `Currencies.SentinelNotOffered` | src/components/app.js:136-140 | when no fiat rate has the symbol `'default'`, no option sends it |
| `JsSemantics.Round` | src/components/app.js:45-50 | lodash `round` keeps finite numbers finite and non-finite ones non-finite |
| `JsSemantics.RoundErrorBound` | src/components/app.js:45-50 | the rounded value lies within half a unit of the last kept decimal |
| `JsSemantics.RoundPositiveIff` | src/components/app.js:82-84 | a rounded value is positive iff the input is at least half a unit of the last decimal |
| `JsSemantics.RoundOnGrid` | src/components/app.js:45-50 | the rounded value times `10^digits` is the integer `Math.round` gave: it has at most `digits` decimals |
| `JsSemantics.RoundInteger` | src/components/app.js:45-50 | rounding an integer gives it back at every precision |
| `JsSemantics.RoundAtLeast` | src/components/app.js:76 | rounding never falls below an integer lower bound of the input |
| `JsSemantics.RoundAtMost` | src/components/app.js:76 | rounding never exceeds an integer upper bound of the input |
| `Formatting.PriceDigits` | src/components/app.js:45-51 | the tier is 2, 4 or 8 decimals |
| `Formatting.ConvertedPrice` | src/components/app.js:44 | an unparseable amount converts to NaN, and a finite converted price comes from a finite USD amount |
| `Formatting.FormatPrice` | src/components/app.js:43-58 | the price is tagged with the currency's symbol and is finite iff the converted price is |
| `Formatting.PriceTiers` | src/components/app.js:45-51 | above 1 the amount is rounded to 2 decimals, strictly between 0.0005 and 1 to 4, at exactly 1 or at most 0.0005 to 8; the amount lies on that tier's decimal grid |
| `Formatting.NonFinitePriceUnchanged` | src/components/app.js:44-51 | a NaN or infinite converted price reaches `toLocaleString` unrounded |
| `Formatting.ConvertedPriceQuotient` | src/components/app.js:44 | under a finite non-zero rate the converted price is the USD value divided by the rate |
| `Formatting.DefaultCurrencyKeepsUsd` | src/components/app.js:6-9 | under `DEFAULT_RATE` the converted price is the parsed USD value |
| `Formatting.PriceAbsoluteError` | src/components/app.js:44-51 | every finite price is rounded to within 0.005 of its value before `toLocaleString` formats it |
| `Formatting.PriceRelativeError` | src/components/app.js:44-51 | every price above 0.0005 is rounded to within a tenth of its value |
| `Formatting.PriceShownAsZeroIff` | src/components/app.js:44-51 | a non-negative price is rounded to 0 iff it is below 0.000000005 |
| `Formatting.PriceOfOne` | src/components/app.js:47-51 | a price of exactly 1 takes the 8-decimal tier and is rounded to 1, the same number the 4- and 2-decimal tiers give |
| `Formatting.PriceAtZeroRateOrNaN` | src/components/app.js:44-51 | a zero rate gives +Infinity for a positive price and NaN for a zero price; an unparseable price gives NaN |
| `Formatting.FormatSupply` | src/components/app.js:69-79 | plain mode always gives the `supply/max` form, percent mode never does |
| `Formatting.SupplyFraction` | src/components/app.js:70-72 | plain mode shows the rounded supply over the rounded max, with ∞ iff max is falsy |
| `Formatting.SupplyPercentCases` | src/components/app.js:74-78 | percent mode: `'∞'` iff max is falsy; `'100%'` iff max is truthy and supply/max is not finite; any other total is finite |
| `Formatting.SupplyPercentOfFinite` | src/components/app.js:76-78 | with a finite non-zero truthy max the total is `round(supply/max*100, 2)` |
| `Formatting.SupplyPercentBounded` | src/components/app.js:76-78 | a supply from 0 to a positive max shows a percentage from 0 to 100 |
| `Formatting.SupplyZeroMax` | src/components/app.js:74-78 | for every supply, numeric 0 as max gives `'∞'` and the string `"0"` gives the `'100%'` fallback |
| `Formatting.SupplyExamples` | src/components/app.js:69-79 | 21000000 with no max shows `21000000/∞`; 19000000 of 21000000 shows 90.48% |
| `Formatting.FormatChanges` | src/components/app.js:81-85 | the shown percent is the change rounded to 2 decimals |
| `Formatting.ChangesGreenIff` | src/components/app.js:82-84 | green iff the change is +Infinity or at least 0.005; zero, negative and NaN changes are red |
| `Formatting.ZeroChangeIsRed` | src/components/app.js:84 | a zero change is red |
| `Filters.Set` | src/components/app.js:88 | the toggled key takes the checkbox value and every other key keeps its own |
| `Filters.DefaultsOn` | src/components/app.js:17-23 | exactly changes, marketCap and supplyPercent start on |
| `Filters.SetSame` | src/components/app.js:88 | setting a key to its current value changes nothing |
| `Filters.SetTwice` | src/components/app.js:88 | a later toggle of a key overrides an earlier one |
| `Filters.SetCommutes` | src/components/app.js:88 | toggles of different keys commute |
| `Listing.Accept` | src/components/app.js:27-30 | a status-200 delivery replaces the value with its body; any other status or a rejection keeps the prior value |
| `Listing.FailedLoadKeepsSnapshot` | src/components/app.js:116-121 | a failed load after a successful one keeps the successful body |
| `Listing.Reversed` | src/components/app.js:65 | same length, element i is element n-1-i of the input |
| `Listing.ReversedTwice` | src/components/app.js:60-67 | reversing twice restores the original order |
| `Listing.ReversedPermutes` | src/components/app.js:65 | reversal preserves the multiset of assets |
| `Listing.ReverseInPlace` | src/components/app.js:65 | `Array.reverse`: the array afterwards holds the reverse of its old contents |
| `Table.Header` | src/components/app.js:182-192 | the header has 4 plus the number of enabled switches columns, beginning with Rank, Name, Symbol, Price |
| `Table.HeaderShowsIff` | src/components/app.js:187-191 | a column is in the header iff it is fixed or its switch is on |
| `Table.Row` | src/components/app.js:196-206 | a row has one cell per header column, starting with the rank and ending the fixed part with the formatted price |
| `Table.RowMatchesHeader` | src/components/app.js:196-206 | every row's cells are in exactly the header's columns, in the same order |
| `Table.Rows` | src/components/app.js:195-207 | row i renders asset i, and each row has the header's columns and 4 plus the number of enabled switches cells |
| `Table.RowsOfReversed` | src/components/app.js:195-207 | rendering the reversed listing gives the same rows in reverse order |
| `Table.AllColumns` | src/components/app.js:187-191 | with every switch on, the columns are Rank, Name, Symbol, Price, Changes, Market Cap, Supply, Supply %, Volumes, in that order |
| `Table.FullRow` | src/components/app.js:196-206 | with every switch on, the row is the rank, name, symbol and price, the change, the market cap, the plain and percent supply, and the 24-hour volume, each from its own field |
| `Table.DefaultColumns` | src/components/app.js:17-23 | under the initial switches the columns are Rank, Name, Symbol, Price, Changes, Market Cap, Supply % |
| `Dashboard.App.constructor` | src/components/app.js:12-23 | the hooks start at `DEFAULT_RATE`, an empty search, no assets, no rates, closed panel, default switches |
| `Dashboard.App.OnAssetsDelivered` | src/components/app.js:25-32 | the listing becomes the delivered body only on status 200 |
| `Dashboard.App.OnRatesDelivered` | src/components/app.js:34-40 | the rates become the delivered body only on status 200 |
| `Dashboard.App.SortRank` | src/components/app.js:60-67 | it throws iff there is no listing; otherwise the listing is reversed in place and the envelope's other fields are kept |
| `Dashboard.App.OnFiltering` | src/components/app.js:87-89 | the switches become the old ones with only the toggled key set |
| `Dashboard.App.OnChangeRate` | src/components/app.js:91-110 | the loop leaves the currency that `SelectCurrency` gives for the old currency and the loaded rates |
| `Dashboard.App.OnSearchInput` | src/components/app.js:129 | the search text becomes the input's value |
| `Dashboard.App.ToggleFilterPanel` | src/components/app.js:131 | the filter panel flips between open and closed |
| `Dashboard.App.BodyRows` | src/components/app.js:194-207 | row i renders listed asset i (no rows without a listing), each with the header's columns |

## Left out

- HTTP transport and sending the requests: `getAssets()`, `getAssets({search})` in `updateAssets`, and `getRates()`. src/components/app.js:2 imports `getAssets` and `getRates` from `../data/axios`, but src/data/axios.js exports only the callback-style `fetchAssets` and `fetchRates`; the promise-returning functions app.js calls are not part of this model. The model takes the settled promise as an input `Listing.Delivery`, whose shape (`result.status`, `result.data`) follows how app.js reads the result (src/components/app.js:27-30). The `console.error` logging on rejection is not modelled.
- React rendering, JSX and the hook lifecycle. Each `set*` call takes effect at once. Batching and the stale `filters` closure in `onFiltering` are not modelled.
- Overlapping fetches that complete out of order. This is a concurrency concern, and the model is sequential.
- Floating-point arithmetic. Numbers are exact reals, and signed zero is not distinguished. lodash `round` works on the decimal exponent string. Binary representation errors such as `round(1.005, 2)` are therefore not reproduced.
- `toLocaleString`: the currency format, the 8-significant-digit limit, and the `RangeError` it throws when the symbol is not a well-formed three-letter currency code. The template-string printing of numbers and CSS classes are not modelled either. Display values are kept as data.
- Parsing of decimal strings. A string carries the number it denotes. `parseFloat` and `Number` are told apart only on the empty string, not on malformed text such as `"12abc"`.
- Fields that are missing from a rate, or that are not strings. A rate's `symbol` and `type` are always strings in the model.
- `Formatting.FormatPrice`: the tier test is stated over the model's numbers, with no floating-point rounding of `parseFloat(val) * (1/rateUsd)`.
- `src/components/scroll-top.js`, `src/components/search-bar.js` and `src/index.js` are not part of this model. They are DOM widgets and bootstrap code with no domain logic.
