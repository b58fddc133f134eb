/** The `App` component of src/components/app.js as an object: each `useState`
    hook is a field and each `set*` call an assignment to it. */
module Dashboard {
  import opened Wrappers
  import opened Currencies
  import opened Filters
  import opened Listing
  import opened Table

  class App {
    var currency: Currency
    var search: string
    var assets: Option<Envelope<Asset>>
    var rates: Option<Envelope<Rate>>
    var openFilters: bool
    var filters: Filters

    /** The hooks' initial values. */
    constructor ()
      ensures currency == DefaultRate && search == "" && assets == None && rates == None
      ensures !openFilters && filters == DefaultFilters
    {
      currency := DefaultRate;
      search := "";
      assets := None;
      rates := None;
      openFilters := false;
      filters := DefaultFilters;
    }

    /** The array behind `assets.data`, when there is one. */
    function AssetArray(): set<object>
      reads this
    {
      if assets.Some? && assets.value.data.Some? then {assets.value.data.value} else {}
    }

    /** The array behind `rates.data`, when there is one. */
    function RateArray(): set<object>
      reads this
    {
      if rates.Some? && rates.value.data.Some? then {rates.value.data.value} else {}
    }

    /** The asset listing, `None` when `assets` or its `data` is missing. */
    function Listed(): Option<seq<Asset>>
      reads this, AssetArray()
    {
      if assets.Some? && assets.value.data.Some? then Some(assets.value.data.value[..]) else None
    }

    /** The rate list, `None` when `rates` or its `data` is missing. */
    function RateList(): Option<seq<Rate>>
      reads this, RateArray()
    {
      if rates.Some? && rates.value.data.Some? then Some(rates.value.data.value[..]) else None
    }

    /** The continuation of `getAssets()` on mount and in `updateAssets`: only
        a 200 response replaces the listing. */
    method OnAssetsDelivered(d: Delivery<Asset>)
      modifies this`assets
      ensures assets == Accept(old(assets), d)
    {
      if d.Resolved? && d.status == 200 {
        assets := d.body;
      }
    }

    /** The continuation of `getRates()` on mount: only a 200 response replaces the rates. */
    method OnRatesDelivered(d: Delivery<Rate>)
      modifies this`rates
      ensures rates == Accept(old(rates), d)
    {
      if d.Resolved? && d.status == 200 {
        rates := d.body;
      }
    }

    /** `sortRank`: reverses `assets.data` in place and sets an envelope equal
        to the old one. Without a listing `data.reverse()` throws a TypeError,
        reported as `thrown`, and nothing changes. */
    method SortRank() returns (thrown: bool)
      modifies this`assets, AssetArray()
      ensures thrown <==> old(Listed()).None?
      ensures assets == old(assets)
      ensures !thrown ==> Listed() == Some(Reversed(old(Listed()).value))
    {
      if assets.None? || assets.value.data.None? {
        return true;
      }
      var data := assets.value.data.value;
      ReverseInPlace(data);
      assets := Some(assets.value.(data := Some(data)));
      thrown := false;
    }

    /** `onFiltering(key)` fired with the checkbox's `checked` value. */
    method OnFiltering(key: FilterKey, checked: bool)
      modifies this`filters
      ensures filters == Set(old(filters), key, checked)
    {
      filters := Set(filters, key, checked);
    }

    /** `onChangeRate` with the selected option's value: the sentinel resets to
        the default; otherwise every fiat rate with that symbol is set in turn,
        so the last one stays. */
    method OnChangeRate(selected: string)
      modifies this`currency
      ensures currency == SelectCurrency(old(currency), old(RateList()), selected)
    {
      if selected == DefaultOption {
        currency := DefaultRate;
        return;
      }
      if rates.Some? && rates.value.data.Some? {
        var data := rates.value.data.value;
        var i := 0;
        while i < data.Length
          invariant 0 <= i <= data.Length
          invariant currency == LastMatch(data[..i], selected).GetOr(old(currency))
        {
          var rate := data[i];
          LastMatchStep(data[..], i, selected);
          assert data[..][..i + 1] == data[..i + 1] && data[..][..i] == data[..i];
          if selected == rate.symbol && rate.kind == "fiat" {
            currency := Currency(rate.rateUsd, rate.symbol);
          }
          i := i + 1;
        }
        assert data[..data.Length] == data[..];
      }
    }

    /** The search input's `onChange`. */
    method OnSearchInput(text: string)
      modifies this`search
      ensures search == text
    {
      search := text;
    }

    /** The filter button: opens or closes the filter panel. */
    method ToggleFilterPanel()
      modifies this`openFilters
      ensures openFilters == !old(openFilters)
    {
      openFilters := !openFilters;
    }

    /** The rendered table body: one row per listed asset (none without a
        listing), each with exactly the header's columns. */
    function BodyRows(): (r: seq<seq<Cell>>)
      reads this, AssetArray()
      ensures |r| == |Listed().GetOr([])|
      ensures forall i :: 0 <= i < |r| ==> r[i] == Row(Listed().GetOr([])[i], filters, currency)
      ensures forall i :: 0 <= i < |r| ==> Columns(r[i]) == Header(filters)
    {
      Rows(Listed().GetOr([]), filters, currency)
    }
  }
}
