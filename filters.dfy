/** The five column switches of the dashboard (`filters` and `onFiltering`
    in src/components/app.js). */
module Filters {

  /** The keys of the `filters` object. */
  datatype FilterKey = Changes | MarketCap | SupplyPercent | SupplyNormal | Volumes

  /** The `filters` object: one independent boolean per key. */
  datatype Filters = Filters(changes: bool, marketCap: bool, supplyPercent: bool, supplyNormal: bool, volumes: bool)

  /** The initial switches: changes, market cap and supply percent on; supply
      number and volumes off. */
  const DefaultFilters: Filters := Filters(true, true, true, false, false)

  /** `filters[key]`. */
  function Get(f: Filters, key: FilterKey): bool {
    match key
    case Changes => f.changes
    case MarketCap => f.marketCap
    case SupplyPercent => f.supplyPercent
    case SupplyNormal => f.supplyNormal
    case Volumes => f.volumes
  }

  /** `{...filters, [key]: value}`: the key takes the value and every other key
      keeps its own. */
  function Set(f: Filters, key: FilterKey, value: bool): (r: Filters)
    ensures Get(r, key) == value
    ensures forall k :: k != key ==> Get(r, k) == Get(f, k)
  {
    match key
    case Changes => f.(changes := value)
    case MarketCap => f.(marketCap := value)
    case SupplyPercent => f.(supplyPercent := value)
    case SupplyNormal => f.(supplyNormal := value)
    case Volumes => f.(volumes := value)
  }

  /** Two filter objects that agree on every key are the same. */
  lemma Extensionality(f: Filters, g: Filters)
    requires forall k :: Get(f, k) == Get(g, k)
    ensures f == g
  {
    assert Get(f, Changes) == Get(g, Changes);
    assert Get(f, MarketCap) == Get(g, MarketCap);
    assert Get(f, SupplyPercent) == Get(g, SupplyPercent);
    assert Get(f, SupplyNormal) == Get(g, SupplyNormal);
    assert Get(f, Volumes) == Get(g, Volumes);
  }

  /** Which switches start on. */
  lemma DefaultsOn(key: FilterKey)
    ensures Get(DefaultFilters, key) <==> key == Changes || key == MarketCap || key == SupplyPercent
  {
  }

  /** Setting a key to its current value changes nothing. */
  lemma SetSame(f: Filters, key: FilterKey)
    ensures Set(f, key, Get(f, key)) == f
  {
    Extensionality(Set(f, key, Get(f, key)), f);
  }

  /** A later toggle of the same key overrides an earlier one. */
  lemma SetTwice(f: Filters, key: FilterKey, a: bool, b: bool)
    ensures Set(Set(f, key, a), key, b) == Set(f, key, b)
  {
    Extensionality(Set(Set(f, key, a), key, b), Set(f, key, b));
  }

  /** Toggles of different keys are independent of their order. */
  lemma SetCommutes(f: Filters, j: FilterKey, k: FilterKey, a: bool, b: bool)
    requires j != k
    ensures Set(Set(f, j, a), k, b) == Set(Set(f, k, b), j, a)
  {
    Extensionality(Set(Set(f, j, a), k, b), Set(Set(f, k, b), j, a));
  }

  function Count(b: bool): nat {
    if b then 1 else 0
  }

  /** The number of switches that are on. */
  function EnabledCount(f: Filters): (n: nat)
    ensures n <= 5
  {
    Count(f.changes) + Count(f.marketCap) + Count(f.supplyNormal) + Count(f.supplyPercent) + Count(f.volumes)
  }
}
