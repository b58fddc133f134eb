/** The asset table of src/components/app.js: a header of column titles and
    one row of cells per asset, the optional columns switched by the filters. */
module Table {
  import opened Wrappers
  import opened JsSemantics
  import opened Currencies
  import opened Formatting
  import opened Filters
  import opened Listing

  /** The table's columns, in the order the page lays them out. */
  datatype Column =
    | RankColumn | NameColumn | SymbolColumn | PriceColumn
    | ChangesColumn | MarketCapColumn | SupplyColumn | SupplyPercentColumn | VolumesColumn

  /** One `<td>` of a row and what it shows. */
  datatype Cell =
    | RankCell(rank: string)                      // `#${asset.rank}`
    | NameCell(name: string, explorer: Value)     // a link to the explorer
    | SymbolCell(symbol: string)
    | PriceCell(price: PriceText)
    | ChangesCell(change: ChangeText)
    | MarketCapCell(cap: PriceText)
    | SupplyCell(supply: SupplyText)
    | SupplyPercentCell(percent: SupplyText)
    | VolumesCell(volume: PriceText)

  /** The column a cell belongs to. */
  function ColumnOf(c: Cell): Column {
    match c
    case RankCell(_) => RankColumn
    case NameCell(_, _) => NameColumn
    case SymbolCell(_) => SymbolColumn
    case PriceCell(_) => PriceColumn
    case ChangesCell(_) => ChangesColumn
    case MarketCapCell(_) => MarketCapColumn
    case SupplyCell(_) => SupplyColumn
    case SupplyPercentCell(_) => SupplyPercentColumn
    case VolumesCell(_) => VolumesColumn
  }

  /** The switch that controls a column; the first four have none. */
  function SwitchOf(c: Column): Option<FilterKey> {
    match c
    case ChangesColumn => Some(Changes)
    case MarketCapColumn => Some(MarketCap)
    case SupplyColumn => Some(SupplyNormal)
    case SupplyPercentColumn => Some(SupplyPercent)
    case VolumesColumn => Some(Volumes)
    case _ => None
  }

  /** A column is shown when it has no switch or its switch is on. */
  predicate Shown(f: Filters, c: Column) {
    SwitchOf(c).None? || Get(f, SwitchOf(c).value)
  }

  /** The columns that are always there. */
  const Fixed: seq<Column> := [RankColumn, NameColumn, SymbolColumn, PriceColumn]

  /** `{cond && <x/>}`: the element when the condition holds, nothing otherwise. */
  function When<T>(cond: bool, x: T): seq<T> {
    if cond then [x] else []
  }

  /** The header row's columns. */
  function Header(f: Filters): (r: seq<Column>)
    ensures |r| == |Fixed| + EnabledCount(f)
    ensures r[..|Fixed|] == Fixed
  {
    Fixed
      + When(f.changes, ChangesColumn)
      + When(f.marketCap, MarketCapColumn)
      + When(f.supplyNormal, SupplyColumn)
      + When(f.supplyPercent, SupplyPercentColumn)
      + When(f.volumes, VolumesColumn)
  }

  /** The cells of one asset's row. */
  function Row(a: Asset, f: Filters, currency: Currency): (r: seq<Cell>)
    ensures |r| == |Fixed| + EnabledCount(f)
    ensures r[0] == RankCell(a.rank) && r[3] == PriceCell(FormatPrice(a.priceUsd, currency))
  {
    [RankCell(a.rank), NameCell(a.name, a.explorer), SymbolCell(a.symbol), PriceCell(FormatPrice(a.priceUsd, currency))]
      + When(f.changes, ChangesCell(FormatChanges(a.changePercent24Hr)))
      + When(f.marketCap, MarketCapCell(FormatPrice(a.marketCapUsd, currency)))
      + When(f.supplyNormal, SupplyCell(FormatSupply(a.supply, a.maxSupply, false)))
      + When(f.supplyPercent, SupplyPercentCell(FormatSupply(a.supply, a.maxSupply, true)))
      + When(f.volumes, VolumesCell(FormatPrice(a.volumeUsd24Hr, currency)))
  }

  /** The column of each cell. */
  function Columns(cells: seq<Cell>): (r: seq<Column>)
    ensures |r| == |cells|
  {
    seq(|cells|, i requires 0 <= i < |cells| => ColumnOf(cells[i]))
  }

  lemma InWhen<T>(xs: seq<T>, cond: bool, y: T, x: T)
    ensures x in xs + When(cond, y) <==> x in xs || (cond && x == y)
  {
  }

  /** A column is in the header exactly when it is shown. */
  lemma HeaderShowsIff(f: Filters, c: Column)
    ensures c in Header(f) <==> Shown(f, c)
  {
    var h1 := Fixed + When(f.changes, ChangesColumn);
    var h2 := h1 + When(f.marketCap, MarketCapColumn);
    var h3 := h2 + When(f.supplyNormal, SupplyColumn);
    var h4 := h3 + When(f.supplyPercent, SupplyPercentColumn);
    assert Header(f) == h4 + When(f.volumes, VolumesColumn);
    InWhen(Fixed, f.changes, ChangesColumn, c);
    InWhen(h1, f.marketCap, MarketCapColumn, c);
    InWhen(h2, f.supplyNormal, SupplyColumn, c);
    InWhen(h3, f.supplyPercent, SupplyPercentColumn, c);
    InWhen(h4, f.volumes, VolumesColumn, c);
    assert c in Fixed <==> SwitchOf(c).None?;
  }

  lemma ColumnsConcat(x: seq<Cell>, y: seq<Cell>)
    ensures Columns(x + y) == Columns(x) + Columns(y)
  {
    assert forall i :: 0 <= i < |x| + |y| ==> Columns(x + y)[i] == (Columns(x) + Columns(y))[i];
  }

  lemma ColumnsWhen(cond: bool, c: Cell)
    ensures Columns(When(cond, c)) == When(cond, ColumnOf(c))
  {
  }

  /** Any row laid out like the header, from cells of the right columns, has
      the header's columns. */
  lemma LayoutMatchesHeader(fixed: seq<Cell>, c1: Cell, c2: Cell, c3: Cell, c4: Cell, c5: Cell, f: Filters)
    requires Columns(fixed) == Fixed
    requires ColumnOf(c1) == ChangesColumn && ColumnOf(c2) == MarketCapColumn && ColumnOf(c3) == SupplyColumn
    requires ColumnOf(c4) == SupplyPercentColumn && ColumnOf(c5) == VolumesColumn
    ensures Columns(fixed + When(f.changes, c1) + When(f.marketCap, c2) + When(f.supplyNormal, c3)
      + When(f.supplyPercent, c4) + When(f.volumes, c5)) == Header(f)
  {
    var p1 := fixed + When(f.changes, c1);
    var p2 := p1 + When(f.marketCap, c2);
    var p3 := p2 + When(f.supplyNormal, c3);
    var p4 := p3 + When(f.supplyPercent, c4);
    ColumnsConcat(fixed, When(f.changes, c1));
    ColumnsConcat(p1, When(f.marketCap, c2));
    ColumnsConcat(p2, When(f.supplyNormal, c3));
    ColumnsConcat(p3, When(f.supplyPercent, c4));
    ColumnsConcat(p4, When(f.volumes, c5));
    ColumnsWhen(f.changes, c1);
    ColumnsWhen(f.marketCap, c2);
    ColumnsWhen(f.supplyNormal, c3);
    ColumnsWhen(f.supplyPercent, c4);
    ColumnsWhen(f.volumes, c5);
  }

  /** Every row has the header's columns, in the header's order. */
  lemma RowMatchesHeader(a: Asset, f: Filters, currency: Currency)
    ensures Columns(Row(a, f, currency)) == Header(f)
  {
    var fixed := [RankCell(a.rank), NameCell(a.name, a.explorer), SymbolCell(a.symbol), PriceCell(FormatPrice(a.priceUsd, currency))];
    assert Columns(fixed) == Fixed;
    LayoutMatchesHeader(fixed,
      ChangesCell(FormatChanges(a.changePercent24Hr)),
      MarketCapCell(FormatPrice(a.marketCapUsd, currency)),
      SupplyCell(FormatSupply(a.supply, a.maxSupply, false)),
      SupplyPercentCell(FormatSupply(a.supply, a.maxSupply, true)),
      VolumesCell(FormatPrice(a.volumeUsd24Hr, currency)), f);
  }

  /** The table body: one row per asset, in the listing's order. */
  function Rows(assets: seq<Asset>, f: Filters, currency: Currency): (r: seq<seq<Cell>>)
    ensures |r| == |assets|
    ensures forall i :: 0 <= i < |r| ==> r[i] == Row(assets[i], f, currency)
    ensures forall i :: 0 <= i < |r| ==> Columns(r[i]) == Header(f) && |r[i]| == 4 + EnabledCount(f)
  {
    if |assets| == 0 then []
    else
      RowMatchesHeader(assets[0], f, currency);
      [Row(assets[0], f, currency)] + Rows(assets[1..], f, currency)
  }

  /** Rendering a reversed listing gives the same rows in reverse order: this
      is how `sortRank` shows on the page. */
  lemma RowsOfReversed(assets: seq<Asset>, f: Filters, currency: Currency)
    ensures Rows(Reversed(assets), f, currency) == Reversed(Rows(assets, f, currency))
  {
  }

  const AllOn: Filters := Filters(true, true, true, true, true)

  /** With every switch on, the optional columns follow the fixed ones in the
      page's order. */
  lemma AllColumns()
    ensures Header(AllOn) == Fixed + [ChangesColumn, MarketCapColumn, SupplyColumn, SupplyPercentColumn, VolumesColumn]
  {
  }

  /** With every switch on, each cell shows its own field of the asset. */
  lemma FullRow(a: Asset, currency: Currency)
    ensures Row(a, AllOn, currency) == [
      RankCell(a.rank), NameCell(a.name, a.explorer), SymbolCell(a.symbol),
      PriceCell(FormatPrice(a.priceUsd, currency)),
      ChangesCell(FormatChanges(a.changePercent24Hr)),
      MarketCapCell(FormatPrice(a.marketCapUsd, currency)),
      SupplyCell(FormatSupply(a.supply, a.maxSupply, false)),
      SupplyPercentCell(FormatSupply(a.supply, a.maxSupply, true)),
      VolumesCell(FormatPrice(a.volumeUsd24Hr, currency))]
  {
  }

  /** Under the initial switches the table has seven columns: the four fixed
      ones, changes, market cap and supply percent. */
  lemma DefaultColumns()
    ensures Header(DefaultFilters) == Fixed + [ChangesColumn, MarketCapColumn, SupplyPercentColumn]
  {
  }
}
