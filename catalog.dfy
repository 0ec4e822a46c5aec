/** The reference catalogs (`reference/stock_basic.csv`, `fund_basic.csv`,
    `index_basic.csv`) and the screens `get_stock_list`, `get_fund_list` and
    `get_index_list` apply to them. */
module Catalog {
  import opened Wrappers
  import opened Text
  import opened Calendar
  import opened Settings

  /** One catalog row. `None` is a missing (NaN) cell; `Some(s)` holds the cell's
      text as `astype(str)` renders it. */
  datatype Instrument = Instrument(
    code: string,
    name: Option<string>,
    listDate: Option<string>,
    delistDate: Option<string>,
    market: Option<string>,
    exchange: Option<string>,
    fundType: Option<string>,
    management: Option<string>,
    category: Option<string>,
    expDate: Option<string>)

  /** A catalog file: which optional columns it has, its rows, and whether
      `read_csv` typed its `list_date` column float64, as it does for a numeric
      column with an empty cell. The present cells of such a column render as the
      date followed by '.0'. */
  datatype CatalogFile = CatalogFile(columns: set<string>, rows: seq<Instrument>, listDateFloat: bool)

  /** The three reference files; `None` is a file that does not exist. */
  datatype References = References(
    stocks: Option<CatalogFile>,
    funds: Option<CatalogFile>,
    indices: Option<CatalogFile>)

  /** `a` keeps some of the elements of `b`, in their order. */
  predicate IsSubseq<T(==)>(a: seq<T>, b: seq<T>)
    decreases |b|
  {
    if a == [] then true
    else if b == [] then false
    else (a[0] == b[0] && IsSubseq(a[1..], b[1..])) || IsSubseq(a, b[1..])
  }

  lemma {:induction false} IsSubseqTrans<T>(a: seq<T>, b: seq<T>, c: seq<T>)
    requires IsSubseq(a, b) && IsSubseq(b, c)
    ensures IsSubseq(a, c)
    decreases |c|
  {
    if a != [] && b != [] {
      if IsSubseq(b, c[1..]) {
        IsSubseqTrans(a, b, c[1..]);
      } else if a[0] == b[0] && IsSubseq(a[1..], b[1..]) {
        IsSubseqTrans(a[1..], b[1..], c[1..]);
      } else {
        IsSubseqTrans(a, b[1..], c[1..]);
      }
    }
  }

  lemma {:induction false} IsSubseqMembers<T>(a: seq<T>, b: seq<T>)
    requires IsSubseq(a, b)
    ensures forall x :: x in a ==> x in b
    ensures |a| <= |b|
    decreases |b|
  {
    if a != [] {
      if a[0] == b[0] && IsSubseq(a[1..], b[1..]) {
        IsSubseqMembers(a[1..], b[1..]);
        assert forall x :: x in a ==> x == a[0] || x in a[1..];
      } else {
        IsSubseqMembers(a, b[1..]);
      }
    }
  }

  lemma {:induction false} IsSubseqRefl<T>(a: seq<T>)
    ensures IsSubseq(a, a)
  {
    if a != [] {
      IsSubseqRefl(a[1..]);
    }
  }

  /** `df.head(n)`: the first n rows; a negative n drops the last |n| rows. */
  function Head(rows: seq<Instrument>, n: int): (r: seq<Instrument>)
    ensures n >= 0 ==> r == rows[..if n <= |rows| then n else |rows|]
    ensures n < 0 ==> r == rows[..if |rows| + n >= 0 then |rows| + n else 0]
  {
    if n >= 0 then rows[..if n <= |rows| then n else |rows|]
    else rows[..if |rows| + n >= 0 then |rows| + n else 0]
  }

  lemma {:induction false} PrefixIsSubseq<T>(rows: seq<T>, k: nat)
    requires k <= |rows|
    ensures IsSubseq(rows[..k], rows)
  {
    if k > 0 {
      PrefixIsSubseq(rows[1..], k - 1);
      assert rows[..k][1..] == rows[1..][..k - 1];
    }
  }

  /** `r` is what `if limits: rows.head(limits)` leaves: a prefix of `rows`; all of
      it without a limit or with 0; the first min(n, |rows|) rows for n > 0; and for
      n < 0 all but the last |n| rows. */
  ghost predicate IsHead(r: seq<Instrument>, rows: seq<Instrument>, limits: Option<int>) {
    |r| <= |rows| && r == rows[..|r|] &&
    (limits.None? || limits == Some(0) ==> r == rows) &&
    (limits.Some? && limits.value > 0 ==>
      |r| == (if limits.value <= |rows| then limits.value else |rows|)) &&
    (limits.Some? && limits.value < 0 ==>
      |r| == (if |rows| + limits.value >= 0 then |rows| + limits.value else 0))
  }

  /** `if limits: df = df.head(limits)`: a missing or zero limit keeps every row. */
  function Limit(rows: seq<Instrument>, limits: Option<int>): (r: seq<Instrument>)
    ensures IsSubseq(r, rows)
    ensures IsHead(r, rows, limits)
    ensures limits.None? || limits == Some(0) ==> r == rows
    ensures limits.Some? && limits.value > 0 ==>
      |r| == (if limits.value <= |rows| then limits.value else |rows|) && r == rows[..|r|]
  {
    if limits.Some? && limits.value != 0 then
      var r := Head(rows, limits.value);
      PrefixIsSubseq(rows, |r|);
      r
    else
      IsSubseqRefl(rows);
      rows
  }

  /** `isin(values)` on a cell: a missing cell is never in the list. */
  predicate CellIn(cell: Option<string>, values: seq<string>) {
    cell.Some? && cell.value in values
  }

  /** A missing cell or the empty string. */
  predicate Blank(cell: Option<string>) {
    cell.None? || cell == Some("")
  }

  /** `astype(str)`: a missing cell renders as 'nan'. */
  function CellText(cell: Option<string>): string {
    if cell.Some? then cell.value else "nan"
  }

  /** How `astype(str)` renders the `list_date` value `d` in a float column, and in
      any other column. */
  function ListDateText(d: string, isFloat: bool): string {
    if isFloat then d + ".0" else d
  }

  /** The listing date as an integer's text: `str(int(x))` of a float cell and
      `astype(int).astype(str)` drop the '.0' a float column renders; other text is
      kept. */
  function ListDateInt(cell: string, isFloat: bool): (r: string)
    ensures forall d :: cell == ListDateText(d, isFloat) ==> r == d
    ensures !isFloat ==> r == cell
  {
    if isFloat && |cell| >= 2 && cell[|cell| - 2..] == ".0" then
      assert forall d :: cell == d + ".0" ==> cell[..|cell| - 2] == d;
      cell[..|cell| - 2]
    else cell
  }

  /** A setting Python treats as true: present and non-empty. */
  predicate Truthy(s: Option<string>) {
    s.Some? && s.value != ""
  }

  predicate NonEmptyList(s: Option<seq<string>>) {
    s.Some? && s.value != []
  }

  /** One row-preserving screen `df[mask]` of the catalog code. */
  datatype Screen =
    | ExchangeIn(exchanges: seq<string>)
    | MarketIn(markets: seq<string>)
    | MarketIs(market: string)
    | ListTextAtMost(bound: string)
    | ListDatePresentAtMost(bound: string, isFloat: bool)
    | ListedBy(min: Date)
    | DelistBlankOrFrom(bound: string)
    | NotDelisted
    | NoExpiry
    | ExpiryBlankOrFrom(bound: string)
    | NameLacks(part: string)
    | NameHasIgnoreCase(part: string)
    | CodeStartsWithOneOf(prefixes: set<char>)
    | ManagementIn(companies: seq<string>)
    | FundTypeIn(types: seq<string>)
    | CategoryIn(categories: seq<string>)

  /** Whether a row passes a screen. */
  predicate Passes(s: Screen, r: Instrument) {
    match s
    case ExchangeIn(values) => CellIn(r.exchange, values)
    case MarketIn(values) => CellIn(r.market, values)
    case MarketIs(m) => r.market == Some(m)
    case ListTextAtMost(bound) => StrLe(CellText(r.listDate), bound)
    case ListDatePresentAtMost(bound, isFloat) =>
      r.listDate.Some? && StrLe(ListDateInt(r.listDate.value, isFloat), bound)
    case ListedBy(min) =>
      r.listDate.Some? && ParseYmd(r.listDate.value).Some? && Ymd(ParseYmd(r.listDate.value).value) <= Ymd(min)
    case DelistBlankOrFrom(bound) => Blank(r.delistDate) || StrLe(bound, CellText(r.delistDate))
    case NotDelisted => Blank(r.delistDate)
    case NoExpiry => Blank(r.expDate)
    case ExpiryBlankOrFrom(bound) => Blank(r.expDate) || StrLe(bound, CellText(r.expDate))
    case NameLacks(part) => !(r.name.Some? && Contains(r.name.value, part))
    case NameHasIgnoreCase(part) => r.name.Some? && ContainsIgnoreCase(r.name.value, part)
    case CodeStartsWithOneOf(prefixes) => |r.code| > 0 && r.code[0] in prefixes
    case ManagementIn(values) => CellIn(r.management, values)
    case FundTypeIn(values) => CellIn(r.fundType, values)
    case CategoryIn(values) => CellIn(r.category, values)
  }

  function Filter(rows: seq<Instrument>, s: Screen): (r: seq<Instrument>)
    ensures forall x :: x in r <==> x in rows && Passes(s, x)
    ensures IsSubseq(r, rows)
  {
    if rows == [] then []
    else
      var rest := Filter(rows[1..], s);
      if Passes(s, rows[0]) then [rows[0]] + rest
      else
        assert rest != [] ==> IsSubseq(rest, rows[1..]);
        rest
  }

  /** A chain of screens applied in order. */
  function Screened(rows: seq<Instrument>, chain: seq<Screen>): seq<Instrument>
    decreases |chain|
  {
    if chain == [] then rows else Screened(Filter(rows, chain[0]), chain[1..])
  }

  /** A chain of screens keeps catalog rows in their order, and keeps exactly the rows
      that pass every screen. */
  lemma {:induction false} ScreenedSpec(rows: seq<Instrument>, chain: seq<Screen>)
    ensures IsSubseq(Screened(rows, chain), rows)
    ensures forall x :: x in Screened(rows, chain) <==>
      x in rows && forall s :: s in chain ==> Passes(s, x)
    decreases |chain|
  {
    if chain == [] {
      IsSubseqRefl(rows);
    } else {
      var f := Filter(rows, chain[0]);
      ScreenedSpec(f, chain[1..]);
      IsSubseqTrans(Screened(f, chain[1..]), f, rows);
      assert forall s :: s in chain <==> s == chain[0] || s in chain[1..];
    }
  }

  /** Screens then limit: the shape of every catalog query. */
  lemma ScreenedLimitSpec(rows: seq<Instrument>, chain: seq<Screen>, limits: Option<int>)
    ensures var r := Limit(Screened(rows, chain), limits);
      IsSubseq(r, rows) &&
      (forall x :: x in r ==> x in rows && forall s :: s in chain ==> Passes(s, x)) &&
      (limits.Some? && limits.value > 0 ==> |r| <= limits.value) &&
      (limits.None? || limits == Some(0) ==>
        forall x :: x in rows && (forall s :: s in chain ==> Passes(s, x)) ==> x in r) &&
      var sc := Screened(rows, chain);
      IsSubseq(sc, rows) &&
      (forall x :: x in sc <==> x in rows && forall s :: s in chain ==> Passes(s, x)) &&
      IsHead(r, sc, limits)
  {
    var sc := Screened(rows, chain);
    ScreenedSpec(rows, chain);
    IsSubseqTrans(Limit(sc, limits), sc, rows);
    IsSubseqMembers(Limit(sc, limits), sc);
  }

  // ---------------------------------------------------------------- stocks

  /** The custom-mode screens of `get_stock_list` a block configures, in code order:
      exchanges, markets, `min_list_date` (an upper bound on the listing date), the
      delisting date (only where the catalog has the column), and the 'ST' exclusion
      (on unless switched off). */
  function StockChain(c: AssetBlock, columns: set<string>): (chain: seq<Screen>)
    ensures NonEmptyList(c.exchanges) ==> ExchangeIn(c.exchanges.value) in chain
    ensures NonEmptyList(c.markets) ==> MarketIn(c.markets.value) in chain
    ensures Truthy(c.minListDate) ==> ListTextAtMost(c.minListDate.value) in chain
    ensures Truthy(c.delistDate) && "delist_date" in columns ==> DelistBlankOrFrom(c.delistDate.value) in chain
    ensures c.excludeSt.GetOr(true) ==> NameLacks("ST") in chain
    ensures forall s :: s in chain ==>
      (s.ExchangeIn? && NonEmptyList(c.exchanges) && s == ExchangeIn(c.exchanges.value)) ||
      (s.MarketIn? && NonEmptyList(c.markets) && s == MarketIn(c.markets.value)) ||
      (s.ListTextAtMost? && Truthy(c.minListDate) && s == ListTextAtMost(c.minListDate.value)) ||
      (s.DelistBlankOrFrom? && Truthy(c.delistDate) && "delist_date" in columns && s == DelistBlankOrFrom(c.delistDate.value)) ||
      (s == NameLacks("ST") && c.excludeSt.GetOr(true))
  {
    (if NonEmptyList(c.exchanges) then [ExchangeIn(c.exchanges.value)] else []) +
    (if NonEmptyList(c.markets) then [MarketIn(c.markets.value)] else []) +
    (if Truthy(c.minListDate) then [ListTextAtMost(c.minListDate.value)] else []) +
    (if Truthy(c.delistDate) && "delist_date" in columns then [DelistBlankOrFrom(c.delistDate.value)] else []) +
    (if c.excludeSt.GetOr(true) then [NameLacks("ST")] else [])
  }

  /** `get_stock_list(use_config_filter)`; a missing catalog file lists nothing. */
  function StockList(refs: References, dr: DateRanges, today: Date, useConfigFilter: bool): seq<Instrument> {
    if refs.stocks.None? then []
    else
      var f := refs.stocks.value;
      if !useConfigFilter then f.rows
      else if ModeOf(dr) == "custom" then
        var c := ConfigForAsset(dr, "stocks", today);
        if !c.enabled.GetOr(true) then []
        else Limit(Screened(f.rows, StockChain(c, f.columns)), c.limits)
      else Limit(f.rows, dr.limits)
  }

  /** The custom-mode stock screens, stated cell by cell. */
  predicate StockScreens(c: AssetBlock, columns: set<string>, x: Instrument) {
    (NonEmptyList(c.exchanges) ==> CellIn(x.exchange, c.exchanges.value)) &&
    (NonEmptyList(c.markets) ==> CellIn(x.market, c.markets.value)) &&
    (Truthy(c.minListDate) ==> StrLe(CellText(x.listDate), c.minListDate.value)) &&
    (Truthy(c.delistDate) && "delist_date" in columns ==>
      Blank(x.delistDate) || StrLe(c.delistDate.value, CellText(x.delistDate))) &&
    (c.excludeSt.GetOr(true) ==> !(x.name.Some? && Contains(x.name.value, "ST")))
  }

  /** A row passes the chain of stock screens exactly when it meets every
      configured condition. */
  lemma StockChainMeaning(c: AssetBlock, columns: set<string>, x: Instrument)
    ensures (forall s :: s in StockChain(c, columns) ==> Passes(s, x)) <==> StockScreens(c, columns, x)
  {
    if forall s :: s in StockChain(c, columns) ==> Passes(s, x) {
      StockChainSound(c, columns, x);
    }
    if StockScreens(c, columns, x) {
      StockChainComplete(c, columns, x);
    }
  }

  lemma StockChainSound(c: AssetBlock, columns: set<string>, x: Instrument)
    requires forall s :: s in StockChain(c, columns) ==> Passes(s, x)
    ensures StockScreens(c, columns, x)
  {
    if NonEmptyList(c.exchanges) {
      assert Passes(ExchangeIn(c.exchanges.value), x);
    }
    if NonEmptyList(c.markets) {
      assert Passes(MarketIn(c.markets.value), x);
    }
    if Truthy(c.minListDate) {
      assert Passes(ListTextAtMost(c.minListDate.value), x);
    }
    if Truthy(c.delistDate) && "delist_date" in columns {
      assert Passes(DelistBlankOrFrom(c.delistDate.value), x);
    }
    if c.excludeSt.GetOr(true) {
      assert Passes(NameLacks("ST"), x);
    }
  }

  lemma StockChainComplete(c: AssetBlock, columns: set<string>, x: Instrument)
    requires StockScreens(c, columns, x)
    ensures forall s :: s in StockChain(c, columns) ==> Passes(s, x)
  {
    forall s | s in StockChain(c, columns) ensures Passes(s, x) {
      if s.ExchangeIn? {
        assert s == ExchangeIn(c.exchanges.value);
      } else if s.MarketIn? {
        assert s == MarketIn(c.markets.value);
      } else if s.ListTextAtMost? {
        assert s == ListTextAtMost(c.minListDate.value);
      } else if s.DelistBlankOrFrom? {
        assert s == DelistBlankOrFrom(c.delistDate.value);
      } else {
        assert s == NameLacks("ST");
      }
    }
  }

  /** In custom mode the stock list keeps catalog rows in order; every listed row is
      on a configured exchange and market, was listed no later than `min_list_date`,
      is not delisted before `delist_date`, and has no 'ST' in its name; the list is
      cut to `limits`, and without a limit every row meeting the conditions is
      listed. A disabled block lists nothing. */
  lemma StockListCustom(refs: References, dr: DateRanges, today: Date)
    requires refs.stocks.Some? && ModeOf(dr) == "custom"
    ensures var c := ConfigForAsset(dr, "stocks", today);
      var f := refs.stocks.value;
      var r := StockList(refs, dr, today, true);
      IsSubseq(r, f.rows) &&
      (!c.enabled.GetOr(true) ==> r == []) &&
      (forall x :: x in r ==> StockScreens(c, f.columns, x)) &&
      (c.limits.Some? && c.limits.value > 0 ==> |r| <= c.limits.value) &&
      (c.enabled.GetOr(true) && (c.limits.None? || c.limits == Some(0)) ==>
        forall x :: x in f.rows && StockScreens(c, f.columns, x) ==> x in r) &&
      (c.enabled.GetOr(true) ==>
        var sc := Screened(f.rows, StockChain(c, f.columns));
        IsSubseq(sc, f.rows) &&
        (forall x :: x in sc <==> x in f.rows && StockScreens(c, f.columns, x)) &&
        IsHead(r, sc, c.limits))
  {
    var c := ConfigForAsset(dr, "stocks", today);
    var f := refs.stocks.value;
    if c.enabled.GetOr(true) {
      ScreenedLimitSpec(f.rows, StockChain(c, f.columns), c.limits);
      forall x ensures (forall s :: s in StockChain(c, f.columns) ==> Passes(s, x)) <==> StockScreens(c, f.columns, x) {
        StockChainMeaning(c, f.columns, x);
      }
    } else {
      assert IsSubseq<Instrument>([], f.rows);
    }
  }

  /** Outside custom mode only the global limit applies: the list is the first
      `limits` catalog rows. */
  lemma StockListGlobal(refs: References, dr: DateRanges, today: Date)
    requires refs.stocks.Some? && ModeOf(dr) != "custom"
    ensures var rows := refs.stocks.value.rows;
      var r := StockList(refs, dr, today, true);
      r == rows[..|r|] &&
      (dr.limits.None? || dr.limits == Some(0) ==> r == rows) &&
      (dr.limits.Some? && dr.limits.value > 0 ==> |r| == if dr.limits.value <= |rows| then dr.limits.value else |rows|)
  {
  }

  /** The `min_list_date` screen is an upper bound on the listing date: a stock
      listed after it is never listed. */
  lemma StockMinListDateIsUpperBound(refs: References, dr: DateRanges, today: Date, x: Instrument)
    requires refs.stocks.Some? && ModeOf(dr) == "custom"
    requires var c := ConfigForAsset(dr, "stocks", today); Truthy(c.minListDate) && !StrLe(CellText(x.listDate), c.minListDate.value)
    ensures x !in StockList(refs, dr, today, true)
  {
    StockListCustom(refs, dr, today);
  }

  // ---------------------------------------------------------------- funds

  /** The code prefixes the configured exchanges select: '5' for SSE, '1' for SZSE. */
  function ExchangePrefixes(exchanges: seq<string>): (p: set<char>)
    ensures '5' in p <==> "SSE" in exchanges
    ensures '1' in p <==> "SZSE" in exchanges
    ensures p <= {'1', '5'}
  {
    (if "SSE" in exchanges then {'5'} else {}) + (if "SZSE" in exchanges then {'1'} else {})
  }

  /** The loop that ORs one `startswith` mask per recognised exchange. It returns the
      prefixes whose union the mask tests, and whether any exchange was recognised
      (otherwise the mask is still `False` and no screen applies). */
  method ExchangeMask(exchanges: seq<string>) returns (prefixes: set<char>, recognised: bool)
    ensures prefixes == ExchangePrefixes(exchanges)
    ensures recognised <==> prefixes != {}
  {
    prefixes := {};
    recognised := false;
    var i := 0;
    while i < |exchanges|
      invariant 0 <= i <= |exchanges|
      invariant prefixes == ExchangePrefixes(exchanges[..i])
      invariant recognised <==> prefixes != {}
    {
      assert exchanges[..i + 1] == exchanges[..i] + [exchanges[i]];
      if exchanges[i] == "SSE" {
        prefixes := prefixes + {'5'};
        recognised := true;
      } else if exchanges[i] == "SZSE" {
        prefixes := prefixes + {'1'};
        recognised := true;
      }
      i := i + 1;
    }
    assert exchanges[..i] == exchanges;
  }

  /** The fund-type screen: names containing 'ETF' or 'LOF' in any case; any other
      type keeps every row. */
  function TypeChain(fundType: string): seq<Screen> {
    if fundType == "ETF" || fundType == "LOF" then [NameHasIgnoreCase(fundType)] else []
  }

  /** The custom-mode screens of `get_fund_list` after the type screen, in code order. */
  function FundChain(c: AssetBlock, columns: set<string>, min: Date): (chain: seq<Screen>)
    ensures NonEmptyList(c.exchanges) && ExchangePrefixes(c.exchanges.value) != {} ==>
      CodeStartsWithOneOf(ExchangePrefixes(c.exchanges.value)) in chain
    ensures c.excludeDelisted.GetOr(true) ==> NotDelisted in chain
    ensures ListedBy(min) in chain
    ensures Truthy(c.delistDate) ==> DelistBlankOrFrom(c.delistDate.value) in chain
    ensures NonEmptyList(c.management) ==> ManagementIn(c.management.value) in chain
    ensures NonEmptyList(c.categories) && "fund_type" in columns ==> FundTypeIn(c.categories.value) in chain
  {
    var prefixes := if NonEmptyList(c.exchanges) then ExchangePrefixes(c.exchanges.value) else {};
    (if prefixes != {} then [CodeStartsWithOneOf(prefixes)] else []) +
    (if c.excludeDelisted.GetOr(true) then [NotDelisted] else []) +
    [ListedBy(min)] +
    (if Truthy(c.delistDate) then [DelistBlankOrFrom(c.delistDate.value)] else []) +
    (if NonEmptyList(c.management) then [ManagementIn(c.management.value)] else []) +
    (if NonEmptyList(c.categories) && "fund_type" in columns then [FundTypeIn(c.categories.value)] else [])
  }

  /** `get_fund_list(fund_type, use_config_filter)`. `Err` is the exception raised
      when the configured `min_list_date` (default '20100101') is not a date. */
  function FundList(refs: References, dr: DateRanges, today: Date, fundType: string,
                    useConfigFilter: bool): Result<seq<Instrument>> {
    if refs.funds.None? then Ok([])
    else
      var f := refs.funds.value;
      var typed := Screened(f.rows, TypeChain(fundType));
      if !useConfigFilter then Ok(typed)
      else if ModeOf(dr) == "custom" then
        var c := ConfigForAsset(dr, "funds", today);
        if !c.enabled.GetOr(true) then Ok([])
        else if NonEmptyList(c.names) && fundType !in c.names.value then Ok([])
        else
          match ParseYmd(c.minListDate.GetOr("20100101"))
          case None => Err("min_list_date is not a date")
          case Some(min) => Ok(Limit(Screened(typed, FundChain(c, f.columns, min)), c.limits))
      else Ok(Limit(typed, dr.limits))
  }

  /** The ETF (LOF) list holds exactly the catalog rows whose name contains 'ETF'
      ('LOF') in any case, in catalog order; any other type lists every row. */
  lemma FundTypeScreen(rows: seq<Instrument>, fundType: string)
    ensures IsSubseq(Screened(rows, TypeChain(fundType)), rows)
    ensures fundType == "ETF" || fundType == "LOF" ==> forall x :: x in Screened(rows, TypeChain(fundType)) <==>
      x in rows && x.name.Some? && ContainsIgnoreCase(x.name.value, fundType)
    ensures fundType != "ETF" && fundType != "LOF" ==> Screened(rows, TypeChain(fundType)) == rows
  {
    ScreenedSpec(rows, TypeChain(fundType));
  }

  /** In custom mode the fund list keeps catalog rows in order; every row has the
      requested type and passes every configured screen; the list is cut to
      `limits`; a disabled block, or a type the configured names leave out, lists
      nothing; an unparseable `min_list_date` raises. */
  lemma FundListCustom(refs: References, dr: DateRanges, today: Date, fundType: string)
    requires refs.funds.Some? && ModeOf(dr) == "custom"
    ensures var c := ConfigForAsset(dr, "funds", today);
      var f := refs.funds.value;
      var r := FundList(refs, dr, today, fundType, true);
      var selected := c.enabled.GetOr(true) && !(NonEmptyList(c.names) && fundType !in c.names.value);
      (selected && ParseYmd(c.minListDate.GetOr("20100101")).None? ==> r.Err?) &&
      (r.Ok? ==> IsSubseq(r.value, f.rows)) &&
      (!selected ==> r == Ok([])) &&
      (selected && r.Ok? ==>
        forall x :: x in r.value ==>
          x in Screened(f.rows, TypeChain(fundType)) &&
          forall s :: s in FundChain(c, f.columns, ParseYmd(c.minListDate.GetOr("20100101")).value) ==> Passes(s, x)) &&
      (r.Ok? && c.limits.Some? && c.limits.value > 0 ==> |r.value| <= c.limits.value) &&
      (selected && r.Ok? ==>
        var typed := Screened(f.rows, TypeChain(fundType));
        var chain := FundChain(c, f.columns, ParseYmd(c.minListDate.GetOr("20100101")).value);
        var sc := Screened(typed, chain);
        IsSubseq(sc, typed) &&
        (forall x :: x in sc <==> x in typed && forall s :: s in chain ==> Passes(s, x)) &&
        IsHead(r.value, sc, c.limits))
  {
    var c := ConfigForAsset(dr, "funds", today);
    var f := refs.funds.value;
    var typed := Screened(f.rows, TypeChain(fundType));
    FundTypeScreen(f.rows, fundType);
    var selected := c.enabled.GetOr(true) && !(NonEmptyList(c.names) && fundType !in c.names.value);
    if selected && ParseYmd(c.minListDate.GetOr("20100101")).Some? {
      var min := ParseYmd(c.minListDate.GetOr("20100101")).value;
      ScreenedLimitSpec(typed, FundChain(c, f.columns, min), c.limits);
      IsSubseqTrans(Limit(Screened(typed, FundChain(c, f.columns, min)), c.limits), typed, f.rows);
    } else if !selected {
      assert IsSubseq<Instrument>([], f.rows);
    }
  }

  /** A fund listed after `min_list_date`, or with an unparseable listing date, is
      never in a custom-mode fund list. */
  lemma FundMinListDateIsUpperBound(refs: References, dr: DateRanges, today: Date, fundType: string,
                                    x: Instrument)
    requires refs.funds.Some? && ModeOf(dr) == "custom"
    requires var c := ConfigForAsset(dr, "funds", today);
      var min := ParseYmd(c.minListDate.GetOr("20100101"));
      min.Some? && !Passes(ListedBy(min.value), x)
    ensures var r := FundList(refs, dr, today, fundType, true); r.Ok? && x !in r.value
  {
    FundListCustom(refs, dr, today, fundType);
  }

  // ---------------------------------------------------------------- indices

  /** The screens `get_index_list` applies before any configuration: the requested
      market unless 'ALL', and no expiry date where the column exists. */
  function IndexBaseChain(columns: set<string>, market: string): seq<Screen> {
    (if market != "ALL" then [MarketIs(market)] else []) +
    (if "exp_date" in columns then [NoExpiry] else [])
  }

  /** The custom-mode screens of `get_index_list`, in code order. */
  function IndexChain(c: AssetBlock, f: CatalogFile): seq<Screen> {
    var columns := f.columns;
    (if NonEmptyList(c.markets) then [MarketIn(c.markets.value)] else []) +
    (if NonEmptyList(c.categories) && "category" in columns then [CategoryIn(c.categories.value)] else []) +
    (if Truthy(c.minListDate) then [ListDatePresentAtMost(c.minListDate.value, f.listDateFloat)] else []) +
    (if Truthy(c.expDate) && "exp_date" in columns then [ExpiryBlankOrFrom(c.expDate.value)] else [])
  }

  /** `get_index_list(market, use_config_filter)`. */
  function IndexList(refs: References, dr: DateRanges, today: Date, market: string,
                     useConfigFilter: bool): seq<Instrument> {
    if refs.indices.None? then []
    else
      var f := refs.indices.value;
      var base := Screened(f.rows, IndexBaseChain(f.columns, market));
      if !useConfigFilter then base
      else if ModeOf(dr) == "custom" then
        var c := ConfigForAsset(dr, "indices", today);
        if !c.enabled.GetOr(true) then []
        else Limit(Screened(base, IndexChain(c, f)), c.limits)
      else Limit(base, dr.limits)
  }

  /** Every listed index is of the requested market and, where the catalog has the
      column, has no expiry date; the list keeps catalog order; in custom mode every
      configured screen holds and the block's limit cuts the list, otherwise the
      global limit does. */
  lemma IndexListSpec(refs: References, dr: DateRanges, today: Date, market: string, useConfigFilter: bool)
    requires refs.indices.Some?
    ensures var f := refs.indices.value;
      var r := IndexList(refs, dr, today, market, useConfigFilter);
      IsSubseq(r, f.rows) &&
      (forall x :: x in r ==> (market != "ALL" ==> x.market == Some(market)) &&
                              ("exp_date" in f.columns ==> Blank(x.expDate))) &&
      (useConfigFilter && ModeOf(dr) == "custom" ==>
        var c := ConfigForAsset(dr, "indices", today);
        (forall x :: x in r ==> forall s :: s in IndexChain(c, f) ==> Passes(s, x)) &&
        (c.limits.Some? && c.limits.value > 0 ==> |r| <= c.limits.value)) &&
      (useConfigFilter && ModeOf(dr) != "custom" && dr.limits.Some? && dr.limits.value > 0 ==>
        |r| <= dr.limits.value)
  {
    var f := refs.indices.value;
    var chain := IndexBaseChain(f.columns, market);
    var base := Screened(f.rows, chain);
    ScreenedSpec(f.rows, chain);
    assert market != "ALL" ==> MarketIs(market) in chain;
    assert "exp_date" in f.columns ==> NoExpiry in chain;
    var r := IndexList(refs, dr, today, market, useConfigFilter);
    if useConfigFilter && ModeOf(dr) == "custom" {
      var c := ConfigForAsset(dr, "indices", today);
      if c.enabled.GetOr(true) {
        ScreenedLimitSpec(base, IndexChain(c, f), c.limits);
        IsSubseqTrans(r, base, f.rows);
        IsSubseqMembers(r, base);
      } else {
        assert IsSubseq<Instrument>([], f.rows);
      }
    } else if useConfigFilter {
      IsSubseqTrans(r, base, f.rows);
      IsSubseqMembers(r, base);
    }
  }

  /** The index list is the head of the screened catalog: without the configuration
      filter it is every row of the market without expiry; in custom mode it is the
      head, under the block's limit, of the rows that also pass the configured
      screens; otherwise the head under the global limit. */
  lemma IndexListHead(refs: References, dr: DateRanges, today: Date, market: string, useConfigFilter: bool)
    requires refs.indices.Some?
    ensures var f := refs.indices.value;
      var r := IndexList(refs, dr, today, market, useConfigFilter);
      var base := Screened(f.rows, IndexBaseChain(f.columns, market));
      (forall x :: x in base <==> x in f.rows && forall s :: s in IndexBaseChain(f.columns, market) ==> Passes(s, x)) &&
      (!useConfigFilter ==> r == base) &&
      (useConfigFilter && ModeOf(dr) == "custom" && ConfigForAsset(dr, "indices", today).enabled.GetOr(true) ==>
        var c := ConfigForAsset(dr, "indices", today);
        var sc := Screened(base, IndexChain(c, f));
        (forall x :: x in sc <==> x in base && forall s :: s in IndexChain(c, f) ==> Passes(s, x)) &&
        IsHead(r, sc, c.limits)) &&
      (useConfigFilter && ModeOf(dr) != "custom" ==> IsHead(r, base, dr.limits))
  {
    var f := refs.indices.value;
    var base := Screened(f.rows, IndexBaseChain(f.columns, market));
    ScreenedSpec(f.rows, IndexBaseChain(f.columns, market));
    if useConfigFilter && ModeOf(dr) == "custom" {
      var c := ConfigForAsset(dr, "indices", today);
      ScreenedSpec(base, IndexChain(c, f));
    }
  }

  /** The configured `exp_date` screen never removes a row: the unconditional screen
      before it has already kept only indices with no expiry date. */
  lemma IndexExpDateScreenIsRedundant(f: CatalogFile, market: string, bound: string)
    requires "exp_date" in f.columns
    ensures var base := Screened(f.rows, IndexBaseChain(f.columns, market));
      Filter(base, ExpiryBlankOrFrom(bound)) == base
  {
    var base := Screened(f.rows, IndexBaseChain(f.columns, market));
    ScreenedSpec(f.rows, IndexBaseChain(f.columns, market));
    assert NoExpiry in IndexBaseChain(f.columns, market);
    FilterKeepsAll(base, ExpiryBlankOrFrom(bound));
  }

  lemma {:induction false} FilterKeepsAll(rows: seq<Instrument>, s: Screen)
    requires forall x :: x in rows ==> Passes(s, x)
    ensures Filter(rows, s) == rows
  {
    if rows != [] {
      FilterKeepsAll(rows[1..], s);
    }
  }

  /** `get_major_indices`. */
  const MajorIndices: seq<string> := [
    "000001.SH", "000002.SH", "000003.SH", "000016.SH", "000300.SH", "000905.SH", "000852.SH",
    "399001.SZ", "399006.SZ", "399106.SZ", "399107.SZ", "399300.SZ", "399905.SZ",
    "000688.SH",
    "399812.SZ", "399813.SZ", "399814.SZ", "399815.SZ"]

  /** The major-index list names 18 distinct index codes. */
  lemma MajorIndicesFacts()
    ensures |MajorIndices| == 18
    ensures forall i, j :: 0 <= i < j < |MajorIndices| ==> MajorIndices[i] != MajorIndices[j]
  {
  }

  // ---------------------------------------------------------------- listing dates

  /** The reference file `get_asset_list_date` reads for an asset type. */
  function CatalogFor(refs: References, assetType: string): Option<CatalogFile> {
    if assetType == "stocks" || assetType == "equities" then refs.stocks
    else if assetType == "funds" then refs.funds
    else if assetType == "indices" then refs.indices
    else None
  }

  /** `get_asset_list_date`: the listing date of the first catalog row for the code,
      as integer text, when that is eight digits; `None` for an unknown asset type,
      a missing file, an unknown code, a missing or empty cell, or any other text. */
  function AssetListDate(refs: References, code: string, assetType: string): (r: Option<string>)
    ensures r.Some? ==> |r.value| == 8 && IsDigits(r.value)
    ensures assetType !in ["stocks", "equities", "funds", "indices"] ==> r.None?
    ensures r.Some? ==>
      var f := CatalogFor(refs, assetType);
      f.Some? && FirstWithCode(f.value.rows, code).Some? &&
      var x := FirstWithCode(f.value.rows, code).value;
      x.code == code && x.listDate.Some? && ListDateInt(x.listDate.value, f.value.listDateFloat) == r.value
  {
    var file := CatalogFor(refs, assetType);
    if file.None? then None
    else
      match FirstWithCode(file.value.rows, code)
      case None => None
      case Some(x) =>
        if Blank(x.listDate) then None
        else
          var text := ListDateInt(x.listDate.value, file.value.listDateFloat);
          if |text| == 8 && IsDigits(text) then Some(text) else None
  }

  /** The lookup finds the date: when the first row for the code holds an eight-digit
      date, rendered as a float column or any other column renders it, that date is
      returned. */
  lemma AssetListDateFound(refs: References, code: string, assetType: string, d: string)
    requires CatalogFor(refs, assetType).Some?
    requires var f := CatalogFor(refs, assetType).value;
      FirstWithCode(f.rows, code).Some? &&
      FirstWithCode(f.rows, code).value.listDate == Some(ListDateText(d, f.listDateFloat))
    requires |d| == 8 && IsDigits(d)
    ensures AssetListDate(refs, code, assetType) == Some(d)
  {
    var f := CatalogFor(refs, assetType).value;
    assert ListDateInt(ListDateText(d, f.listDateFloat), f.listDateFloat) == d;
    assert ListDateText(d, f.listDateFloat) != "" by {
      assert |ListDateText(d, f.listDateFloat)| >= 8;
    }
  }

  /** A float `list_date` column: 000001.SH listed on 19910715 renders as
      '19910715.0', and the lookup still returns '19910715'. */
  lemma AssetListDateFloatExample(other: Instrument)
    requires other.code != "000001.SH" && other.listDate.None?
    ensures var row := Instrument("000001.SH", Some("上证指数"), Some("19910715.0"), None, Some("SSE"),
                                  None, None, None, None, None);
      var f := CatalogFile({"list_date"}, [row, other], true);
      AssetListDate(References(None, None, Some(f)), "000001.SH", "indices") == Some("19910715")
  {
    var row := Instrument("000001.SH", Some("上证指数"), Some("19910715.0"), None, Some("SSE"),
                          None, None, None, None, None);
    var f := CatalogFile({"list_date"}, [row, other], true);
    assert FirstWithCode(f.rows, "000001.SH") == Some(row);
    assert ListDateText("19910715", true) == "19910715.0";
    AssetListDateFound(References(None, None, Some(f)), "000001.SH", "indices", "19910715");
  }

  /** The index `min_list_date` screen compares integer text: an index listed exactly
      on the bound passes it in a float column as in an integer one. */
  lemma IndexListedOnBoundPasses(x: Instrument, d: string, isFloat: bool)
    requires x.listDate == Some(ListDateText(d, isFloat))
    ensures Passes(ListDatePresentAtMost(d, isFloat), x)
  {
    StrLeRefl(d);
  }

  /** `df[df['ts_code'] == code].iloc[0]`. */
  function FirstWithCode(rows: seq<Instrument>, code: string): (r: Option<Instrument>)
    ensures r.None? <==> forall i :: 0 <= i < |rows| ==> rows[i].code != code
    ensures r.Some? ==> r.value in rows && r.value.code == code
  {
    if rows == [] then None
    else if rows[0].code == code then Some(rows[0])
    else
      assert forall i :: 1 <= i < |rows| ==> rows[i] == rows[1..][i - 1];
      FirstWithCode(rows[1..], code)
  }
}
