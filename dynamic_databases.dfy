/**
 * The per-user record store of the transactions and portfolios databases:
 * insert-if-absent, delete by uid, existence test, the buy-lot query, the
 * distinct owned symbols, the per-side share totals and the portfolio
 * report. A SELECT without ORDER BY returns rows in an order SQL leaves
 * open, so the queries that return lists are methods that may list the
 * matching rows in any order, and say exactly which rows they list.
 */
module DynamicDatabases {
  import opened Wrappers
  import opened Text
  import opened StockRecords
  import opened Databases

  // ---------------------------------------------------------------------
  // add_stock_data_to_selected_database_table

  /**
   * The effect of an insert on one database's tables, and its result flag:
   * refused without a uid, refused when the uid is already in the table,
   * otherwise the table is created if missing and the row stored.
   */
  function Added(tables: map<string, Table>, tableName: string, data: StockData): (r: (map<string, Table>, bool))
    ensures r.1 <==> data.uid.Some? && !DoesRowExistInTable(tables, tableName, data.uid.value)
    ensures !r.1 ==> r.0 == tables
  {
    match data.uid
    case None => (tables, false)
    case Some(uid) =>
      if tableName in tables && uid in tables[tableName] then (tables, false)
      else
        var t := if tableName in tables then tables[tableName] else map[];
        (tables[tableName := t[uid := data]], true)
  }

  method AddStockData(db: Databases, which: DynamicDb, tableName: string, data: StockData) returns (ok: bool)
    modifies db
    ensures (db.State().Tables(which), ok) == Added(old(db.State()).Tables(which), tableName, data)
    ensures db.State() == old(db.State()).WithTables(which, db.State().Tables(which))
  {
    if data.uid.None? {
      return false;
    }
    var uid := data.uid.value;
    var tables := db.State().Tables(which);
    if tableName !in tables {
      // the table is generated, then looked up again
      tables := tables[tableName := map[]];
      db.SetTables(which, tables);
    }
    if DoesRowExistInTable(tables, tableName, uid) {
      return false;
    }
    ghost var before := old(db.State()).Tables(which);
    assert tableName in before ==> before[tableName] == tables[tableName];
    tables := tables[tableName := tables[tableName][uid := data]];
    assert tables == Added(before, tableName, data).0;
    db.SetTables(which, tables);
    ok := true;
  }

  /** An accepted insert stores exactly that row and touches no other row or table. */
  lemma AddedStoresExactlyTheRow(tables: map<string, Table>, tableName: string, data: StockData)
    requires Added(tables, tableName, data).1
    ensures data.uid.Some?
    ensures var r := Added(tables, tableName, data).0;
      && r.Keys == tables.Keys + {tableName}
      && (forall n :: n in tables && n != tableName ==> r[n] == tables[n])
      && r[tableName].Keys == (if tableName in tables then tables[tableName].Keys else {}) + {data.uid.value}
      && r[tableName][data.uid.value] == data
      && (forall u :: u in r[tableName] && u != data.uid.value ==> r[tableName][u] == tables[tableName][u])
  {
  }

  /** Inserts keep every row under its own uid: uids stay unique in each table. */
  lemma AddedKeepsWellKeyed(tables: map<string, Table>, tableName: string, data: StockData)
    requires AllWellKeyed(tables)
    ensures AllWellKeyed(Added(tables, tableName, data).0)
  {
  }

  /** After an insert attempt with a uid, the uid is present, whatever the flag says. */
  lemma AddedThenExists(tables: map<string, Table>, tableName: string, data: StockData)
    requires data.uid.Some?
    ensures DoesRowExistInTable(Added(tables, tableName, data).0, tableName, data.uid.value)
    ensures Added(tables, tableName, data).1 <==> !DoesRowExistInTable(tables, tableName, data.uid.value)
  {
  }

  /** Deleting the row just inserted into an existing table restores that table. */
  lemma AddedThenRemoved(tables: map<string, Table>, tableName: string, data: StockData)
    requires tableName in tables && Added(tables, tableName, data).1
    ensures Removed(Added(tables, tableName, data).0, tableName, data.uid.value) == (tables, Some(true))
  {
    var uid := data.uid.value;
    var r := Added(tables, tableName, data).0;
    assert r == tables[tableName := tables[tableName][uid := data]];
    assert r[tableName] - {uid} == tables[tableName];
    assert r[tableName := tables[tableName]] == tables;
  }

  // ---------------------------------------------------------------------
  // remove_row_by_uid

  /**
   * The effect of a delete by uid and its result: no result (Python's None)
   * when the table is missing, otherwise whether a row was deleted.
   */
  function Removed(tables: map<string, Table>, tableName: string, uid: string): (r: (map<string, Table>, Option<bool>))
    ensures r.1.None? <==> tableName !in tables
    ensures r.1.None? ==> r.0 == tables
    ensures r.0.Keys == tables.Keys
  {
    if tableName !in tables then (tables, None)
    else (tables[tableName := tables[tableName] - {uid}], Some(uid in tables[tableName]))
  }

  method RemoveRowByUid(db: Databases, which: DynamicDb, tableName: string, uid: string) returns (deleted: Option<bool>)
    modifies db
    ensures (db.State().Tables(which), deleted) == Removed(old(db.State()).Tables(which), tableName, uid)
    ensures db.State() == old(db.State()).WithTables(which, db.State().Tables(which))
  {
    var tables := db.State().Tables(which);
    if tableName !in tables {
      return None;
    }
    var rowcount := uid in tables[tableName];
    db.SetTables(which, tables[tableName := tables[tableName] - {uid}]);
    deleted := Some(rowcount);
  }

  /** True iff the row existed; afterwards no row has that uid and every other row is unchanged. */
  lemma RemovedDeletesOnlyThatRow(tables: map<string, Table>, tableName: string, uid: string)
    requires tableName in tables
    ensures var (r, deleted) := Removed(tables, tableName, uid);
      && deleted == Some(DoesRowExistInTable(tables, tableName, uid))
      && !DoesRowExistInTable(r, tableName, uid)
      && r.Keys == tables.Keys
      && (forall n :: n in tables && n != tableName ==> r[n] == tables[n])
      && (forall u :: u in tables[tableName] && u != uid ==> u in r[tableName] && r[tableName][u] == tables[tableName][u])
  {
  }

  // ---------------------------------------------------------------------
  // does_row_exist_in_table

  predicate DoesRowExistInTable(tables: map<string, Table>, tableName: string, uid: string) {
    tableName in tables && uid in tables[tableName]
  }

  // ---------------------------------------------------------------------
  // get_user_shares_by_symbol / get_owned_user_shares_by_symbol

  /** A buy lot as the sell walk needs it: uid, remaining shares, cost per share. */
  datatype Lot = Lot(uid: string, shares: real, costPerShare: real)

  /** One line of the portfolio report. */
  datatype Holding = Holding(timestamp: Timestamp, shares: real, costPerShare: real)

  /** The WHERE clause of both share queries: the upper-cased symbol on the buy side. */
  predicate IsOwnedRow(d: StockData, symbol: string) {
    d.symbol == Upper(symbol) && d.side == "buy"
  }

  /** The rows that the share queries return, keyed by uid. */
  function BuyLots(tables: map<string, Table>, uuid: string, symbol: string): (m: map<string, Lot>)
    ensures forall u :: u in m <==> uuid in tables && u in tables[uuid] && IsOwnedRow(tables[uuid][u], symbol)
    ensures forall u :: u in m ==> m[u] == Lot(u, tables[uuid][u].shares, tables[uuid][u].costPerShare)
  {
    if uuid !in tables then map[]
    else
      var t := tables[uuid];
      map u | u in t && IsOwnedRow(t[u], symbol) :: Lot(u, t[u].shares, t[u].costPerShare)
  }

  /** `lots` lists every lot of `m` exactly once, in some order. */
  ghost predicate ListsExactly(lots: seq<Lot>, m: map<string, Lot>) {
    && (forall i :: 0 <= i < |lots| ==> lots[i].uid in m && m[lots[i].uid] == lots[i])
    && (forall u :: u in m ==> exists i :: 0 <= i < |lots| && lots[i].uid == u)
    && (forall i, j :: 0 <= i < j < |lots| ==> lots[i].uid != lots[j].uid)
  }

  /** A listing has as many entries as the map has keys. */
  lemma {:induction false} ListedCount(lots: seq<Lot>, m: map<string, Lot>)
    requires ListsExactly(lots, m)
    ensures |lots| == |m|
    decreases |lots|
  {
    if lots == [] {
      assert m.Keys == {};
      assert m == map[];
    } else {
      var l := lots[0];
      var m' := m - {l.uid};
      var rest := lots[1..];
      forall u | u in m'
        ensures exists i :: 0 <= i < |rest| && rest[i].uid == u
      {
        var i :| 0 <= i < |lots| && lots[i].uid == u;
        assert rest[i - 1].uid == u;
      }
      assert forall i :: 0 <= i < |rest| ==> rest[i] == lots[i + 1];
      ListedCount(rest, m');
      assert m'.Keys == m.Keys - {l.uid};
    }
  }

  /** The scan behind both share queries: the uids of the matching rows, each once. */
  method SelectOwnedRows(t: Table, symbol: string) returns (uids: seq<string>)
    ensures forall i :: 0 <= i < |uids| ==> uids[i] in t && IsOwnedRow(t[uids[i]], symbol)
    ensures forall u :: u in t && IsOwnedRow(t[u], symbol) ==> u in uids
    ensures forall i, j :: 0 <= i < j < |uids| ==> uids[i] != uids[j]
  {
    uids := [];
    var rest := t.Keys;
    while rest != {}
      invariant rest <= t.Keys
      invariant forall i :: 0 <= i < |uids| ==> uids[i] in t.Keys - rest && IsOwnedRow(t[uids[i]], symbol)
      invariant forall u :: u in t.Keys - rest && IsOwnedRow(t[u], symbol) ==> u in uids
      invariant forall i, j :: 0 <= i < j < |uids| ==> uids[i] != uids[j]
      decreases rest
    {
      var u :| u in rest;
      if IsOwnedRow(t[u], symbol) {
        uids := uids + [u];
      }
      rest := rest - {u};
    }
  }

  function LotsOf(t: Table, uids: seq<string>): (lots: seq<Lot>)
    requires forall i :: 0 <= i < |uids| ==> uids[i] in t
    ensures |lots| == |uids|
    ensures forall i :: 0 <= i < |uids| ==> lots[i] == Lot(uids[i], t[uids[i]].shares, t[uids[i]].costPerShare)
  {
    if uids == [] then [] else [Lot(uids[0], t[uids[0]].shares, t[uids[0]].costPerShare)] + LotsOf(t, uids[1..])
  }

  /**
   * `get_user_shares_by_symbol`, with the (uid, shares, cost_per_share)
   * entries the sell walk reads: every buy row of the upper-cased symbol,
   * once each, and nothing when the user's table is missing.
   */
  method GetUserSharesBySymbol(tables: map<string, Table>, uuid: string, symbol: string) returns (lots: seq<Lot>)
    ensures ListsExactly(lots, BuyLots(tables, uuid, symbol))
    ensures uuid !in tables ==> lots == []
  {
    if uuid !in tables {
      return [];
    }
    var uids := SelectOwnedRows(tables[uuid], symbol);
    lots := LotsOf(tables[uuid], uids);
    forall u | u in BuyLots(tables, uuid, symbol)
      ensures exists i :: 0 <= i < |lots| && lots[i].uid == u
    {
      var i :| 0 <= i < |uids| && uids[i] == u;
      assert lots[i].uid == u;
    }
  }

  function HoldingOf(d: StockData): Holding {
    Holding(d.timestamp, d.shares, d.costPerShare)
  }

  function HoldingsOf(t: Table, uids: seq<string>): (hs: seq<Holding>)
    requires forall i :: 0 <= i < |uids| ==> uids[i] in t
    ensures |hs| == |uids|
    ensures forall i :: 0 <= i < |uids| ==> hs[i] == HoldingOf(t[uids[i]])
  {
    if uids == [] then [] else [HoldingOf(t[uids[0]])] + HoldingsOf(t, uids[1..])
  }

  /** `hs` reports the rows of the lots `BuyLots` selects, each once, in some order. */
  ghost predicate ReportsHoldings(hs: seq<Holding>, tables: map<string, Table>, uuid: string, symbol: string) {
    exists lots: seq<Lot> :: ListsExactly(lots, BuyLots(tables, uuid, symbol)) && |hs| == |lots|
      && uuid in tables
      && (forall i :: 0 <= i < |lots| ==> lots[i].uid in tables[uuid] && hs[i] == HoldingOf(tables[uuid][lots[i].uid]))
  }

  /** `get_owned_user_shares_by_symbol`: the same rows, reported with their timestamps. */
  method GetOwnedUserSharesBySymbol(tables: map<string, Table>, uuid: string, symbol: string) returns (hs: seq<Holding>)
    ensures uuid in tables ==> ReportsHoldings(hs, tables, uuid, symbol)
    ensures uuid !in tables ==> hs == []
  {
    if uuid !in tables {
      return [];
    }
    var t := tables[uuid];
    var uids := SelectOwnedRows(t, symbol);
    hs := HoldingsOf(t, uids);
    ghost var lots := LotsOf(t, uids);
    forall u | u in BuyLots(tables, uuid, symbol)
      ensures exists i :: 0 <= i < |lots| && lots[i].uid == u
    {
      var i :| 0 <= i < |uids| && uids[i] == u;
      assert lots[i].uid == u;
    }
    assert ListsExactly(lots, BuyLots(tables, uuid, symbol));
  }

  // ---------------------------------------------------------------------
  // get_unique_symbols_owned / compile_user_portfolio

  /** The distinct symbols of the user's buy rows (the list's order is left open). */
  function GetUniqueSymbolsOwned(tables: map<string, Table>, uuid: string): set<string> {
    if uuid !in tables then {}
    else set u | u in tables[uuid] && tables[uuid][u].side == "buy" :: tables[uuid][u].symbol
  }

  /**
   * `compile_user_portfolio`: for each owned symbol, the report of the buy
   * rows of that symbol upper-cased.
   */
  method CompileUserPortfolio(tables: map<string, Table>, uuid: string) returns (portfolio: map<string, seq<Holding>>)
    ensures portfolio.Keys == GetUniqueSymbolsOwned(tables, uuid)
    ensures forall s :: s in portfolio ==> ReportsHoldings(portfolio[s], tables, uuid, s)
  {
    var symbols := GetUniqueSymbolsOwned(tables, uuid);
    portfolio := map[];
    var rest := symbols;
    while rest != {}
      invariant rest <= symbols
      invariant portfolio.Keys == symbols - rest
      invariant forall s :: s in portfolio ==> ReportsHoldings(portfolio[s], tables, uuid, s)
      decreases rest
    {
      var s :| s in rest;
      var hs := GetOwnedUserSharesBySymbol(tables, uuid, s);
      portfolio := portfolio[s := hs];
      rest := rest - {s};
    }
  }

  /**
   * Symbols are stored as submitted but looked up upper-cased, so the report
   * for an owned lower-case symbol holds no row of that symbol.
   */
  lemma ReportSkipsLowerCaseSymbols(tables: map<string, Table>, uuid: string, s: string, hs: seq<Holding>)
    requires ReportsHoldings(hs, tables, uuid, s)
    requires forall u :: u in tables[uuid] ==> tables[uuid][u].symbol != Upper(s)
    ensures hs == []
  {
    var lots: seq<Lot> :| ListsExactly(lots, BuyLots(tables, uuid, s)) && |hs| == |lots|
      && (forall i :: 0 <= i < |lots| ==> lots[i].uid in tables[uuid] && hs[i] == HoldingOf(tables[uuid][lots[i].uid]));
    assert BuyLots(tables, uuid, s) == map[];
    ListedCount(lots, BuyLots(tables, uuid, s));
  }

  // ---------------------------------------------------------------------
  // get_summary

  /** What one row adds to the share total of `symbol` on `side`. */
  function Contribution(d: StockData, side: string, symbol: string): real {
    if d.side == side && d.symbol == symbol then d.shares else 0.0
  }

  /** The sum of `shares` over the rows of `keys` with that side and symbol. */
  ghost function SharesOf(t: Table, keys: set<string>, side: string, symbol: string): real
    requires keys <= t.Keys
    decreases keys
  {
    if keys == {} then 0.0
    else
      var u :| u in keys;
      Contribution(t[u], side, symbol) + SharesOf(t, keys - {u}, side, symbol)
  }

  /** The sum may be taken apart at any row. */
  lemma {:induction false} SharesOfRemove(t: Table, keys: set<string>, u: string, side: string, symbol: string)
    requires keys <= t.Keys && u in keys
    ensures SharesOf(t, keys, side, symbol) == Contribution(t[u], side, symbol) + SharesOf(t, keys - {u}, side, symbol)
    decreases keys
  {
    var v :| v in keys && SharesOf(t, keys, side, symbol) == Contribution(t[v], side, symbol) + SharesOf(t, keys - {v}, side, symbol);
    if v != u {
      SharesOfRemove(t, keys - {v}, u, side, symbol);
      SharesOfRemove(t, keys - {u}, v, side, symbol);
      assert keys - {v} - {u} == keys - {u} - {v};
    }
  }

  /** The sum reads only the rows it ranges over. */
  lemma {:induction false} SharesOfSameRows(t: Table, t': Table, keys: set<string>, side: string, symbol: string)
    requires keys <= t.Keys && keys <= t'.Keys
    requires forall u :: u in keys ==> t[u] == t'[u]
    ensures SharesOf(t, keys, side, symbol) == SharesOf(t', keys, side, symbol)
    decreases keys
  {
    if keys != {} {
      var u :| u in keys;
      SharesOfRemove(t, keys, u, side, symbol);
      SharesOfRemove(t', keys, u, side, symbol);
      SharesOfSameRows(t, t', keys - {u}, side, symbol);
    }
  }

  /** The symbols of the rows on `side`: the groups of the GROUP BY. */
  function SymbolsOnSide(t: Table, side: string): (r: set<string>)
    ensures forall s :: s in r <==> exists u :: u in t && t[u].side == side && t[u].symbol == s
  {
    set u | u in t && t[u].side == side :: t[u].symbol
  }

  /** `SELECT symbol, SUM(shares) WHERE side = side GROUP BY symbol`, as a map. */
  ghost function SideTotal(t: Table, side: string): map<string, real> {
    map s | s in SymbolsOnSide(t, side) :: SharesOf(t, t.Keys, side, s)
  }

  /**
   * The summary `get_summary` returns for a database and table: both sides
   * empty when the table is missing, the buy and sell totals for the
   * transactions database, only the buy totals under "owned" for the
   * portfolios database.
   */
  ghost function Summary(tables: map<string, Table>, which: DynamicDb, tableName: string): map<string, map<string, real>> {
    if tableName !in tables then map["buy" := map[], "sell" := map[]]
    else
      var t := tables[tableName];
      if which == PortfoliosDb then map["owned" := SideTotal(t, "buy")]
      else map["buy" := SideTotal(t, "buy"), "sell" := SideTotal(t, "sell")]
  }

  /** The grouped sum over the rows of one side, accumulated row by row. */
  method GroupSumShares(t: Table, side: string) returns (totals: map<string, real>)
    ensures totals == SideTotal(t, side)
  {
    totals := map[];
    var rest := t.Keys;
    while rest != {}
      invariant rest <= t.Keys
      invariant totals.Keys == set v | v in t.Keys - rest && t[v].side == side :: t[v].symbol
      invariant forall s :: s in totals ==> totals[s] == SharesOf(t, t.Keys - rest, side, s)
      invariant forall s :: s !in totals ==> SharesOf(t, t.Keys - rest, side, s) == 0.0
      decreases rest
    {
      var u :| u in rest;
      ghost var done := t.Keys - rest;
      forall s ensures SharesOf(t, done + {u}, side, s) == Contribution(t[u], side, s) + SharesOf(t, done, side, s) {
        SharesOfRemove(t, done + {u}, u, side, s);
        assert done + {u} - {u} == done;
      }
      if t[u].side == side {
        var s := t[u].symbol;
        var sofar := if s in totals then totals[s] else 0.0;
        totals := totals[s := sofar + t[u].shares];
      }
      rest := rest - {u};
      assert t.Keys - rest == done + {u};
    }
    assert t.Keys - rest == t.Keys;
    assert totals.Keys == SymbolsOnSide(t, side);
  }

  /** `get_summary` on a database whose metadata was found. */
  method GetSummary(tables: map<string, Table>, which: DynamicDb, tableName: string) returns (summary: map<string, map<string, real>>)
    ensures summary == Summary(tables, which, tableName)
  {
    summary := map["buy" := map[], "sell" := map[]];
    if tableName !in tables {
      return;
    }
    var t := tables[tableName];
    var buy := GroupSumShares(t, "buy");
    summary := summary["buy" := buy];
    var sell := GroupSumShares(t, "sell");
    summary := summary["sell" := sell];
    if which == PortfoliosDb {
      summary := summary["owned" := summary["buy"]] - {"buy", "sell"};
    }
  }

  /** A symbol's total in a side's map, 0 for a symbol with no row. */
  function TotalOf(totals: map<string, real>, symbol: string): real {
    if symbol in totals then totals[symbol] else 0.0
  }

  /** A sum over rows none of which counts is 0. */
  lemma {:induction false} SharesOfNoRows(t: Table, keys: set<string>, side: string, symbol: string)
    requires keys <= t.Keys
    requires forall u :: u in keys ==> Contribution(t[u], side, symbol) == 0.0
    ensures SharesOf(t, keys, side, symbol) == 0.0
    decreases keys
  {
    if keys != {} {
      var u :| u in keys;
      SharesOfRemove(t, keys, u, side, symbol);
      SharesOfNoRows(t, keys - {u}, side, symbol);
    }
  }

  /** For the portfolios database the summary holds only "owned", keyed by the owned symbols. */
  lemma OwnedSummaryIsUniqueSymbols(tables: map<string, Table>, uuid: string)
    requires uuid in tables
    ensures Summary(tables, PortfoliosDb, uuid).Keys == {"owned"}
    ensures Summary(tables, PortfoliosDb, uuid)["owned"].Keys == GetUniqueSymbolsOwned(tables, uuid)
  {
  }

  /** Inserting a new row adds its shares to its own side and symbol, and to no other total. */
  lemma InsertRaisesItsTotal(t: Table, uid: string, d: StockData, side: string, symbol: string)
    requires uid !in t
    ensures TotalOf(SideTotal(t[uid := d], side), symbol) == TotalOf(SideTotal(t, side), symbol) + Contribution(d, side, symbol)
  {
    var t' := t[uid := d];
    SharesOfRemove(t', t'.Keys, uid, side, symbol);
    assert t'.Keys - {uid} == t.Keys;
    SharesOfSameRows(t', t, t.Keys, side, symbol);
    if symbol !in SymbolsOnSide(t, side) {
      SharesOfNoRows(t, t.Keys, side, symbol);
    }
    if symbol !in SymbolsOnSide(t', side) {
      assert symbol !in SymbolsOnSide(t, side);
    }
  }
}
