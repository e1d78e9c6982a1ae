/**
 * The settlement engine: a buy debits the user's balance and files the
 * record in both per-user databases, shrinking an order the balance cannot
 * cover once; a sell walks the user's buy lots cheapest first, credits the
 * revenue and files the sell. The market quote is a parameter (`None` when
 * no bid could be fetched); the status message is kept as a tag with the
 * numbers it reports, not as formatted text.
 */
module StockHandlers {
  import opened Wrappers
  import opened StockRecords
  import opened Databases
  import opened DynamicDatabases
  import opened UserbaseHelper
  import opened LotMatching

  /** The status messages `StockHandler.status` takes. */
  datatype Status =
    | NoStatus
    | InternalServerError
    | Bought(shares: real, costPerShare: real, totalCost: real)
    | CannotSellNonPositive
    | SoldShares(shares: real, revenue: real, costPerShare: real)
    | CouldNotSell

  /** `UPDATE userbase SET balance = b WHERE uuid = uuid`. */
  function SetBalance(users: seq<User>, uuid: string, b: real): (r: seq<User>)
    ensures |r| == |users|
    ensures forall i :: 0 <= i < |users| ==>
      r[i] == (if users[i].uuid == uuid then users[i].(balance := b) else users[i])
  {
    seq(|users|, i requires 0 <= i < |users| => if users[i].uuid == uuid then users[i].(balance := b) else users[i])
  }

  function WriteBalance(s: DbState, uuid: string, b: real): DbState {
    s.(userbase := SetBalance(s.userbase, uuid, b))
  }

  /** The balance write of `deal_with_transaction`, through the userbase session. */
  method UpdateBalance(db: Databases, uuid: string, b: real)
    modifies db
    ensures db.State() == WriteBalance(old(db.State()), uuid, b)
  {
    db.SetUserbase(SetBalance(db.userbase, uuid, b));
  }

  /** The user row `deal_with_transaction` works with. */
  function SavedUser(codecs: Codecs, s: DbState, uuid: string): Option<User> {
    GetUserFromUserbase(codecs, s.userbase, "uuid", uuid)
  }

  /** 1 exactly when the buy path will shrink the order and retry, else 0. */
  function RetryBound(codecs: Codecs, s: DbState, d: StockData, uuid: string): nat {
    match SavedUser(codecs, s, uuid)
    case None => 0
    case Some(user) => if d.side == "buy" && user.balance < d.totalCost then 1 else 0
  }

  /** The order the balance can pay for: `balance / cost_per_share` shares, with the total recomputed. */
  function Shrunk(d: StockData, balance: real): StockData
    requires d.costPerShare != 0.0
  {
    WithTotalCost(d.(shares := balance / d.costPerShare))
  }

  /** Whether the shrunk order is worth retrying: at least one share. */
  predicate CanRetry(d: StockData, balance: real) {
    d.costPerShare != 0.0 && balance / d.costPerShare >= 1.0
  }

  /** What one settlement leaves behind: the databases, the record and the status. */
  datatype Outcome = Outcome(state: DbState, record: StockData, status: Status)

  /** A covered buy: the record becomes tracked and the identical row goes into both databases. */
  function FiledBuy(s: DbState, d: StockData, uuid: string): Outcome {
    var tracked := d.(status := TRACKED);
    var (transactions, okT) := Added(s.transactions, uuid, tracked);
    var (portfolios, okP) := Added(s.portfolios, uuid, tracked);
    var st := if okT && okP then Bought(tracked.shares, tracked.costPerShare, tracked.totalCost) else InternalServerError;
    Outcome(s.(transactions := transactions, portfolios := portfolios), tracked, st)
  }

  /**
   * After the lot walk of a positive sell: the record, with the shares
   * actually sold and status archived, goes into the transactions database.
   */
  function FiledSell(s: DbState, d: StockData, uuid: string, sold: Sold): Outcome {
    var filed := d.(shares := d.shares - sold.unsold, status := ARCHIVED);
    var (transactions, ok) := Added(s.transactions, uuid, filed);
    var st := if ok then SoldShares(filed.shares, sold.revenue, filed.costPerShare) else CouldNotSell;
    Outcome(s.(transactions := transactions), filed, st)
  }

  /** The balance write that ends every path past the user lookup except the early returns. */
  function WithBalance(o: Outcome, uuid: string, b: real): Outcome {
    o.(state := WriteBalance(o.state, uuid, b))
  }

  /** A positive sell: the lot walk, the archived record filed, and the revenue credited to `balance`. */
  function SoldAndCredited(s: DbState, d: StockData, uuid: string, bid: Option<real>, order: seq<Lot>, balance: real): Outcome {
    var (s', sold) := SellOutcome(s, uuid, d.shares, bid, order);
    WithBalance(FiledSell(s', d, uuid, sold), uuid, balance + sold.revenue)
  }

  /** `SoldAndCredited` in the order the handler runs it: the walk, the filing, the balance write. */
  lemma SoldAndCreditedSteps(s: DbState, d: StockData, uuid: string, bid: Option<real>, order: seq<Lot>, balance: real,
                             s1: DbState, sold: Sold)
    requires (s1, sold) == SellOutcome(s, uuid, d.shares, bid, order)
    ensures SoldAndCredited(s, d, uuid, bid, order, balance) == WithBalance(FiledSell(s1, d, uuid, sold), uuid, balance + sold.revenue)
  {
  }

  /**
   * `deal_with_transaction(stock_record, uuid)` on the databases `s`, where
   * `order` is the sorted listing of the user's lots the sell walk sees and
   * `status` is the status before the call.
   */
  function Settle(codecs: Codecs, s: DbState, d: StockData, uuid: string, bid: Option<real>, order: seq<Lot>, status: Status): Outcome
    requires d.costPerShare == 0.0 ==> d.totalCost == 0.0
    decreases RetryBound(codecs, s, d, uuid)
  {
    match SavedUser(codecs, s, uuid)
    case None => Outcome(s, d, InternalServerError)
    case Some(user) =>
      var balance := user.balance;
      if d.side == "buy" then
        if balance >= d.totalCost then WithBalance(FiledBuy(s, d, uuid), uuid, balance - d.totalCost)
        else if CanRetry(d, balance) then
          var d' := Shrunk(d, balance);
          assert d'.totalCost == balance;
          Settle(codecs, s, d', uuid, bid, order, status)
        else WithBalance(Outcome(s, d, InternalServerError), uuid, balance)
      else if d.side == "sell" then SettledSell(s, d, uuid, bid, order, status, balance)
      else WithBalance(Outcome(s, d, status), uuid, balance)
  }

  /**
   * The sell side for a found user with `balance`: without a transactions
   * table, or for no shares, nothing is written; otherwise the lots are
   * walked and the revenue credited.
   */
  function SettledSell(s: DbState, d: StockData, uuid: string, bid: Option<real>, order: seq<Lot>, status: Status, balance: real): Outcome {
    if uuid !in s.transactions then Outcome(s, d, status)
    else if d.shares <= 0.0 then Outcome(s, d, CannotSellNonPositive)
    else SoldAndCredited(s, d, uuid, bid, order, balance)
  }

  /** The sell walk runs only for a found user, a sell side, an existing transactions table and a positive amount. */
  predicate ReachesWalk(codecs: Codecs, s: DbState, d: StockData, uuid: string) {
    SavedUser(codecs, s, uuid).Some? && d.side == "sell" && uuid in s.transactions && d.shares > 0.0
  }

  /**
   * The lot loop of `sell_shares` on the sorted `order`: `pending` and
   * `archived` are the uncommitted portfolio and transactions tables of the
   * user. `archiving` is false when the user has no transactions table;
   * emptying a lot then raises (`raised`), which rolls both sessions back.
   */
  method WalkLots(order: seq<Lot>, price: real, shares: real, pt0: Table, tt0: Table, archiving: bool)
    returns (revenue: real, unsold: real, pending: Table, archived: Table, rowsToRemove: seq<string>, raised: bool)
    ensures var w := SellWalk(order, price, shares);
      && raised == (!archiving && Emptied(order, w.takes) != [])
      && (!raised ==>
            && revenue == w.revenue && unsold == w.toSell
            && pending == Reductions(pt0, order, w.takes)
            && archived == Archivals(tt0, order, w.takes)
            && rowsToRemove == Emptied(order, w.takes))
  {
    ghost var walked := SellWalk(order, price, shares);
    var toSell := shares;
    pending := pt0;
    archived := tt0;
    revenue := 0.0;
    rowsToRemove := [];
    ghost var takes: seq<real> := [];
    var i := 0;
    while i < |order|
      invariant 0 <= i <= |order| && |takes| == i
      invariant WalkFrom(order, price, Walk(toSell, revenue, takes)) == walked
      invariant pending == Reductions(pt0, order, takes)
      invariant archived == Archivals(tt0, order, takes)
      invariant rowsToRemove == Emptied(order, takes)
      invariant !archiving ==> rowsToRemove == []
    {
      var uid := order[i].uid;
      var held := order[i].shares;
      if toSell <= 0.0 {
        break;
      }
      ghost var before := Walk(toSell, revenue, takes);
      var take := Min(held, toSell);
      revenue := revenue + take * price;
      toSell := toSell - take;
      takes := takes + [take];
      assert Walk(toSell, revenue, takes) == Step(order, price, before);
      Bookkeeping(pt0, tt0, order, before.takes, take);
      var newCount := held - take;
      if newCount > 0.0 {
        if uid in pending {
          pending := pending[uid := pending[uid].(shares := newCount)];
        }
      } else {
        if !archiving {
          // the archive statement has no table to update
          assert Emptied(order, takes) != [];
          WalkFromExtends(order, price, Walk(toSell, revenue, takes));
          EmptiedExtends(order, walked.takes, |takes|);
          return 0.0, shares, pending, archived, rowsToRemove, true;
        }
        if uid in archived {
          archived := archived[uid := archived[uid].(status := ARCHIVED)];
        }
        rowsToRemove := rowsToRemove + [uid];
      }
      i := i + 1;
    }
    assert Walk(toSell, revenue, takes) == walked;
    unsold := toSell;
    raised := false;
  }

  /** How one more take extends the reductions, the archivals and the emptied uids. */
  lemma Bookkeeping(pt0: Table, tt0: Table, order: seq<Lot>, takes: seq<real>, take: real)
    requires |takes| < |order|
    ensures var k, u, left := |takes|, order[|takes|].uid, order[|takes|].shares - take;
      var p, a := Reductions(pt0, order, takes), Archivals(tt0, order, takes);
      && Reductions(pt0, order, takes + [take]) == (if left > 0.0 && u in p then p[u := p[u].(shares := left)] else p)
      && Archivals(tt0, order, takes + [take]) == (if left <= 0.0 && u in a then a[u := a[u].(status := ARCHIVED)] else a)
      && Emptied(order, takes + [take]) == (if left <= 0.0 then Emptied(order, takes) + [u] else Emptied(order, takes))
  {
    assert (takes + [take])[..|takes|] == takes;
  }

  /** The deletion loop of `sell_shares`: each uid in `rows` is removed from the user's portfolio table. */
  method RemoveRows(db: Databases, uuid: string, rows: seq<string>)
    modifies db
    ensures var p := old(db.State()).portfolios;
      db.State() == old(db.State()).(portfolios := if uuid in p then p[uuid := p[uuid] - set u | u in rows] else p)
  {
    ghost var s0 := db.State();
    ghost var gone: set<string> := {};
    if uuid in s0.portfolios {
      assert s0.portfolios[uuid] - gone == s0.portfolios[uuid];
      assert s0.portfolios[uuid := s0.portfolios[uuid] - gone] == s0.portfolios;
    }
    var k := 0;
    while k < |rows|
      invariant 0 <= k <= |rows|
      invariant forall u :: u in gone <==> u in rows[..k]
      invariant uuid in s0.portfolios ==> db.State() == s0.(portfolios := s0.portfolios[uuid := s0.portfolios[uuid] - gone])
      invariant uuid !in s0.portfolios ==> db.State() == s0
    {
      var _ := RemoveRowByUid(db, PortfoliosDb, uuid, rows[k]);
      if uuid in s0.portfolios {
        assert s0.portfolios[uuid] - gone - {rows[k]} == s0.portfolios[uuid] - (gone + {rows[k]});
      }
      assert rows[..k + 1] == rows[..k] + [rows[k]];
      gone := gone + {rows[k]};
      k := k + 1;
    }
    assert rows[..k] == rows;
    assert gone == set u | u in rows;
  }

  /**
   * The end of `sell_shares`: commit the two sessions' pending tables, where
   * the user has them, then delete the emptied lots from the portfolio.
   */
  method CommitSell(db: Databases, uuid: string, pending: Table, archived: Table, rows: seq<string>)
    modifies db
    ensures var (p, t) := (old(db.portfolios), old(db.transactions));
      db.State() == old(db.State()).(
        portfolios := if uuid in p then p[uuid := pending - set u | u in rows] else p,
        transactions := if uuid in t then t[uuid := archived] else t)
  {
    ghost var s0 := db.State();
    var hasPortfolio := uuid in db.portfolios;
    ghost var p1 := if hasPortfolio then s0.portfolios[uuid := pending] else s0.portfolios;
    ghost var t1 := if uuid in s0.transactions then s0.transactions[uuid := archived] else s0.transactions;
    if hasPortfolio {
      db.SetTables(PortfoliosDb, db.portfolios[uuid := pending]);
    }
    if uuid in db.transactions {
      db.SetTables(TransactionsDb, db.transactions[uuid := archived]);
    }
    assert db.State() == s0.(portfolios := p1, transactions := t1);
    ghost var gone := set u | u in rows;
    RemoveRows(db, uuid, rows);
    ghost var p2 := if hasPortfolio then s0.portfolios[uuid := pending - gone] else s0.portfolios;
    if hasPortfolio {
      assert p1[uuid := p1[uuid] - gone] == p2;
    }
    assert db.portfolios == p2;
  }

  /** `StockHandler`: its class attribute `status` is the only state of its own. */
  class StockHandler {
    var status: Status

    constructor ()
      ensures status == NoStatus
    {
      status := NoStatus;
    }

    /**
     * `sell_shares`: walk the user's buy lots of `symbol` in ascending
     * `abs(cost_per_share)`, reducing or emptying each, then commit and
     * delete the emptied lots from the portfolio. `listed` is the order in
     * which the query returned the lots.
     */
    method SellShares(db: Databases, uuid: string, symbol: string, shares: real, bid: Option<real>)
      returns (revenue: real, unsold: real, ghost listed: seq<Lot>)
      modifies db
      ensures shares > 0.0 && bid.Some? ==> ListsExactly(listed, BuyLots(old(db.State()).portfolios, uuid, symbol))
      ensures (db.State(), Sold(revenue, unsold)) == SellOutcome(old(db.State()), uuid, shares, bid, SortByAbsCost(listed))
    {
      listed := [];
      if shares <= 0.0 {
        return 0.0, shares, listed;
      }
      if bid.None? {
        return 0.0, shares, listed;
      }
      var lots := GetUserSharesBySymbol(db.portfolios, uuid, symbol);
      listed := lots;
      var order := SortByAbsCost(lots);
      var hasPortfolio := uuid in db.portfolios;
      var hasTransactions := uuid in db.transactions;
      assert !hasPortfolio ==> |order| == 0;
      var pt0: Table := if hasPortfolio then db.portfolios[uuid] else map[];
      var tt0: Table := if hasTransactions then db.transactions[uuid] else map[];
      var pending, archived, rowsToRemove, raised;
      revenue, unsold, pending, archived, rowsToRemove, raised := WalkLots(order, bid.value, shares, pt0, tt0, hasTransactions);
      ghost var s0 := db.State();
      ghost var w := SellWalk(order, bid.value, shares);
      if raised {
        // both sessions roll back
        return 0.0, shares, listed;
      }
      CommitSell(db, uuid, pending, archived, rowsToRemove);
      assert db.State() == Committed(s0, uuid, order, w.takes);
    }

    /** The covered-buy branch of `deal_with_transaction`, before the balance write. */
    method FileBuy(db: Databases, rec: StockRecord, uuid: string)
      modifies this, db, rec
      ensures Outcome(db.State(), rec.ToDict(), status) == FiledBuy(old(db.State()), old(rec.ToDict()), uuid)
    {
      rec.status := TRACKED;
      var dict := rec.ToDict();
      var okT := AddStockData(db, TransactionsDb, uuid, dict);
      var okP := AddStockData(db, PortfoliosDb, uuid, dict);
      if okT && okP {
        status := Bought(rec.shares, rec.costPerShare, rec.totalCost);
      } else {
        status := InternalServerError;
      }
    }

    /** The positive-sell branch of `deal_with_transaction` after the lot walk, before the balance write. */
    method FileSell(db: Databases, rec: StockRecord, uuid: string, revenue: real, unsold: real)
      modifies this, db, rec
      ensures Outcome(db.State(), rec.ToDict(), status) == FiledSell(old(db.State()), old(rec.ToDict()), uuid, Sold(revenue, unsold))
    {
      rec.shares := rec.shares - unsold;
      rec.status := ARCHIVED;
      var dict := rec.ToDict();
      var ok := AddStockData(db, TransactionsDb, uuid, dict);
      if ok {
        status := SoldShares(rec.shares, revenue, rec.costPerShare);
      } else {
        status := CouldNotSell;
      }
    }

    /** A covered buy: file the tracked record, then write the debited balance. */
    method BuyAndDebit(db: Databases, rec: StockRecord, uuid: string, balance: real)
      modifies this, db, rec
      ensures Outcome(db.State(), rec.ToDict(), status)
        == WithBalance(FiledBuy(old(db.State()), old(rec.ToDict()), uuid), uuid, balance - old(rec.totalCost))
    {
      var debited := balance - rec.totalCost;
      FileBuy(db, rec, uuid);
      UpdateBalance(db, uuid, debited);
    }

    /** A positive sell: walk the lots, file the archived record, then write the credited balance. */
    method SellAndCredit(db: Databases, rec: StockRecord, uuid: string, bid: Option<real>, balance: real)
      returns (ghost listed: seq<Lot>)
      modifies this, db, rec
      ensures old(rec.shares) > 0.0 && bid.Some?
        ==> ListsExactly(listed, BuyLots(old(db.State()).portfolios, uuid, old(rec.symbol)))
      ensures Outcome(db.State(), rec.ToDict(), status)
        == SoldAndCredited(old(db.State()), old(rec.ToDict()), uuid, bid, SortByAbsCost(listed), balance)
    {
      ghost var d0 := rec.ToDict();
      var revenue, unsold;
      revenue, unsold, listed := SellShares(db, uuid, rec.symbol, rec.shares, bid);
      ghost var s1 := db.State();
      assert (s1, Sold(revenue, unsold)) == SellOutcome(old(db.State()), uuid, d0.shares, bid, SortByAbsCost(listed));
      FileSell(db, rec, uuid, revenue, unsold);
      ghost var filed := Outcome(db.State(), rec.ToDict(), status);
      assert filed == FiledSell(s1, d0, uuid, Sold(revenue, unsold));
      UpdateBalance(db, uuid, balance + revenue);
      assert Outcome(db.State(), rec.ToDict(), status) == WithBalance(filed, uuid, balance + revenue);
      SoldAndCreditedSteps(old(db.State()), d0, uuid, bid, SortByAbsCost(listed), balance, s1, Sold(revenue, unsold));
    }

    /**
     * `deal_with_transaction`: settle `rec` for the user `uuid`. The record
     * is updated in place (status, and the share count on a shrunk buy or a
     * partial sell). `listed` is the query order of the lots a sell walks.
     */
    method DealWithTransaction(codecs: Codecs, db: Databases, rec: StockRecord, uuid: string, bid: Option<real>)
      returns (ghost listed: seq<Lot>)
      requires rec.costPerShare == 0.0 ==> rec.totalCost == 0.0
      modifies this, db, rec
      ensures ReachesWalk(codecs, old(db.State()), old(rec.ToDict()), uuid) && bid.Some?
        ==> ListsExactly(listed, BuyLots(old(db.State()).portfolios, uuid, old(rec.symbol)))
      ensures Outcome(db.State(), rec.ToDict(), status)
        == Settle(codecs, old(db.State()), old(rec.ToDict()), uuid, bid, SortByAbsCost(listed), old(status))
      decreases RetryBound(codecs, db.State(), rec.ToDict(), uuid), 2
    {
      listed := [];
      ghost var s0 := db.State();
      var savedUser := GetUserFromUserbase(codecs, db.userbase, "uuid", uuid);
      if savedUser.None? {
        status := InternalServerError;
        return;
      }
      assert SavedUser(codecs, s0, uuid) == savedUser;
      var balance := savedUser.value.balance;
      if rec.side == "buy" {
        listed := DealWithBuy(codecs, db, rec, uuid, bid, savedUser.value);
      } else if rec.side == "sell" {
        listed := DealWithSell(db, rec, uuid, bid, balance);
      } else {
        UpdateBalance(db, uuid, balance);
      }
    }

    /** The buy side of `deal_with_transaction` for the found user `user`. */
    method DealWithBuy(codecs: Codecs, db: Databases, rec: StockRecord, uuid: string, bid: Option<real>, user: User)
      returns (ghost listed: seq<Lot>)
      requires rec.costPerShare == 0.0 ==> rec.totalCost == 0.0
      requires SavedUser(codecs, db.State(), uuid) == Some(user) && rec.side == "buy"
      modifies this, db, rec
      ensures Outcome(db.State(), rec.ToDict(), status)
        == Settle(codecs, old(db.State()), old(rec.ToDict()), uuid, bid, SortByAbsCost(listed), old(status))
      decreases RetryBound(codecs, db.State(), rec.ToDict(), uuid), 1
    {
      listed := [];
      ghost var s0, d0, status0 := db.State(), rec.ToDict(), status;
      var balance := user.balance;
      if balance >= rec.totalCost {
        SettleBuy(codecs, s0, d0, uuid, bid, SortByAbsCost(listed), status0, user);
        BuyAndDebit(db, rec, uuid, balance);
      } else if rec.costPerShare != 0.0 && balance / rec.costPerShare >= 1.0 {
        listed := RetryBuy(codecs, db, rec, uuid, bid, user);
      } else {
        SettleBuy(codecs, s0, d0, uuid, bid, SortByAbsCost(listed), status0, user);
        status := InternalServerError;
        UpdateBalance(db, uuid, balance);
      }
    }

    /** The recursive call for the largest order the balance covers: `balance / cost_per_share` shares. */
    method RetryBuy(codecs: Codecs, db: Databases, rec: StockRecord, uuid: string, bid: Option<real>, user: User)
      returns (ghost listed: seq<Lot>)
      requires rec.costPerShare == 0.0 ==> rec.totalCost == 0.0
      requires SavedUser(codecs, db.State(), uuid) == Some(user) && rec.side == "buy"
      requires user.balance < rec.totalCost && rec.costPerShare != 0.0 && user.balance / rec.costPerShare >= 1.0
      modifies this, db, rec
      ensures Outcome(db.State(), rec.ToDict(), status)
        == Settle(codecs, old(db.State()), old(rec.ToDict()), uuid, bid, SortByAbsCost(listed), old(status))
      decreases RetryBound(codecs, db.State(), rec.ToDict(), uuid), 0
    {
      ghost var s0, d0, status0 := db.State(), rec.ToDict(), status;
      var balance := user.balance;
      rec.shares := balance / rec.costPerShare;
      rec.UpdateTotalCost();
      assert rec.totalCost == balance;
      assert rec.ToDict() == Shrunk(d0, balance);
      listed := DealWithTransaction(codecs, db, rec, uuid, bid);
      SettleBuy(codecs, s0, d0, uuid, bid, SortByAbsCost(listed), status0, user);
    }

    /** The sell side of `deal_with_transaction` for a found user whose balance is `balance`. */
    method DealWithSell(db: Databases, rec: StockRecord, uuid: string, bid: Option<real>, balance: real)
      returns (ghost listed: seq<Lot>)
      modifies this, db, rec
      ensures uuid in old(db.transactions) && old(rec.shares) > 0.0 && bid.Some?
        ==> ListsExactly(listed, BuyLots(old(db.State()).portfolios, uuid, old(rec.symbol)))
      ensures Outcome(db.State(), rec.ToDict(), status)
        == SettledSell(old(db.State()), old(rec.ToDict()), uuid, bid, SortByAbsCost(listed), old(status), balance)
    {
      listed := [];
      if uuid !in db.transactions {
        return;
      }
      if rec.shares <= 0.0 {
        status := CannotSellNonPositive;
        return;
      }
      listed := SellAndCredit(db, rec, uuid, bid, balance);
    }
  }

  /** The three buy branches of `Settle` for a found user. */
  lemma SettleBuy(codecs: Codecs, s: DbState, d: StockData, uuid: string, bid: Option<real>, order: seq<Lot>, status: Status, user: User)
    requires d.costPerShare == 0.0 ==> d.totalCost == 0.0
    requires SavedUser(codecs, s, uuid) == Some(user) && d.side == "buy"
    ensures var b, o := user.balance, Settle(codecs, s, d, uuid, bid, order, status);
      && (b >= d.totalCost ==> o == WithBalance(FiledBuy(s, d, uuid), uuid, b - d.totalCost))
      && (b < d.totalCost && CanRetry(d, b) ==> o == Settle(codecs, s, Shrunk(d, b), uuid, bid, order, status))
      && (b < d.totalCost && !CanRetry(d, b) ==> o == WithBalance(Outcome(s, d, InternalServerError), uuid, b))
  {
  }

  /** A positive sell of a found user with a transactions table is the walk and the credit. */
  lemma SettleSell(codecs: Codecs, s: DbState, d: StockData, uuid: string, bid: Option<real>, order: seq<Lot>, status: Status, user: User)
    requires d.costPerShare == 0.0 ==> d.totalCost == 0.0
    requires SavedUser(codecs, s, uuid) == Some(user) && d.side == "sell" && uuid in s.transactions && d.shares > 0.0
    ensures Settle(codecs, s, d, uuid, bid, order, status) == SoldAndCredited(s, d, uuid, bid, order, user.balance)
  {
  }

  // ---------------------------------------------------------------------
  // What a settlement promises

  /** Every balance in the userbase is at least 0. */
  predicate SolventUsers(users: seq<User>) {
    forall i :: 0 <= i < |users| ==> users[i].balance >= 0.0
  }

  /** Without the user's row nothing is written and the status is "Internal Server Error". */
  lemma MissingUserChangesNothing(codecs: Codecs, s: DbState, d: StockData, uuid: string, bid: Option<real>, order: seq<Lot>, status: Status)
    requires d.costPerShare == 0.0 ==> d.totalCost == 0.0
    requires SavedUser(codecs, s, uuid).None?
    ensures Settle(codecs, s, d, uuid, bid, order, status) == Outcome(s, d, InternalServerError)
  {
  }

  /**
   * A covered buy debits exactly the total cost, tracks the record, and
   * files the identical row under its uid in both databases; the debit
   * happens even when an insert fails.
   */
  lemma CoveredBuyDebits(codecs: Codecs, s: DbState, d: StockData, uuid: string, bid: Option<real>, order: seq<Lot>, status: Status, user: User)
    requires d.costPerShare == 0.0 ==> d.totalCost == 0.0
    requires SavedUser(codecs, s, uuid) == Some(user) && d.side == "buy" && user.balance >= d.totalCost
    ensures var o := Settle(codecs, s, d, uuid, bid, order, status);
      && o.record == d.(status := TRACKED)
      && o.state.userbase == SetBalance(s.userbase, uuid, user.balance - d.totalCost)
      && (o.status == Bought(d.shares, d.costPerShare, d.totalCost) <==>
            && d.uid.Some?
            && !DoesRowExistInTable(s.transactions, uuid, d.uid.value)
            && !DoesRowExistInTable(s.portfolios, uuid, d.uid.value))
      && (!o.status.Bought? ==> o.status == InternalServerError)
      && (o.status.Bought? ==> o.state.transactions[uuid][d.uid.value] == o.record == o.state.portfolios[uuid][d.uid.value])
  {
  }

  /**
   * An uncovered buy whose shrunk order is at least one share is settled as
   * that order: `balance / cost_per_share` shares costing exactly the
   * balance, which leaves the balance 0.
   */
  lemma RetriedBuySpendsTheBalance(codecs: Codecs, s: DbState, d: StockData, uuid: string, bid: Option<real>, order: seq<Lot>, status: Status, user: User)
    requires d.costPerShare == 0.0 ==> d.totalCost == 0.0
    requires SavedUser(codecs, s, uuid) == Some(user) && d.side == "buy" && user.balance < d.totalCost
    requires CanRetry(d, user.balance)
    ensures var o := Settle(codecs, s, d, uuid, bid, order, status);
      && o == WithBalance(FiledBuy(s, Shrunk(d, user.balance), uuid), uuid, 0.0)
      && o.record.shares == user.balance / d.costPerShare >= 1.0
      && o.record.totalCost == user.balance
  {
    var d' := Shrunk(d, user.balance);
    assert d'.totalCost == user.balance;
    CoveredBuyDebits(codecs, s, d', uuid, bid, order, status, user);
  }

  // ---------------------------------------------------------------------
  // The retry in double arithmetic

  /** The division and multiplication the buy branch computes with, rounding included. */
  datatype Arith = Arith(div: (real, real) -> real, mul: (real, real) -> real)

  /** Exact arithmetic, the one `Settle` computes with. */
  function Exact(): Arith {
    Arith((x: real, y: real) => if y == 0.0 then 0.0 else x / y, (x: real, y: real) => x * y)
  }

  /** How the buy branch of a found user ends: filed with some share count, refused, or out of stack. */
  datatype BuyEnd = FiledAt(shares: real) | Refused | RecursionLimit

  /**
   * The buy branch as written, in the arithmetic `a`: an order is filed
   * when the balance covers `shares * cost_per_share`; otherwise it is
   * shrunk to `balance / cost_per_share` shares and settled again, as long
   * as that is at least one share. `depth` is the recursion the
   * interpreter still allows.
   */
  function BuyAsWritten(a: Arith, balance: real, shares: real, cost: real, depth: nat): BuyEnd
    decreases depth
  {
    if balance >= a.mul(shares, cost) then FiledAt(shares)
    else
      var maxShares := a.div(balance, cost);
      if maxShares < 1.0 then Refused
      else if depth == 0 then RecursionLimit
      else BuyAsWritten(a, balance, maxShares, cost, depth - 1)
  }

  /**
   * When rounding makes `(balance / cost) * cost` exceed the balance, the
   * shrunk order is no more affordable than the first: every retry
   * recomputes the same share count, and the recursion only ends at the
   * interpreter's limit.
   */
  lemma {:induction false} RoundedRetryNeverSettles(a: Arith, balance: real, shares: real, cost: real, depth: nat)
    requires balance < a.mul(shares, cost)
    requires a.div(balance, cost) >= 1.0
    requires balance < a.mul(a.div(balance, cost), cost)
    ensures BuyAsWritten(a, balance, shares, cost, depth) == RecursionLimit
    decreases depth
  {
    if depth > 0 {
      RoundedRetryNeverSettles(a, balance, a.div(balance, cost), cost, depth - 1);
    }
  }

  /** In exact arithmetic one retry settles, at `balance / cost` shares. */
  lemma ExactRetrySettles(balance: real, shares: real, cost: real, depth: nat)
    requires cost != 0.0 && balance < shares * cost && balance / cost >= 1.0 && depth >= 1
    ensures BuyAsWritten(Exact(), balance, shares, cost, depth) == FiledAt(balance / cost)
  {
    var m := balance / cost;
    assert Exact().div(balance, cost) == m;
    assert Exact().mul(m, cost) == balance;
    assert BuyAsWritten(Exact(), balance, m, cost, depth - 1) == FiledAt(m);
  }

  /** Writing a user's own balance back leaves the userbase as it was, the uuid being the primary key. */
  lemma RewriteKeepsUserbase(users: seq<User>, user: User)
    requires UniqueUuids(users) && user in users
    ensures SetBalance(users, user.uuid, user.balance) == users
  {
    var j :| 0 <= j < |users| && users[j] == user;
    var r := SetBalance(users, user.uuid, user.balance);
    forall i | 0 <= i < |users|
      ensures r[i] == users[i]
    {
      if users[i].uuid == user.uuid {
        assert i == j;
      }
    }
  }

  /**
   * An uncovered buy that cannot be shrunk to one share, and a record whose
   * side is neither buy nor sell, change no table: the balance is written
   * back unchanged.
   */
  lemma UnsettledChangesNothing(codecs: Codecs, s: DbState, d: StockData, uuid: string, bid: Option<real>, order: seq<Lot>, status: Status, user: User)
    requires d.costPerShare == 0.0 ==> d.totalCost == 0.0
    requires UniqueUuids(s.userbase) && SavedUser(codecs, s, uuid) == Some(user)
    ensures d.side == "buy" && user.balance < d.totalCost && !CanRetry(d, user.balance)
      ==> Settle(codecs, s, d, uuid, bid, order, status) == Outcome(s, d, InternalServerError)
    ensures d.side != "buy" && d.side != "sell"
      ==> Settle(codecs, s, d, uuid, bid, order, status) == Outcome(s, d, status)
  {
    RewriteKeepsUserbase(s.userbase, user);
  }

  /**
   * A sell of no shares returns before touching the lots, with status
   * "Cannot buy 0 or fewer shares" (sic); a user without a transactions table gets
   * the status the handler already held. Neither writes anything.
   */
  lemma EarlyReturnsChangeNothing(codecs: Codecs, s: DbState, d: StockData, uuid: string, bid: Option<real>, order: seq<Lot>, status: Status)
    requires d.costPerShare == 0.0 ==> d.totalCost == 0.0
    requires SavedUser(codecs, s, uuid).Some? && d.side == "sell"
    ensures uuid !in s.transactions ==> Settle(codecs, s, d, uuid, bid, order, status) == Outcome(s, d, status)
    ensures uuid in s.transactions && d.shares <= 0.0
      ==> Settle(codecs, s, d, uuid, bid, order, status) == Outcome(s, d, CannotSellNonPositive)
  {
  }

  /**
   * A positive sell with a bid credits `(shares - unsold) * bid`, files the
   * record with the shares actually sold (between 0 and the request) and
   * status archived, and changes nothing else in the userbase.
   */
  lemma SellCreditsTheRevenue(codecs: Codecs, s: DbState, d: StockData, uuid: string, bid: real, order: seq<Lot>, status: Status, user: User)
    requires d.costPerShare == 0.0 ==> d.totalCost == 0.0
    requires SavedUser(codecs, s, uuid) == Some(user) && d.side == "sell" && uuid in s.transactions && d.shares > 0.0
    requires NonNegativeLots(order)
    ensures var o := Settle(codecs, s, d, uuid, Some(bid), order, status);
      var sold := SellOutcome(s, uuid, d.shares, Some(bid), order).1;
      && o.record == d.(shares := d.shares - sold.unsold, status := ARCHIVED)
      && 0.0 <= sold.unsold <= d.shares
      && sold.revenue == (d.shares - sold.unsold) * bid
      && o.state.userbase == SetBalance(s.userbase, uuid, user.balance + sold.revenue)
      && (o.status.SoldShares? ==> d.uid.Some? && o.state.transactions[uuid][d.uid.value] == o.record)
      && (!o.status.SoldShares? ==> o.status == CouldNotSell)
  {
    SettleSell(codecs, s, d, uuid, Some(bid), order, status, user);
    SoldAndCreditedFacts(s, d, uuid, bid, order, user.balance, Settle(codecs, s, d, uuid, Some(bid), order, status));
  }

  /** What a positive sell with a bid files and credits, stated on its parts. */
  lemma SoldAndCreditedFacts(s: DbState, d: StockData, uuid: string, bid: real, order: seq<Lot>, balance: real, o: Outcome)
    requires d.shares > 0.0 && NonNegativeLots(order)
    requires o == SoldAndCredited(s, d, uuid, Some(bid), order, balance)
    ensures var sold := SellOutcome(s, uuid, d.shares, Some(bid), order).1;
      && o.record == d.(shares := d.shares - sold.unsold, status := ARCHIVED)
      && 0.0 <= sold.unsold <= d.shares
      && sold.revenue == (d.shares - sold.unsold) * bid
      && o.state.userbase == SetBalance(s.userbase, uuid, balance + sold.revenue)
      && (o.status.SoldShares? ==> d.uid.Some? && o.state.transactions[uuid][d.uid.value] == o.record)
      && (!o.status.SoldShares? ==> o.status == CouldNotSell)
  {
    SellOutcomeBounds(s, uuid, d.shares, bid, order);
    var (s', sold) := SellOutcome(s, uuid, d.shares, Some(bid), order);
    assert s'.userbase == s.userbase;
  }

  /**
   * No settlement drives a balance below 0, given solvent users, a
   * nonnegative bid and lots with nonnegative share counts.
   */
  lemma SettleKeepsUsersSolvent(codecs: Codecs, s: DbState, d: StockData, uuid: string, bid: Option<real>, order: seq<Lot>, status: Status)
    requires d.costPerShare == 0.0 ==> d.totalCost == 0.0
    requires SolventUsers(s.userbase) && NonNegativeLots(order)
    requires bid.Some? ==> bid.value >= 0.0
    ensures SolventUsers(Settle(codecs, s, d, uuid, bid, order, status).state.userbase)
  {
    match SavedUser(codecs, s, uuid)
    case None =>
    case Some(user) =>
      assert user.balance >= 0.0;
      if d.side == "buy" {
        BuyKeepsUsersSolvent(codecs, s, d, uuid, bid, order, status, user);
      } else if d.side == "sell" {
        if uuid in s.transactions && d.shares > 0.0 {
          SellKeepsUsersSolvent(codecs, s, d, uuid, bid, order, status, user);
        }
      } else {
        assert Settle(codecs, s, d, uuid, bid, order, status) == WithBalance(Outcome(s, d, status), uuid, user.balance);
        WriteKeepsUsersSolvent(s.userbase, uuid, user.balance);
      }
  }

  lemma BuyKeepsUsersSolvent(codecs: Codecs, s: DbState, d: StockData, uuid: string, bid: Option<real>, order: seq<Lot>, status: Status, user: User)
    requires d.costPerShare == 0.0 ==> d.totalCost == 0.0
    requires SolventUsers(s.userbase) && user.balance >= 0.0
    requires SavedUser(codecs, s, uuid) == Some(user) && d.side == "buy"
    ensures SolventUsers(Settle(codecs, s, d, uuid, bid, order, status).state.userbase)
  {
    if user.balance >= d.totalCost {
      CoveredBuyDebits(codecs, s, d, uuid, bid, order, status, user);
      WriteKeepsUsersSolvent(s.userbase, uuid, user.balance - d.totalCost);
    } else if CanRetry(d, user.balance) {
      RetriedBuySpendsTheBalance(codecs, s, d, uuid, bid, order, status, user);
      WriteKeepsUsersSolvent(s.userbase, uuid, 0.0);
    } else {
      assert Settle(codecs, s, d, uuid, bid, order, status) == WithBalance(Outcome(s, d, InternalServerError), uuid, user.balance);
      WriteKeepsUsersSolvent(s.userbase, uuid, user.balance);
    }
  }

  lemma SellKeepsUsersSolvent(codecs: Codecs, s: DbState, d: StockData, uuid: string, bid: Option<real>, order: seq<Lot>, status: Status, user: User)
    requires d.costPerShare == 0.0 ==> d.totalCost == 0.0
    requires SolventUsers(s.userbase) && user.balance >= 0.0 && NonNegativeLots(order)
    requires bid.Some? ==> bid.value >= 0.0
    requires SavedUser(codecs, s, uuid) == Some(user) && d.side == "sell" && uuid in s.transactions && d.shares > 0.0
    ensures SolventUsers(Settle(codecs, s, d, uuid, bid, order, status).state.userbase)
  {
    SettleSell(codecs, s, d, uuid, bid, order, status, user);
    if bid.Some? {
      var b := bid.value;
      assert bid == Some(b);
      SoldAndCreditedFacts(s, d, uuid, b, order, user.balance, SoldAndCredited(s, d, uuid, bid, order, user.balance));
      RevenueNonNegative(s, uuid, d.shares, b, order);
      WriteKeepsUsersSolvent(s.userbase, uuid, user.balance + SellOutcome(s, uuid, d.shares, Some(b), order).1.revenue);
    } else {
      assert SellOutcome(s, uuid, d.shares, bid, order) == (s, Sold(0.0, d.shares));
      WriteKeepsUsersSolvent(s.userbase, uuid, user.balance);
    }
  }

  /** A sell at a nonnegative bid never has negative revenue. */
  lemma RevenueNonNegative(s: DbState, uuid: string, shares: real, bid: real, order: seq<Lot>)
    requires shares > 0.0 && NonNegativeLots(order) && bid >= 0.0
    ensures SellOutcome(s, uuid, shares, Some(bid), order).1.revenue >= 0.0
  {
    SellOutcomeBounds(s, uuid, shares, bid, order);
    var sold := SellOutcome(s, uuid, shares, Some(bid), order).1;
    NonNegativeProduct(shares - sold.unsold, bid);
  }

  lemma WriteKeepsUsersSolvent(users: seq<User>, uuid: string, b: real)
    requires SolventUsers(users) && b >= 0.0
    ensures SolventUsers(SetBalance(users, uuid, b))
  {
  }

  lemma NonNegativeProduct(x: real, y: real)
    requires x >= 0.0 && y >= 0.0
    ensures x * y >= 0.0
  {
  }
}
