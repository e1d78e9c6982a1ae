/**
 * The order record of the trading backend: its status tags, its value as a
 * table row (`StockData`, what `to_dict` yields and what a table stores) and
 * the mutable record object that the settlement engine updates in place.
 */
module StockRecords {
  import opened Wrappers

  /** Opaque creation time; the source evaluates `datetime.now()` once, at import. */
  type Timestamp = int

  /** The three lifecycle tags of a record. */
  datatype Statuses = Pending | Tracked | Archived {
    function Value(): string {
      match this
      case Pending => "pending"
      case Tracked => "tracked"
      case Archived => "archived"
    }
  }

  const PENDING: string := Statuses.Pending.Value()
  const TRACKED: string := Statuses.Tracked.Value()
  const ARCHIVED: string := Statuses.Archived.Value()

  /** `Statuses(v)`: the member whose value is `v`, if there is one. */
  function StatusFromValue(v: string): (r: Option<Statuses>)
    ensures r.Some? <==> v in {"pending", "tracked", "archived"}
    ensures r.Some? ==> r.value.Value() == v
  {
    if v == "pending" then Some(Pending)
    else if v == "tracked" then Some(Tracked)
    else if v == "archived" then Some(Archived)
    else None
  }

  /** Distinct members have distinct values, so `StatusFromValue` inverts `Value`. */
  lemma StatusValueRoundTrip(s: Statuses)
    ensures StatusFromValue(s.Value()) == Some(s)
  {
  }

  /**
   * A record as a table row: the ten fields of the record, in declaration
   * order. `uid` is optional because a row handed to the store may lack one.
   */
  datatype StockData = StockData(
    uid: Option<string>,
    timestamp: Timestamp,
    symbol: string,
    side: string,
    orderType: string,
    shares: real,
    costPerShare: real,
    totalCost: real,
    status: string,
    notes: Option<string>)

  /** `update_total_cost` on a row value. */
  function WithTotalCost(d: StockData): StockData {
    d.(totalCost := d.shares * d.costPerShare)
  }

  /** Recomputing the total twice is the same as once, and only `totalCost` moves. */
  lemma WithTotalCostIdempotent(d: StockData)
    ensures WithTotalCost(WithTotalCost(d)) == WithTotalCost(d)
    ensures WithTotalCost(d).(totalCost := d.totalCost) == d
  {
  }

  /** The record object, whose fields the settlement engine assigns. */
  class StockRecord {
    var uid: string
    var timestamp: Timestamp
    var symbol: string
    var side: string
    var orderType: string
    var shares: real
    var costPerShare: real
    var totalCost: real
    var status: string
    var notes: Option<string>

    /** `to_dict()`: a snapshot of every field. */
    function ToDict(): (d: StockData)
      reads this
      ensures d.uid == Some(uid)
    {
      StockData(Some(uid), timestamp, symbol, side, orderType, shares, costPerShare, totalCost, status, notes)
    }

    /**
     * `StockRecord(symbol, side, order_type, shares, cost_per_share, status, notes)`
     * followed by `__post_init__`. `freshUid` is what `uuid4` produced and
     * `importTime` the class-level default timestamp.
     */
    constructor (freshUid: string, importTime: Timestamp, symbol: string, side: string, orderType: string,
                 shares: real, costPerShare: real, status: string := PENDING, notes: Option<string> := None)
      ensures ToDict() == StockData(Some(freshUid), importTime, symbol, side, orderType,
                                    shares, costPerShare, shares * costPerShare, status, notes)
    {
      this.uid := freshUid;
      this.timestamp := importTime;
      this.symbol := symbol;
      this.side := side;
      this.orderType := orderType;
      this.shares := shares;
      this.costPerShare := costPerShare;
      this.totalCost := shares * costPerShare;
      this.status := status;
      this.notes := notes;
    }

    /** `update_total_cost`: recompute the total from the current share count. */
    method UpdateTotalCost()
      modifies this
      ensures ToDict() == WithTotalCost(old(ToDict()))
    {
      totalCost := shares * costPerShare;
    }

    /** `create_new_uid`: replace the uid and nothing else. */
    method CreateNewUid(freshUid: string)
      modifies this
      ensures ToDict() == old(ToDict()).(uid := Some(freshUid))
    {
      uid := freshUid;
    }
  }
}
