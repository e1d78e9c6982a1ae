/**
 * The persistent state the core works on: the userbase table and the two
 * per-user databases (transactions and portfolios), each a collection of
 * tables named after a user's uuid. Engines, sessions and schema reflection
 * are not modelled; a table is a map from row uid to row.
 */
module Databases {
  import opened Wrappers
  import opened StockRecords

  /** One user table: row uid to row. */
  type Table = map<string, StockData>

  /** A row of the userbase table. */
  datatype User = User(uuid: string, email: string, username: string, password: string, balance: real)

  /** The two databases whose tables are created per user. */
  datatype DynamicDb = TransactionsDb | PortfoliosDb

  /** Every row is stored under its own uid, so uids are unique in a table. */
  ghost predicate WellKeyed(t: Table) {
    forall u :: u in t ==> t[u].uid == Some(u)
  }

  ghost predicate AllWellKeyed(tables: map<string, Table>) {
    forall n :: n in tables ==> WellKeyed(tables[n])
  }

  /** A snapshot of all three databases. */
  datatype DbState = DbState(userbase: seq<User>, transactions: map<string, Table>, portfolios: map<string, Table>) {
    function Tables(db: DynamicDb): map<string, Table> {
      match db
      case TransactionsDb => transactions
      case PortfoliosDb => portfolios
    }

    function WithTables(db: DynamicDb, ts: map<string, Table>): DbState {
      match db
      case TransactionsDb => this.(transactions := ts)
      case PortfoliosDb => this.(portfolios := ts)
    }
  }

  /** The module-level engines and metadata of the source, as one mutable object. */
  class Databases {
    var userbase: seq<User>
    var transactions: map<string, Table>
    var portfolios: map<string, Table>

    function State(): DbState
      reads this
    {
      DbState(userbase, transactions, portfolios)
    }

    constructor (userbase: seq<User>, transactions: map<string, Table>, portfolios: map<string, Table>)
      ensures State() == DbState(userbase, transactions, portfolios)
    {
      this.userbase := userbase;
      this.transactions := transactions;
      this.portfolios := portfolios;
    }

    /** Commit a new set of tables for one database. */
    method SetTables(db: DynamicDb, ts: map<string, Table>)
      modifies this
      ensures State() == old(State()).WithTables(db, ts)
    {
      match db
      case TransactionsDb => transactions := ts;
      case PortfoliosDb => portfolios := ts;
    }

    /** Commit a new userbase table. */
    method SetUserbase(users: seq<User>)
      modifies this
      ensures State() == old(State()).(userbase := users)
    {
      userbase := users;
    }
  }
}
