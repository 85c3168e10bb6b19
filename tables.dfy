/** The contract's three tables, their row types and primary keys, and the two
    read-only queries other contracts use to look into them. A table is a map
    from primary key to row; the accounts table is scoped by owner, so its map
    is keyed by (owner, primary key). */
module Tables {
  import opened Eosio

  /** A balance row of the accounts table; one per (owner, symbol code). */
  datatype Account = Account(balance: Asset) {
    function PrimaryKey(): SymbolCode { balance.symbol.code }
  }

  /** A token descriptor of the stat table; one per symbol code. */
  datatype CurrencyStats = CurrencyStats(supply: Asset, maxSupply: Asset, issuer: Name) {
    function PrimaryKey(): SymbolCode { supply.symbol.code }
  }

  /** A blacklist row; one per user. `regTime` is the host clock at insertion. */
  datatype BlacklistEntry = BlacklistEntry(regTime: nat, user: Name) {
    function PrimaryKey(): Name { user }
  }

  /** The scope (owner) and primary key (symbol code) of a balance row. */
  type AccountKey = (Name, SymbolCode)

  type StatsTable = map<SymbolCode, CurrencyStats>
  type AccountsTable = map<AccountKey, Account>
  type BlacklistTable = map<Name, BlacklistEntry>

  /** Every stored row sits under its own primary key. */
  ghost predicate StatsKeyed(stats: StatsTable) {
    forall code :: code in stats ==> stats[code].PrimaryKey() == code
  }

  ghost predicate AccountsKeyed(accounts: AccountsTable) {
    forall k :: k in accounts ==> accounts[k].PrimaryKey() == k.1
  }

  ghost predicate BlacklistKeyed(blacklist: BlacklistTable) {
    forall u :: u in blacklist ==> blacklist[u].PrimaryKey() == u
  }

  /** get_supply: the stored supply of the descriptor for `code`; a missing
      descriptor aborts the caller. */
  function GetSupply(stats: StatsTable, code: SymbolCode): (r: Result<Asset>)
    ensures r.Ok? <==> code in stats
    ensures r.Err? ==> r.error == KeyNotFound
    ensures r.Ok? ==> r.value == stats[code].supply
  {
    if code in stats then Ok(stats[code].supply) else Err(KeyNotFound)
  }

  /** get_balance: the stored balance of `owner`'s row for `code`; a missing row
      aborts the caller. */
  function GetBalance(accounts: AccountsTable, owner: Name, code: SymbolCode): (r: Result<Asset>)
    ensures r.Ok? <==> (owner, code) in accounts
    ensures r.Err? ==> r.error == KeyNotFound
    ensures r.Ok? ==> r.value == accounts[(owner, code)].balance
  {
    if (owner, code) in accounts then Ok(accounts[(owner, code)].balance) else Err(KeyNotFound)
  }

  /** At most one descriptor per symbol code: any stored descriptor whose
      primary key is `code` is the one `GetSupply` reads. */
  lemma StatsRowUnique(stats: StatsTable, code: SymbolCode, row: CurrencyStats)
    requires StatsKeyed(stats)
    requires row in stats.Values && row.PrimaryKey() == code
    ensures GetSupply(stats, code) == Ok(row.supply)
  {
    var c :| c in stats && stats[c] == row;
  }

  /** At most one balance per (owner, symbol code): any row in `owner`'s scope
      whose primary key is `code` is the one `GetBalance` reads. */
  lemma AccountRowUnique(accounts: AccountsTable, owner: Name, code: SymbolCode, k: AccountKey)
    requires AccountsKeyed(accounts)
    requires k in accounts && k.0 == owner && accounts[k].PrimaryKey() == code
    ensures GetBalance(accounts, owner, code) == Ok(accounts[k].balance)
  {
  }

  /** At most one blacklist entry per user. */
  lemma BlacklistRowUnique(blacklist: BlacklistTable, row: BlacklistEntry)
    requires BlacklistKeyed(blacklist)
    requires row in blacklist.Values
    ensures row.user in blacklist && blacklist[row.user] == row
  {
    var u :| u in blacklist && blacklist[u] == row;
  }
}
