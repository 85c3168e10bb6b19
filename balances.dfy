/** Balance accounting: the per-symbol sum of balances, the table updates done
    by add_balance, sub_balance, open and close, the ledger invariant, and the
    lemmas that every successful action keeps it. */
module Balances {
  import opened Eosio
  import opened Tables

  /** The amount row `k` contributes to the holdings of `code`. */
  function Share(m: AccountsTable, k: AccountKey, code: SymbolCode): (s: int)
    requires k in m
  {
    if k.1 == code then m[k].balance.amount else 0
  }

  /** Some row of a non-empty table. */
  ghost function Pick(m: AccountsTable): (k: AccountKey)
    requires |m| > 0
    ensures k in m
  {
    assert m.Keys != {};
    var k :| k in m; k
  }

  /** The sum of all balances of `code`, over every owner. */
  ghost function Total(m: AccountsTable, code: SymbolCode): (t: int)
    decreases |m|
  {
    if |m| == 0 then 0
    else
      var k := Pick(m);
      assert (m - {k}).Keys == m.Keys - {k};
      Share(m, k, code) + Total(m - {k}, code)
  }

  /** The balance of `owner` in `code`, zero when there is no row. */
  function Balance(m: AccountsTable, owner: Name, code: SymbolCode): (b: int) {
    if (owner, code) in m then m[(owner, code)].balance.amount else 0
  }

  // ---------------------------------------------------------------------------
  // The sum, row by row

  /** The sum does not depend on the order rows are taken in: any row can be
      split off first. */
  lemma {:induction false} TotalRemove(m: AccountsTable, k: AccountKey, code: SymbolCode)
    requires k in m
    ensures Total(m, code) == Share(m, k, code) + Total(m - {k}, code)
    decreases |m|
  {
    assert m.Keys == (m.Keys - {k}) + {k};
    var j := Pick(m);
    if j != k {
      var mj, mk := m - {j}, m - {k};
      assert mj.Keys == m.Keys - {j};
      assert mk.Keys == m.Keys - {k};
      assert k in mj && Share(mj, k, code) == Share(m, k, code);
      assert j in mk && Share(mk, j, code) == Share(m, j, code);
      TotalRemove(mj, k, code);
      TotalRemove(mk, j, code);
      assert mj - {k} == mk - {j};
    }
  }

  /** Replacing (or inserting) one row changes the sum by that row alone. */
  lemma TotalReplace(m: AccountsTable, k: AccountKey, row: Account, code: SymbolCode)
    ensures Total(m[k := row], code)
         == Total(m, code) - (if k in m then Share(m, k, code) else 0)
                           + (if k.1 == code then row.balance.amount else 0)
  {
    var m' := m[k := row];
    TotalRemove(m', k, code);
    assert m' - {k} == m - {k};
    if k in m {
      TotalRemove(m, k, code);
    } else {
      assert m - {k} == m;
    }
  }

  /** Holdings are never negative when no balance is. */
  lemma {:induction false} TotalNonNegative(m: AccountsTable, code: SymbolCode)
    requires forall k :: k in m ==> m[k].balance.amount >= 0
    ensures Total(m, code) >= 0
    decreases |m|
  {
    if |m| > 0 {
      var k :| k in m;
      TotalRemove(m, k, code);
      assert (m - {k}).Keys == m.Keys - {k};
      TotalNonNegative(m - {k}, code);
    }
  }

  /** No single balance exceeds the holdings of its symbol. */
  lemma ShareAtMostTotal(m: AccountsTable, k: AccountKey, code: SymbolCode)
    requires forall k' :: k' in m ==> m[k'].balance.amount >= 0
    requires k in m
    ensures Share(m, k, code) <= Total(m, code)
  {
    TotalRemove(m, k, code);
    TotalNonNegative(m - {k}, code);
  }

  /** A code no row is kept under has no holdings. */
  lemma {:induction false} TotalOfAbsentCode(m: AccountsTable, code: SymbolCode)
    requires forall k :: k in m ==> k.1 != code
    ensures Total(m, code) == 0
    decreases |m|
  {
    if |m| > 0 {
      var k :| k in m;
      TotalRemove(m, k, code);
      assert (m - {k}).Keys == m.Keys - {k};
      TotalOfAbsentCode(m - {k}, code);
    }
  }

  // ---------------------------------------------------------------------------
  // Table updates

  /** add_balance: a row holding `value` is created when the owner has none,
      otherwise `value` is added to the existing row. */
  function Credit(m: AccountsTable, owner: Name, value: Asset): (r: AccountsTable)
    ensures (owner, value.symbol.code) in r
    ensures Balance(r, owner, value.symbol.code) == Balance(m, owner, value.symbol.code) + value.amount
    ensures r[(owner, value.symbol.code)].balance.symbol
         == if (owner, value.symbol.code) in m then m[(owner, value.symbol.code)].balance.symbol else value.symbol
    ensures r.Keys == m.Keys + {(owner, value.symbol.code)}
    ensures forall k :: k in m && k != (owner, value.symbol.code) ==> r[k] == m[k]
  {
    var key := (owner, value.symbol.code);
    if key in m then
      var b := m[key].balance;
      m[key := Account(b.(amount := b.amount + value.amount))]
    else
      m[key := Account(value)]
  }

  /** sub_balance once its checks have passed: `value` is taken from the
      owner's existing row, which stays in the table. */
  function Debit(m: AccountsTable, owner: Name, value: Asset): (r: AccountsTable)
    requires (owner, value.symbol.code) in m
    ensures (owner, value.symbol.code) in r
    ensures Balance(r, owner, value.symbol.code) == Balance(m, owner, value.symbol.code) - value.amount
    ensures r[(owner, value.symbol.code)].balance.symbol == m[(owner, value.symbol.code)].balance.symbol
    ensures r.Keys == m.Keys
    ensures forall k :: k in m && k != (owner, value.symbol.code) ==> r[k] == m[k]
  {
    var key := (owner, value.symbol.code);
    var b := m[key].balance;
    m[key := Account(b.(amount := b.amount - value.amount))]
  }

  /** open once its checks have passed: a zero row is created only when the
      owner has none. */
  function Opened(m: AccountsTable, owner: Name, sym: Symbol): (r: AccountsTable)
    ensures (owner, sym.code) in r
    ensures (owner, sym.code) in m ==> r == m
    ensures (owner, sym.code) !in m ==> r[(owner, sym.code)].balance == Asset(0, sym) && r - {(owner, sym.code)} == m
  {
    var key := (owner, sym.code);
    if key in m then m else m[key := Account(Asset(0, sym))]
  }

  /** The descriptor's supply changes by `delta`; its symbol, maximum supply
      and issuer stay as they were. */
  function Resupplied(stats: StatsTable, code: SymbolCode, delta: int): (r: StatsTable)
    requires code in stats
    ensures r.Keys == stats.Keys
    ensures r[code].supply.amount == stats[code].supply.amount + delta
    ensures r[code].supply.symbol == stats[code].supply.symbol
    ensures r[code].maxSupply == stats[code].maxSupply && r[code].issuer == stats[code].issuer
    ensures forall c :: c in stats && c != code ==> r[c] == stats[c]
  {
    var st := stats[code];
    stats[code := st.(supply := st.supply.(amount := st.supply.amount + delta))]
  }

  lemma TotalAfterCredit(m: AccountsTable, owner: Name, value: Asset, code: SymbolCode)
    ensures Total(Credit(m, owner, value), code)
         == Total(m, code) + (if value.symbol.code == code then value.amount else 0)
  {
    var key := (owner, value.symbol.code);
    TotalReplace(m, key, Credit(m, owner, value)[key], code);
  }

  lemma TotalAfterDebit(m: AccountsTable, owner: Name, value: Asset, code: SymbolCode)
    requires (owner, value.symbol.code) in m
    ensures Total(Debit(m, owner, value), code)
         == Total(m, code) - (if value.symbol.code == code then value.amount else 0)
  {
    var key := (owner, value.symbol.code);
    TotalReplace(m, key, Debit(m, owner, value)[key], code);
  }

  /** A transfer moves holdings between owners and keeps every sum. */
  lemma TotalAfterMove(m: AccountsTable, from: Name, to: Name, value: Asset, code: SymbolCode)
    requires (from, value.symbol.code) in m
    ensures Total(Credit(Debit(m, from, value), to, value), code) == Total(m, code)
  {
    TotalAfterDebit(m, from, value, code);
    TotalAfterCredit(Debit(m, from, value), to, value, code);
  }

  lemma TotalAfterOpen(m: AccountsTable, owner: Name, sym: Symbol, code: SymbolCode)
    ensures Total(Opened(m, owner, sym), code) == Total(m, code)
  {
    var key := (owner, sym.code);
    if key !in m {
      TotalReplace(m, key, Account(Asset(0, sym)), code);
    }
  }

  lemma TotalAfterClose(m: AccountsTable, key: AccountKey, code: SymbolCode)
    requires key in m && m[key].balance.amount == 0
    ensures Total(m - {key}, code) == Total(m, code)
  {
    TotalRemove(m, key, code);
  }

  /** Debiting what was just credited to an existing row restores the table. */
  lemma DebitUndoesCredit(m: AccountsTable, owner: Name, value: Asset)
    requires (owner, value.symbol.code) in m
    ensures Debit(Credit(m, owner, value), owner, value) == m
  {
    var key := (owner, value.symbol.code);
    var r := Debit(Credit(m, owner, value), owner, value);
    assert r[key] == m[key];
    assert r.Keys == m.Keys;
  }

  /** A second open changes nothing. */
  lemma OpenIdempotent(m: AccountsTable, owner: Name, sym: Symbol)
    ensures Opened(Opened(m, owner, sym), owner, sym) == Opened(m, owner, sym)
  {
  }

  /** Closing the row an open has just created restores the table. */
  lemma CloseUndoesOpen(m: AccountsTable, owner: Name, sym: Symbol)
    requires (owner, sym.code) !in m
    ensures Opened(m, owner, sym) - {(owner, sym.code)} == m
  {
  }

  /** The balance table after a successful issue: the issuer is credited, and
      when `to` is someone else the whole quantity then moves on to `to`. Either
      way `to` gains the quantity and no third row changes. When `to` is
      someone else the issuer's balance is as before, but its row now exists
      (holding zero if it was new). */
  function IssuedAccounts(m: AccountsTable, issuer: Name, to: Name, quantity: Asset): (r: AccountsTable)
    ensures Balance(r, to, quantity.symbol.code) == Balance(m, to, quantity.symbol.code) + quantity.amount
    ensures var code := quantity.symbol.code;
            r - {(issuer, code), (to, code)} == m - {(issuer, code), (to, code)}
    ensures issuer != to ==>
            var code := quantity.symbol.code;
            && Balance(r, issuer, code) == Balance(m, issuer, code)
            && (issuer, code) in r
            && ((issuer, code) in m ==> r[(issuer, code)] == m[(issuer, code)])
            && ((issuer, code) !in m ==> r[(issuer, code)].balance == Asset(0, quantity.symbol))
  {
    var credited := Credit(m, issuer, quantity);
    if to == issuer then
      credited
    else
      var code := quantity.symbol.code;
      var d := Debit(credited, issuer, quantity);
      var r := Credit(d, to, quantity);
      var ik, tk := (issuer, code), (to, code);
      assert r[ik] == d[ik];
      assert r - {ik, tk} == (r - {tk}) - {ik};
      assert m - {ik, tk} == (m - {ik}) - {tk};
      r
  }

  /** issue grows the holdings of the issued symbol by the quantity, and those
      of every other symbol not at all. */
  lemma TotalAfterIssue(m: AccountsTable, issuer: Name, to: Name, quantity: Asset, code: SymbolCode)
    ensures Total(IssuedAccounts(m, issuer, to, quantity), code)
         == Total(m, code) + (if code == quantity.symbol.code then quantity.amount else 0)
  {
    TotalAfterCredit(m, issuer, quantity, code);
    if to != issuer {
      TotalAfterMove(Credit(m, issuer, quantity), issuer, to, quantity, code);
    }
  }

  // ---------------------------------------------------------------------------
  // The ledger invariant

  /** A descriptor is well formed: it sits under its code, its supply and
      ceiling share one symbol, the ceiling is a valid positive asset, and the
      supply lies between zero and the ceiling. */
  predicate StatsRowOk(code: SymbolCode, s: CurrencyStats) {
    && s.PrimaryKey() == code
    && s.supply.symbol == s.maxSupply.symbol
    && ValidAsset(s.maxSupply)
    && s.maxSupply.amount > 0
    && 0 <= s.supply.amount <= s.maxSupply.amount
  }

  /** A balance row is well formed: it sits under its code, its code is
      registered, it carries the registered symbol, and it is not negative. */
  predicate AccountRowOk(stats: StatsTable, k: AccountKey, row: Account) {
    && row.PrimaryKey() == k.1
    && k.1 in stats
    && row.balance.symbol == stats[k.1].supply.symbol
    && row.balance.amount >= 0
  }

  ghost predicate RegistryOk(stats: StatsTable) {
    forall code :: code in stats ==> StatsRowOk(code, stats[code])
  }

  ghost predicate BalancesOk(stats: StatsTable, accounts: AccountsTable) {
    forall k :: k in accounts ==> AccountRowOk(stats, k, accounts[k])
  }

  /** Conservation: each symbol's balances add up to its supply. */
  ghost predicate Conserved(stats: StatsTable, accounts: AccountsTable) {
    forall code :: code in stats ==> Total(accounts, code) == stats[code].supply.amount
  }

  ghost predicate Consistent(stats: StatsTable, accounts: AccountsTable, blacklist: BlacklistTable) {
    && RegistryOk(stats)
    && BalancesOk(stats, accounts)
    && BlacklistKeyed(blacklist)
    && Conserved(stats, accounts)
  }

  lemma EmptyConsistent()
    ensures Consistent(map[], map[], map[])
  {
  }

  /** Under the invariant every balance lies between zero and its symbol's
      supply, and every amount stored fits within MAX_AMOUNT, so none of the
      asset arithmetic the actions do can overflow. */
  lemma AmountsInRange(stats: StatsTable, accounts: AccountsTable, blacklist: BlacklistTable, k: AccountKey)
    requires Consistent(stats, accounts, blacklist)
    requires k in accounts
    ensures k.1 in stats
    ensures 0 <= accounts[k].balance.amount <= stats[k.1].supply.amount <= stats[k.1].maxSupply.amount <= MAX_AMOUNT
  {
    ShareAtMostTotal(accounts, k, k.1);
  }

  /** get_supply reports exactly what all holders of the symbol hold. */
  lemma SupplyQueryIsTotal(stats: StatsTable, accounts: AccountsTable, blacklist: BlacklistTable, code: SymbolCode)
    requires Consistent(stats, accounts, blacklist)
    ensures GetSupply(stats, code).Ok? ==> GetSupply(stats, code).value.amount == Total(accounts, code)
    ensures GetSupply(stats, code).Err? ==> Total(accounts, code) == 0
  {
    if code !in stats {
      TotalOfAbsentCode(accounts, code);
    }
  }

  /** A balance the query reports is never negative and never exceeds the
      supply the other query reports for the same symbol. */
  lemma BalanceQueryWithinSupply(stats: StatsTable, accounts: AccountsTable, blacklist: BlacklistTable,
                                 owner: Name, code: SymbolCode)
    requires Consistent(stats, accounts, blacklist)
    requires GetBalance(accounts, owner, code).Ok?
    ensures GetSupply(stats, code).Ok?
    ensures 0 <= GetBalance(accounts, owner, code).value.amount <= GetSupply(stats, code).value.amount
  {
    AmountsInRange(stats, accounts, blacklist, (owner, code));
  }

  // ---------------------------------------------------------------------------
  // Every successful action keeps the invariant

  /** create: a new descriptor with zero supply. */
  lemma CreateKeeps(stats: StatsTable, accounts: AccountsTable, blacklist: BlacklistTable,
                    issuer: Name, maximumSupply: Asset)
    requires Consistent(stats, accounts, blacklist)
    requires ValidAsset(maximumSupply) && maximumSupply.amount > 0
    requires maximumSupply.symbol.code !in stats
    ensures Consistent(stats[maximumSupply.symbol.code := CurrencyStats(Asset(0, maximumSupply.symbol), maximumSupply, issuer)],
                       accounts, blacklist)
  {
    var code := maximumSupply.symbol.code;
    var stats' := stats[code := CurrencyStats(Asset(0, maximumSupply.symbol), maximumSupply, issuer)];
    TotalOfAbsentCode(accounts, code);
    assert BalancesOk(stats', accounts);
  }

  /** Moving a descriptor's supply to another value between zero and its
      ceiling keeps every descriptor and every balance row well formed. */
  lemma ResuppliedKeepsRows(stats: StatsTable, accounts: AccountsTable, code: SymbolCode, delta: int)
    requires RegistryOk(stats) && BalancesOk(stats, accounts)
    requires code in stats
    requires 0 <= stats[code].supply.amount + delta <= stats[code].maxSupply.amount
    ensures RegistryOk(Resupplied(stats, code, delta))
    ensures BalancesOk(Resupplied(stats, code, delta), accounts)
  {
    var stats' := Resupplied(stats, code, delta);
    forall c | c in stats' ensures StatsRowOk(c, stats'[c]) {
      assert StatsRowOk(c, stats[c]);
    }
    forall k | k in accounts ensures AccountRowOk(stats', k, accounts[k]) {
      assert AccountRowOk(stats, k, accounts[k]);
    }
  }

  /** add_balance of a non-negative amount in the registered symbol keeps
      every balance row well formed. */
  lemma CreditKeepsRows(stats: StatsTable, accounts: AccountsTable, owner: Name, value: Asset)
    requires BalancesOk(stats, accounts)
    requires value.symbol.code in stats && value.symbol == stats[value.symbol.code].supply.symbol
    requires value.amount >= 0
    ensures BalancesOk(stats, Credit(accounts, owner, value))
  {
    var accounts' := Credit(accounts, owner, value);
    forall k | k in accounts' ensures AccountRowOk(stats, k, accounts'[k]) {
      if k in accounts {
        assert AccountRowOk(stats, k, accounts[k]);
      }
    }
  }

  /** sub_balance of no more than the row holds keeps every balance row well
      formed; in particular the row does not go negative. */
  lemma DebitKeepsRows(stats: StatsTable, accounts: AccountsTable, owner: Name, value: Asset)
    requires BalancesOk(stats, accounts)
    requires (owner, value.symbol.code) in accounts
    requires accounts[(owner, value.symbol.code)].balance.amount >= value.amount
    ensures BalancesOk(stats, Debit(accounts, owner, value))
  {
    var accounts' := Debit(accounts, owner, value);
    forall k | k in accounts' ensures AccountRowOk(stats, k, accounts'[k]) {
      assert AccountRowOk(stats, k, accounts[k]);
    }
  }

  /** Crediting the issuer while the supply grows by the same quantity keeps
      every symbol's balances equal to its supply. */
  lemma ConservedAfterCredit(stats: StatsTable, accounts: AccountsTable, issuer: Name, quantity: Asset)
    requires Conserved(stats, accounts)
    requires quantity.symbol.code in stats
    ensures Conserved(Resupplied(stats, quantity.symbol.code, quantity.amount), Credit(accounts, issuer, quantity))
  {
    var stats' := Resupplied(stats, quantity.symbol.code, quantity.amount);
    forall c | c in stats' ensures Total(Credit(accounts, issuer, quantity), c) == stats'[c].supply.amount {
      TotalAfterCredit(accounts, issuer, quantity, c);
    }
  }

  /** Debiting the issuer while the supply drops by the same quantity keeps
      every symbol's balances equal to its supply. */
  lemma ConservedAfterDebit(stats: StatsTable, accounts: AccountsTable, issuer: Name, quantity: Asset)
    requires Conserved(stats, accounts)
    requires quantity.symbol.code in stats
    requires (issuer, quantity.symbol.code) in accounts
    ensures Conserved(Resupplied(stats, quantity.symbol.code, -quantity.amount), Debit(accounts, issuer, quantity))
  {
    var stats' := Resupplied(stats, quantity.symbol.code, -quantity.amount);
    forall c | c in stats' ensures Total(Debit(accounts, issuer, quantity), c) == stats'[c].supply.amount {
      TotalAfterDebit(accounts, issuer, quantity, c);
    }
  }

  /** Moving a quantity between owners keeps every symbol's balances equal to
      its unchanged supply. */
  lemma ConservedAfterMove(stats: StatsTable, accounts: AccountsTable, from: Name, to: Name, quantity: Asset)
    requires Conserved(stats, accounts)
    requires (from, quantity.symbol.code) in accounts
    ensures Conserved(stats, Credit(Debit(accounts, from, quantity), to, quantity))
  {
    forall c | c in stats ensures Total(Credit(Debit(accounts, from, quantity), to, quantity), c) == stats[c].supply.amount {
      TotalAfterMove(accounts, from, to, quantity, c);
    }
  }

  /** issue, up to the inline transfer: supply and the issuer's balance both
      grow by the quantity. */
  lemma IssueKeeps(stats: StatsTable, accounts: AccountsTable, blacklist: BlacklistTable, quantity: Asset)
    requires Consistent(stats, accounts, blacklist)
    requires quantity.symbol.code in stats
    requires quantity.symbol == stats[quantity.symbol.code].supply.symbol
    requires 0 < quantity.amount
    requires quantity.amount <= stats[quantity.symbol.code].maxSupply.amount - stats[quantity.symbol.code].supply.amount
    ensures var code := quantity.symbol.code;
            var st := stats[code];
            Consistent(Resupplied(stats, code, quantity.amount), Credit(accounts, st.issuer, quantity), blacklist)
  {
    var code := quantity.symbol.code;
    var st := stats[code];
    var stats' := Resupplied(stats, code, quantity.amount);
    var accounts' := Credit(accounts, st.issuer, quantity);
    assert StatsRowOk(code, st);
    ResuppliedKeepsRows(stats, accounts, code, quantity.amount);
    CreditKeepsRows(stats', accounts, st.issuer, quantity);
    ConservedAfterCredit(stats, accounts, st.issuer, quantity);
  }

  /** transfer: the quantity moves from `from`'s row to `to`'s. */
  lemma TransferKeeps(stats: StatsTable, accounts: AccountsTable, blacklist: BlacklistTable,
                      from: Name, to: Name, quantity: Asset)
    requires Consistent(stats, accounts, blacklist)
    requires quantity.symbol.code in stats
    requires quantity.symbol == stats[quantity.symbol.code].supply.symbol
    requires 0 < quantity.amount
    requires (from, quantity.symbol.code) in accounts
    requires accounts[(from, quantity.symbol.code)].balance.amount >= quantity.amount
    ensures Consistent(stats, Credit(Debit(accounts, from, quantity), to, quantity), blacklist)
  {
    var accounts' := Credit(Debit(accounts, from, quantity), to, quantity);
    DebitKeepsRows(stats, accounts, from, quantity);
    CreditKeepsRows(stats, Debit(accounts, from, quantity), to, quantity);
    ConservedAfterMove(stats, accounts, from, to, quantity);
  }

  /** retire: supply and the issuer's balance both drop by the quantity. */
  lemma RetireKeeps(stats: StatsTable, accounts: AccountsTable, blacklist: BlacklistTable, quantity: Asset)
    requires Consistent(stats, accounts, blacklist)
    requires quantity.symbol.code in stats
    requires quantity.symbol == stats[quantity.symbol.code].supply.symbol
    requires 0 < quantity.amount
    requires (stats[quantity.symbol.code].issuer, quantity.symbol.code) in accounts
    requires accounts[(stats[quantity.symbol.code].issuer, quantity.symbol.code)].balance.amount >= quantity.amount
    ensures var code := quantity.symbol.code;
            var st := stats[code];
            Consistent(Resupplied(stats, code, -quantity.amount), Debit(accounts, st.issuer, quantity), blacklist)
  {
    var code := quantity.symbol.code;
    var st := stats[code];
    var stats' := Resupplied(stats, code, -quantity.amount);
    var accounts' := Debit(accounts, st.issuer, quantity);
    // The issuer's row is part of the supply, so the supply covers the quantity.
    ShareAtMostTotal(accounts, (st.issuer, code), code);
    assert StatsRowOk(code, st);
    ResuppliedKeepsRows(stats, accounts, code, -quantity.amount);
    DebitKeepsRows(stats', accounts, st.issuer, quantity);
    ConservedAfterDebit(stats, accounts, st.issuer, quantity);
  }

  /** open: a zero row in the registered symbol, if none was there. */
  lemma OpenKeeps(stats: StatsTable, accounts: AccountsTable, blacklist: BlacklistTable, owner: Name, sym: Symbol)
    requires Consistent(stats, accounts, blacklist)
    requires sym.code in stats && stats[sym.code].supply.symbol == sym
    ensures Consistent(stats, Opened(accounts, owner, sym), blacklist)
  {
    var accounts' := Opened(accounts, owner, sym);
    forall k | k in accounts' ensures AccountRowOk(stats, k, accounts'[k]) {
      if k != (owner, sym.code) {
        assert k in accounts;
      }
    }
    forall c | c in stats ensures Total(accounts', c) == stats[c].supply.amount {
      TotalAfterOpen(accounts, owner, sym, c);
    }
  }

  /** close: a zero row disappears. */
  lemma CloseKeeps(stats: StatsTable, accounts: AccountsTable, blacklist: BlacklistTable, key: AccountKey)
    requires Consistent(stats, accounts, blacklist)
    requires key in accounts && accounts[key].balance.amount == 0
    ensures Consistent(stats, accounts - {key}, blacklist)
  {
    forall c | c in stats ensures Total(accounts - {key}, c) == stats[c].supply.amount {
      TotalAfterClose(accounts, key, c);
    }
  }
}
