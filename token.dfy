/** The token contract: one guard function per action, giving the first failed
    assertion in the order the action makes them, and the contract object whose
    methods carry out the actions on its three tables.

    The host is explicit: `caller` is the account that authorized the action
    (require_auth(x) passes exactly when x == caller), `existing` is the set of
    accounts the chain knows (is_account), and `now` is the block time. Every
    method checks every guard before its first update, so an action that fails
    leaves all three tables as they were. */
module Token {
  import opened Eosio
  import opened Tables
  import opened Balances

  const MAX_MEMO: int := 256

  /** is_blacklist: the user has a blacklist row. */
  function IsBlacklist(blacklist: BlacklistTable, user: Name): (listed: bool)
    ensures listed <==> user in blacklist
  {
    user in blacklist
  }

  /** With rows kept under their own key, being blacklisted is the same as
      some row naming the user. */
  lemma BlacklistMembership(blacklist: BlacklistTable, user: Name)
    requires BlacklistKeyed(blacklist)
    ensures IsBlacklist(blacklist, user) <==> exists e :: e in blacklist.Values && e.user == user
  {
    if user in blacklist {
      assert blacklist[user] in blacklist.Values;
    }
  }

  // ---------------------------------------------------------------------------
  // Guards

  function CreateCheck(stats: StatsTable, contractAccount: Name, caller: Name, maximumSupply: Asset): (r: Outcome)
    ensures r.Pass? <==>
      && caller == contractAccount
      && ValidAsset(maximumSupply)
      && maximumSupply.amount > 0
      && maximumSupply.symbol.code !in stats
    ensures caller != contractAccount ==> r == Fail(MissingAuthority(contractAccount))
  {
    if caller != contractAccount then Fail(MissingAuthority(contractAccount))
    else if !ValidSymbol(maximumSupply.symbol) then Fail(InvalidSymbolName)
    else if !ValidAsset(maximumSupply) then Fail(InvalidSupply)
    else if maximumSupply.amount <= 0 then Fail(MaxSupplyNotPositive)
    else if maximumSupply.symbol.code in stats then Fail(SymbolAlreadyExists)
    else Pass
  }

  function IssueCheck(stats: StatsTable, blacklist: BlacklistTable, caller: Name,
                      to: Name, quantity: Asset, memo: Memo): (r: Outcome)
    ensures r.Pass? <==>
      && |memo| <= MAX_MEMO
      && quantity.symbol.code in stats
      && caller == stats[quantity.symbol.code].issuer
      && ValidAsset(quantity)
      && quantity.amount > 0
      && quantity.symbol == stats[quantity.symbol.code].supply.symbol
      && quantity.amount <= stats[quantity.symbol.code].maxSupply.amount - stats[quantity.symbol.code].supply.amount
      && !IsBlacklist(blacklist, to)
  {
    var code := quantity.symbol.code;
    if !ValidSymbol(quantity.symbol) then Fail(InvalidSymbolName)
    else if |memo| > MAX_MEMO then Fail(MemoTooLong)
    else if code !in stats then Fail(SymbolNotFound)
    else if caller != stats[code].issuer then Fail(MissingAuthority(stats[code].issuer))
    else if !ValidAsset(quantity) then Fail(InvalidQuantity)
    else if quantity.amount <= 0 then Fail(QuantityNotPositive)
    else if quantity.symbol != stats[code].supply.symbol then Fail(SymbolPrecisionMismatch)
    else if quantity.amount > stats[code].maxSupply.amount - stats[code].supply.amount then Fail(QuantityExceedsAvailableSupply)
    else if IsBlacklist(blacklist, to) then Fail(IssueToBlacklisted)
    else Pass
  }

  /** The checks of transfer up to, not including, sub_balance. Only the sender
      is checked against the blacklist. */
  function TransferCheck(stats: StatsTable, blacklist: BlacklistTable, caller: Name, existing: set<Name>,
                         from: Name, to: Name, quantity: Asset, memo: Memo): (r: Outcome)
    ensures r.Pass? <==>
      && from != to
      && caller == from
      && to in existing
      && quantity.symbol.code in stats
      && ValidAsset(quantity)
      && quantity.amount > 0
      && quantity.symbol == stats[quantity.symbol.code].supply.symbol
      && |memo| <= MAX_MEMO
      && !IsBlacklist(blacklist, from)
  {
    var code := quantity.symbol.code;
    if from == to then Fail(TransferToSelf)
    else if caller != from then Fail(MissingAuthority(from))
    else if to !in existing then Fail(RecipientMissing)
    else if code !in stats then Fail(KeyNotFound)
    else if !ValidAsset(quantity) then Fail(InvalidQuantity)
    else if quantity.amount <= 0 then Fail(QuantityNotPositive)
    else if quantity.symbol != stats[code].supply.symbol then Fail(SymbolPrecisionMismatch)
    else if |memo| > MAX_MEMO then Fail(MemoTooLong)
    else if IsBlacklist(blacklist, from) then Fail(TransferFromBlacklisted)
    else Pass
  }

  /** The checks of sub_balance: the owner must hold a row covering the value. */
  function SubBalanceCheck(accounts: AccountsTable, owner: Name, value: Asset): (r: Outcome)
    ensures r.Pass? <==> GetBalance(accounts, owner, value.symbol.code).Ok?
                         && GetBalance(accounts, owner, value.symbol.code).value.amount >= value.amount
  {
    var key := (owner, value.symbol.code);
    if key !in accounts then Fail(NoBalanceObject)
    else if accounts[key].balance.amount < value.amount then Fail(OverdrawnBalance)
    else Pass
  }

  function RetireCheck(stats: StatsTable, caller: Name, quantity: Asset, memo: Memo): (r: Outcome)
    ensures r.Pass? <==>
      && |memo| <= MAX_MEMO
      && quantity.symbol.code in stats
      && caller == stats[quantity.symbol.code].issuer
      && ValidAsset(quantity)
      && quantity.amount > 0
      && quantity.symbol == stats[quantity.symbol.code].supply.symbol
  {
    var code := quantity.symbol.code;
    if !ValidSymbol(quantity.symbol) then Fail(InvalidSymbolName)
    else if |memo| > MAX_MEMO then Fail(MemoTooLong)
    else if code !in stats then Fail(SymbolNotFound)
    else if caller != stats[code].issuer then Fail(MissingAuthority(stats[code].issuer))
    else if !ValidAsset(quantity) then Fail(InvalidQuantity)
    else if quantity.amount <= 0 then Fail(QuantityNotPositive)
    else if quantity.symbol != stats[code].supply.symbol then Fail(SymbolPrecisionMismatch)
    else Pass
  }

  function OpenCheck(stats: StatsTable, caller: Name, sym: Symbol, ramPayer: Name): (r: Outcome)
    ensures r.Pass? <==> caller == ramPayer && sym.code in stats && stats[sym.code].supply.symbol == sym
  {
    if caller != ramPayer then Fail(MissingAuthority(ramPayer))
    else if sym.code !in stats then Fail(SymbolNotFound)
    else if stats[sym.code].supply.symbol != sym then Fail(SymbolPrecisionMismatch)
    else Pass
  }

  /** close looks the row up by code alone; the precision is not compared. */
  function CloseCheck(accounts: AccountsTable, caller: Name, owner: Name, sym: Symbol): (r: Outcome)
    ensures r.Pass? <==> caller == owner && GetBalance(accounts, owner, sym.code).Ok?
                         && GetBalance(accounts, owner, sym.code).value.amount == 0
  {
    var key := (owner, sym.code);
    if caller != owner then Fail(MissingAuthority(owner))
    else if key !in accounts then Fail(BalanceRowMissing)
    else if accounts[key].balance.amount != 0 then Fail(BalanceNotZero)
    else Pass
  }

  /** Neither blacklist action asks for any authorization. */
  function AddBlacklistCheck(blacklist: BlacklistTable, existing: set<Name>, user: Name): (r: Outcome)
    ensures r.Pass? <==> user in existing && !IsBlacklist(blacklist, user)
  {
    if user !in existing then Fail(AccountMissing)
    else if IsBlacklist(blacklist, user) then Fail(AlreadyBlacklisted)
    else Pass
  }

  function RmvBlacklistCheck(blacklist: BlacklistTable, existing: set<Name>, user: Name): (r: Outcome)
    ensures r.Pass? <==> user in existing && IsBlacklist(blacklist, user)
  {
    if user !in existing then Fail(AccountMissing)
    else if !IsBlacklist(blacklist, user) then Fail(NotBlacklisted)
    else Pass
  }

  /** transfer's checks do not look at whether the recipient is listed: they
      give the same outcome whether `to` has a blacklist row or not. Only
      issue refuses a listed recipient. */
  lemma TransferIgnoresRecipientListing(stats: StatsTable, blacklist: BlacklistTable, caller: Name,
                                        existing: set<Name>, from: Name, to: Name, quantity: Asset,
                                        memo: Memo, entry: BlacklistEntry)
    ensures TransferCheck(stats, blacklist[to := entry], caller, existing, from, to, quantity, memo)
         == TransferCheck(stats, blacklist - {to}, caller, existing, from, to, quantity, memo)
  {
    if from != to {
      assert IsBlacklist(blacklist[to := entry], from) == IsBlacklist(blacklist - {to}, from);
    }
  }

  // ---------------------------------------------------------------------------
  // Outcomes of the actions whose checks come from more than one place

  /** transfer: its own checks, then those of sub_balance on the sender. */
  function TransferOutcome(stats: StatsTable, accounts: AccountsTable, blacklist: BlacklistTable,
                           caller: Name, existing: set<Name>,
                           from: Name, to: Name, quantity: Asset, memo: Memo): (r: Outcome)
    ensures r.Pass? <==> TransferCheck(stats, blacklist, caller, existing, from, to, quantity, memo).Pass?
                         && SubBalanceCheck(accounts, from, quantity).Pass?
  {
    var e := TransferCheck(stats, blacklist, caller, existing, from, to, quantity, memo);
    if e.Fail? then e else SubBalanceCheck(accounts, from, quantity)
  }

  /** retire: its own checks, then those of sub_balance on the issuer. */
  function RetireOutcome(stats: StatsTable, accounts: AccountsTable, caller: Name, quantity: Asset, memo: Memo): (r: Outcome)
    ensures r.Pass? <==> RetireCheck(stats, caller, quantity, memo).Pass?
                         && SubBalanceCheck(accounts, stats[quantity.symbol.code].issuer, quantity).Pass?
  {
    var e := RetireCheck(stats, caller, quantity, memo);
    if e.Fail? then e else SubBalanceCheck(accounts, stats[quantity.symbol.code].issuer, quantity)
  }

  /** issue: its own checks, then, when `to` is not the issuer, those of the
      inline transfer from the issuer. The inline transfer can add only two
      reasons to fail: `to` is not an account, or the issuer is blacklisted;
      its sub_balance cannot fail since the issuer has just been credited. */
  function IssueOutcome(stats: StatsTable, blacklist: BlacklistTable, caller: Name, existing: set<Name>,
                        to: Name, quantity: Asset, memo: Memo): (r: Outcome)
    ensures r.Pass? <==>
      && IssueCheck(stats, blacklist, caller, to, quantity, memo).Pass?
      && (to != stats[quantity.symbol.code].issuer ==>
            to in existing && !IsBlacklist(blacklist, stats[quantity.symbol.code].issuer))
  {
    var e := IssueCheck(stats, blacklist, caller, to, quantity, memo);
    if e.Fail? then e
    else
      var issuer := stats[quantity.symbol.code].issuer;
      if to == issuer then Pass
      else TransferCheck(stats, blacklist, issuer, existing, issuer, to, quantity, memo)
  }

  /** Once issue has raised the supply and credited the issuer, the inline
      transfer from the issuer passes every check it passed before. */
  lemma InlineTransferPasses(stats: StatsTable, accounts: AccountsTable, blacklist: BlacklistTable,
                             existing: set<Name>, to: Name, quantity: Asset, memo: Memo)
    requires Consistent(stats, accounts, blacklist)
    requires quantity.symbol.code in stats
    requires var issuer := stats[quantity.symbol.code].issuer;
             TransferCheck(stats, blacklist, issuer, existing, issuer, to, quantity, memo).Pass?
    ensures var code := quantity.symbol.code;
            var st := stats[code];
            var stats' := Resupplied(stats, code, quantity.amount);
            TransferOutcome(stats', Credit(accounts, st.issuer, quantity), blacklist,
                            st.issuer, existing, st.issuer, to, quantity, memo) == Pass
  {
    var code := quantity.symbol.code;
    var st := stats[code];
    var stats' := Resupplied(stats, code, quantity.amount);
    assert stats'[code].supply.symbol == st.supply.symbol;
    assert TransferCheck(stats', blacklist, st.issuer, existing, st.issuer, to, quantity, memo) == Pass;
    var credited := Credit(accounts, st.issuer, quantity);
    assert Balance(accounts, st.issuer, code) >= 0 by {
      if (st.issuer, code) in accounts {
        assert AccountRowOk(stats, (st.issuer, code), accounts[(st.issuer, code)]);
      }
    }
  }

  // ---------------------------------------------------------------------------
  // The contract

  class TokenContract {
    /** The account the contract is deployed on; only it may create tokens. */
    const contractAccount: Name
    var stats: StatsTable
    var accounts: AccountsTable
    var blacklist: BlacklistTable

    ghost predicate Valid()
      reads this
    {
      Consistent(stats, accounts, blacklist)
    }

    constructor (contractAccount: Name)
      ensures Valid() && this.contractAccount == contractAccount
      ensures stats == map[] && accounts == map[] && blacklist == map[]
    {
      this.contractAccount := contractAccount;
      stats, accounts, blacklist := map[], map[], map[];
      EmptyConsistent();
    }

    method Create(caller: Name, issuer: Name, maximumSupply: Asset) returns (r: Outcome)
      requires Valid()
      modifies this
      ensures Valid()
      ensures r == CreateCheck(old(stats), contractAccount, caller, maximumSupply)
      ensures accounts == old(accounts) && blacklist == old(blacklist)
      ensures r.Fail? ==> stats == old(stats)
      ensures r.Pass? ==> stats == old(stats)[maximumSupply.symbol.code := CurrencyStats(Asset(0, maximumSupply.symbol), maximumSupply, issuer)]
      ensures r.Pass? ==> GetSupply(stats, maximumSupply.symbol.code) == Ok(Asset(0, maximumSupply.symbol))
    {
      r := CreateCheck(stats, contractAccount, caller, maximumSupply);
      if r.Fail? {
        return;
      }
      CreateKeeps(stats, accounts, blacklist, issuer, maximumSupply);
      stats := stats[maximumSupply.symbol.code := CurrencyStats(Asset(0, maximumSupply.symbol), maximumSupply, issuer)];
    }

    /** add_balance. The row's payer is not modelled. */
    method AddBalance(owner: Name, value: Asset)
      modifies this
      ensures accounts == Credit(old(accounts), owner, value)
      ensures stats == old(stats) && blacklist == old(blacklist)
    {
      var key := (owner, value.symbol.code);
      if key !in accounts {
        accounts := accounts[key := Account(value)];
      } else {
        var row := accounts[key];
        accounts := accounts[key := Account(row.balance.(amount := row.balance.amount + value.amount))];
      }
    }

    /** sub_balance: fails on a missing row or an overdraw, changing nothing. */
    method SubBalance(owner: Name, value: Asset) returns (r: Outcome)
      modifies this
      ensures r == SubBalanceCheck(old(accounts), owner, value)
      ensures r.Fail? ==> accounts == old(accounts)
      ensures r.Pass? ==> accounts == Debit(old(accounts), owner, value)
      ensures stats == old(stats) && blacklist == old(blacklist)
    {
      r := SubBalanceCheck(accounts, owner, value);
      if r.Fail? {
        return;
      }
      var key := (owner, value.symbol.code);
      var row := accounts[key];
      accounts := accounts[key := Account(row.balance.(amount := row.balance.amount - value.amount))];
    }

    method Transfer(caller: Name, existing: set<Name>, from: Name, to: Name, quantity: Asset, memo: Memo)
      returns (r: Outcome)
      requires Valid()
      modifies this
      ensures Valid()
      ensures r == TransferOutcome(old(stats), old(accounts), old(blacklist), caller, existing, from, to, quantity, memo)
      ensures stats == old(stats) && blacklist == old(blacklist)
      ensures r.Fail? ==> accounts == old(accounts)
      ensures r.Pass? ==> accounts == Credit(Debit(old(accounts), from, quantity), to, quantity)
      ensures r.Pass? ==> Balance(accounts, from, quantity.symbol.code) == Balance(old(accounts), from, quantity.symbol.code) - quantity.amount
      ensures r.Pass? ==> Balance(accounts, to, quantity.symbol.code) == Balance(old(accounts), to, quantity.symbol.code) + quantity.amount
    {
      r := TransferCheck(stats, blacklist, caller, existing, from, to, quantity, memo);
      if r.Fail? {
        return;
      }
      ghost var accounts0 := accounts;
      r := SubBalance(from, quantity);
      if r.Fail? {
        return;
      }
      AddBalance(to, quantity);
      TransferKeeps(stats, accounts0, blacklist, from, to, quantity);
    }

    method Issue(caller: Name, existing: set<Name>, to: Name, quantity: Asset, memo: Memo) returns (r: Outcome)
      requires Valid()
      modifies this
      ensures Valid()
      ensures r == IssueOutcome(old(stats), old(blacklist), caller, existing, to, quantity, memo)
      ensures blacklist == old(blacklist)
      ensures r.Fail? ==> stats == old(stats) && accounts == old(accounts)
      ensures r.Pass? ==>
        var code := quantity.symbol.code;
        var st := old(stats)[code];
        && stats == Resupplied(old(stats), code, quantity.amount)
        && accounts == IssuedAccounts(old(accounts), st.issuer, to, quantity)
    {
      r := IssueCheck(stats, blacklist, caller, to, quantity, memo);
      if r.Fail? {
        return;
      }
      var code := quantity.symbol.code;
      var st := stats[code];
      if to != st.issuer {
        // The inline transfer's checks, made before anything changes.
        r := TransferCheck(stats, blacklist, st.issuer, existing, st.issuer, to, quantity, memo);
        if r.Fail? {
          return;
        }
      }
      ghost var stats0, accounts0 := stats, accounts;
      RaiseSupply(quantity);
      if to != st.issuer {
        InlineTransferPasses(stats0, accounts0, blacklist, existing, to, quantity, memo);
        var sent := Transfer(st.issuer, existing, st.issuer, to, quantity, memo);
        assert sent == Pass;
      }
    }

    /** The updates issue makes itself, once all its checks have passed: the
        supply grows by the quantity and so does the issuer's balance. */
    method RaiseSupply(quantity: Asset)
      requires Valid()
      requires quantity.symbol.code in stats
      requires quantity.symbol == stats[quantity.symbol.code].supply.symbol
      requires 0 < quantity.amount <= stats[quantity.symbol.code].maxSupply.amount - stats[quantity.symbol.code].supply.amount
      modifies this
      ensures Valid()
      ensures var code := quantity.symbol.code;
              var st := old(stats)[code];
              && stats == Resupplied(old(stats), code, quantity.amount)
              && accounts == Credit(old(accounts), st.issuer, quantity)
      ensures blacklist == old(blacklist)
    {
      var code := quantity.symbol.code;
      var st := stats[code];
      IssueKeeps(stats, accounts, blacklist, quantity);
      stats := Resupplied(stats, code, quantity.amount);
      AddBalance(st.issuer, quantity);
    }

    method Retire(caller: Name, quantity: Asset, memo: Memo) returns (r: Outcome)
      requires Valid()
      modifies this
      ensures Valid()
      ensures r == RetireOutcome(old(stats), old(accounts), caller, quantity, memo)
      ensures blacklist == old(blacklist)
      ensures r.Fail? ==> stats == old(stats) && accounts == old(accounts)
      ensures r.Pass? ==>
        var code := quantity.symbol.code;
        var st := old(stats)[code];
        && stats == Resupplied(old(stats), code, -quantity.amount)
        && accounts == Debit(old(accounts), st.issuer, quantity)
        && Balance(accounts, st.issuer, code) == Balance(old(accounts), st.issuer, code) - quantity.amount
        && Total(accounts, code) == Total(old(accounts), code) - quantity.amount
    {
      r := RetireCheck(stats, caller, quantity, memo);
      if r.Fail? {
        return;
      }
      var code := quantity.symbol.code;
      var st := stats[code];
      ghost var accounts0 := accounts;
      // sub_balance's checks come before the supply update, so a failed retire
      // leaves the supply as it was.
      r := SubBalance(st.issuer, quantity);
      if r.Fail? {
        return;
      }
      RetireKeeps(stats, accounts0, blacklist, quantity);
      stats := Resupplied(stats, code, -quantity.amount);
    }

    /** open. Who pays for the row is not modelled. */
    method Open(caller: Name, owner: Name, sym: Symbol, ramPayer: Name) returns (r: Outcome)
      requires Valid()
      modifies this
      ensures Valid()
      ensures r == OpenCheck(old(stats), caller, sym, ramPayer)
      ensures stats == old(stats) && blacklist == old(blacklist)
      ensures r.Fail? ==> accounts == old(accounts)
      ensures r.Pass? ==> accounts == Opened(old(accounts), owner, sym)
      ensures r.Pass? && (owner, sym.code) in old(accounts) ==> accounts == old(accounts)
      ensures r.Pass? ==> GetBalance(accounts, owner, sym.code).Ok?
    {
      r := OpenCheck(stats, caller, sym, ramPayer);
      if r.Fail? {
        return;
      }
      OpenKeeps(stats, accounts, blacklist, owner, sym);
      var key := (owner, sym.code);
      if key !in accounts {
        accounts := accounts[key := Account(Asset(0, sym))];
      }
    }

    method Close(caller: Name, owner: Name, sym: Symbol) returns (r: Outcome)
      requires Valid()
      modifies this
      ensures Valid()
      ensures r == CloseCheck(old(accounts), caller, owner, sym)
      ensures stats == old(stats) && blacklist == old(blacklist)
      ensures r.Fail? ==> accounts == old(accounts)
      ensures r.Pass? ==> accounts == old(accounts) - {(owner, sym.code)}
      ensures r.Pass? ==> GetBalance(accounts, owner, sym.code).Err?
    {
      r := CloseCheck(accounts, caller, owner, sym);
      if r.Fail? {
        return;
      }
      var key := (owner, sym.code);
      CloseKeeps(stats, accounts, blacklist, key);
      accounts := accounts - {key};
    }

    method AddBlacklist(existing: set<Name>, user: Name, now: nat) returns (r: Outcome)
      requires Valid()
      modifies this
      ensures Valid()
      ensures r == AddBlacklistCheck(old(blacklist), existing, user)
      ensures stats == old(stats) && accounts == old(accounts)
      ensures r.Fail? ==> blacklist == old(blacklist)
      ensures r.Pass? ==> blacklist == old(blacklist)[user := BlacklistEntry(now, user)]
      ensures r.Pass? ==> IsBlacklist(blacklist, user)
    {
      r := AddBlacklistCheck(blacklist, existing, user);
      if r.Fail? {
        return;
      }
      blacklist := blacklist[user := BlacklistEntry(now, user)];
    }

    method RmvBlacklist(existing: set<Name>, user: Name) returns (r: Outcome)
      requires Valid()
      modifies this
      ensures Valid()
      ensures r == RmvBlacklistCheck(old(blacklist), existing, user)
      ensures stats == old(stats) && accounts == old(accounts)
      ensures r.Fail? ==> blacklist == old(blacklist)
      ensures r.Pass? ==> blacklist == old(blacklist) - {user}
      ensures r.Pass? ==> !IsBlacklist(blacklist, user)
    {
      r := RmvBlacklistCheck(blacklist, existing, user);
      if r.Fail? {
        return;
      }
      if user in blacklist {
        blacklist := blacklist - {user};
      }
    }
  }
}
