# traveldnation.token in Dafny

A model of the traveldnation.token EOSIO contract: a fungible-token ledger
with a bounded supply per symbol, per-account balances and a blacklist of
accounts that may not send tokens or be issued tokens. The model keeps the
contract's three tables and its eight actions (create, issue, retire,
transfer, open, close, addblacklist, rmvblacklist), the helpers add_balance,
sub_balance and is_blacklist, and the two read-only queries get_supply and
get_balance. It then proves the ledger invariant every action keeps:

- each symbol's balances add up to its supply (conservation);
- every supply lies between zero and its maximum;
- no balance is negative;
- every row sits under its own primary key, so there is at most one
  descriptor per symbol code, one balance per (owner, symbol code) and one
  blacklist entry per user.

Files, one module each:

- `eosio.dfy` (`Eosio`): names, symbols, assets, the 2^62 - 1 bound on asset
  amounts, and one `Error` constructor per kind of failed check (an
  `eosio_assert`, a `require_auth`, or a table lookup that finds no row).
- `tables.dfy` (`Tables`): the row types `account`, `currency_stats` and
  `blacklist` with their primary keys, the tables as maps from primary key to
  row, and `get_supply` / `get_balance`.
- `balances.dfy` (`Balances`): the per-symbol sum of balances, the table
  updates done by add_balance, sub_balance, open and the supply changes, the
  invariant `Consistent` and one lemma per action showing it is kept.
- `token.dfy` (`Token`): one guard function per action giving the first
  failed assertion in the order the source makes them, and the class
  `TokenContract`, whose fields are the three tables and whose methods carry
  out the actions.

The host is explicit. `caller` is the account that signed the action, so
`require_auth(x)` passes exactly when `x == caller`. `existing` is the set of
accounts the chain knows (`is_account`). `now` is the block time stored in a
new blacklist entry. Each action is atomic: a method checks every guard
before its first update, so a failed action leaves all three tables as they
were. The source gets the same effect from the host rolling back the
transaction. For example, retire lowers the supply before sub_balance checks
the issuer's balance; the model makes sub_balance's checks first. issue's
inline transfer is a direct call of `Transfer` inside the same step. Its
checks are evaluated before anything changes, and the method proves that the
call then passes.

The model follows the code on these points:

- transfer checks only `from` against the blacklist (traveldnation.token.cpp:103),
  although the failure message there names the recipient. A listed account
  can still receive by transfer and is refused only as the recipient of
  issue (`Token.TransferIgnoresRecipientListing`).
- addblacklist and rmvblacklist ask for no authorization: their issuer checks
  at traveldnation.token.cpp:172-181 and traveldnation.token.cpp:194-203 are
  commented out.
- rmvblacklist asks `is_account(user)` (traveldnation.token.cpp:191) and
  fails when the user is not an account.
- transfer computes a `payer` (traveldnation.token.cpp:105) and never uses it;
  the new row's payer is always `from`, and payers are not modelled.

## Model

| member | source | states |
|---|---|---|
| Tables.GetSupply | traveldnation.token/contract/traveldnation.token.hpp:60-65 | succeeds exactly when a descriptor for the code is stored and then returns its supply; otherwise fails with the lookup error |
| Tables.GetBalance | traveldnation.token/contract/traveldnation.token.hpp:67-72 | succeeds exactly when the owner has a row for the code and then returns its balance; otherwise fails with the lookup error |
| Tables.StatsRowUnique | traveldnation.token/contract/traveldnation.token.hpp:90-96 | with descriptors keyed by their supply's code, any stored descriptor with primary key `code` is the one get_supply reads |
| Tables.AccountRowUnique | traveldnation.token/contract/traveldnation.token.hpp:84-88 | any balance row in an owner's scope with primary key `code` is the one get_balance reads |
| Tables.BlacklistRowUnique | traveldnation.token/contract/traveldnation.token.hpp:98-103 | every stored blacklist entry sits under its own user, so a user has at most one entry |
| Balances.Credit | traveldnation.token/contract/traveldnation.token.cpp:123-136 | add_balance: the owner's row exists afterwards, its balance grows by the value, its symbol is the old row's (or the value's for a new row), the only key added is the owner's, and every other row is unchanged |
| Balances.Debit | traveldnation.token/contract/traveldnation.token.cpp:118-120 | sub_balance's update: the owner's balance drops by the value, its symbol and the key set are unchanged, and every other row is unchanged |
| Balances.Opened | traveldnation.token/contract/traveldnation.token.cpp:148-154 | open's update: the owner has a row afterwards; an existing row leaves the table unchanged, otherwise exactly one zero row in the given symbol is added |
| Balances.Resupplied | traveldnation.token/contract/traveldnation.token.cpp:46-48 | a descriptor's supply changes by the given amount; its symbol, maximum, issuer, the other descriptors and the key set are unchanged |
| Balances.IssuedAccounts | traveldnation.token/contract/traveldnation.token.cpp:50-56 | net effect of issue on balances: `to` gains the quantity and no row but the issuer's and `to`'s changes; when `to` is not the issuer, the issuer's balance is unchanged and its row exists (zero if new) |
| Balances.TotalAfterCredit | traveldnation.token/contract/traveldnation.token.cpp:123-136 | add_balance raises the holdings of the value's symbol by the value and leaves every other symbol's holdings alone |
| Balances.TotalAfterDebit | traveldnation.token/contract/traveldnation.token.cpp:111-121 | sub_balance lowers the holdings of the value's symbol by the value and leaves every other symbol's holdings alone |
| Balances.TotalAfterMove | traveldnation.token/contract/traveldnation.token.cpp:107-108 | a transfer's debit followed by its credit leaves every symbol's holdings as they were |
| Balances.TotalAfterOpen | traveldnation.token/contract/traveldnation.token.cpp:148-154 | open leaves every symbol's holdings as they were |
| Balances.TotalAfterClose | traveldnation.token/contract/traveldnation.token.cpp:162-164 | erasing a zero row leaves every symbol's holdings as they were |
| Balances.TotalAfterIssue | traveldnation.token/contract/traveldnation.token.cpp:46-56 | issue raises the holdings of the issued symbol by exactly the quantity, the same as the supply, and no other symbol's |
| Balances.DebitUndoesCredit | traveldnation.token/contract/traveldnation.token.cpp:111-136 | on an existing row, sub_balance of a value undoes add_balance of it |
| Balances.OpenIdempotent | traveldnation.token/contract/traveldnation.token.cpp:149-154 | a second open changes nothing |
| Balances.CloseUndoesOpen | traveldnation.token/contract/traveldnation.token.cpp:138-165 | closing the zero row a fresh open created restores the table |
| Balances.EmptyConsistent | traveldnation.token/contract/traveldnation.token.hpp:105-107 | empty tables satisfy the invariant |
| Balances.AmountsInRange | traveldnation.token/contract/traveldnation.token.cpp:42-47 | under the invariant each balance lies between zero and its symbol's supply, which is at most the maximum, which is at most 2^62 - 1, so no asset addition or subtraction can overflow |
| Balances.SupplyQueryIsTotal | traveldnation.token/contract/traveldnation.token.hpp:60-65 | under the invariant get_supply reports exactly what all holders of the symbol hold, and an unregistered code has no holdings |
| Balances.BalanceQueryWithinSupply | traveldnation.token/contract/traveldnation.token.hpp:67-72 | under the invariant a balance get_balance reports is registered, non-negative and at most the symbol's supply |
| Balances.CreateKeeps | traveldnation.token/contract/traveldnation.token.cpp:19-23 | adding a zero-supply descriptor for a new valid positive maximum keeps the invariant |
| Balances.ResuppliedKeepsRows | traveldnation.token/contract/traveldnation.token.cpp:42-48 | a new supply between zero and the maximum keeps every descriptor and balance row well formed |
| Balances.CreditKeepsRows | traveldnation.token/contract/traveldnation.token.cpp:123-136 | add_balance of a non-negative amount in the registered symbol keeps every balance row well formed |
| Balances.DebitKeepsRows | traveldnation.token/contract/traveldnation.token.cpp:115-120 | sub_balance of no more than the row holds keeps every row well formed, so no balance goes negative |
| Balances.ConservedAfterCredit | traveldnation.token/contract/traveldnation.token.cpp:46-50 | raising a supply and crediting the issuer by the same quantity keeps conservation |
| Balances.ConservedAfterDebit | traveldnation.token/contract/traveldnation.token.cpp:76-80 | lowering a supply and debiting the issuer by the same quantity keeps conservation |
| Balances.ConservedAfterMove | traveldnation.token/contract/traveldnation.token.cpp:107-108 | a transfer's debit and credit keep conservation |
| Balances.IssueKeeps | traveldnation.token/contract/traveldnation.token.cpp:42-50 | a quantity within the remaining supply, added to the supply and to the issuer, keeps the invariant, including supply <= maximum |
| Balances.TransferKeeps | traveldnation.token/contract/traveldnation.token.cpp:107-108 | moving a covered positive quantity in the registered symbol keeps the invariant |
| Balances.RetireKeeps | traveldnation.token/contract/traveldnation.token.cpp:76-80 | taking a quantity the issuer holds off both the supply and the issuer keeps the invariant, including supply >= 0 |
| Balances.OpenKeeps | traveldnation.token/contract/traveldnation.token.cpp:148-154 | opening a row in the registered symbol keeps the invariant |
| Balances.CloseKeeps | traveldnation.token/contract/traveldnation.token.cpp:162-164 | erasing a zero row keeps the invariant |
| Token.IsBlacklist | traveldnation.token/contract/traveldnation.token.cpp:211-215 | is_blacklist is exactly membership of the user in the blacklist table |
| Token.BlacklistMembership | traveldnation.token/contract/traveldnation.token.cpp:211-215 | with entries under their own user, being listed is the same as some stored entry naming the user |
| Token.CreateCheck | traveldnation.token/contract/traveldnation.token.cpp:8-17 | create passes exactly when the contract account signed, the maximum is a valid positive asset and its code is not registered; a missing signature is reported first |
| Token.IssueCheck | traveldnation.token/contract/traveldnation.token.cpp:29-44 | issue's own checks pass exactly when the memo fits, the code is registered, the issuer signed, the quantity is valid, positive, in the registered symbol, within the remaining supply, and `to` is not listed |
| Token.TransferCheck | traveldnation.token/contract/traveldnation.token.cpp:88-103 | transfer's own checks pass exactly when from != to, `from` signed, `to` is an account, the code is registered, the quantity is valid, positive and in the registered symbol, the memo fits, and `from` is not listed |
| Token.SubBalanceCheck | traveldnation.token/contract/traveldnation.token.cpp:115-116 | sub_balance passes exactly when the owner has a row for the code holding at least the value |
| Token.RetireCheck | traveldnation.token/contract/traveldnation.token.cpp:62-74 | retire's own checks pass exactly when the memo fits, the code is registered, the issuer signed and the quantity is valid, positive and in the registered symbol |
| Token.OpenCheck | traveldnation.token/contract/traveldnation.token.cpp:140-146 | open passes exactly when the payer signed and the symbol is registered with that precision |
| Token.CloseCheck | traveldnation.token/contract/traveldnation.token.cpp:159-163 | close passes exactly when the owner signed and holds a zero row for the code; the precision is not compared |
| Token.AddBlacklistCheck | traveldnation.token/contract/traveldnation.token.cpp:169-170 | addblacklist passes exactly when the user is an account not yet listed; no signature is asked for |
| Token.RmvBlacklistCheck | traveldnation.token/contract/traveldnation.token.cpp:191-192 | rmvblacklist passes exactly when the user is an account that is listed; no signature is asked for |
| Token.TransferIgnoresRecipientListing | traveldnation.token/contract/traveldnation.token.cpp:103 | transfer's checks give the same outcome whether or not the recipient is listed |
| Token.TransferOutcome | traveldnation.token/contract/traveldnation.token.cpp:88-107 | transfer passes exactly when its own checks and then sub_balance's checks on `from` pass |
| Token.RetireOutcome | traveldnation.token/contract/traveldnation.token.cpp:62-80 | retire passes exactly when its own checks and then sub_balance's checks on the issuer pass |
| Token.IssueOutcome | traveldnation.token/contract/traveldnation.token.cpp:29-56 | issue passes exactly when its own checks pass and, if `to` is not the issuer, `to` is an account and the issuer is not listed |
| Token.InlineTransferPasses | traveldnation.token/contract/traveldnation.token.cpp:50-56 | once issue has raised the supply and credited the issuer, the inline transfer passes every check, sub_balance included |
| Token.TokenContract.constructor | traveldnation.token/contract/traveldnation.token.hpp:26-27 | a fresh contract has empty tables and satisfies the invariant |
| Token.TokenContract.Create | traveldnation.token/contract/traveldnation.token.cpp:5-24 | outcome is CreateCheck's; on success exactly one descriptor with zero supply, the given maximum and issuer is added; balances and blacklist never change |
| Token.TokenContract.AddBalance | traveldnation.token/contract/traveldnation.token.cpp:123-136 | the balance table becomes Credit of the old one; the other tables are unchanged |
| Token.TokenContract.SubBalance | traveldnation.token/contract/traveldnation.token.cpp:111-121 | outcome is SubBalanceCheck's; on success the balance table becomes Debit of the old one, on failure nothing changes |
| Token.TokenContract.Transfer | traveldnation.token/contract/traveldnation.token.cpp:83-109 | keeps the invariant; outcome is TransferOutcome's; on success `from` loses and `to` gains the quantity and no other row changes; supply and blacklist never change; on failure nothing changes |
| Token.TokenContract.Issue | traveldnation.token/contract/traveldnation.token.cpp:26-57 | keeps the invariant; outcome is IssueOutcome's; on success the supply rises by the quantity and the balances become IssuedAccounts of the old ones; on failure nothing changes |
| Token.TokenContract.RaiseSupply | traveldnation.token/contract/traveldnation.token.cpp:46-50 | keeps the invariant; the supply and the issuer's balance both grow by the quantity |
| Token.TokenContract.Retire | traveldnation.token/contract/traveldnation.token.cpp:59-81 | keeps the invariant; outcome is RetireOutcome's; on success the supply, the issuer's balance and the symbol's total holdings all drop by the quantity and no other row changes; on failure nothing changes |
| Token.TokenContract.Open | traveldnation.token/contract/traveldnation.token.cpp:138-155 | keeps the invariant; outcome is OpenCheck's; on success the balance table becomes Opened of the old one, unchanged if the row existed, and get_balance then succeeds |
| Token.TokenContract.Close | traveldnation.token/contract/traveldnation.token.cpp:157-165 | keeps the invariant; outcome is CloseCheck's; on success exactly that row is erased and get_balance then fails |
| Token.TokenContract.AddBlacklist | traveldnation.token/contract/traveldnation.token.cpp:167-187 | outcome is AddBlacklistCheck's; on success the user is listed with the given time; stats and balances never change |
| Token.TokenContract.RmvBlacklist | traveldnation.token/contract/traveldnation.token.cpp:189-209 | outcome is RmvBlacklistCheck's; on success exactly the user's entry is removed; stats and balances never change |

## Left out

- Host calls: `require_auth`, `has_auth` and `is_account` become the
  `caller` and `existing` parameters. The `require_recipient` notifications
  of transfer have no ledger effect and are not modelled.
- Inline-action mechanics: the dispatch of issue's inline transfer and its
  `active` permission level. The call is modelled as a direct call of
  `Transfer` with the issuer as signer.
- RAM payers (`ram_payer`, `same_payer`, the unused `payer` of transfer): they
  carry no ledger effect. `Open` still takes `ramPayer`, since the payer must
  sign.
- The clock: `now()` is the `now` parameter of `AddBlacklist`, recorded as is
  without conversion to seconds.
- Action dispatch, the action wrappers and ABI serialization.
- Name and symbol encoding: names are plain numbers, a symbol is a code string
  with a precision, and a valid code is one to seven upper-case letters.
  eosiolib's `symbol::is_valid` and `asset::is_valid` are not part of this
  model; `ValidAsset` bounds the amount by 2^62 - 1 and asks for a valid
  symbol.
- eosiolib's checks inside asset `+=` and `-=` (overflow, and equal symbols
  on both sides): they are not error paths of the model. `Balances.AmountsInRange`
  shows the overflow checks cannot fire while the invariant holds. `Credit`
  and `Debit` keep the stored row's symbol instead of comparing it with the
  value's; the two are equal on every call the actions make, because the
  guards demand the registered symbol and the invariant (`BalancesOk`) gives
  every row the registered symbol.
- Memos are byte strings of which only the length is inspected.
- The commented-out issuer checks of the blacklist actions (dead code).
- Query purity: get_supply and get_balance are functions of the tables and
  cannot change them, so no separate statement is made.
