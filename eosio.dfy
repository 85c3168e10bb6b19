/** Stand-ins for the few eosiolib notions the token contract relies on: account
    names, symbols, assets and the abort raised by a failed `eosio_assert`. */
module Eosio {

  /** An account name, by its 64-bit value; the contract only compares names. */
  type Name = nat

  newtype u8 = x: int | 0 <= x < 256

  /** A memo is a string of bytes; only its length is inspected. */
  type Memo = seq<u8>

  /** The ticker part of a symbol, e.g. "TDN". */
  type SymbolCode = seq<char>

  /** A symbol is a code together with a decimal precision. Two symbols are
      equal only when both parts agree. */
  datatype Symbol = Symbol(code: SymbolCode, precision: u8)

  /** An amount of a token in units of its precision. */
  datatype Asset = Asset(amount: int, symbol: Symbol)

  /** The largest magnitude an asset amount may have: 2^62 - 1. */
  const MAX_AMOUNT: int := 0x3FFF_FFFF_FFFF_FFFF

  /** A symbol code is one to seven upper-case letters. */
  predicate ValidCode(code: SymbolCode) {
    && 1 <= |code| <= 7
    && forall i :: 0 <= i < |code| ==> 'A' <= code[i] <= 'Z'
  }

  predicate ValidSymbol(sym: Symbol) {
    ValidCode(sym.code)
  }

  /** An asset is valid when its amount is within range and its symbol is valid. */
  predicate ValidAsset(a: Asset) {
    -MAX_AMOUNT <= a.amount <= MAX_AMOUNT && ValidSymbol(a.symbol)
  }

  /** One constructor per kind of failed check: an assertion, a missing
      authorization, or a table lookup that finds no row. */
  datatype Error =
    | MissingAuthority(account: Name)   // require_auth(account) failed
    | InvalidSymbolName
    | InvalidSupply
    | MaxSupplyNotPositive
    | SymbolAlreadyExists
    | MemoTooLong
    | SymbolNotFound
    | KeyNotFound                        // a table `get` that finds no row
    | InvalidQuantity
    | QuantityNotPositive
    | SymbolPrecisionMismatch
    | QuantityExceedsAvailableSupply
    | IssueToBlacklisted
    | TransferToSelf
    | RecipientMissing
    | TransferFromBlacklisted
    | NoBalanceObject
    | OverdrawnBalance
    | BalanceRowMissing
    | BalanceNotZero
    | AccountMissing
    | AlreadyBlacklisted
    | NotBlacklisted

  /** What an action ends with: it passes, or it aborts with an error and no effect. */
  datatype Outcome = Pass | Fail(error: Error)

  /** What a query returns. */
  datatype Result<T> = Ok(value: T) | Err(error: Error)
}
