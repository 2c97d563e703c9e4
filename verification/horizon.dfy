/**
 * The Horizon records the widget reads, reduced to the fields its logic uses.
 * Horizon itself (the ledger query service) is outside the model: its answers
 * are values of the reply types below.
 */
module Horizon {
  import opened JsValues

  const TestNetBaseUrl := "https://horizon-testnet.stellar.org"
  const PubNetBaseUrl := "https://horizon.stellar.org"

  /**
   * One entry of an account's `balances` list. `Credit` covers both
   * `credit_alphanum4` and `credit_alphanum12` lines, the only ones that
   * carry `asset_code` and `asset_issuer`; a liquidity-pool share has neither.
   */
  datatype Balance =
    | Native(amount: string)
    | Credit(assetCode: string, assetIssuer: string, amount: string)
    | PoolShare(poolId: string, amount: string)

  /** An account record as returned by `accounts().accountId(id).call()` or `loadAccount`. */
  datatype AccountRecord = AccountRecord(accountId: string, sequence: int, balances: seq<Balance>)

  /** The `response` part of a Horizon client error; every field may be absent. */
  datatype ErrorResponse = ErrorResponse(status: Option<int>, title: Option<string>, detail: Option<string>)

  /** An error thrown by the Horizon client; a transport failure has no `response`. */
  datatype ServerError = ServerError(response: Option<ErrorResponse>)

  /** Horizon's answer to an account lookup. */
  datatype AccountReply = Found(record: AccountRecord) | Failed(error: ServerError)

  /** The part of a transaction submission response the widget reads. */
  datatype SubmitResponse = SubmitResponse(successful: bool)

  /** `err.response?.status` */
  function ResponseStatus(e: ServerError): Option<int>
  {
    if e.response.Some? then e.response.value.status else None
  }
}
