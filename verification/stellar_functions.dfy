/**
 * `fetchAccount` and `fetchAccountBalances` from src/lib/stellar-functions.ts:
 * the StrKey check on the key, the single Horizon query, and the
 * classification of its failures into an HTTP-style error.
 *
 * The StrKey check (`StrKey.isValidEd25519PublicKey`, a base32 + CRC16
 * format) belongs to the Stellar SDK and is a parameter `isValidKey`; Horizon
 * is a parameter `server` mapping an account id to its reply.
 *
 * The source throws `error(status, body)` on every failure path, but no
 * `error` is imported or declared in that file, so each of those throws would
 * itself fail with a ReferenceError. `FetchAccount` models the classification
 * the source evidently intends; `FetchAccountAsWritten` models what the text
 * does, and `UndefinedErrorHidesClassification` relates the two.
 */
module StellarFunctions {
  import opened JsValues
  import opened Horizon

  const NotFundedText := "account not funded on network"
  const InvalidKeyText := "invalid public key"
  const DefaultStatus := 400

  /** The second argument of `error(...)`: a bare string or `{ message }`. */
  datatype ErrorBody = Text(text: string) | Message(message: string)

  datatype HttpError = HttpError(status: int, body: ErrorBody)

  datatype Result<+T> = Ok(value: T) | Err(error: HttpError)

  /** A result together with the account ids sent to Horizon, in order. */
  datatype Fetch<+T> = Fetch(result: Result<T>, queried: seq<string>)

  /** `` `${err.response?.title} - ${err.response?.detail}` `` */
  function ServerErrorMessage(e: ServerError): string
  {
    var title := if e.response.Some? then e.response.value.title else None;
    var detail := if e.response.Some? then e.response.value.detail else None;
    Interpolate(title) + " - " + Interpolate(detail)
  }

  /** The catch block: a 404 means the account is not funded; anything else passes its status through. */
  function ClassifyServerError(e: ServerError): HttpError
  {
    if ResponseStatus(e) == Some(404) then
      HttpError(404, Text(NotFundedText))
    else
      var status := if ResponseStatus(e).Some? then ResponseStatus(e).value else DefaultStatus;
      HttpError(status, Message(ServerErrorMessage(e)))
  }

  function FetchAccount(publicKey: string, isValidKey: string -> bool, server: string -> AccountReply): (f: Fetch<AccountRecord>)
    // a malformed key fails with 400 and Horizon is never asked
    ensures !isValidKey(publicKey) ==> f == Fetch(Err(HttpError(400, Message(InvalidKeyText))), [])
    // a well-formed key is sent to Horizon exactly once
    ensures isValidKey(publicKey) ==> f.queried == [publicKey]
    // on success the record comes back unchanged
    ensures f.result.Ok? <==> isValidKey(publicKey) && server(publicKey).Found?
    ensures f.result.Ok? ==> f.result.value == server(publicKey).record
    // "not funded" is reported exactly when Horizon answered 404
    ensures (f.result.Err? && f.result.error.status == 404)
        <==> (isValidKey(publicKey) && server(publicKey).Failed? && ResponseStatus(server(publicKey).error) == Some(404))
    ensures f.result.Err? && f.result.error.status == 404 ==> f.result.error.body == Text(NotFundedText)
    // any other Horizon failure keeps its status, or 400 when it has none
    ensures isValidKey(publicKey) && server(publicKey).Failed? && ResponseStatus(server(publicKey).error) != Some(404) ==>
              var e := server(publicKey).error;
              && f.result.Err?
              && f.result.error.body == Message(ServerErrorMessage(e))
              && (ResponseStatus(e).Some? ==> f.result.error.status == ResponseStatus(e).value)
              && (ResponseStatus(e).None? ==> f.result.error.status == 400)
  {
    if isValidKey(publicKey) then
      match server(publicKey)
      case Found(record) => Fetch(Ok(record), [publicKey])
      case Failed(e) => Fetch(Err(ClassifyServerError(e)), [publicKey])
    else
      Fetch(Err(HttpError(DefaultStatus, Message(InvalidKeyText))), [])
  }

  function FetchAccountBalances(publicKey: string, isValidKey: string -> bool, server: string -> AccountReply): (f: Fetch<seq<Balance>>)
    ensures f.queried == FetchAccount(publicKey, isValidKey, server).queried
    ensures f.result.Ok? <==> FetchAccount(publicKey, isValidKey, server).result.Ok?
    ensures f.result.Ok? ==> f.result.value == FetchAccount(publicKey, isValidKey, server).result.value.balances
    ensures f.result.Err? ==> f.result.error == FetchAccount(publicKey, isValidKey, server).result.error
  {
    var account := FetchAccount(publicKey, isValidKey, server);
    match account.result
    case Ok(record) => Fetch(Ok(record.balances), account.queried)
    case Err(e) => Fetch(Err(e), account.queried)
  }

  /** What a caller of the source's `fetchAccount` can observe. */
  datatype Thrown = ReferenceError(identifier: string) | Raised(error: HttpError)
  datatype Settled = Resolved(record: AccountRecord) | Rejected(thrown: Thrown)

  /**
   * `fetchAccount` as written: each `throw error(...)` first evaluates the
   * undeclared identifier `error`, which throws a ReferenceError instead.
   */
  function FetchAccountAsWritten(publicKey: string, isValidKey: string -> bool, server: string -> AccountReply): (s: Settled)
    ensures s.Resolved? <==> isValidKey(publicKey) && server(publicKey).Found?
    ensures s.Rejected? ==> s.thrown == ReferenceError("error")
  {
    if isValidKey(publicKey) then
      match server(publicKey)
      case Found(record) => Resolved(record)
      case Failed(_) => Rejected(ReferenceError("error"))
    else
      Rejected(ReferenceError("error"))
  }

  /**
   * As written, every failure path surfaces as the same ReferenceError: no
   * caller ever sees the 404/400 classification the code spells out.
   */
  lemma UndefinedErrorHidesClassification(publicKey: string, isValidKey: string -> bool, server: string -> AccountReply)
    ensures FetchAccountAsWritten(publicKey, isValidKey, server).Resolved?
        <==> FetchAccount(publicKey, isValidKey, server).result.Ok?
    ensures FetchAccount(publicKey, isValidKey, server).result.Ok? ==>
              FetchAccountAsWritten(publicKey, isValidKey, server).record
                == FetchAccount(publicKey, isValidKey, server).result.value
    ensures FetchAccount(publicKey, isValidKey, server).result.Err? ==>
              FetchAccountAsWritten(publicKey, isValidKey, server) == Rejected(ReferenceError("error"))
    ensures !FetchAccountAsWritten(publicKey, isValidKey, server).Rejected?
         || !FetchAccountAsWritten(publicKey, isValidKey, server).thrown.Raised?
  {
  }

  /** A concrete witness: an unfunded account yields a ReferenceError, not a 404. */
  lemma UnfundedAccountWitness()
    ensures var valid := (k: string) => true;
            var server := (k: string) => Failed(ServerError(Some(ErrorResponse(Some(404), Some("Resource Missing"), None))));
            && FetchAccountAsWritten("GA", valid, server) == Rejected(ReferenceError("error"))
            && FetchAccount("GA", valid, server).result == Err(HttpError(404, Text(NotFundedText)))
  {
  }
}
