/** What the HTTP handlers of package api share (api/server.go): status codes,
    the error body, and the shape of a handler's observable behaviour. */
module ApiServer {
  import opened Store

  const StatusOK: int := 200
  const StatusBadRequest: int := 400
  const StatusUnauthorized: int := 401
  const StatusForbidden: int := 403
  const StatusNotFound: int := 404
  const StatusInternalServerError: int := 500

  /** The error a response body reports (errorReponse). */
  datatype ApiError =
    | BindingFailed
    | Db(dbError: DbError)
    | CurrencyMismatch(accountId: int, accountCurrency: string, requestCurrency: string)
    | NotAccountOwner

  datatype Body =
    | ErrorBody(error: ApiError)
    | AccountBody(account: Account)
    | AccountsBody(accounts: seq<Account>)
    | TransferBody(result: TransferTxResult)

  /** One `ctx.JSON(status, body)` call. */
  datatype Write = Write(status: int, body: Body)

  /** A handler run: the store calls it made, the JSON writes it issued, and
      whether it panicked. */
  datatype Reply = Reply(calls: seq<StoreCall>, writes: seq<Write>, panicked: bool)

  /** The status the client receives: the first write fixes the header and
      later writes only append to the body; a panic before any write is
      answered 500 by gin's recovery middleware. */
  function ResponseStatus(r: Reply): int {
    if |r.writes| > 0 then r.writes[0].status
    else if r.panicked then StatusInternalServerError
    else StatusOK
  }

  /** Once a handler has written, later writes and a later panic leave the
      status the client sees unchanged; a panic before any write is answered
      500, and a handler that neither writes nor panics answers 200. */
  lemma FirstWriteDecides(r: Reply, later: seq<Write>, panics: bool)
    ensures |r.writes| > 0 ==>
      ResponseStatus(Reply(r.calls, r.writes + later, panics)) == ResponseStatus(r) == r.writes[0].status
    ensures ResponseStatus(Reply(r.calls, [], true)) == StatusInternalServerError
    ensures ResponseStatus(Reply(r.calls, [], false)) == StatusOK
  {
  }

  function ErrorWrite(status: int, e: ApiError): Write {
    Write(status, ErrorBody(e))
  }

  /** The status of a failed account lookup: 404 for "no rows", 500 otherwise. */
  function LookupErrorStatus(e: DbError): (status: int)
    ensures status == StatusNotFound <==> e == NoRows
    ensures status == StatusNotFound || status == StatusInternalServerError
  {
    if e == NoRows then StatusNotFound else StatusInternalServerError
  }
}
