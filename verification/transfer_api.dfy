/** api/transfer.go: the createTransfer handler and its account check. The
    transfer transaction itself is a store oracle; what is modelled is which
    lookups happen, in which order, which status each failure produces, and
    what reaches the transaction. */
module TransferApi {
  import opened Wrappers
  import opened GoInt
  import opened Store
  import opened ApiServer

  datatype TransferRequest = TransferRequest(fromAccountId: int, toAccountId: int, amount: int, currency: string)

  /** The binding tags of transferRequest: both ids `required,min=1`, the
      amount `required,gt=0`, the currency `required` and accepted by the
      registered `currency` validator `currencyRule`. The numbers are int64. */
  predicate TransferRequestBinds(body: Option<TransferRequest>, currencyRule: string -> bool) {
    && body.Some?
    && IsInt64(body.value.fromAccountId) && body.value.fromAccountId >= 1
    && IsInt64(body.value.toAccountId) && body.value.toAccountId >= 1
    && IsInt64(body.value.amount) && body.value.amount > 0
    && body.value.currency != ""
    && currencyRule(body.value.currency)
  }

  /** Reference description of a passing account check: the account exists,
      its lookup does not fail, and it holds the requested currency. */
  predicate AccountAcceptable(store: Store, id: int, currency: string) {
    id !in store.faults && id in store.accounts && store.accounts[id].currency == currency
  }

  /** validAccount's observable behaviour: the looked-up account, the verdict,
      and the error it wrote when the verdict is false. */
  datatype AccountCheck = AccountCheck(account: Account, valid: bool, writes: seq<Write>)

  const ZeroAccount: Account := Account(0, "", 0, "")

  /** validAccount: one lookup; "no rows" is 404, any other lookup error 500,
      a currency different from the request's 400; otherwise valid. */
  function ValidAccount(store: Store, accountId: int, currency: string): (c: AccountCheck)
    ensures c.valid <==> AccountAcceptable(store, accountId, currency)
    ensures c.valid ==> c.writes == [] && c.account == store.accounts[accountId]
    ensures !c.valid ==> |c.writes| == 1
    ensures !c.valid ==>
      (c.writes[0].status == StatusNotFound <==> accountId !in store.faults && accountId !in store.accounts)
    ensures !c.valid ==> (c.writes[0].status == StatusInternalServerError <==> accountId in store.faults)
    ensures !c.valid ==>
      (c.writes[0].status == StatusBadRequest <==> accountId !in store.faults && accountId in store.accounts)
  {
    match GetAccount(store, accountId)
    case Failure(err) =>
      AccountCheck(ZeroAccount, false, [ErrorWrite(LookupErrorStatus(err), Db(err))])
    case Success(account) =>
      if account.currency != currency then
        AccountCheck(account, false,
          [ErrorWrite(StatusBadRequest, CurrencyMismatch(accountId, account.currency, currency))])
      else
        AccountCheck(account, true, [])
  }

  /** Whether a handler run reached the transfer transaction. */
  predicate TransferTxCalled(r: Reply) {
    exists i :: 0 <= i < |r.calls| && r.calls[i].TransferTxCall?
  }

  /** createTransfer. `authUser` is the user name of the authorization payload
      stored in the request context, `None` when there is none (ctx.MustGet
      then panics). An owner mismatch writes 401 but does not return, so the
      transaction still runs and its own write follows. */
  function CreateTransfer(store: Store, body: Option<TransferRequest>, currencyRule: string -> bool,
                          authUser: Option<string>): (r: Reply)
    ensures !TransferRequestBinds(body, currencyRule) ==>
      r == Reply([], [ErrorWrite(StatusBadRequest, BindingFailed)], false)
    ensures TransferRequestBinds(body, currencyRule) ==>
      |r.calls| >= 1 && r.calls[0] == GetAccountCall(body.value.fromAccountId)
    ensures TransferTxCalled(r) <==>
      && TransferRequestBinds(body, currencyRule)
      && AccountAcceptable(store, body.value.fromAccountId, body.value.currency)
      && AccountAcceptable(store, body.value.toAccountId, body.value.currency)
      && authUser.Some?
    ensures TransferTxCalled(r) ==>
      r.calls == [GetAccountCall(body.value.fromAccountId), GetAccountCall(body.value.toAccountId),
                  TransferTxCall(TransferTxParams(body.value.fromAccountId, body.value.toAccountId, body.value.amount))]
    ensures |r.writes| >= 1 || r.panicked
    ensures ResponseStatus(r) == StatusOK ==>
      && TransferTxCalled(r)
      && store.accounts[body.value.fromAccountId].owner == authUser.value
      && store.transferTx(r.calls[2].transferParams).Success?
  {
    if !TransferRequestBinds(body, currencyRule) then
      Reply([], [ErrorWrite(StatusBadRequest, BindingFailed)], false)
    else
      var req := body.value;
      var arg := TransferTxParams(req.fromAccountId, req.toAccountId, req.amount);
      var fromCheck := ValidAccount(store, req.fromAccountId, req.currency);
      if !fromCheck.valid then
        Reply([GetAccountCall(req.fromAccountId)], fromCheck.writes, false)
      else
        var toCheck := ValidAccount(store, req.toAccountId, req.currency);
        var lookups := [GetAccountCall(req.fromAccountId), GetAccountCall(req.toAccountId)];
        if !toCheck.valid then
          Reply(lookups, toCheck.writes, false)
        else if authUser.None? then
          Reply(lookups, [], true)
        else
          var ownerWrites :=
            if fromCheck.account.owner != authUser.value then [ErrorWrite(StatusUnauthorized, NotAccountOwner)]
            else [];
          var calls := lookups + [TransferTxCall(arg)];
          assert calls[2].TransferTxCall?;
          match store.transferTx(arg)
          case Failure(err) =>
            Reply(calls, ownerWrites + [ErrorWrite(StatusInternalServerError, Db(err))], false)
          case Success(result) =>
            Reply(calls, ownerWrites + [Write(StatusOK, TransferBody(result))], false)
  }

  /** A failing check of the source account ends the request: only that
      account is looked up, and its failure decides the status. */
  lemma FromCheckFailureStopsEarly(store: Store, req: TransferRequest, currencyRule: string -> bool, authUser: Option<string>)
    requires TransferRequestBinds(Some(req), currencyRule)
    requires !AccountAcceptable(store, req.fromAccountId, req.currency)
    ensures var r := CreateTransfer(store, Some(req), currencyRule, authUser);
      && r.calls == [GetAccountCall(req.fromAccountId)]
      && r.writes == ValidAccount(store, req.fromAccountId, req.currency).writes
      && ResponseStatus(r) in {StatusNotFound, StatusInternalServerError, StatusBadRequest}
  {
  }

  /** A failing check of the destination account ends the request after
      both lookups, before any transaction. */
  lemma ToCheckFailureStopsBeforeTransfer(store: Store, req: TransferRequest, currencyRule: string -> bool, authUser: Option<string>)
    requires TransferRequestBinds(Some(req), currencyRule)
    requires AccountAcceptable(store, req.fromAccountId, req.currency)
    requires !AccountAcceptable(store, req.toAccountId, req.currency)
    ensures var r := CreateTransfer(store, Some(req), currencyRule, authUser);
      && r.calls == [GetAccountCall(req.fromAccountId), GetAccountCall(req.toAccountId)]
      && r.writes == ValidAccount(store, req.toAccountId, req.currency).writes
  {
  }

  /** The owner check does not stop the request: when the source account
      belongs to someone else, 401 is written first (and is the status the
      client sees) yet the transaction still runs and writes its own answer. */
  lemma OwnerMismatchFallsThrough(store: Store, req: TransferRequest, currencyRule: string -> bool, user: string)
    requires TransferRequestBinds(Some(req), currencyRule)
    requires AccountAcceptable(store, req.fromAccountId, req.currency)
    requires AccountAcceptable(store, req.toAccountId, req.currency)
    requires store.accounts[req.fromAccountId].owner != user
    ensures var r := CreateTransfer(store, Some(req), currencyRule, Some(user));
      && |r.writes| == 2
      && r.writes[0] == ErrorWrite(StatusUnauthorized, NotAccountOwner)
      && r.calls[2] == TransferTxCall(TransferTxParams(req.fromAccountId, req.toAccountId, req.amount))
      && ResponseStatus(r) == StatusUnauthorized
  {
  }

  /** With matching owner the transaction's result decides: 200 with its
      result on success, 500 on failure. Nothing rejects a transfer from an
      account to itself. */
  lemma TransactionOutcomeDecides(store: Store, req: TransferRequest, currencyRule: string -> bool, user: string)
    requires TransferRequestBinds(Some(req), currencyRule)
    requires AccountAcceptable(store, req.fromAccountId, req.currency)
    requires AccountAcceptable(store, req.toAccountId, req.currency)
    requires store.accounts[req.fromAccountId].owner == user
    ensures var r := CreateTransfer(store, Some(req), currencyRule, Some(user));
      var tx := store.transferTx(TransferTxParams(req.fromAccountId, req.toAccountId, req.amount));
      && (tx.Success? ==> r.writes == [Write(StatusOK, TransferBody(tx.value))])
      && (tx.Failure? ==> r.writes == [ErrorWrite(StatusInternalServerError, Db(tx.error))])
  {
  }

  /** Without an authorization payload in the context the handler panics
      after both lookups, and no transaction runs. */
  lemma MissingPayloadPanics(store: Store, req: TransferRequest, currencyRule: string -> bool)
    requires TransferRequestBinds(Some(req), currencyRule)
    requires AccountAcceptable(store, req.fromAccountId, req.currency)
    requires AccountAcceptable(store, req.toAccountId, req.currency)
    ensures var r := CreateTransfer(store, Some(req), currencyRule, None);
      r.panicked && r.writes == [] && !TransferTxCalled(r) && ResponseStatus(r) == StatusInternalServerError
  {
  }
}
