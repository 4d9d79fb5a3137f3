/** api/account.go: the createAccount, getAccount and listAccounts handlers.
    Request binding is modelled by its validation rules over the decoded
    request; `None` stands for a body, path or query that does not decode. */
module AccountApi {
  import opened Wrappers
  import opened GoInt
  import opened Store
  import opened ApiServer

  // ---------------------------------------------------------------------------
  // createAccount

  datatype CreateAccountRequest = CreateAccountRequest(owner: string, currency: string)

  /** The binding tags `required` on both fields and `currency` on the
      currency, whose rule is the registered validator `currencyRule`. */
  predicate CreateAccountRequestBinds(body: Option<CreateAccountRequest>, currencyRule: string -> bool) {
    && body.Some?
    && body.value.owner != ""
    && body.value.currency != ""
    && currencyRule(body.value.currency)
  }

  const ForeignKeyViolation: string := "foreign_key_violation"
  const UniqueViolation: string := "unique_violation"

  /** The status of a failed account creation: 403 for a foreign-key or
      uniqueness violation reported by Postgres, 500 for anything else. */
  function CreateErrorStatus(e: DbError): (status: int)
    ensures status == StatusForbidden <==>
      e.PqError? && (e.codeName == ForeignKeyViolation || e.codeName == UniqueViolation)
    ensures status == StatusForbidden || status == StatusInternalServerError
  {
    match e
    case PqError(code) =>
      if code == ForeignKeyViolation || code == UniqueViolation then StatusForbidden
      else StatusInternalServerError
    case _ => StatusInternalServerError
  }

  /** createAccount: a bound request creates an account for its owner and
      currency with a zero balance; the store's answer decides the status. */
  function CreateAccount(store: Store, body: Option<CreateAccountRequest>, currencyRule: string -> bool): (r: Reply)
    ensures !CreateAccountRequestBinds(body, currencyRule) ==>
      r == Reply([], [ErrorWrite(StatusBadRequest, BindingFailed)], false)
    ensures CreateAccountRequestBinds(body, currencyRule) ==>
      && |r.calls| == 1 && r.calls[0].CreateAccountCall?
      && r.calls[0].createParams.balance == 0
      && r.calls[0].createParams.owner == body.value.owner
      && r.calls[0].createParams.currency == body.value.currency
      && |r.writes| == 1 && !r.panicked
    ensures CreateAccountRequestBinds(body, currencyRule) ==>
      var outcome := store.createAccount(r.calls[0].createParams);
      && (outcome.Success? ==> r.writes[0] == Write(StatusOK, AccountBody(outcome.value)))
      && (outcome.Failure? ==> r.writes[0] == ErrorWrite(CreateErrorStatus(outcome.error), Db(outcome.error)))
    ensures ResponseStatus(r) in {StatusOK, StatusBadRequest, StatusForbidden, StatusInternalServerError}
  {
    if !CreateAccountRequestBinds(body, currencyRule) then
      Reply([], [ErrorWrite(StatusBadRequest, BindingFailed)], false)
    else
      var req := body.value;
      var arg := CreateAccountParams(req.owner, 0, req.currency);
      var calls := [CreateAccountCall(arg)];
      match store.createAccount(arg)
      case Failure(err) => Reply(calls, [ErrorWrite(CreateErrorStatus(err), Db(err))], false)
      case Success(account) => Reply(calls, [Write(StatusOK, AccountBody(account))], false)
  }

  // ---------------------------------------------------------------------------
  // getAccount

  /** The `id` path parameter binds when it is an int64 of at least 1. */
  predicate AccountIdBinds(id: Option<int>) {
    id.Some? && IsInt64(id.value) && id.value >= 1
  }

  /** getAccount: an id below 1 is a bad request and the store is not asked;
      otherwise exactly one lookup decides between 200, 404 and 500. */
  function GetAccountHandler(store: Store, id: Option<int>): (r: Reply)
    ensures !AccountIdBinds(id) ==> r == Reply([], [ErrorWrite(StatusBadRequest, BindingFailed)], false)
    ensures AccountIdBinds(id) ==> r.calls == [GetAccountCall(id.value)] && |r.writes| == 1 && !r.panicked
    ensures AccountIdBinds(id) ==>
      (ResponseStatus(r) == StatusOK <==> id.value !in store.faults && id.value in store.accounts)
    ensures AccountIdBinds(id) && ResponseStatus(r) == StatusOK ==>
      r.writes[0].body == AccountBody(store.accounts[id.value])
    ensures AccountIdBinds(id) ==>
      (ResponseStatus(r) == StatusNotFound <==> id.value !in store.faults && id.value !in store.accounts)
    ensures AccountIdBinds(id) ==>
      (ResponseStatus(r) == StatusInternalServerError <==> id.value in store.faults)
  {
    if !AccountIdBinds(id) then
      Reply([], [ErrorWrite(StatusBadRequest, BindingFailed)], false)
    else
      var calls := [GetAccountCall(id.value)];
      match GetAccount(store, id.value)
      case Failure(err) => Reply(calls, [ErrorWrite(LookupErrorStatus(err), Db(err))], false)
      case Success(account) => Reply(calls, [Write(StatusOK, AccountBody(account))], false)
  }

  // ---------------------------------------------------------------------------
  // listAccounts

  const MinPageSize: int := 5
  const MaxPageSize: int := 10

  /** The int32 query parameters bind when page_id >= 1 and page_size lies in
      [5, 10]. */
  predicate PageBinds(pageId: Option<int>, pageSize: Option<int>) {
    && pageId.Some? && pageSize.Some?
    && IsInt32(pageId.value) && IsInt32(pageSize.value)
    && pageId.value >= 1
    && MinPageSize <= pageSize.value <= MaxPageSize
  }

  /** `(PageID - 1) * PageSize`, evaluated in int32. */
  function ListOffset(pageId: int, pageSize: int): int {
    Wrap32(Wrap32(pageId - 1) * pageSize)
  }

  /** listAccounts: a bound page asks the store for `page_size` rows from the
      page's offset. */
  function ListAccounts(store: Store, pageId: Option<int>, pageSize: Option<int>): (r: Reply)
    ensures !PageBinds(pageId, pageSize) ==> r == Reply([], [ErrorWrite(StatusBadRequest, BindingFailed)], false)
    ensures PageBinds(pageId, pageSize) ==>
      && |r.calls| == 1 && r.calls[0].ListAccountsCall?
      && r.calls[0].listParams.limit == pageSize.value
      && MinPageSize <= r.calls[0].listParams.limit <= MaxPageSize
      && r.calls[0].listParams.offset == ListOffset(pageId.value, pageSize.value)
      && |r.writes| == 1 && !r.panicked
    ensures PageBinds(pageId, pageSize) ==>
      var outcome := store.listAccounts(r.calls[0].listParams);
      && (outcome.Success? ==> r.writes[0] == Write(StatusOK, AccountsBody(outcome.value)))
      && (outcome.Failure? ==> r.writes[0] == ErrorWrite(StatusInternalServerError, Db(outcome.error)))
  {
    if !PageBinds(pageId, pageSize) then
      Reply([], [ErrorWrite(StatusBadRequest, BindingFailed)], false)
    else
      var arg := ListAccountsParams(pageSize.value, ListOffset(pageId.value, pageSize.value));
      var calls := [ListAccountsCall(arg)];
      match store.listAccounts(arg)
      case Failure(err) => Reply(calls, [ErrorWrite(StatusInternalServerError, Db(err))], false)
      case Success(accounts) => Reply(calls, [Write(StatusOK, AccountsBody(accounts))], false)
  }

  /** The int32 offset is the intended `(page_id - 1) * page_size` exactly when
      that product fits in int32; it is then non-negative, and zero for the
      first page. */
  lemma ListOffsetExact(pageId: int, pageSize: int)
    requires IsInt32(pageId) && pageId >= 1 && MinPageSize <= pageSize <= MaxPageSize
    ensures ListOffset(pageId, pageSize) == (pageId - 1) * pageSize <==> (pageId - 1) * pageSize <= INT32_MAX
    ensures (pageId - 1) * pageSize <= INT32_MAX ==>
      ListOffset(pageId, pageSize) >= 0
    ensures ListOffset(1, pageSize) == 0
  {
    var k := pageId - 1;
    assert Wrap32(k) == k;
    var q := k * pageSize;
    assert ListOffset(pageId, pageSize) == Wrap32(q);
    assert q >= 0 by {
      assert k >= 0 && pageSize > 0;
    }
    if q <= INT32_MAX {
      assert Wrap32(q) == q;
    } else {
      assert !IsInt32(q);
    }
    assert Wrap32(0) == 0;
    assert ListOffset(1, pageSize) == Wrap32(0 * pageSize);
  }

  /** Consecutive pages are contiguous while the offsets fit in int32: page
      p + 1 starts where page p's `page_size` rows end. */
  lemma PagesAreContiguous(pageId: int, pageSize: int)
    requires pageId >= 1 && MinPageSize <= pageSize <= MaxPageSize
    requires pageId * pageSize <= INT32_MAX
    ensures ListOffset(pageId + 1, pageSize) == ListOffset(pageId, pageSize) + pageSize
  {
    ProductStep(pageId, pageSize);
    var before, after := (pageId - 1) * pageSize, pageId * pageSize;
    assert IsInt32(pageId - 1) && IsInt32(pageId);
    assert IsInt32(before) && IsInt32(after);
    assert ListOffset(pageId, pageSize) == before;
    assert ListOffset(pageId + 1, pageSize) == after;
  }

  lemma ProductStep(pageId: int, pageSize: int)
    requires pageId >= 1 && pageSize >= 0
    ensures pageId * pageSize == (pageId - 1) * pageSize + pageSize
    ensures 0 <= (pageId - 1) * pageSize <= pageId * pageSize
  {
  }

  /** For the last int32 page id the product overflows and the offset handed
      to the store is negative. */
  lemma ListOffsetOverflows()
    ensures PageBinds(Some(INT32_MAX), Some(MaxPageSize))
    ensures ListOffset(INT32_MAX, MaxPageSize) == -20
  {
  }
}
