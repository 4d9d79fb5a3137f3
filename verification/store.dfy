/** The storage layer the HTTP handlers call. Its implementation (generated
    SQL queries and the transfer transaction) is not part of this model:
    account lookup reads an abstract map of accounts, and the other
    operations are oracles that return whatever the database would. */
module Store {
  import opened Wrappers

  datatype Account = Account(id: int, owner: string, balance: int, currency: string)

  datatype Transfer = Transfer(id: int, fromAccountId: int, toAccountId: int, amount: int)

  datatype Entry = Entry(id: int, accountId: int, amount: int)

  /** What the transfer transaction reports back on success. */
  datatype TransferTxResult = TransferTxResult(
    transfer: Transfer, fromAccount: Account, toAccount: Account, fromEntry: Entry, toEntry: Entry)

  /** Errors a store call can return: `sql.ErrNoRows`, a `*pq.Error` carrying
      its code name, or anything else. */
  datatype DbError = NoRows | PqError(codeName: string) | OtherError(message: string)

  datatype CreateAccountParams = CreateAccountParams(owner: string, balance: int, currency: string)

  datatype ListAccountsParams = ListAccountsParams(limit: int, offset: int)

  datatype TransferTxParams = TransferTxParams(fromAccountId: int, toAccountId: int, amount: int)

  /** The database as the handlers see it. `faults` lists the ids whose lookup
      fails with an error other than "no rows" (a lost connection, say). */
  datatype Store = Store(
    accounts: map<int, Account>,
    faults: map<int, string>,
    createAccount: CreateAccountParams -> Result<Account, DbError>,
    listAccounts: ListAccountsParams -> Result<seq<Account>, DbError>,
    transferTx: TransferTxParams -> Result<TransferTxResult, DbError>)

  /** GetAccount: a faulty lookup fails with its error, an unknown id with
      "no rows", a known one returns the stored account. */
  function GetAccount(store: Store, id: int): (r: Result<Account, DbError>)
    ensures r.Success? <==> id !in store.faults && id in store.accounts
    ensures r.Success? ==> r.value == store.accounts[id]
    ensures r == Failure(NoRows) <==> id !in store.faults && id !in store.accounts
    ensures id in store.faults ==> r == Failure(OtherError(store.faults[id]))
  {
    if id in store.faults then Failure(OtherError(store.faults[id]))
    else if id in store.accounts then Success(store.accounts[id])
    else Failure(NoRows)
  }

  /** The store calls a handler makes, in the order it makes them. */
  datatype StoreCall =
    | GetAccountCall(id: int)
    | CreateAccountCall(createParams: CreateAccountParams)
    | ListAccountsCall(listParams: ListAccountsParams)
    | TransferTxCall(transferParams: TransferTxParams)
}
