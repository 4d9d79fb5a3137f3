# Simple Bank request layer in Dafny

This project models the request-gating and parsing layer of the Simple Bank
service, a Go banking backend with an HTTP API (gin) and a gRPC API. It covers:

- the HTTP handlers that create, fetch and list accounts and that start a money transfer (`api/account.go`, `api/transfer.go`);
- bearer-token extraction and client-metadata extraction on the gRPC side (`gapi/authorization.go`, `gapi/metadata.go`);
- the field validators (`val/validator.go`);
- the currency whitelist (`util/currency.go`);
- the random test-data helpers (`util/random.go`).

Every handler is a pure function. It returns a `Reply` that records three things:

- the store calls it made, in order;
- every `ctx.JSON` write it issued;
- whether it panicked.

The status a client sees is the status of the first write, because gin sends the header on the first write. This lets the model show that an owner mismatch in `createTransfer` writes 401 and still runs the transfer transaction.

The database is abstract. Account lookup reads a map from id to account, plus a map of ids whose lookup fails with an error other than "no rows". Account creation, listing and the transfer transaction are oracle functions. The token verifier, the e-mail address parser, the registered `currency` binding rule and `rand.Intn` are oracles as well. For `rand.Intn`, each call is represented by the value it drew.

The transfer transaction (`db/sqlc`) is not part of this model; the handlers' code is modelled instead.

Go strings are sequences of Unicode scalar values. Go's `len` counts bytes, so it is modelled as the UTF-8 byte length `GoStrings.Utf8Len`. Go's `int32` arithmetic and 64-bit `int` arithmetic wrap around, and that wrap-around is written out in `GoInt`.

## Model

| member | source | states |
|---|---|---|
| GoInt.Wrap32 | api/account.go:88-91 | int32 arithmetic: the result is an int32 congruent to the exact value modulo 2^32, and equals it when it fits |
| GoInt.Wrap64 | util/random.go:17-19 | 64-bit int arithmetic: the result is an int64 congruent to the exact value modulo 2^64, and equals it when it fits |
| GoStrings.Utf8Len | val/validator.go:18 | `len` of a string counts bytes: between one and four per rune |
| GoStrings.Utf8LenAscii | val/validator.go:18 | byte length equals rune count exactly when every rune is ASCII |
| GoStrings.LowerRune | gapi/authorization.go:36 | lower-casing never yields an ASCII capital, and yields ASCII only from ASCII or the two runes Go folds into ASCII |
| GoStrings.ToLower | gapi/authorization.go:36 | strings.ToLower keeps the rune count and lowers each rune |
| GoStrings.FieldsAreFields | gapi/authorization.go:31-34 | strings.Fields yields non-empty space-free fields, and none exactly when the header is all whitespace |
| GoStrings.FieldsKeepEveryNonSpace | gapi/authorization.go:31 | the fields, concatenated, are the input with its whitespace removed |
| GoStrings.FieldsSkipLeadingSpaces | gapi/authorization.go:31 | leading whitespace does not change the fields |
| GoStrings.FieldsOfLayout | gapi/authorization.go:31 | splitting fields laid out with any whitespace runs between them and after them gives those fields back |
| GoStrings.FieldsCollapseWhitespace | gapi/authorization.go:31-34 | leading, trailing and repeated whitespace all collapse under the split |
| Currency.IsSupportedCurrency | util/currency.go:4-18 | supported exactly for "USD", "EUR" and "IDR"; every supported code is three upper-case ASCII letters |
| Currency.CurrencyMatchIsCaseSensitive | util/currency.go:12-17 | "usd", "Usd", "eur", "idr" and "" are unsupported |
| Currency.NonCapitalCodeUnsupported | util/currency.go:12-17 | a code with any rune outside A-Z is unsupported |
| Random.RandomInt | util/random.go:16-19 | under rand.Intn's no-panic condition the result is an int64, and for ordered bounds it is min + draw, inside [min, max] |
| Random.RandomIntCoversRange | util/random.go:16-19 | every value of [min, max] is the result for some legal draw |
| Random.FullRangeSpanWraps | util/random.go:18 | for the full int64 range the span wraps to 0, so no draw exists and rand.Intn panics |
| Random.RandomString | util/random.go:21-32 | length n (0 when n is negative), and character i is the alphabet letter chosen by draw i |
| Random.RandomOwner | util/random.go:34-37 | six characters, all from the 52-letter alphabet |
| Random.RandomMoney | util/random.go:39-42 | the amount lies in [0, 1000] |
| Random.RandomCurrency | util/random.go:44-49 | every draw yields a supported currency |
| Random.RandomCurrencyCoversWhitelist | util/random.go:44-49 | every supported currency is yielded by some draw |
| Validator.MatchWholeClassPlus | val/validator.go:9-14 | an anchored `^[class]+$` matches exactly the non-empty strings whose runes are all in the class |
| Validator.ValidateString | val/validator.go:16-24 | passes exactly when the byte length lies in [minLength, maxLength]; otherwise it reports that window |
| Validator.ValidateStringAscii | val/validator.go:17-18 | for ASCII strings the window applies to the rune count |
| Validator.ValidateStringMonotone | val/validator.go:17-24 | widening the window keeps an accepted string accepted |
| Validator.ValidateUsername | val/validator.go:26-39 | passes exactly for 3 to 100 runes all in `[a-z0-9_]`; a wrong byte length reports the length error, otherwise a failure is the charset error |
| Validator.UsernameLengthReportedFirst | val/validator.go:29-36 | "A!" reports the length error and "AB!" the charset error |
| Validator.ValidateFullName | val/validator.go:41-54 | passes exactly for 3 to 100 runes all ASCII letters or `[\t\n\f\r ]`; the length error comes first |
| Validator.FullNameRejectsVerticalTab | val/validator.go:13 | a vertical tab is whitespace for strings.Fields but fails the full-name class |
| Validator.ValidatePassword | val/validator.go:56-60 | passes exactly when the byte length lies in [6, 100] |
| Validator.PasswordContentIrrelevant | val/validator.go:58-60 | passwords of equal byte length get the same verdict |
| Validator.ValidateEmail | val/validator.go:62-75 | outside [3, 100] bytes the length error; inside, passes exactly when the address parser accepts |
| Validator.EmailLengthBeforeParser | val/validator.go:65-68 | an out-of-window address gets the same verdict under any parser |
| GrpcMetadata.ExtractMetadata | gapi/metadata.go:24-47 | user agent is the first value of `user-agent`, else of `grpcgateway-user-agent`, else ""; client IP is the peer address, else the first `x-forwarded-for` value, else "" |
| GrpcMetadata.UserAgentBeatsGatewayHeader | gapi/metadata.go:29-35 | a non-empty `user-agent` header decides the user agent |
| GrpcMetadata.GatewayHeaderAsFallback | gapi/metadata.go:29-31 | without `user-agent` the gateway header's first value is used |
| GrpcMetadata.PeerBeatsForwardedFor | gapi/metadata.go:37-44 | with a peer, the client IP is the peer address whatever the headers say |
| GrpcMetadata.NoSourcesNoMetadata | gapi/metadata.go:25-47 | no metadata and no peer give empty user agent and client IP |
| GrpcMetadata.SourcesAreIndependent | gapi/metadata.go:28-44 | neither the peer nor `x-forwarded-for` ever affects the user agent; the user-agent headers never affect the client IP |
| GrpcMetadata.OnlyFirstValueUsed | gapi/metadata.go:29-39 | values after the first one of each header are ignored |
| Authorization.AuthorizeUser | gapi/authorization.go:18-48 | errors for missing metadata and missing header; the verifier is called exactly for a bearer header of at least two fields, with the second field as input; its payload is returned unchanged and its failure becomes "invalid access token" |
| Authorization.TooFewFieldsRejected | gapi/authorization.go:31-34 | an empty or all-whitespace header, or one word padded with any whitespace, is an invalid header, and no verification happens |
| Authorization.OtherSchemeRejected | gapi/authorization.go:36-39 | a header `scheme token ...` in any whitespace layout whose scheme does not lower-case to `bearer` is rejected as unsupported, naming the lower-cased scheme, with no verification |
| Authorization.OnlyFirstHeaderValueUsed | gapi/authorization.go:25-30 | authorization values after the first one are ignored |
| Authorization.BearerSpellings | gapi/authorization.go:15-16 | "bearer", "Bearer", "BEARER" and "bEaReR" lower-case to the bearer scheme |
| Authorization.BearerTokenReachesVerifier | gapi/authorization.go:30-47 | for `scheme token extra...` with any whitespace layout and a bearer scheme, exactly `token` reaches the verifier and its verdict is returned |
| Store.GetAccount | api/account.go:61-69 | a lookup succeeds exactly for a known id without a fault, returning the stored account; it fails with "no rows" exactly for an unknown id with no fault, and with the fault's error exactly for a faulted id |
| ApiServer.FirstWriteDecides | api/transfer.go:47-57 | the status the client sees is the first write's: later writes and a later panic never change it; a panic before any write is 500 (gin's recovery), and no write and no panic is 200 |
| ApiServer.LookupErrorStatus | api/account.go:62-68 | a failed lookup is 404 exactly for "no rows", otherwise 500 |
| AccountApi.CreateErrorStatus | api/account.go:33-42 | a creation error is 403 exactly for a Postgres foreign-key or uniqueness violation, otherwise 500 |
| AccountApi.CreateAccount | api/account.go:13-46 | a request that fails binding (a missing body, an empty owner or currency, or a currency the `currency` rule rejects) is 400 with no store call; a bound one makes one creation call with the request's owner and currency and balance 0, answering 200 with the account or the mapped error status |
| AccountApi.GetAccountHandler | api/account.go:49-72 | a path id that does not bind (missing, not an int64, or below 1) is 400 with no store call; otherwise one lookup, with 200 exactly for an existing account (returned), 404 exactly for a missing one and 500 exactly for a failing lookup |
| AccountApi.ListAccounts | api/account.go:75-100 | a query that does not bind (page_id or page_size missing or not an int32, page_id below 1, page_size outside [5, 10]) is 400 with no store call; a bound page makes one listing call with limit = page_size in [5, 10] and offset the int32 `(page_id - 1) * page_size`; a store error is 500 |
| AccountApi.ListOffsetExact | api/account.go:88-91 | the offset equals `(page_id - 1) * page_size` exactly when that product fits in int32; it is then non-negative, and 0 on page 1 |
| AccountApi.PagesAreContiguous | api/account.go:88-91 | while in range, the offset of page p + 1 is that of page p plus the limit |
| AccountApi.ListOffsetOverflows | api/account.go:74-91 | page 2147483647 of size 10 binds, yet its int32 offset is -20 |
| TransferApi.ValidAccount | api/transfer.go:60-79 | valid exactly when the account exists, its lookup does not fail and its currency equals the request's; otherwise one write of 404 (missing), 500 (lookup error) or 400 (currency mismatch) |
| TransferApi.CreateTransfer | api/transfer.go:15-58 | a request that fails binding (a missing body, an account id that is not an int64 of at least 1, an amount that is not a positive int64, or an empty currency or one the `currency` rule rejects) is 400 with no store call; the source account is looked up first; the transaction runs exactly when both accounts pass and a payload is present, and then with the request's ids and amount; 200 implies the caller owns the source account and the transaction succeeded |
| TransferApi.FromCheckFailureStopsEarly | api/transfer.go:36-39 | a failing source check ends the request after one lookup, with its 404, 500 or 400 |
| TransferApi.ToCheckFailureStopsBeforeTransfer | api/transfer.go:41-44 | a failing destination check ends the request after both lookups, before the transaction |
| TransferApi.OwnerMismatchFallsThrough | api/transfer.go:46-51 | when someone else owns the source account, 401 is written and seen by the client, yet the transaction still runs and writes a second answer |
| TransferApi.TransactionOutcomeDecides | api/transfer.go:51-57 | with a matching owner: 200 with the transaction's result, or 500 with its error; a transfer from an account to itself is not rejected |
| TransferApi.MissingPayloadPanics | api/transfer.go:46 | without an authorization payload the handler panics after both lookups, no transaction runs, and the client sees 500 |

## Left out

- The transfer transaction and every store internal (`db/sqlc`): conservation of money, ledger entries, lock ordering, retries and atomicity are not part of this model. `TransferTx`, `CreateAccount` and `ListAccounts` are oracles.
- Concurrency: the handlers are sequential, and all coordination happens inside the store.
- HTTP routing and gin wiring (`api/server.go`), gRPC server construction (`gapi/server.go`), gRPC error details (`gapi/error.go`) and timestamp conversion (`gapi/converter.go`): framework glue.
- The logging middleware (`gapi/logger.go`): it only does wall-clock timing and log output.
- `api/user.go` (`createUser`): binds `username` as `required,alphanum`, `password` as `required,min=6`, `full_name` as `required` and `email` as `required,email` (400 on failure); answers 500 when password hashing fails; maps a `unique_violation` from the store to 403 and every other store error to 500. It is outside the modelled core, and its hashing helper is not part of this model.
- E-mail syntax: `mail.ParseAddress` (section 3.4 of RFC 5322) is the uninterpreted parameter `parseAddress`.
- Token verification: `VerifyToken` (PASETO) is the uninterpreted parameter `verify`.
- The `currency` binding validator registered in `api/server.go`: its body is not part of this model, so it is the parameter `currencyRule`.
- Seeding the random generator from the clock. Draws are parameters instead.
- JSON, URI and query decoding: a handler receives the decoded request, or `None` when decoding fails. Binding is modelled by its validation tags only.
- Error messages: response bodies carry an `ApiError` value, not the formatted text.
- The authorization test cases of `api/account_test.go` expect owner checks that `api/account.go` and the router in `api/server.go` do not perform.
- Invalid UTF-8: strings are sequences of Unicode scalar values, so byte strings that are not valid UTF-8 are not modelled.
- GoStrings.LowerRune: folds ASCII capitals and the two non-ASCII runes that Go lowers into ASCII (U+0130 and U+212A). It keeps every other rune as it is, because the Unicode case tables are not modelled. The comparison with "bearer" is unaffected. The lower-cased scheme named in the "unsupported" error can differ for non-ASCII schemes.
- GrpcMetadata.Get: does not lower-case its key as `MD.Get` does, because every key the core passes is a lower-case constant.
- Random.RandomInt: assumes Go's `int` is 64 bits wide, and its `requires` excludes the spans on which `rand.Intn` panics (a wrapped `max - min + 1` of 0 or below), so the panic itself is not modelled.
- Store.GetAccount: represents a failing lookup by an entry in a map of faults keyed by id, not by a per-call oracle.
