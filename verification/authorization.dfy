/** gapi/authorization.go: reading a bearer token from the incoming metadata
    and handing it to the token verifier, which stays uninterpreted. */
module Authorization {
  import opened Wrappers
  import opened GoStrings
  import opened GrpcMetadata

  const AuthorizationHeader: string := "authorization"
  const AuthorizationBearer: string := "bearer"

  datatype AuthError<E> =
    | MissingMetadata
    | MissingAuthorizationHeader
    | InvalidAuthorizationHeader
    | UnsupportedAuthorizationType(authType: string)
    | InvalidAccessToken(cause: E)

  /** The outcome of authorizeUser together with the token it passed to the
      verifier, `None` when the verifier was never called. */
  datatype Authorization<P, E> = Authorization(verifierInput: Option<string>, result: Result<P, AuthError<E>>)

  /** authorizeUser, with `verify` standing for tokenMaker.VerifyToken. */
  function AuthorizeUser<P, E>(incoming: Option<MD>, verify: string -> Result<P, E>): (a: Authorization<P, E>)
    ensures incoming.None? ==> a == Authorization(None, Failure(MissingMetadata))
    ensures incoming.Some? && |Get(incoming.value, AuthorizationHeader)| == 0 ==>
      a == Authorization(None, Failure(MissingAuthorizationHeader))
    ensures a.verifierInput.Some? <==>
      && incoming.Some?
      && |Get(incoming.value, AuthorizationHeader)| > 0
      && var fields := Fields(Get(incoming.value, AuthorizationHeader)[0]);
         |fields| >= 2 && ToLower(fields[0]) == AuthorizationBearer
    ensures a.verifierInput.Some? ==>
      a.verifierInput.value == Fields(Get(incoming.value, AuthorizationHeader)[0])[1]
    ensures a.result.Success? <==> a.verifierInput.Some? && verify(a.verifierInput.value).Success?
    ensures a.result.Success? ==> a.result.value == verify(a.verifierInput.value).value
    ensures a.verifierInput.Some? && a.result.Failure? ==>
      a.result.error == InvalidAccessToken(verify(a.verifierInput.value).error)
  {
    if incoming.None? then
      Authorization(None, Failure(MissingMetadata))
    else
      var values := Get(incoming.value, AuthorizationHeader);
      if |values| == 0 then
        Authorization(None, Failure(MissingAuthorizationHeader))
      else
        var authHeader := values[0];
        var fields := Fields(authHeader);
        if |fields| < 2 then
          Authorization(None, Failure(InvalidAuthorizationHeader))
        else
          var authType := ToLower(fields[0]);
          if authType != AuthorizationBearer then
            Authorization(None, Failure(UnsupportedAuthorizationType(authType)))
          else
            var accessToken := fields[1];
            match verify(accessToken)
            case Failure(err) => Authorization(Some(accessToken), Failure(InvalidAccessToken(err)))
            case Success(payload) => Authorization(Some(accessToken), Success(payload))
  }

  /** A header that is empty or all whitespace has no fields, and one word
      padded with any whitespace has a single field: both are invalid, and no
      verification happens. */
  lemma {:induction false} TooFewFieldsRejected<P, E>(
    md: MD, lead: string, word: string, trail: string, rest: seq<string>, verify: string -> Result<P, E>)
    requires AllSpaces(lead) && AllSpaces(trail)
    requires IsField(word)
    ensures AuthorizeUser(Some(md[AuthorizationHeader := [lead] + rest]), verify) ==
      Authorization(None, Failure(InvalidAuthorizationHeader))
    ensures AuthorizeUser(Some(md[AuthorizationHeader := [lead + word + trail] + rest]), verify) ==
      Authorization(None, Failure(InvalidAuthorizationHeader))
  {
    FieldsAreFields(lead);
    assert Layout([word], []) == word;
    FieldsCollapseWhitespace(lead, [word], [], trail);
  }

  /** A header `scheme token extra...`, in any whitespace layout, whose scheme
      does not lower-case to "bearer" is rejected as unsupported, naming the
      lower-cased scheme, and no verification happens. */
  lemma {:induction false} OtherSchemeRejected<P, E>(
    md: MD, scheme: string, token: string, extra: seq<string>,
    lead: string, seps: seq<string>, trail: string, rest: seq<string>,
    verify: string -> Result<P, E>)
    requires ToLower(scheme) != AuthorizationBearer
    requires IsField(scheme) && IsField(token)
    requires forall i :: 0 <= i < |extra| ==> IsField(extra[i])
    requires |seps| == |extra| + 1
    requires forall i :: 0 <= i < |seps| ==> IsSeparator(seps[i])
    requires AllSpaces(lead) && AllSpaces(trail)
    ensures var header := lead + Layout([scheme, token] + extra, seps) + trail;
      AuthorizeUser(Some(md[AuthorizationHeader := [header] + rest]), verify) ==
      Authorization(None, Failure(UnsupportedAuthorizationType(ToLower(scheme))))
  {
    HeaderFields(scheme, token, extra, lead, seps, trail);
  }

  /** Only the first authorization value is read; later ones are ignored. */
  lemma OnlyFirstHeaderValueUsed<P, E>(md: MD, v: string, rest: seq<string>, verify: string -> Result<P, E>)
    ensures AuthorizeUser(Some(md[AuthorizationHeader := [v] + rest]), verify) ==
            AuthorizeUser(Some(md[AuthorizationHeader := [v]]), verify)
  {
  }

  /** The scheme word compares case-insensitively. */
  lemma BearerSpellings()
    ensures ToLower("bearer") == AuthorizationBearer
    ensures ToLower("Bearer") == AuthorizationBearer
    ensures ToLower("BEARER") == AuthorizationBearer
    ensures ToLower("bEaReR") == AuthorizationBearer
  {
    LowersTo("bearer", AuthorizationBearer);
    LowersTo("Bearer", AuthorizationBearer);
    LowersTo("BEARER", AuthorizationBearer);
    LowersTo("bEaReR", AuthorizationBearer);
  }

  /** Lower-casing is decided rune by rune. */
  lemma LowersTo(s: string, t: string)
    requires |s| == |t|
    requires forall i :: 0 <= i < |s| ==> LowerRune(s[i]) == t[i]
    ensures ToLower(s) == t
  {
  }

  /** A header laid out as `scheme token extra...`, with any whitespace around
      and between the fields, hands exactly `token` to the verifier when the
      scheme lower-cases to "bearer"; further fields are ignored and the
      verifier's verdict is returned unchanged. */
  lemma {:induction false} BearerTokenReachesVerifier<P, E>(
    md: MD, scheme: string, token: string, extra: seq<string>,
    lead: string, seps: seq<string>, trail: string, rest: seq<string>,
    verify: string -> Result<P, E>)
    requires ToLower(scheme) == AuthorizationBearer
    requires IsField(scheme) && IsField(token)
    requires forall i :: 0 <= i < |extra| ==> IsField(extra[i])
    requires |seps| == |extra| + 1
    requires forall i :: 0 <= i < |seps| ==> IsSeparator(seps[i])
    requires AllSpaces(lead) && AllSpaces(trail)
    ensures var header := lead + Layout([scheme, token] + extra, seps) + trail;
      var a := AuthorizeUser(Some(md[AuthorizationHeader := [header] + rest]), verify);
      && a.verifierInput == Some(token)
      && (verify(token).Success? ==> a.result == Success(verify(token).value))
      && (verify(token).Failure? ==> a.result == Failure(InvalidAccessToken(verify(token).error)))
  {
    HeaderFields(scheme, token, extra, lead, seps, trail);
  }

  /** The fields of a header laid out as `scheme token extra...`. */
  lemma HeaderFields(scheme: string, token: string, extra: seq<string>,
                     lead: string, seps: seq<string>, trail: string)
    requires IsField(scheme) && IsField(token)
    requires forall i :: 0 <= i < |extra| ==> IsField(extra[i])
    requires |seps| == |extra| + 1
    requires forall i :: 0 <= i < |seps| ==> IsSeparator(seps[i])
    requires AllSpaces(lead) && AllSpaces(trail)
    ensures Fields(lead + Layout([scheme, token] + extra, seps) + trail) == [scheme, token] + extra
  {
    var fs := [scheme, token] + extra;
    HeaderPartsAreFields(scheme, token, extra, fs);
    FieldsCollapseWhitespace(lead, fs, seps, trail);
  }

  lemma HeaderPartsAreFields(scheme: string, token: string, extra: seq<string>, fs: seq<string>)
    requires IsField(scheme) && IsField(token)
    requires forall i :: 0 <= i < |extra| ==> IsField(extra[i])
    requires fs == [scheme, token] + extra
    ensures forall i :: 0 <= i < |fs| ==> IsField(fs[i])
  {
    assert fs[0] == scheme && fs[1] == token && fs[2..] == extra;
    forall i | 2 <= i < |fs| ensures IsField(fs[i]) {
      assert fs[i] == extra[i - 2];
    }
  }
}
