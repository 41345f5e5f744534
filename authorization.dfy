/**
 * The `authorize` middleware (server/server.js:167-204). The token library and the key
 * conversion are outside the model and come in as functions:
 *   `decode` stands for `jwt.decode(token, {complete: true})` (None when it yields null),
 *   `toPem` for `jwkToPem`, and
 *   `verify` for `jwt.verify(token, pem, options)` (true when its callback gets no error).
 */
module Authorization {
  import opened Wrappers
  import opened Keys

  datatype Header = Header(kid: Option<string>, alg: Option<string>)
  datatype Claims = Claims(iss: Option<string>, sub: Option<string>)
  /** The header and payload of a token, read without checking its signature. */
  datatype DecodedToken = DecodedToken(header: Header, payload: Claims)

  /** The options object handed to `jwt.verify`. */
  datatype VerifyOptions = VerifyOptions(audience: string, issuer: string, algorithms: seq<Option<string>>)

  /** Which step turned the request away; all of them answer 401 with an empty body. */
  datatype Rejection =
    | MalformedToken            // no Authorization header, or `jwt.decode` yields null
    | KeyRejected(why: KeyError) // `getPem` throws
    | UntrustedIssuer           // `iss` is neither accepted issuer string
    | VerificationFailed        // `jwt.verify` reports an error

  datatype Decision = Authorized | Rejected(reason: Rejection)

  const GoogleIssuer := "accounts.google.com"
  const GoogleIssuerUrl := "https://accounts.google.com"

  predicate AcceptedIssuer(iss: Option<string>)
  {
    iss == Some(GoogleIssuer) || iss == Some(GoogleIssuerUrl)
  }

  /**
   * The decision for one request, in the source's order: decode, read `kid`, `alg` and
   * `iss`, fetch the key (`getPem`), check the issuer, and only then verify with audience
   * `clientId`, issuer `iss` and the token's own algorithm. `authorization` is the raw
   * Authorization header, used as the token as it stands.
   */
  function Authorize(
    cache: KeyCache,
    authorization: Option<string>,
    decode: string -> Option<DecodedToken>,
    toPem: KeyEntry -> Option<Pem>,
    verify: (string, Pem, VerifyOptions) -> bool,
    clientId: string): (d: Decision)
    reads cache
    ensures authorization.None? || decode(authorization.value).None? ==> d == Rejected(MalformedToken)
    ensures d == Authorized ==>
      && authorization.Some? && decode(authorization.value).Some?
      && cache.keys.Some? && AcceptedIssuer(decode(authorization.value).value.payload.iss)
  {
    match authorization
    case None => Rejected(MalformedToken)
    case Some(token) =>
      match decode(token)
      case None => Rejected(MalformedToken) // `decoded.header` throws on null
      case Some(t) =>
        match cache.GetPem(t.header.kid, toPem)
        case Failure(why) => Rejected(KeyRejected(why))
        case Success(pem) =>
          if !AcceptedIssuer(t.payload.iss) then Rejected(UntrustedIssuer)
          else if verify(token, pem, VerifyOptions(clientId, t.payload.iss.value, [t.header.alg])) then Authorized
          else Rejected(VerificationFailed)
  }

  /**
   * A request is authorized if the token decodes, the FIRST cached key with the token's
   * `kid` converts to a PEM key, the issuer is one of the two accepted strings, and
   * verification with that key, audience `clientId`, issuer `iss` and algorithms `[alg]`
   * succeeds.
   */
  lemma AuthorizedIfAllStepsPass(
    cache: KeyCache, token: string, t: DecodedToken, i: int, pem: Pem,
    decode: string -> Option<DecodedToken>, toPem: KeyEntry -> Option<Pem>,
    verify: (string, Pem, VerifyOptions) -> bool, clientId: string)
    requires decode(token) == Some(t)
    requires cache.keys.Some? && IsFirstMatch(cache.keys.value, t.header.kid, i)
    requires toPem(cache.keys.value[i]) == Some(pem)
    requires AcceptedIssuer(t.payload.iss)
    requires verify(token, pem, VerifyOptions(clientId, t.payload.iss.value, [t.header.alg]))
    ensures Authorize(cache, Some(token), decode, toPem, verify, clientId) == Authorized
  {
    FindKeyIsFirst(cache.keys.value, t.header.kid, i);
  }

  /** Conversely, an authorized request passed every step, with the first matching key. */
  lemma AuthorizedOnlyIfAllStepsPass(
    cache: KeyCache, authorization: Option<string>,
    decode: string -> Option<DecodedToken>, toPem: KeyEntry -> Option<Pem>,
    verify: (string, Pem, VerifyOptions) -> bool, clientId: string)
    requires Authorize(cache, authorization, decode, toPem, verify, clientId) == Authorized
    ensures authorization.Some? && decode(authorization.value).Some?
    ensures var t := decode(authorization.value).value;
      && AcceptedIssuer(t.payload.iss)
      && cache.keys.Some?
      && exists i :: IsFirstMatch(cache.keys.value, t.header.kid, i)
           && toPem(cache.keys.value[i]).Some?
           && verify(authorization.value, toPem(cache.keys.value[i]).value,
                     VerifyOptions(clientId, t.payload.iss.value, [t.header.alg]))
  {
  }

  /**
   * The key lookup comes before the issuer check: with no cached key for the token's `kid`
   * (or no key set yet) the request is turned away as an unknown key, whatever its issuer.
   */
  lemma UnknownKidRejectedWhateverIssuer(
    cache: KeyCache, token: string, t: DecodedToken,
    decode: string -> Option<DecodedToken>, toPem: KeyEntry -> Option<Pem>,
    verify: (string, Pem, VerifyOptions) -> bool, clientId: string)
    requires decode(token) == Some(t)
    requires cache.keys.None? || forall i :: 0 <= i < |cache.keys.value| ==> cache.keys.value[i].kid != t.header.kid
    ensures Authorize(cache, Some(token), decode, toPem, verify, clientId) == Rejected(KeyRejected(UnknownKey))
  {
    if cache.keys.Some? {
      FindKeyResult(cache.keys.value, t.header.kid);
    }
  }

  /**
   * `jwt.verify` is never consulted for an untrusted issuer: the decision is a rejection
   * and stays the same whatever the verifier would answer.
   */
  lemma UntrustedIssuerNeverVerified(
    cache: KeyCache, token: string, t: DecodedToken,
    decode: string -> Option<DecodedToken>, toPem: KeyEntry -> Option<Pem>,
    verify1: (string, Pem, VerifyOptions) -> bool, verify2: (string, Pem, VerifyOptions) -> bool,
    clientId: string)
    requires decode(token) == Some(t)
    requires !AcceptedIssuer(t.payload.iss)
    ensures Authorize(cache, Some(token), decode, toPem, verify1, clientId).Rejected?
    ensures Authorize(cache, Some(token), decode, toPem, verify1, clientId)
         == Authorize(cache, Some(token), decode, toPem, verify2, clientId)
  {
  }

  /** Before the first refresh has stored a key set, every request is turned away. */
  lemma NothingAuthorizedBeforeFirstRefresh(
    cache: KeyCache, authorization: Option<string>,
    decode: string -> Option<DecodedToken>, toPem: KeyEntry -> Option<Pem>,
    verify: (string, Pem, VerifyOptions) -> bool, clientId: string)
    requires cache.keys.None?
    ensures Authorize(cache, authorization, decode, toPem, verify, clientId).Rejected?
  {
  }
}
