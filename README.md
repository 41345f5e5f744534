# Token-gated task server: a Dafny model of its decision and parsing core

The server (`server/server.js`) keeps a task list per Google user. Every request under
`/a` must carry a Google ID token in its `Authorization` header. The `authorize` middleware
checks that token against a process-wide cache of Google's public keys. A background callback
refreshes that cache and schedules the next refresh from the `cache-control` header. The task
routes scope every storage query by the token's subject, written into the body as `userid`.

This project models that core in Dafny and proves its properties:

- `text.dfy` (module `Text`): JavaScript's `split` with a one-character separator, and
  `parseInt` without a radix as ECMA-262 defines it: whitespace, sign, `0x` prefix, digit run,
  NaN when there are no digits.
- `cache_control.dfy` (`CacheControl`): the refresh delay read from the second directive of
  `cache-control`.
- `keys.dfy` (`Keys`): the key entries, the first-match lookup of `getPem`, and the class
  `KeyCache`. Its one field `keys` is replaced wholesale by `Replace` and `Refresh`.
- `authorization.dfy` (`Authorization`): `authorize` as a function of the raw header, the
  cache and the three token-library operations, which come in as function parameters.
- `middleware.dfy` (`Middleware`): `allowCrossDomain`, the 401 of `authorize`, and the order
  of the middleware chain.
- `tasks.dfy` (`Tasks`): `getUserId`, `payload` (which updates `req.body` in place), and the
  POST, PUT, DELETE and GET task routes. A field-equality reading of a storage query is used
  to state the scoping properties.
- `logger.dfy` (`Logger`): the fallback loop of `log` that builds a shallow copy.
- `js_value.dfy` (`JsValue`) and `wrappers.dfy` (`Wrappers`): shared value types.

The code itself points at intentions it does not carry out. The model follows the code:

- The variable is called `maxAge`, and the comment at server/server.js:258 speaks of the
  max age expiring. Yet the refresh delay comes from the SECOND directive, whatever its name;
  the code does not look for `max-age`. `CacheControl.MaxAgeFirstIsNaN` shows a header where
  this gives NaN.
- A refresh that fails throws out of its `request` callback, and nothing catches it. This
  happens when the body does not parse or the header has no second directive. The outcome is
  `Unparsable` for the body and `Thrown` for the header. No retry and no default delay follow.
- The token is the raw `Authorization` header. The usual `Bearer ` prefix is not removed.
- `authorize` does not attach the subject to the request. The routes decode the token again
  in `getUserId`.
- GET /a/tasks filters by the request BODY, not by the query string.
- The verification algorithm is the token's own `alg` header (`algorithms: [alg]`), not one
  fixed per key. The model keeps this and states it in `AuthorizedIfAllStepsPass`.

## Model

| member | source | states |
|---|---|---|
| `Text.Split` | server/server.js:255-256 | `split` returns at least one piece, no piece contains the separator, and joining the pieces with it gives back the string |
| `Text.SplitJoin` | server/server.js:255-256 | splitting a join of separator-free pieces gives back exactly those pieces |
| `Text.ParseInt` | server/server.js:256 | `parseInt` without a radix. Its own contract is empty; its outcomes are stated by four lemmas that together cover every input. After the whitespace and an optional sign, the text either starts with `0x`/`0X` (`Text.ParseIntHex` when hex digits follow, `Text.ParseIntHexNaN` when none do), or starts with a decimal digit (`Text.ParseIntDigits`), or does neither (`Text.ParseIntNaN`) |
| `Text.ParseIntDigits` | server/server.js:256 | after optional whitespace and an optional sign, any run of decimal digits, leading zeros included, reads as its signed decimal value, whatever non-digit text follows (a lone `0` must not be followed by `x`/`X`) |
| `Text.ParseIntDecimal` | server/server.js:256 | the numeral `Decimal(n)` after optional whitespace and an optional sign reads back as the signed `n`, whatever non-digit text follows (a zero must not be followed by `x`) |
| `Text.ParseIntHex` | server/server.js:256 | after whitespace and an optional sign, `0x` or `0X` followed by hex digits reads as the signed radix-16 value of those digits, whatever non-hex text follows |
| `Text.ParseIntHexNaN` | server/server.js:256 | `0x` or `0X` followed by nothing or by a non-hex character is NaN, with or without whitespace and a sign before it |
| `Text.ParseIntNaN` | server/server.js:256 | when, after the whitespace and an optional sign, the text does not start with a decimal digit, `parseInt` gives NaN |
| `Text.ParseIntUndefined` | server/server.js:256 | `parseInt` of the text `undefined` is NaN |
| `Text.ParseIntOfDecimal` | server/server.js:256 | a numeral at the start of the text reads back as its value |
| `CacheControl.RefreshDelay` | server/server.js:254-259 | the callback throws before `setTimeout` exactly when the header is missing or holds no comma, since `values[1]` is then undefined; with a comma `setTimeout` is always reached, and a numeric delay is a whole number of seconds |
| `CacheControl.DelayFromSecondDirective` | server/server.js:254-259 | for a header with at least two directives, whatever the second is called, a plain decimal numeral written directly after its first `=` and followed by a non-digit or nothing gives a delay of 1000 times that numeral. Whitespace, a sign, leading zeros or a `0x` numeral in that place are not covered by this lemma; the `Text.ParseInt` lemmas state how `parseInt` reads them |
| `CacheControl.SourceExampleDelay` | server/server.js:252-259 | the example header `public, max-age=24497, must-revalidate, no-transform` gives a delay of 24497000 ms |
| `CacheControl.NoValueInSecondDirective` | server/server.js:256-259 | a second directive without `=` makes `parseInt` read `undefined`, so the delay is NaN |
| `CacheControl.MaxAgeFirstIsNaN` | server/server.js:255-256 | `max-age=3600, public` gives NaN because `max-age` is not the second directive |
| `Keys.FilterKid` | server/server.js:231-233 | the filter keeps cache entries only, all with the requested `kid`, and drops none of them |
| `Keys.FindKey` | server/server.js:231-234 | element `[0]` of the filtered keys: a found entry is in the key set and has the `kid`, and nothing is found exactly when no entry has it |
| `Keys.FindKeyIsFirst` | server/server.js:231-234 | when entry `i` is the first with the requested `kid`, the lookup yields that entry |
| `Keys.FindKeyResult` | server/server.js:230-235 | the lookup fails exactly when no entry has the `kid`; otherwise it yields the first entry that has it |
| `Keys.KeyCache.constructor` | server/server.js:14 | the cache starts with no key set (`keys` undefined) |
| `Keys.KeyCache.Lookup` | server/server.js:231-234 | a found entry is the FIRST entry of the current key set with the requested `kid`; a failed lookup means there is no key set or no entry with that `kid` |
| `Keys.KeyCache.GetPem` | server/server.js:230-235 | `getPem` fails with `UnknownKey` exactly when there is no key set or no entry with the `kid`; it fails with `KeyConversionError` exactly when the first such entry does not convert; on success it is the conversion of that first entry |
| `Keys.KeyCache.Replace` | server/server.js:250 | the key set is replaced as a whole by the new one |
| `Keys.KeyCache.Refresh` | server/server.js:248-259 | a parsed response replaces the key set, even when the header then fails, and yields the delay of the header; an unparsable body throws before anything is stored or scheduled (`Thrown`) |
| `Keys.RefreshedLookup` | server/server.js:231-250 | after a refresh stores a key set, a lookup succeeds exactly for the `kid`s the set contains |
| `Authorization.Authorize` | server/server.js:167-204 | a missing header or a token that does not decode is rejected as malformed; an authorized request has a decoding token, a stored key set and an accepted issuer. `AuthorizedIfAllStepsPass` and `AuthorizedOnlyIfAllStepsPass` give the full if-and-only-if |
| `Authorization.AuthorizedIfAllStepsPass` | server/server.js:172-194 | a request is authorized when its token decodes, the first key with its `kid` converts, its `iss` is one of the two Google strings, and verification succeeds with audience = client id, issuer = `iss` and algorithms = `[alg]` |
| `Authorization.AuthorizedOnlyIfAllStepsPass` | server/server.js:172-203 | an authorized request passed every one of those steps, with the first matching key |
| `Authorization.UnknownKidRejectedWhateverIssuer` | server/server.js:175-180 | key lookup comes before the issuer check: an unknown `kid` is rejected as an unknown key whatever the issuer |
| `Authorization.UntrustedIssuerNeverVerified` | server/server.js:180-199 | with an untrusted issuer the request is rejected, and the decision does not depend on the verifier (it is never called) |
| `Authorization.NothingAuthorizedBeforeFirstRefresh` | server/server.js:231 | before the first refresh every request is rejected |
| `Middleware.AllowCrossDomain` | server/server.js:149-161 | the existing headers must be keyed by lower-cased name, as Node stores them; the three CORS headers are always set, replacing any earlier spelling of them, and every other header is kept; `OPTIONS` gets 204 and no `next()`; any other method calls `next()` |
| `Middleware.AuthorizeAction` | server/server.js:187-203 | `next()` is called exactly when the decision is `Authorized`; every rejection answers 401 |
| `Middleware.Pipeline` | server/server.js:85-89 | a route under `/a` runs exactly for an authorized non-`OPTIONS` request; a preflight gets 204 before `authorize`; a rejection gets 401 |
| `Tasks.GetUserId` | server/server.js:222-225 | `getUserId` throws exactly when the header is missing or the token does not decode; otherwise it yields the token's `sub`, a string or `undefined` |
| `Tasks.AuthorizedRequestHasUserId` | server/server.js:222-225 | behind the gate `getUserId` cannot throw: it yields the verified token's `sub` |
| `Tasks.Scoped` | server/server.js:209-217 | `payload` sets `userid` to the subject, overriding a client value, and keeps every other field; with no body the result is exactly `{userid: sub}` |
| `Tasks.ScopedIdempotent` | server/server.js:129-130 | calling `payload` a second time on the updated body gives the same document |
| `Tasks.Payload` | server/server.js:209-217 | returns the body scoped by `getUserId` of the request's own Authorization header; a present `req.body` is updated in place to that document, and an absent one stays absent |
| `Tasks.PostTask` | server/server.js:100-106 | the inserted document is `payload(req)` |
| `Tasks.PutTask` | server/server.js:108-116 | the PUT query is exactly `{_id: id, userid: getUserId(req)}` and the update is the body as sent |
| `Tasks.DeleteTask` | server/server.js:118-126 | the DELETE query is `payload(req)` with `_id` set; since the query is the request body itself, the body gets `_id` too |
| `Tasks.GetTasks` | server/server.js:128-134 | the GET filter is `payload(req)`, built from the body |
| `Tasks.GetReturnsOnlyOwnTasks` | server/server.js:128-134 | under the field-equality reading of a query, GET returns only documents whose `userid` is the subject, whatever the body; with no other filter field it returns all of them. MongoDB matching is wider (see "## Left out" and "## Findings") |
| `Tasks.DeleteOnlyOwnTask` | server/server.js:118-126 | under the field-equality reading of a query, DELETE can only select a document with the route's `_id` and the subject's `userid` |
| `Tasks.PutSelectsOwnTask` | server/server.js:108-111 | under the field-equality reading of a query, the PUT query selects exactly the document with the route's `_id` and the subject's `userid` |
| `Tasks.PutBodyCanReassignOwner` | server/server.js:108-111 | the update is the body as sent, so a body with `userid` moves the caller's task to another user |
| `Tasks.ScopedPutKeepsOwner` | server/server.js:108-111 | with `payload(req)` as the update, a task selected by the PUT query keeps the subject as its `userid`, and, unless the body sets `_id`, the same query still selects it afterwards |
| `Logger.SimpleObject` | server/server.js:275-287 | the loop builds exactly the enumerable own properties whose `typeof` is neither `object` nor `function` |
| `Logger.FlattenedIsShallow` | server/server.js:274-288 | the fallback copy holds no object, `null` or function, its values are the object's own, and it keeps every enumerable own property that is a plain value |

## Findings

| source | as written | input that shows it | evidently intended | confidence | as-written member | corrected member |
|---|---|---|---|---|---|---|
| server/server.js:111 | PUT passes `req.body` unchanged as the `$set` document | user `alice` sends PUT /a/task/:id for her own task with body `{"userid": "mallory"}`; the task's `userid` becomes `mallory`. Under MongoDB's array matching, `mallory` can also set her own task to `{"userid": ["mallory", "alice"]}`, and alice's GET and DELETE then select it | every stored task keeps the verified subject as `userid`, as `payload` does for POST, DELETE and GET | medium (not executed) | `Tasks.PutBodyCanReassignOwner` | `Tasks.ScopedPutKeepsOwner` |

`Tasks.PutTask` returns the update as written. The corrected update is `Tasks.Scoped` of the body, which `Tasks.ScopedPutKeepsOwner` uses.

## Left out

- Storage: the MongoDB connection and the `Mongo.ops` wrappers (server/server.js:23-70) are not modelled. `Tasks.Matches`, `Tasks.Find` and `Tasks.ApplySet` read a query as top-level field equality and `$set` as a field overwrite. Not modelled: query operators inside values; array-element matching, where `{userid: "alice"}` also selects a document whose `userid` is an array containing `"alice"`; and null matching, where a `userid` of `undefined` is sent as `null` and also selects documents that have no `userid`. The scoping lemmas on GET, DELETE and PUT hold under field equality only.
- Uncaught exceptions in the refresh callbacks (`JSON.parse` at server/server.js:244 and 250, `.split` on undefined at server/server.js:255-256). The model stops at `Unparsable` or `Thrown`. What the process then does is not modelled; under Node's default it exits.
- The network: the discovery document, the key-set request and their callbacks. `Refresh` takes the outcome of parsing the response body.
- Timers: the self-rescheduling `setTimeout` is not modelled. `Refresh` returns the delay it would be called with. Node's handling of a NaN delay (it runs the callback after 1 ms) is not modelled either.
- Token library and key conversion: `jwt.decode`, `jwt.verify` and `jwkToPem` are foreign code. They are function parameters, so signature, expiry and audience checks are whatever the `verify` parameter decides.
- `JSON.parse`, `JSON.stringify` and the `console.log` lines. The choice in `log` between printing the message alone, the JSON text or the fallback copy is not modelled. Only the fallback's property filter is.
- Express wiring, static serving, body parsing and the socket.io connection log (server/server.js:75-89, 137-141). The chain order is kept in `Middleware.Pipeline`. Whether a path lies under `/a` is an input.
- POST /a/login (server/server.js:91-98) is not modelled. It is keyed by a client-supplied `id` and does not use the token subject.
- Reading `CLIENT_ID` from a file: it is the `clientId` parameter.
- `new ObjectID(taskId)` belongs to the driver. The routes take the id value it builds. A malformed id, which makes the driver throw, is not modelled.
- JavaScript numbers are modelled as integers. `parseInt` is exact: rounding of very long digit runs to a double, and `-0`, are not modelled.
- Token claims and key ids that are present but not strings are not modelled. A claim is a string or absent. An absent `kid` matches key entries without `kid`, as `undefined === undefined` does.
- Concurrency: JavaScript runs each callback to completion, so the one-assignment replacement of `keys` needs no further modelling.
