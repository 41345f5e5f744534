/**
 * The task routes' use of the token subject (server/server.js:100-134, 206-225): `payload`
 * writes the subject into the request body as `userid`, and each route builds its storage
 * query from it. Storage itself is outside the model; `Matches` and `Find` give the
 * field-equality reading of a query that the scoping properties are stated against.
 */
module Tasks {
  import opened Wrappers
  import opened JsValue
  import opened Keys
  import opened Authorization

  /** A stored or submitted document: its top-level fields. */
  type Doc = map<string, Value>

  const UserId := "userid"
  const Id := "_id"

  /** The `sub` claim as a JavaScript value: `undefined` when the token has none. */
  function SubjectValue(sub: Option<string>): Value
  {
    match sub
    case None => Undefined
    case Some(s) => Str(s)
  }

  /**
   * `getUserId(req)`: decode the Authorization header again and read `sub`. None stands for
   * the TypeError thrown when decoding yields null; it throws only then, and otherwise
   * yields a string or `undefined`.
   */
  function GetUserId(authorization: Option<string>, decode: string -> Option<DecodedToken>): (r: Option<Value>)
    ensures r.None? <==> authorization.None? || decode(authorization.value).None?
    ensures r.Some? ==> r.value == SubjectValue(decode(authorization.value).value.payload.sub)
    ensures r.Some? ==> r.value == Undefined || r.value.Str?
  {
    match authorization
    case None => None
    case Some(token) =>
      match decode(token)
      case None => None
      case Some(t) => Some(SubjectValue(t.payload.sub))
  }

  /** Behind the gate, `getUserId` cannot throw: it yields the subject of the verified token. */
  lemma AuthorizedRequestHasUserId(
    cache: KeyCache, authorization: Option<string>,
    decode: string -> Option<DecodedToken>, toPem: KeyEntry -> Option<Pem>,
    verify: (string, Pem, VerifyOptions) -> bool, clientId: string)
    requires Authorize(cache, authorization, decode, toPem, verify, clientId) == Authorized
    ensures authorization.Some? && decode(authorization.value).Some?
    ensures GetUserId(authorization, decode) == Some(SubjectValue(decode(authorization.value).value.payload.sub))
  {
  }

  /**
   * What `payload` returns: the body with `userid` set to `user`, overriding any value the
   * client sent and keeping every other field; with no body, exactly `{userid: user}`.
   */
  function Scoped(body: Option<Doc>, user: Value): (data: Doc)
    ensures UserId in data && data[UserId] == user
    ensures forall k :: k != UserId ==> (k in data <==> body.Some? && k in body.value)
    ensures forall k :: k in data && k != UserId ==> data[k] == body.value[k]
    ensures body.None? ==> data == map[UserId := user]
  {
    match body
    case None => map[UserId := user]
    case Some(fields) => fields[UserId := user]
  }

  /** Scoping twice changes nothing, so the second `payload(req)` of a route sees the same document. */
  lemma ScopedIdempotent(body: Option<Doc>, user: Value)
    ensures Scoped(Some(Scoped(body, user)), user) == Scoped(body, user)
  {
  }

  /** The parts of an incoming request the routes read. */
  class Request {
    /** `req.body`: None when it is absent (falsy). */
    var body: Option<Doc>
    /** `req.headers.authorization`. */
    const authorization: Option<string>

    constructor (body: Option<Doc>, authorization: Option<string>)
      ensures this.body == body && this.authorization == authorization
    {
      this.body := body;
      this.authorization := authorization;
    }
  }

  /** The user id of a request behind the gate: `getUserId(req)`, which does not throw there. */
  function UserOf(req: Request, decode: string -> Option<DecodedToken>): Value
    requires GetUserId(req.authorization, decode).Some?
  {
    GetUserId(req.authorization, decode).value
  }

  /**
   * `payload(req)`: `getUserId(req)` decodes the request's own Authorization header, which
   * the gate has already decoded once (`AuthorizedRequestHasUserId`). A present body is
   * updated in place and returned itself; otherwise a new document is returned and
   * `req.body` stays absent.
   */
  method Payload(req: Request, decode: string -> Option<DecodedToken>) returns (data: Doc)
    requires GetUserId(req.authorization, decode).Some?
    modifies req
    ensures data == Scoped(old(req.body), UserOf(req, decode))
    ensures req.body == if old(req.body).Some? then Some(data) else None
  {
    if req.body.Some? {
      data := req.body.value[UserId := GetUserId(req.authorization, decode).value];
      req.body := Some(data);
    } else {
      data := map[UserId := GetUserId(req.authorization, decode).value];
    }
  }

  /** POST /a/task: the inserted document is `payload(req)`. */
  method PostTask(req: Request, decode: string -> Option<DecodedToken>) returns (doc: Doc)
    requires GetUserId(req.authorization, decode).Some?
    modifies req
    ensures doc == Scoped(old(req.body), UserOf(req, decode))
    ensures req.body == if old(req.body).Some? then Some(doc) else None
  {
    doc := Payload(req, decode);
  }

  /** The PUT query: exactly `{_id: id, userid: user}`. */
  function PutQuery(id: Value, user: Value): Doc
  {
    map[Id := id, UserId := user]
  }

  /**
   * PUT /a/task/:taskId, with `id` the ObjectID built from the route parameter: the query is
   * `{_id: id, userid: getUserId(req)}` and the `$set` document is the request body as sent.
   */
  method PutTask(req: Request, decode: string -> Option<DecodedToken>, id: Value) returns (query: Doc, update: Option<Doc>)
    requires GetUserId(req.authorization, decode).Some?
    ensures query == PutQuery(id, UserOf(req, decode))
    ensures update == req.body
  {
    query := map[Id := id];
    query := query[UserId := GetUserId(req.authorization, decode).value];
    update := req.body;
  }

  /** The DELETE query: `payload(req)` with `_id` set to the route's ObjectID. */
  function DeleteQuery(body: Option<Doc>, user: Value, id: Value): Doc
  {
    Scoped(body, user)[Id := id]
  }

  /**
   * DELETE /a/task/:taskId. The query IS `req.body` when there is one, so setting its `_id`
   * changes the request body as well.
   */
  method DeleteTask(req: Request, decode: string -> Option<DecodedToken>, id: Value) returns (query: Doc)
    requires GetUserId(req.authorization, decode).Some?
    modifies req
    ensures query == DeleteQuery(old(req.body), UserOf(req, decode), id)
    ensures req.body == if old(req.body).Some? then Some(query) else None
  {
    query := Payload(req, decode);
    query := query[Id := id];
    if req.body.Some? {
      req.body := Some(query);
    }
  }

  /** GET /a/tasks: the filter is `payload(req)`, built from the request BODY. */
  method GetTasks(req: Request, decode: string -> Option<DecodedToken>) returns (filter: Doc)
    requires GetUserId(req.authorization, decode).Some?
    modifies req
    ensures filter == Scoped(old(req.body), UserOf(req, decode))
    ensures req.body == if old(req.body).Some? then Some(filter) else None
  {
    filter := Payload(req, decode);
  }

  /** A document satisfies a query when it has every queried field with the queried value. */
  predicate Matches(query: Doc, doc: Doc)
  {
    forall k :: k in query ==> k in doc && doc[k] == query[k]
  }

  /** The documents of `docs` a query selects, in storage order. */
  function Find(docs: seq<Doc>, query: Doc): (found: seq<Doc>)
    ensures forall d :: d in found ==> d in docs && Matches(query, d)
    ensures forall i :: 0 <= i < |docs| && Matches(query, docs[i]) ==> docs[i] in found
  {
    if |docs| == 0 then []
    else (if Matches(query, docs[0]) then [docs[0]] else []) + Find(docs[1..], query)
  }

  /**
   * GET /a/tasks returns only the caller's tasks, whatever the body asks for; with no other
   * filter fields it returns all of them.
   */
  lemma GetReturnsOnlyOwnTasks(docs: seq<Doc>, body: Option<Doc>, user: Value)
    ensures forall d :: d in Find(docs, Scoped(body, user)) ==> UserId in d && d[UserId] == user
    ensures body.None? || body.value.Keys <= {UserId} ==>
      forall i :: 0 <= i < |docs| && UserId in docs[i] && docs[i][UserId] == user ==> docs[i] in Find(docs, Scoped(body, user))
  {
  }

  /** DELETE /a/task/:taskId can only select the caller's task with that id. */
  lemma DeleteOnlyOwnTask(body: Option<Doc>, user: Value, id: Value, doc: Doc)
    requires Matches(DeleteQuery(body, user, id), doc)
    ensures Id in doc && doc[Id] == id
    ensures UserId in doc && doc[UserId] == user
  {
    assert Id in DeleteQuery(body, user, id);
    assert UserId in DeleteQuery(body, user, id);
  }

  /** PUT /a/task/:taskId selects exactly the caller's task with that id. */
  lemma PutSelectsOwnTask(user: Value, id: Value, doc: Doc)
    ensures Matches(PutQuery(id, user), doc)
        <==> Id in doc && doc[Id] == id && UserId in doc && doc[UserId] == user
  {
    var q := PutQuery(id, user);
    assert q.Keys == {Id, UserId};
  }

  /** A `$set` update: the update's fields replace or join the document's top-level fields. */
  function ApplySet(doc: Doc, update: Doc): Doc
  {
    doc + update
  }

  /**
   * As written, PUT hands the client's body to `$set` unchanged, so a body carrying a
   * `userid` moves the caller's task to another user.
   */
  lemma PutBodyCanReassignOwner(id: Value, doc: Doc, body: Doc)
    requires doc == map[Id := id, UserId := Str("alice")]
    requires body == map[UserId := Str("mallory")]
    ensures Matches(PutQuery(id, Str("alice")), doc)
    ensures ApplySet(doc, body)[UserId] == Str("mallory")
  {
    PutSelectsOwnTask(Str("alice"), id, doc);
  }

  /**
   * The update the scoping rule calls for is `payload(req)` as the `$set` document; with it,
   * a task selected by the PUT query keeps its owner and, unless the body rewrites `_id`,
   * is still selected by the same query afterwards.
   */
  lemma ScopedPutKeepsOwner(id: Value, user: Value, doc: Doc, body: Option<Doc>)
    requires Matches(PutQuery(id, user), doc)
    ensures UserId in ApplySet(doc, Scoped(body, user))
    ensures ApplySet(doc, Scoped(body, user))[UserId] == user
    ensures body.None? || Id !in body.value ==> Matches(PutQuery(id, user), ApplySet(doc, Scoped(body, user)))
  {
    var q := PutQuery(id, user);
    assert Id in q && UserId in q;
  }
}
