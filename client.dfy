/** The `MicroCMS` client class of src/index.ts, with `fetch` replaced by the
    outcome it delivers. Every operation is a total function from the
    configuration, the call's arguments and that outcome to the request it
    sends (none when the key it needs is missing) and the value it resolves
    to. Lenient operations (get, gets, post, put, patch, delete) collapse
    every failure to null or false; their status-aware twins (get2, ...,
    delete2) report the status code and the parsed body. */
module MicroCms {
  import opened Js
  import opened Query

  const GlobalKeyName := "globalKey"
  const ApiKeyHeader := "X-API-KEY"
  const DraftKeyHeader := "X-GLOBAL-DRAFT-KEY"
  const WriteKeyHeader := "X-WRITE-API-KEY"
  const ContentTypeHeader := "Content-Type"
  const JsonContentType := "application/json"

  /** The constructor's options; the class never reassigns them. */
  datatype Config = Config(
    service: string,
    apiKey: Option<string>,
    apiWriteKey: Option<string>,
    apiGlobalKey: Option<string>)

  /** A parsed JSON document: `null`, or any other value, of which the client
      only ever reads the `id` property (absent unless it is a string). */
  datatype Json = JNull | JDoc(id: Option<string>, content: string)

  /** The HTTP method a request uses; GET is what `fetch` sends when no method is given. */
  datatype Method = GET | POST | PUT | PATCH | DELETE

  type Header = (string, string)

  /** What is handed to `fetch`; `body` is the document `JSON.stringify` serialises. */
  datatype Request = Request(verb: Method, url: string, headers: seq<Header>, body: Option<Json>)

  /** The response body as `res.json()` sees it. */
  datatype Body = Unparsable | Parsed(json: Json)

  /** What `fetch` delivers: a rejection, or a response with its status and body. */
  datatype Outcome = TransportError | Response(status: int, body: Body)

  /** The request an operation sends, if any, and the value its promise resolves to. */
  datatype Call<R> = Call(sent: Option<Request>, result: R)

  /** A lenient write's result: null, undefined (the body had no `id`), or the id. */
  datatype WriteResult = WriteNull | WriteUndefined | WriteId(id: string)

  /** A status-aware result: null, or `{code, body}`. */
  datatype Reply<B> = NoReply | Reply(code: int, body: B)

  // ---------------------------------------------------------------------
  // URLs

  /** `https://${service}.microcms.io/api/v1/${endpoint}` */
  function CollectionUrl(service: string, endpoint: string): string {
    "https://" + service + ".microcms.io/api/v1/" + endpoint
  }

  /** `https://${service}.microcms.io/api/v1/${endpoint}/${id}` */
  function ItemUrl(service: string, endpoint: string, id: string): string {
    CollectionUrl(service, endpoint) + "/" + id
  }

  /** `${id}` for an id that may be undefined. */
  function IdText(id: Option<string>): string {
    match id
    case Some(s) => s
    case None => "undefined"
  }

  // ---------------------------------------------------------------------
  // `const { globalKey, ...o } = options`

  /** The value bound to `globalKey`; undefined when the options have no such entry. */
  function GlobalKeyOf(options: seq<Entry>): (v: Value)
    ensures v != Undef ==> (GlobalKeyName, v) in options
    ensures (forall e :: e in options ==> e.0 != GlobalKeyName) ==> v == Undef
    ensures forall i ::
              0 <= i < |options| && options[i].0 == GlobalKeyName &&
              (forall j :: 0 <= j < i ==> options[j].0 != GlobalKeyName)
              ==> v == options[i].1
  {
    if options == [] then Undef
    else if options[0].0 == GlobalKeyName then options[0].1
    else GlobalKeyOf(options[1..])
  }

  /** The rest object `o`: every entry except `globalKey`, in the same order. */
  function WithoutGlobalKey(options: seq<Entry>): (rest: seq<Entry>)
    ensures forall e :: e in rest <==> e in options && e.0 != GlobalKeyName
    ensures |rest| <= |options|
    ensures (forall e :: e in options ==> e.0 != GlobalKeyName) ==> rest == options
  {
    if options == [] then []
    else if options[0].0 == GlobalKeyName then WithoutGlobalKey(options[1..])
    else [options[0]] + WithoutGlobalKey(options[1..])
  }

  /** The query suffix of every read: the options without `globalKey`, serialised. */
  function ReadQuery(options: seq<Entry>): string {
    ConvertQuery(WithoutGlobalKey(options))
  }

  lemma {:induction false} WithoutGlobalKeyAppend(a: seq<Entry>, b: seq<Entry>)
    ensures WithoutGlobalKey(a + b) == WithoutGlobalKey(a) + WithoutGlobalKey(b)
    decreases |a|
  {
    if a == [] {
      assert a + b == b;
    } else {
      assert (a + b)[0] == a[0];
      assert (a + b)[1..] == a[1..] + b;
      WithoutGlobalKeyAppend(a[1..], b);
    }
  }

  /** Wherever a `globalKey` entry sits and whatever its value, it leaves the query unchanged. */
  lemma GlobalKeyNeverReachesQuery(before: seq<Entry>, v: Value, after: seq<Entry>)
    ensures ReadQuery(before + [(GlobalKeyName, v)] + after) == ReadQuery(before + after)
  {
    var g := [(GlobalKeyName, v)];
    var wb, wa := WithoutGlobalKey(before), WithoutGlobalKey(after);
    WithoutGlobalKeyAppend(before + g, after);
    WithoutGlobalKeyAppend(before, g);
    WithoutGlobalKeyAppend(before, after);
    assert WithoutGlobalKey(g) == WithoutGlobalKey([]) + [];
    assert WithoutGlobalKey(before + g) == wb + [];
    assert wb + [] == wb;
    assert WithoutGlobalKey(before + g + after) == WithoutGlobalKey(before + after);
  }

  /** Read back, the query of a read lists exactly the other options, in
      order, and never a `globalKey` pair. */
  lemma ReadQueryOmitsGlobalKey(options: seq<Entry>)
    requires Unambiguous(WithoutGlobalKey(options))
    ensures ParseQuery(ReadQuery(options)) == Some(Rendered(WithoutGlobalKey(options)))
    ensures forall p :: p in Rendered(WithoutGlobalKey(options)) ==> p.0 != GlobalKeyName
  {
    var rest := WithoutGlobalKey(options);
    forall i | 0 <= i < |rest| ensures rest[i].0 != GlobalKeyName {
      assert rest[i] in rest;
    }
    QueryRoundTrip(rest);
    forall p | p in Rendered(rest) ensures p.0 != GlobalKeyName {
      var i :| 0 <= i < |rest| && Rendered(rest)[i] == p;
    }
  }

  // ---------------------------------------------------------------------
  // Headers

  /** The value of the first header called `name`. */
  function HeaderValue(headers: seq<Header>, name: string): (r: Option<string>)
    ensures r.Some? ==> exists i :: 0 <= i < |headers| && headers[i] == (name, r.value)
    ensures r.None? <==> forall h :: h in headers ==> h.0 != name
  {
    if headers == [] then None
    else if headers[0].0 == name then Some(headers[0].1)
    else HeaderValue(headers[1..], name)
  }

  /** The headers of a read: the read key, and the global draft key when the
      call asks for it (`globalKey` truthy) and one is configured. */
  function ReadHeaders(apiKey: string, apiGlobalKey: Option<string>, globalKey: Value): (headers: seq<Header>)
    ensures HeaderValue(headers, ApiKeyHeader) == Some(apiKey)
    ensures HeaderValue(headers, DraftKeyHeader).Some? <==> globalKey.Truthy() && KeySet(apiGlobalKey)
    ensures HeaderValue(headers, DraftKeyHeader).Some? ==> apiGlobalKey == HeaderValue(headers, DraftKeyHeader)
    ensures forall h :: h in headers ==> h.0 == ApiKeyHeader || h.0 == DraftKeyHeader
    ensures |headers| == if globalKey.Truthy() && KeySet(apiGlobalKey) then 2 else 1
  {
    if globalKey.Truthy() && KeySet(apiGlobalKey) then
      [(ApiKeyHeader, apiKey), (DraftKeyHeader, apiGlobalKey.value)]
    else
      [(ApiKeyHeader, apiKey)]
  }

  /** The headers of every write. */
  function WriteHeaders(apiWriteKey: string): (headers: seq<Header>)
    ensures HeaderValue(headers, WriteKeyHeader) == Some(apiWriteKey)
    ensures HeaderValue(headers, ContentTypeHeader) == Some(JsonContentType)
    ensures |headers| == 2
  {
    [(WriteKeyHeader, apiWriteKey), (ContentTypeHeader, JsonContentType)]
  }

  /** A read as the wire protocol fixes it: GET, no body, the read key, the
      draft key exactly when asked for and configured, and no other header. */
  predicate IsReadRequest(req: Request, c: Config, url: string, globalKey: Value) {
    var draft := globalKey.Truthy() && KeySet(c.apiGlobalKey);
    && req.verb == GET
    && req.url == url
    && req.body.None?
    && KeySet(c.apiKey)
    && HeaderValue(req.headers, ApiKeyHeader) == c.apiKey
    && (HeaderValue(req.headers, DraftKeyHeader).Some? <==> draft)
    && (HeaderValue(req.headers, DraftKeyHeader).Some? ==> HeaderValue(req.headers, DraftKeyHeader) == c.apiGlobalKey)
    && |req.headers| == if draft then 2 else 1
  }

  /** A write as the wire protocol fixes it: the write key, a JSON content
      type, and no other header. */
  predicate IsWriteRequest(req: Request, c: Config, verb: Method, url: string, body: Option<Json>) {
    && req.verb == verb
    && req.url == url
    && req.body == body
    && KeySet(c.apiWriteKey)
    && HeaderValue(req.headers, WriteKeyHeader) == c.apiWriteKey
    && HeaderValue(req.headers, ContentTypeHeader) == Some(JsonContentType)
    && |req.headers| == 2
  }

  /** A read carries only the read key and the draft key: never the write
      key, and no header twice. */
  lemma {:induction false} ReadRequestKeepsWriteKeyOut(req: Request, c: Config, url: string, globalKey: Value)
    requires IsReadRequest(req, c, url, globalKey)
    ensures forall h :: h in req.headers ==> h == (ApiKeyHeader, c.apiKey.value) || h == (DraftKeyHeader, c.apiGlobalKey.value)
    ensures HeaderValue(req.headers, WriteKeyHeader).None?
  {
    var hs := req.headers;
    var i :| 0 <= i < |hs| && hs[i] == (ApiKeyHeader, c.apiKey.value);
    if |hs| == 2 {
      var j :| 0 <= j < |hs| && hs[j] == (DraftKeyHeader, c.apiGlobalKey.value);
      assert ApiKeyHeader != DraftKeyHeader;
      assert i != j;
      assert hs == [hs[i], hs[j]] || hs == [hs[j], hs[i]];
    } else {
      assert hs == [hs[i]];
    }
  }

  /** A write carries only the write key and the content type: never the
      read key or the draft key. */
  lemma {:induction false} WriteRequestKeepsReadKeysOut(req: Request, c: Config, verb: Method, url: string, body: Option<Json>)
    requires IsWriteRequest(req, c, verb, url, body)
    ensures forall h :: h in req.headers ==> h == (WriteKeyHeader, c.apiWriteKey.value) || h == (ContentTypeHeader, JsonContentType)
    ensures HeaderValue(req.headers, ApiKeyHeader).None? && HeaderValue(req.headers, DraftKeyHeader).None?
  {
    var hs := req.headers;
    var i :| 0 <= i < |hs| && hs[i] == (WriteKeyHeader, c.apiWriteKey.value);
    var j :| 0 <= j < |hs| && hs[j] == (ContentTypeHeader, JsonContentType);
    assert WriteKeyHeader != ContentTypeHeader;
    assert i != j;
    assert hs == [hs[i], hs[j]] || hs == [hs[j], hs[i]];
  }

  function ReadRequest(c: Config, url: string, globalKey: Value): Request
    requires KeySet(c.apiKey)
  {
    Request(GET, url, ReadHeaders(c.apiKey.value, c.apiGlobalKey, globalKey), None)
  }

  function WriteRequest(c: Config, verb: Method, url: string, body: Option<Json>): Request
    requires KeySet(c.apiWriteKey)
  {
    Request(verb, url, WriteHeaders(c.apiWriteKey.value), body)
  }

  // ---------------------------------------------------------------------
  // Responses

  /** A response with this status whose body parses as JSON. */
  predicate Delivered(fetched: Outcome, status: int) {
    fetched.Response? && fetched.status == status && fetched.body.Parsed?
  }

  /** `(await res.json())['id']`: undefined when absent; reading a property
      of null throws, and the `.catch` turns that into null. */
  function IdProperty(body: Json): WriteResult {
    match body
    case JNull => WriteNull
    case JDoc(None, _) => WriteUndefined
    case JDoc(Some(id), _) => WriteId(id)
  }

  /** `res.status === success ? res.json() : null`, rejections caught as null. */
  function BodyIf(fetched: Outcome, success: int): Json {
    if Delivered(fetched, success) then fetched.body.json else JNull
  }

  /** `res.status === success ? (await res.json())['id'] : null`, rejections caught as null. */
  function IdIf(fetched: Outcome, success: int): WriteResult {
    if Delivered(fetched, success) then IdProperty(fetched.body.json) else WriteNull
  }

  /** `({ code: res.status, body: await res.json() })`, rejections caught as null. */
  function CodeAndBody(fetched: Outcome): Reply<Json> {
    match fetched
    case TransportError => NoReply
    case Response(_, Unparsable) => NoReply
    case Response(status, Parsed(json)) => Reply(status, json)
  }

  // ---------------------------------------------------------------------
  // Lenient operations

  /** `get(endpoint, id, options)`: one record, or null. */
  function Get(c: Config, endpoint: string, id: string, options: seq<Entry>, fetched: Outcome): (r: Call<Json>)
    ensures r.sent.Some? <==> KeySet(c.apiKey)
    ensures r.sent.Some? ==>
      IsReadRequest(r.sent.value, c, ItemUrl(c.service, endpoint, id) + ReadQuery(options), GlobalKeyOf(options))
    ensures r.result != JNull ==> r.sent.Some? && Delivered(fetched, 200)
    ensures r.sent.Some? && Delivered(fetched, 200) ==> r.result == fetched.body.json
  {
    var query := ReadQuery(options);
    if !KeySet(c.apiKey) then Call(None, JNull)
    else Call(Some(ReadRequest(c, ItemUrl(c.service, endpoint, id) + query, GlobalKeyOf(options))), BodyIf(fetched, 200))
  }

  /** `gets(endpoint, options)`: a page of records, or null. */
  function Gets(c: Config, endpoint: string, options: seq<Entry>, fetched: Outcome): (r: Call<Json>)
    ensures r.sent.Some? <==> KeySet(c.apiKey)
    ensures r.sent.Some? ==>
      IsReadRequest(r.sent.value, c, CollectionUrl(c.service, endpoint) + ReadQuery(options), GlobalKeyOf(options))
    ensures r.result != JNull ==> r.sent.Some? && Delivered(fetched, 200)
    ensures r.sent.Some? && Delivered(fetched, 200) ==> r.result == fetched.body.json
  {
    var query := ReadQuery(options);
    if !KeySet(c.apiKey) then Call(None, JNull)
    else Call(Some(ReadRequest(c, CollectionUrl(c.service, endpoint) + query, GlobalKeyOf(options))), BodyIf(fetched, 200))
  }

  /** `post(endpoint, params)`: the new record's id on 201, else null. */
  function Post(c: Config, endpoint: string, params: Json, fetched: Outcome): (r: Call<WriteResult>)
    ensures r.sent.Some? <==> KeySet(c.apiWriteKey)
    ensures r.sent.Some? ==> IsWriteRequest(r.sent.value, c, POST, CollectionUrl(c.service, endpoint), Some(params))
    ensures r.result != WriteNull ==> r.sent.Some? && Delivered(fetched, 201) && fetched.body.json.JDoc?
    ensures r.sent.Some? && Delivered(fetched, 201) ==> r.result == IdProperty(fetched.body.json)
  {
    if !KeySet(c.apiWriteKey) then Call(None, WriteNull)
    else Call(Some(WriteRequest(c, POST, CollectionUrl(c.service, endpoint), Some(params))), IdIf(fetched, 201))
  }

  /** `put(endpoint, id, params)`: the record's id on 201 (not 200), else null. */
  function Put(c: Config, endpoint: string, id: Option<string>, params: Json, fetched: Outcome): (r: Call<WriteResult>)
    ensures r.sent.Some? <==> KeySet(c.apiWriteKey)
    ensures r.sent.Some? ==> IsWriteRequest(r.sent.value, c, PUT, ItemUrl(c.service, endpoint, IdText(id)), Some(params))
    ensures r.result != WriteNull ==> r.sent.Some? && Delivered(fetched, 201) && fetched.body.json.JDoc?
    ensures r.sent.Some? && Delivered(fetched, 201) ==> r.result == IdProperty(fetched.body.json)
  {
    if !KeySet(c.apiWriteKey) then Call(None, WriteNull)
    else Call(Some(WriteRequest(c, PUT, ItemUrl(c.service, endpoint, IdText(id)), Some(params))), IdIf(fetched, 201))
  }

  /** `patch(endpoint, id, params)`: the record's id on 200 (not 201), else null. */
  function Patch(c: Config, endpoint: string, id: string, params: Json, fetched: Outcome): (r: Call<WriteResult>)
    ensures r.sent.Some? <==> KeySet(c.apiWriteKey)
    ensures r.sent.Some? ==> IsWriteRequest(r.sent.value, c, PATCH, ItemUrl(c.service, endpoint, id), Some(params))
    ensures r.result != WriteNull ==> r.sent.Some? && Delivered(fetched, 200) && fetched.body.json.JDoc?
    ensures r.sent.Some? && Delivered(fetched, 200) ==> r.result == IdProperty(fetched.body.json)
  {
    if !KeySet(c.apiWriteKey) then Call(None, WriteNull)
    else Call(Some(WriteRequest(c, PATCH, ItemUrl(c.service, endpoint, id), Some(params))), IdIf(fetched, 200))
  }

  /** `delete(endpoint, id)`: true exactly on 202; the body is never read. */
  function Delete(c: Config, endpoint: string, id: string, fetched: Outcome): (r: Call<bool>)
    ensures r.sent.Some? <==> KeySet(c.apiWriteKey)
    ensures r.sent.Some? ==> IsWriteRequest(r.sent.value, c, DELETE, ItemUrl(c.service, endpoint, id), None)
    ensures r.result <==> r.sent.Some? && fetched.Response? && fetched.status == 202
  {
    if !KeySet(c.apiWriteKey) then Call(None, false)
    else Call(Some(WriteRequest(c, DELETE, ItemUrl(c.service, endpoint, id), None)), fetched.Response? && fetched.status == 202)
  }

  // ---------------------------------------------------------------------
  // Status-aware operations

  /** `get2(endpoint, id, options)`: `{code, body}` for every status. */
  function Get2(c: Config, endpoint: string, id: string, options: seq<Entry>, fetched: Outcome): (r: Call<Reply<Json>>)
    ensures r.sent.Some? <==> KeySet(c.apiKey)
    ensures r.sent.Some? ==>
      IsReadRequest(r.sent.value, c, ItemUrl(c.service, endpoint, id) + ReadQuery(options), GlobalKeyOf(options))
    ensures r.result.Reply? <==> r.sent.Some? && fetched.Response? && fetched.body.Parsed?
    ensures r.result.Reply? ==> r.result.code == fetched.status && r.result.body == fetched.body.json
  {
    var query := ReadQuery(options);
    if !KeySet(c.apiKey) then Call(None, NoReply)
    else Call(Some(ReadRequest(c, ItemUrl(c.service, endpoint, id) + query, GlobalKeyOf(options))), CodeAndBody(fetched))
  }

  /** `gets2(endpoint, options)`: `{code, body}` for every status. */
  function Gets2(c: Config, endpoint: string, options: seq<Entry>, fetched: Outcome): (r: Call<Reply<Json>>)
    ensures r.sent.Some? <==> KeySet(c.apiKey)
    ensures r.sent.Some? ==>
      IsReadRequest(r.sent.value, c, CollectionUrl(c.service, endpoint) + ReadQuery(options), GlobalKeyOf(options))
    ensures r.result.Reply? <==> r.sent.Some? && fetched.Response? && fetched.body.Parsed?
    ensures r.result.Reply? ==> r.result.code == fetched.status && r.result.body == fetched.body.json
  {
    var query := ReadQuery(options);
    if !KeySet(c.apiKey) then Call(None, NoReply)
    else Call(Some(ReadRequest(c, CollectionUrl(c.service, endpoint) + query, GlobalKeyOf(options))), CodeAndBody(fetched))
  }

  /** `post2(endpoint, params)`: `{code, body}` for every status. */
  function Post2(c: Config, endpoint: string, params: Json, fetched: Outcome): (r: Call<Reply<Json>>)
    ensures r.sent.Some? <==> KeySet(c.apiWriteKey)
    ensures r.sent.Some? ==> IsWriteRequest(r.sent.value, c, POST, CollectionUrl(c.service, endpoint), Some(params))
    ensures r.result.Reply? <==> r.sent.Some? && fetched.Response? && fetched.body.Parsed?
    ensures r.result.Reply? ==> r.result.code == fetched.status && r.result.body == fetched.body.json
  {
    if !KeySet(c.apiWriteKey) then Call(None, NoReply)
    else Call(Some(WriteRequest(c, POST, CollectionUrl(c.service, endpoint), Some(params))), CodeAndBody(fetched))
  }

  /** `put2(endpoint, id, params)`: `{code, body}` for every status. */
  function Put2(c: Config, endpoint: string, id: Option<string>, params: Json, fetched: Outcome): (r: Call<Reply<Json>>)
    ensures r.sent.Some? <==> KeySet(c.apiWriteKey)
    ensures r.sent.Some? ==> IsWriteRequest(r.sent.value, c, PUT, ItemUrl(c.service, endpoint, IdText(id)), Some(params))
    ensures r.result.Reply? <==> r.sent.Some? && fetched.Response? && fetched.body.Parsed?
    ensures r.result.Reply? ==> r.result.code == fetched.status && r.result.body == fetched.body.json
  {
    if !KeySet(c.apiWriteKey) then Call(None, NoReply)
    else Call(Some(WriteRequest(c, PUT, ItemUrl(c.service, endpoint, IdText(id)), Some(params))), CodeAndBody(fetched))
  }

  /** `patch2(endpoint, id, params)`: `{code, body}` for every status. */
  function Patch2(c: Config, endpoint: string, id: string, params: Json, fetched: Outcome): (r: Call<Reply<Json>>)
    ensures r.sent.Some? <==> KeySet(c.apiWriteKey)
    ensures r.sent.Some? ==> IsWriteRequest(r.sent.value, c, PATCH, ItemUrl(c.service, endpoint, id), Some(params))
    ensures r.result.Reply? <==> r.sent.Some? && fetched.Response? && fetched.body.Parsed?
    ensures r.result.Reply? ==> r.result.code == fetched.status && r.result.body == fetched.body.json
  {
    if !KeySet(c.apiWriteKey) then Call(None, NoReply)
    else Call(Some(WriteRequest(c, PATCH, ItemUrl(c.service, endpoint, id), Some(params))), CodeAndBody(fetched))
  }

  /** `delete2(endpoint, id)`: `{code, body: true}` for every status; the body is never read. */
  function Delete2(c: Config, endpoint: string, id: string, fetched: Outcome): (r: Call<Reply<bool>>)
    ensures r.sent.Some? <==> KeySet(c.apiWriteKey)
    ensures r.sent.Some? ==> IsWriteRequest(r.sent.value, c, DELETE, ItemUrl(c.service, endpoint, id), None)
    ensures r.result.Reply? <==> r.sent.Some? && fetched.Response?
    ensures r.result.Reply? ==> r.result.code == fetched.status && r.result.body
  {
    if !KeySet(c.apiWriteKey) then Call(None, NoReply)
    else
      var reply := if fetched.Response? then Reply(fetched.status, true) else NoReply;
      Call(Some(WriteRequest(c, DELETE, ItemUrl(c.service, endpoint, id), None)), reply)
  }

  // ---------------------------------------------------------------------
  // Lenient results derived from status-aware ones

  /** The lenient read result a status-aware reply determines. */
  function LenientRead(reply: Reply<Json>): Json {
    if reply.Reply? && reply.code == 200 then reply.body else JNull
  }

  /** The lenient write result a status-aware reply determines. */
  function LenientWrite(reply: Reply<Json>, success: int): WriteResult {
    if reply.Reply? && reply.code == success then IdProperty(reply.body) else WriteNull
  }

  /** The lenient delete result a status-aware reply determines. */
  function LenientDelete(reply: Reply<bool>): bool {
    reply.Reply? && reply.code == 202
  }

  /** get/get2 and gets/gets2 send the same request, and the lenient result
      is the status-aware reply's body exactly when its code is 200. */
  lemma ReadParity(c: Config, endpoint: string, id: string, options: seq<Entry>, fetched: Outcome)
    ensures Get(c, endpoint, id, options, fetched).sent == Get2(c, endpoint, id, options, fetched).sent
    ensures Get(c, endpoint, id, options, fetched).result == LenientRead(Get2(c, endpoint, id, options, fetched).result)
    ensures Gets(c, endpoint, options, fetched).sent == Gets2(c, endpoint, options, fetched).sent
    ensures Gets(c, endpoint, options, fetched).result == LenientRead(Gets2(c, endpoint, options, fetched).result)
  {
  }

  /** post/put/patch and their twins send the same request, and the lenient
      result is the reply body's id exactly when the code is the success code. */
  lemma WriteParity(c: Config, endpoint: string, id: string, putId: Option<string>, params: Json, fetched: Outcome)
    ensures Post(c, endpoint, params, fetched).sent == Post2(c, endpoint, params, fetched).sent
    ensures Post(c, endpoint, params, fetched).result == LenientWrite(Post2(c, endpoint, params, fetched).result, 201)
    ensures Put(c, endpoint, putId, params, fetched).sent == Put2(c, endpoint, putId, params, fetched).sent
    ensures Put(c, endpoint, putId, params, fetched).result == LenientWrite(Put2(c, endpoint, putId, params, fetched).result, 201)
    ensures Patch(c, endpoint, id, params, fetched).sent == Patch2(c, endpoint, id, params, fetched).sent
    ensures Patch(c, endpoint, id, params, fetched).result == LenientWrite(Patch2(c, endpoint, id, params, fetched).result, 200)
  {
  }

  /** delete and delete2 send the same request; delete is true exactly when delete2's code is 202. */
  lemma DeleteParity(c: Config, endpoint: string, id: string, fetched: Outcome)
    ensures Delete(c, endpoint, id, fetched).sent == Delete2(c, endpoint, id, fetched).sent
    ensures Delete(c, endpoint, id, fetched).result == LenientDelete(Delete2(c, endpoint, id, fetched).result)
  {
  }

  // ---------------------------------------------------------------------
  // Further properties

  /** Without a read key no read sends anything, and the outcome is irrelevant. */
  lemma MissingReadKey(c: Config, endpoint: string, id: string, options: seq<Entry>, fetched: Outcome)
    requires !KeySet(c.apiKey)
    ensures Get(c, endpoint, id, options, fetched) == Call(None, JNull)
    ensures Gets(c, endpoint, options, fetched) == Call(None, JNull)
    ensures Get2(c, endpoint, id, options, fetched) == Call(None, NoReply)
    ensures Gets2(c, endpoint, options, fetched) == Call(None, NoReply)
  {
  }

  /** Without a write key no write sends anything: null for post, put and
      patch and all the status-aware writes, false for delete. */
  lemma MissingWriteKey(c: Config, endpoint: string, id: string, putId: Option<string>, params: Json, fetched: Outcome)
    requires !KeySet(c.apiWriteKey)
    ensures Post(c, endpoint, params, fetched) == Call(None, WriteNull)
    ensures Put(c, endpoint, putId, params, fetched) == Call(None, WriteNull)
    ensures Patch(c, endpoint, id, params, fetched) == Call(None, WriteNull)
    ensures Delete(c, endpoint, id, fetched) == Call(None, false)
    ensures Post2(c, endpoint, params, fetched) == Call(None, NoReply)
    ensures Put2(c, endpoint, putId, params, fetched) == Call(None, NoReply)
    ensures Patch2(c, endpoint, id, params, fetched) == Call(None, NoReply)
    ensures Delete2(c, endpoint, id, fetched) == Call(None, NoReply)
  {
  }

  /** put succeeds on 201 and patch on 200; neither accepts the other's code. */
  lemma PutAndPatchSuccessCodesDiffer(c: Config, endpoint: string, id: string, putId: Option<string>, params: Json, newId: string, content: string)
    requires KeySet(c.apiWriteKey)
    ensures Put(c, endpoint, putId, params, Response(201, Parsed(JDoc(Some(newId), content)))).result == WriteId(newId)
    ensures Patch(c, endpoint, id, params, Response(201, Parsed(JDoc(Some(newId), content)))).result == WriteNull
    ensures Patch(c, endpoint, id, params, Response(200, Parsed(JDoc(Some(newId), content)))).result == WriteId(newId)
    ensures Put(c, endpoint, putId, params, Response(200, Parsed(JDoc(Some(newId), content)))).result == WriteNull
  {
  }

  /** A put whose id is undefined targets the literal path segment "undefined". */
  lemma PutWithoutId(c: Config, endpoint: string, params: Json, fetched: Outcome)
    requires KeySet(c.apiWriteKey)
    ensures Put(c, endpoint, None, params, fetched).sent.value.url == CollectionUrl(c.service, endpoint) + "/undefined"
  {
  }

  /** get is gets on the item path `endpoint/id`: same request, same result. */
  lemma GetIsGetsOnItemPath(c: Config, endpoint: string, id: string, options: seq<Entry>, fetched: Outcome)
    ensures Get(c, endpoint, id, options, fetched) == Gets(c, endpoint + "/" + id, options, fetched)
  {
    assert ItemUrl(c.service, endpoint, id) == CollectionUrl(c.service, endpoint + "/" + id);
  }

  /** The draft key travels exactly when the call's `globalKey` entry is
      truthy and a global key is configured, wherever that entry sits among
      the options; every read sends it the same way. */
  lemma {:induction false} DraftKeyFollowsGlobalKey(c: Config, endpoint: string, id: string, before: seq<Entry>, v: Value, after: seq<Entry>, fetched: Outcome)
    requires KeySet(c.apiKey)
    requires forall e :: e in before ==> e.0 != GlobalKeyName
    ensures var options := before + [(GlobalKeyName, v)] + after;
      var draft := if v.Truthy() && KeySet(c.apiGlobalKey) then c.apiGlobalKey else None;
      && HeaderValue(Get(c, endpoint, id, options, fetched).sent.value.headers, DraftKeyHeader) == draft
      && HeaderValue(Gets(c, endpoint, options, fetched).sent.value.headers, DraftKeyHeader) == draft
      && HeaderValue(Get2(c, endpoint, id, options, fetched).sent.value.headers, DraftKeyHeader) == draft
      && HeaderValue(Gets2(c, endpoint, options, fetched).sent.value.headers, DraftKeyHeader) == draft
  {
    var options := before + [(GlobalKeyName, v)] + after;
    assert options[|before|] == (GlobalKeyName, v);
    forall j | 0 <= j < |before| ensures options[j].0 != GlobalKeyName {
      assert options[j] == before[j];
      assert before[j] in before;
    }
    assert GlobalKeyOf(options) == v;
  }

  /** Options without a `globalKey` entry never send the draft key, even
      when one is configured. */
  lemma NoGlobalKeyNoDraftKey(c: Config, endpoint: string, id: string, options: seq<Entry>, fetched: Outcome)
    requires KeySet(c.apiKey)
    requires forall e :: e in options ==> e.0 != GlobalKeyName
    ensures HeaderValue(Get(c, endpoint, id, options, fetched).sent.value.headers, DraftKeyHeader).None?
    ensures HeaderValue(Gets(c, endpoint, options, fetched).sent.value.headers, DraftKeyHeader).None?
  {
  }
}
