# microcms-lib client core in Dafny

This project models the pure core of the `MicroCMS` client class, a thin
typed client for the microCMS content API (`src/index.ts`):

- the query-string serialiser `convertQuery`. It folds the option entries
  into `?name=value&name=value…`, joins array values with `,` and escapes
  nothing;
- the construction of every request: the URL with or without `/{id}`, the
  query suffix with `globalKey` removed, the read headers (`X-API-KEY`, and
  `X-GLOBAL-DRAFT-KEY` on demand) and the fixed write headers
  (`X-WRITE-API-KEY`, `Content-Type: application/json`);
- the credential checks that return null or false before any request;
- the mapping of a response to the result. The lenient operations `get`,
  `gets`, `post`, `put`, `patch` and `delete` collapse every failure to
  null or false. The status-aware operations `get2`, `gets2`, `post2`,
  `put2`, `patch2` and `delete2` return `{code, body}`.

`fetch` is not called. Each operation is a total function of the
configuration, its arguments and an `Outcome`: either the transport failed,
or a response arrived with a status and a body that does or does not parse
as JSON. The result is a `Call`: the request that would be sent (none when
the needed key is missing) and the value the promise resolves to.

Files:

- `js.dfy`, module `Js`: optional values, JavaScript truthiness, how a
  template literal renders numbers, booleans and `undefined`,
  `Array.prototype.join` and its inverse `split`.
- `query.dfy`, module `Query`: `convertQuery` as the left fold that
  `reduce` performs, a reference definition (`?` + pairs joined by `&`), a
  parser that reads a query back, and the properties relating them.
- `client.dfy`, module `MicroCms`: configuration, requests, outcomes, the
  twelve operations and the lemmas relating them.

The model follows the code in four places where the result types the
source declares read differently: the `Promise<…>` annotations or casts of `get2`,
`gets2`, `post2`, `put2`, `patch2` and `delete2` (src/index.ts:153-159,
200-206, 217-219, 234-236, 251-253 and 267-269), each promising a typed
`body` or null, and the `Promise<string | null>` of `post`, `put` and
`patch` (src/index.ts:96, 111, 122):

- The status-aware reads and writes call `await res.json()` for every
  status. So a body that does not parse gives null, not only a transport
  failure (`get2`, `gets2`, `post2`, `put2`, `patch2`).
- `delete2` never reads the body. It returns `body: true` for every status
  (src/index.ts:276), although its declared type promises `{id: string}` on
  202 and `{message: string}` on 400.
- A lenient `post`, `put` or `patch` resolves to `undefined` when the
  success body has no `id`. When the body is JSON `null`, reading `id`
  throws, and the `.catch` turns that into null.
- The draft-key header is chosen by JavaScript truthiness of `globalKey`
  and `apiGlobalKey`, not by `globalKey === true`. A key counts as missing
  when it is undefined or empty.

## Model

| member | source | states |
|---|---|---|
| `Js.Digits` | src/index.ts:19 | the decimal text of a number is non-empty and all digits; it starts with '0' only for zero, and zero is exactly "0" |
| `Js.DigitsRoundTrip` | src/index.ts:19 | reading the digits back gives the number again |
| `Js.DecimalString` | src/index.ts:19 | `${n}` is non-empty, digits with an optional leading '-'; the '-' appears exactly for negative n and is followed by a non-zero digit; no leading zero, so zero is exactly "0" |
| `Js.Render` | src/index.ts:19 | how a value appears in a query (`${value}`, arrays through `join(',')`): a number's text is digits with an optional leading '-' and reads back to the number; an array's text splits back into its elements when none holds ',' |
| `Js.DecimalRoundTrip` | src/index.ts:19 | a rendered integer reads back to itself |
| `Js.SplitJoin` | src/index.ts:19 | splitting undoes `join` for a non-empty list whose elements do not contain the separator |
| `Js.ScalarRenderHasNoDelimiters` | src/index.ts:19 | numbers, booleans and `undefined` render without '&', '?', '=' or ',' |
| `Js.ArrayRenderRoundTrip` | src/index.ts:19 | an array value rendered with `join(',')` splits back into its elements when none holds ',' |
| `Query.ConvertQuery` | src/index.ts:10-21 | the empty mapping gives ""; otherwise the query starts with '?' and the rest is the `name=value` pairs joined by '&' |
| `Query.ReduceIsJoin` | src/index.ts:17-21 | the `reduce` fold with '?' for index 0 and '&' after it equals '?' followed by the pairs joined by '&' |
| `Query.QueryRoundTrip` | src/index.ts:17-21 | when no name holds '&' or '=' and no rendered value holds '&', reading the query back gives every name with its rendered value, in entry order |
| `Query.SeparatorsMatchEntries` | src/index.ts:18-20 | when names and values hold no '?' or '&', the query holds exactly one separator per entry |
| `Query.OneEntry` | src/index.ts:18-19 | one entry gives `?name=value` |
| `Query.TwoEntries` | src/index.ts:18-19 | two entries give `?a&b`, in entry order |
| `Query.DelimitersInValuesAreNotEscaped` | src/index.ts:19 | with no percent-encoding, `q="a&b=c"` and the pair `q="a"`, `b="c"` give the same query, and so do `["a,b"]` and `["a","b"]` |
| `Query.UndefinedAndEmptyArrayRendering` | src/index.ts:19 | `undefined` is written as the text `undefined`; an empty array gives the same query as an empty string |
| `Query.LimitAndFieldsExample` | src/index.ts:17-21 | `{limit: 10, fields: ['id', 'title']}` gives `?limit=10&fields=id,title` |
| `MicroCms.GlobalKeyOf` | src/index.ts:47 | the destructured `globalKey` is the value of the (first) entry named `globalKey`; it is undefined when there is none |
| `MicroCms.DraftKeyFollowsGlobalKey` | src/index.ts:47-55 | whatever other options surround it, a `globalKey` entry makes get, gets, get2 and gets2 send `X-GLOBAL-DRAFT-KEY` with the configured global key exactly when its value is truthy and a global key is set |
| `MicroCms.NoGlobalKeyNoDraftKey` | src/index.ts:47-55 | options without `globalKey` never send the draft key, even when a global key is configured |
| `MicroCms.WithoutGlobalKey` | src/index.ts:47 | the rest object holds exactly the entries not named `globalKey`, and all of them when none is |
| `MicroCms.GlobalKeyNeverReachesQuery` | src/index.ts:47-48 | inserting a `globalKey` entry anywhere, with any value, leaves the read query unchanged |
| `MicroCms.ReadQueryOmitsGlobalKey` | src/index.ts:75-76 | read back, the query of a read lists the other options in order and never a `globalKey` pair, whatever the `globalKey` value holds |
| `MicroCms.ReadHeaders` | src/index.ts:52-55 | a read always carries `X-API-KEY`; it carries `X-GLOBAL-DRAFT-KEY` with the global key exactly when `globalKey` is truthy and a global key is configured; no other header, and one or two headers in all |
| `MicroCms.ReadRequestKeepsWriteKeyOut` | src/index.ts:52-55 | every header of a read is the read key or the draft key with its configured value; the write key never appears |
| `MicroCms.WriteRequestKeepsReadKeysOut` | src/index.ts:101 | every header of a write is the write key or `Content-Type: application/json`; neither the read key nor the draft key appears |
| `MicroCms.WriteHeaders` | src/index.ts:101 | a write carries exactly the write key and `Content-Type: application/json` |
| `MicroCms.Get` | src/index.ts:37-59 | a request is sent exactly when the read key is set: GET `…/{endpoint}/{id}` + query without `globalKey`, with exactly the read headers; the result is non-null only for a parsed 200 response, and is then its body |
| `MicroCms.Gets` | src/index.ts:60-87 | as `Get`, on the collection URL with no id |
| `MicroCms.Post` | src/index.ts:88-106 | a request is sent exactly when the write key is set: POST to the collection URL with the params as body and exactly the write headers; the result is non-null only for a parsed non-null 201 body, and is then its `id` |
| `MicroCms.Put` | src/index.ts:107-121 | as `Post`, with PUT to `…/{id}` (the text `undefined` when there is no id); success is 201 |
| `MicroCms.Patch` | src/index.ts:122-132 | as `Put`, with PATCH; success is 200 |
| `MicroCms.Delete` | src/index.ts:133-142 | DELETE to `…/{id}`, no body, exactly the write headers; true exactly when a request was sent and the status is 202 |
| `MicroCms.Get2` | src/index.ts:144-173 | same request as `get`; `{code: status, body}` exactly when a response with a parsable body arrived, whatever its status |
| `MicroCms.Gets2` | src/index.ts:174-208 | as `Get2`, on the collection URL |
| `MicroCms.Post2` | src/index.ts:209-229 | same request as `post`; `{code, body}` for every status with a parsable body, null otherwise |
| `MicroCms.Put2` | src/index.ts:230-246 | same request as `put`; `{code, body}` for every status with a parsable body |
| `MicroCms.Patch2` | src/index.ts:247-263 | same request as `patch`; `{code, body}` for every status with a parsable body |
| `MicroCms.Delete2` | src/index.ts:264-278 | same request as `delete`; `{code: status, body: true}` for every response, null only on transport failure |
| `MicroCms.ReadParity` | src/index.ts:57-58 | get/get2 and gets/gets2 send the same request; the lenient result is the status-aware body when the code is 200 and null otherwise |
| `MicroCms.WriteParity` | src/index.ts:104-105 | post, put (with a defined or undefined id) and patch send the same request as their twins; the lenient result is the reply body's `id` when the code is 201, 201 and 200 respectively, and null otherwise |
| `MicroCms.DeleteParity` | src/index.ts:140-141 | delete and delete2 send the same request; delete is true exactly when delete2 reports 202 |
| `MicroCms.MissingReadKey` | src/index.ts:50 | without a read key, get, gets, get2 and gets2 send nothing and give null whatever the outcome |
| `MicroCms.MissingWriteKey` | src/index.ts:98 | without a write key, no write sends anything, a put with an undefined id included: null for post, put and patch and every status-aware write, false for delete |
| `MicroCms.PutAndPatchSuccessCodesDiffer` | src/index.ts:119-131 | put accepts 201 and rejects 200; patch accepts 200 and rejects 201 |
| `MicroCms.PutWithoutId` | src/index.ts:114 | a put with an undefined id targets the path segment `undefined` |
| `MicroCms.GetIsGetsOnItemPath` | src/index.ts:51 | get is gets on the path `{endpoint}/{id}`: same request, same result |

## Left out

- `fetch`, Promises, `async` and `.catch`: network I/O. The outcome is an
  input, and a rejection at any point (transport, `res.json()`, reading a
  property of null) is modelled where the code would catch it.
- `JSON.stringify(params)` and `res.json()`: foreign serialisation and
  parsing. A request body is the document to be serialised. A response
  body is either unparsable or an opaque document, of which only a string
  `id` is looked at. An `id` of another JSON type is not modelled.
- Numbers are exact integers. Fractions, `NaN`, `Infinity`, `-0` and the
  exponent form JavaScript uses at 10^21 and above are not modelled.
- Array option values are lists of strings. Numeric elements and symbols
  (a symbol makes `join` throw) are not modelled.
- Options are given as the list `Object.entries` returns. JavaScript's
  ordering of integer-like keys ahead of the others is not modelled. Object
  keys are unique, so `GlobalKeyOf` reads the first `globalKey` entry.
- The HTTP method is abstract. `POST`, `PUT`, `PATCH` and `DELETE` stand
  for the lower-case names the code passes (`'post'`, …). Whether they go
  out upper-cased depends on the `fetch` implementation: the Fetch
  standard normalises `delete`, `post` and `put` but not `patch`, while
  node-fetch upper-cases every method. The model does not choose between them.
- The TypeScript generics of `MicroCMS`, the `Pick`/`Omit` result shapes
  and the exclusion of server-assigned fields from `post` params exist only
  at compile time.
- Behaviour of the remote service is outside the client: a post followed
  by a get of the returned id, or a second delete of the same id failing.
  So is the absence of cross-talk between concurrent calls, which holds
  here by construction since every operation is a pure function.
- test/index.ts (a live-network demo script) and test/types/cms-types.ts
  (sample content-model types) are not part of this model.
