# Portfolio backend: record collections, admin check and image store

A Dafny model of the serverless backend of a portfolio site. Three kinds of endpoint
share one blob backend:

- the **record-collection endpoints** for certificates and projects. Each request loads
  the whole JSON array stored under key `"all"` of its store. GET returns it. POST
  appends the body with an identifier taken from the clock. PUT replaces the first record
  with the body's identifier. DELETE filters out every record with the query's `id`.
  Every change writes the whole array back;
- the **administrator check** `verifyAdmin`. It compares an `Authorization: Bearer …`
  header with a configured secret and throws when no secret is configured;
- the **image endpoints**. Upload stores the bytes of a form file under the key
  `<time>-<name>`, with its type and name as metadata, and answers with
  `/api/images/<key>`. The image GET serves the bytes of the last path segment.

The two collection endpoints are the same code. `CollectionHandler.Handle` is written
once, over a `Collection(storeName, notFoundMessage)`. `HandleCertificates` and
`HandleProjects` instantiate it.

Modules, leaves first:

| file | module | contents |
|---|---|---|
| wrappers.dfy | `Wrappers` | `Option` |
| text.dfy | `Text` | `startsWith`, decimal rendering of the clock (`NatToString`) and its inverse |
| json.dfy | `Json` | decoded JSON values, records, JavaScript truthiness and `===` |
| http.dfy | `Http` | responses, the uncaught-error outcome, backend faults |
| blobs.dfy | `Blobs` | the two stores as classes over maps (`CollectionStore`, `ImageStore`) |
| auth.dfy | `Auth` | `verifyAdmin` |
| records.dfy | `Records` | identifier assignment, `findIndex`, `filter` and their lemmas |
| collection_handler.dfy | `CollectionHandler` | the collection endpoint, as a method over `CollectionStore` |
| images.dfy | `Images` | the image GET, as a function of the image store's entries |
| upload_image.dfy | `UploadImage` | the upload, as a method over `ImageStore`, and the upload/serve round trip |
| scenarios.dfy | `Scenarios` | a client run: create, list, update and a bad delete, checked from the contracts |

The world outside the code is injected:

- `now: nat` stands for `Date.now()`.
- `password: Option<string>` stands for `process.env.ADMIN_PASSWORD`.
- `fault: Fault` says whether the backend's reads or writes throw. A failing call is
  caught and answered with 500, and nothing is written.

A `verifyAdmin` error is thrown outside every `try`. The model gives it its own outcome,
`Uncaught(message)`, separate from a 500 reply.

Where what a reader would expect and what the code does differ, the model follows the code:

- **Identifier check on PUT.** The code tests the identifier with JavaScript truthiness
  (`!body.id`), so `0`, `false` and `null` are refused as well as a missing or empty
  one. An object or array identifier passes the check. It then never matches, because
  `===` compares references, so the PUT answers 404.
- **Identifier uniqueness.** The code does not enforce unique identifiers. Two creates in
  the same millisecond get the same one (`Records.SameTimeCreatesCollide`).
  `Records.CreatesGetDistinctIds` proves uniqueness only for strictly increasing times.
- **Missing secret.** This is an uncaught exception, not a 500 reply with its own message.

## Model

| member | source | states |
|---|---|---|
| `Text.HasPrefix` | netlify/functions/auth.js:9 | `startsWith`: the string is the prefix followed by the rest of the string. |
| `Json.Truthy` | netlify/functions/certificates.js:59 | `!x` is false exactly for the values other than `null`, `false`, zero and `""`. |
| `Json.StrictEquals` | netlify/functions/certificates.js:67 | `===` between separately parsed values holds exactly between equal primitives. |
| `Blobs.Loaded` | netlify/functions/certificates.js:36 | The loaded collection (`get('all')`, defaulting to `[]`) is the stored array when the key is present, and `[]` when it is absent. |
| `Records.SameTimeCreatesCollide` | netlify/functions/certificates.js:38-39 | Two creates at the same time stamp both records with one identifier, so the ids are not distinct. |
| `UploadImage.UploadKey` | netlify/functions/upload-image.js:29 | The key reads back as the upload time (its leading digits), then `-`, then the file name. |
| `UploadImage.ImageUrl` | netlify/functions/upload-image.js:39 | The URL is `/api/images/` followed by the key. Its last path segment is the key when the key has no `/`. |
| `UploadImage.Stored` | netlify/functions/upload-image.js:32-37 | The entry holds the uploaded bytes and the original name as metadata. The image endpoint serves it with the uploaded type, or `image/jpeg` when that was empty. |
| `Auth.VerifyAdmin` | netlify/functions/auth.js:1-15 | An unconfigured (absent or empty) secret is an error. Otherwise the request is granted exactly when the header equals `"Bearer "` followed by the secret. |
| `Auth.UnconfiguredAlwaysFails` | netlify/functions/auth.js:3-7 | Whatever the header, an absent or empty secret raises the configuration error. |
| `Auth.MissingHeaderRefused` | netlify/functions/auth.js:9-11 | With a configured secret, a request without an authorization header is refused. It is not an error. |
| `Auth.WrongSchemeRefused` | netlify/functions/auth.js:9-11 | A header that does not start with the exact, case-sensitive `"Bearer "` is refused. |
| `Auth.TokenCompared` | netlify/functions/auth.js:13-14 | For a header with the prefix, the verdict is whether the text from position 7 on equals the secret exactly. |
| `Auth.BearerTokenAccepted` | netlify/functions/auth.js:9-14 | The header `"Bearer " + p` is granted if and only if `p` is the secret. |
| `Auth.EmptyTokenRefused` | netlify/functions/auth.js:5-14 | A bare `"Bearer "` is never granted, since a configured secret is non-empty. |
| `Text.NatToString` | netlify/functions/certificates.js:38 | `Date.now().toString()` is one or more decimal digits, with a leading `0` only for zero. |
| `Text.ParseNatToString` | netlify/functions/certificates.js:38 | Reading the rendered clock value back as a decimal gives the value (the inverse of the rendering). |
| `Text.NatToStringInjective` | netlify/functions/certificates.js:38 | Distinct times render as distinct identifiers. |
| `Json.StrictEqualsFacts` | netlify/functions/certificates.js:67 | `===` between parsed values is symmetric. It holds only between a primitive and an equal primitive, never between arrays or objects. |
| `Records.WithId` | netlify/functions/certificates.js:38 | A created record's `id` is the rendered time, whatever the client sent. Its field set is the body's plus `id`, and every other field is as sent. |
| `Records.FindIndex` | netlify/functions/certificates.js:67 | `findIndex` gives -1 exactly when no record's `id` is `===` the given value. Otherwise it gives a matching position with no match before it. |
| `Records.ReplaceThenFind` | netlify/functions/certificates.js:67-76 | After the body replaces the first match, a lookup of the body's `id` finds the same position, so the update stays addressable. |
| `Records.AppendThenFind` | netlify/functions/certificates.js:36-41 | A created record is found at the end of the new array when no earlier record has its identifier. |
| `Records.CreateAllShape` | netlify/functions/certificates.js:36-41 | A series of creates keeps the old array as a prefix. It appends one stamped record per create, in order. |
| `Records.CreatesGetDistinctIds` | netlify/functions/certificates.js:36-41 | Creates at strictly increasing times on a fresh collection give one record per create, with pairwise distinct identifiers. |
| `Records.WithoutId` | netlify/functions/certificates.js:104 | After `filter` no record has the deleted `id` and the array is no longer. When nothing matched, the array is unchanged. |
| `Records.WithoutIdAppend` | netlify/functions/certificates.js:104 | Filtering distributes over concatenation, so the survivors keep their relative order. |
| `Records.WithoutIdCounts` | netlify/functions/certificates.js:104 | Every record with another identifier survives as many times as it occurred. Every record with this identifier is gone. |
| `Records.WithoutIdIdempotent` | netlify/functions/certificates.js:103-106 | Deleting the same `id` twice leaves what deleting it once left. |
| `CollectionHandler.Handle` | netlify/functions/certificates.js:4-124 | OPTIONS gives 204 first. GET gives the stored array or `[]` without authorization and never writes. Other verbs pass `verifyAdmin`: its error escapes uncaught, and a refusal gives 401 with the store untouched. POST writes `old ++ [body with new id]` and answers 201 with that record. PUT without a truthy `id` gives 400 before the store is read. PUT with an unknown `id` gives 404 with the store unchanged. A matching PUT writes the body at the first matching index and answers with the body. DELETE without an `id` gives 400. DELETE with one writes the filtered array and answers `{success:true}`. Other verbs give 405. Backend failures give 500 with nothing written. Only the endpoint's own key changes. |
| `CollectionHandler.HandleCertificates` | netlify/functions/certificates.js:9-70 | The handler over store `"certificates"`, with the unknown-`id` message `"Certificate not found"`. Only key `("certificates","all")` changes. |
| `CollectionHandler.HandleProjects` | netlify/functions/projects.js:4-124 | The same handler over store `"projects"`, with `"Project not found"`. Only key `("projects","all")` changes, so the certificates collection reads the same after any request. |
| `Images.LastSegment` | netlify/functions/images.js:7-8 | The selected name has no `/`. It is a suffix of the path, preceded by a `/` unless it is the whole path. That is the last part of `split('/')`. |
| `Images.LastSegmentAfterSlash` | netlify/functions/images.js:7-8 | A path ending in `/` followed by a slash-free name yields that name. |
| `Images.ContentTypeOf` | netlify/functions/images.js:31 | The served type is never empty. It is the stored `contentType` when that is present and non-empty, and `image/jpeg` otherwise. |
| `Images.Serve` | netlify/functions/images.js:3-47 | Non-GET gives 405. An empty last segment gives 400 `Filename required`. A failing read gives 500. The reply is 200 exactly for a GET whose name is stored, and 404 exactly when the name is not stored (reads not failing). A 200 carries exactly the stored bytes, the content type and `public, max-age=31536000`. |
| `UploadImage.Upload` | netlify/functions/upload-image.js:4-57 | OPTIONS gives 204 before authorization. An unconfigured secret escapes, and a refusal gives 401, for every other verb. An authorized non-POST gives 405. No file gives 400. Otherwise exactly key `time-name` is written, with the bytes and `{contentType, originalName}`, and the reply is 200 with `url = "/api/images/" + key`. A failing write gives 500 with nothing written. |
| `UploadImage.UploadKeyInjective` | netlify/functions/upload-image.js:29 | Two uploads get the same key only when both their time and their file name are equal. |
| `UploadImage.UploadKeySlashFree` | netlify/functions/upload-image.js:29 | A key built from a slash-free file name has no `/`. |
| `UploadImage.UploadRoundTrip` | netlify/functions/upload-image.js:29-39 | For a file name without `/`, the last segment of the returned URL is the key written. A GET of that URL then answers 200 with the uploaded bytes, the uploaded type (or `image/jpeg` when it was empty) and the long cache header. |

## Left out

- HTTP plumbing. The model leaves out `Response` objects and JSON encoding of bodies.
  It keeps header maps only for `Content-Type` and `Cache-Control`. It also leaves out
  the `config.path` route exports.
- Request decoding. The model leaves out `request.json()`, `request.formData()` and URL
  parsing. A request is already decoded.
  - A collection body is always a JSON object. Bodies that do not parse, and non-object
    bodies, are not modelled. The source treats them as follows:
    - A body that does not parse gives 500.
    - A `null` body throws at the `id` assignment or test, which gives 500.
    - A primitive body throws on POST when the `id` is assigned, which gives 500. On
      PUT it has no `id`, so it gives 400.
    - An array body on POST succeeds. The `id` becomes a property of the array, and
      `JSON.stringify` drops it. The stored element and the 201 reply therefore carry
      no identifier. An array body on PUT has no `id` and gives 400.
  - The `image` form field is a file or absent. String-valued fields are not modelled.
  - The image GET receives the URL's pathname as given. Percent-encoding by URL parsing
    is not modelled. `UploadImage.UploadRoundTrip` assumes the client requests the
    returned URL verbatim. A file name with characters that URLs encode would not
    round-trip in the source.
- The blob library. `getStore`, `get`, `setJSON`, `set` and `getMetadata` are maps in
  `Blobs`. Their failures are one abstract `Fault` answered with 500. The messages of
  caught exceptions are replaced by the single body `BackendError`.
- `Images.Serve` reads `getMetadata(key)` as the metadata stored with the image, as
  the source's `metadata?.contentType` expects. The blob library is not part of this
  model. If that call returns the metadata inside a larger object, the source always
  falls back to `image/jpeg`.
- Numbers. JSON numbers are exact reals. NaN and floating-point rounding are not
  modelled. The model differs from the source for numeric identifiers in two ways:
  - A numeral that rounds to zero (such as `1e-400`) is falsy in the source, so a PUT
    gives 400. The model's exact real is truthy, so it looks the identifier up and gives 404.
  - Two numerals that round to the same double are `===` in the source. They are distinct
    reals in the model.

  Identifiers assigned by the clock and ids sent as query parameters are strings, so
  neither is affected.
- Concurrency. Two requests can each load the same array, and the later write then
  discards the earlier one's edit. The model handles one request at a time and does
  not capture this lost update.
- Field order of JSON objects. Records are maps, so the position of the `id` that
  `newRecord.id = …` adds is not modelled.
