# smart-db-server: the request-authorisation core in Dafny

The server (`index.js`) is a small Express + MongoDB backend for products and
bids. Its only decision logic is on the authorisation path, and this project
models that path:

- **Bearer-token extraction.** Both gates take `authorization.split(" ")[1]`
  and test it with JavaScript truthiness. `Js` models `split(" ")`, its inverse
  `join(" ")` and truthiness. `Auth.ExtractToken` is the gates' shared rule.
- **The two gates.** `verifyFirebasToken` becomes `Auth.FirebaseGate` and
  `verifyJWTToken` becomes `Auth.JwtGate`. Each is a total function from the
  header and a verifier to `Reject(401 "unauthorized access")` or
  `Continue(token_email)`. The verifier is a function parameter returning
  `Invalid(kind)` or `Valid(email)`. The identity provider and `jwt.verify`
  have their own failure kinds, so the lemmas can show those kinds never
  reach the client.
- **`GET /bids`.** `Handlers.BidsAccess` builds the `buyer_email` filter and
  makes the 403 "Forbidden Access" check. `Handlers.GetBids` chains it behind
  the identity-provider gate and runs the query.
- **Store rules over an abstract store.** A collection is a sequence of
  documents (`map<string, Value>`). Queries use MongoDB's equality-filter
  matching (`Store`). On top of that sit `POST /users` (insert only if no
  user matches the email), the `PATCH /products/:id` update document (exactly
  `name` and `price`), and the two other gated routes: `POST /products` and
  `GET /products/bids/:productId`.

Modelling choices:

- The `authorization` header is `undefined` or a string, because that is
  what Node delivers.
- The `email` query parameter is `undefined` or a string.
- Token claims and body fields are any primitive JSON value.
- Strict inequality `!==` on primitives is structural inequality of `Js.Value`.
- A filter value of `null` or `undefined` matches documents whose field is
  missing or null. This is MongoDB's rule, and the driver sends `undefined`
  as `null`. It is why a `/users` body with no `email` is inserted only once.

Where the code departs from what the API is meant to do, the model follows the code:

- The gates never check the scheme word. `"Basic abc"` or `"x abc"` yields the
  token `abc` just like `"Bearer abc"` (`Auth.AnySchemeWordIsAccepted`).
- `GET /bids` with no `email` parameter is refused with 403 for every caller
  whose identity is not `undefined`, because `undefined !== token_email`. An
  un-filtered listing therefore happens only when both the parameter and the
  identity are falsy and equal. One example is a verified token with no email
  claim and no parameter (`Handlers.MissingEmailAndClaimListsEverything`).
  Another is `email=` (the empty string) with an empty-string identity.
  The commented-out handler (index.js:191-205) suggests the authors once
  meant un-filtered listing to be open. The live handler may be a deliberate
  tightening, so the model keeps the live behaviour without calling it a defect.

## Model

| member | source | states |
|---|---|---|
| Js.Split | index.js:34 | `split(" ")` always yields at least one field; no field contains a space; there is more than one field exactly when the header contains a space |
| Js.JoinSplit | index.js:34 | joining the fields with single spaces gives back the original header, so splitting loses nothing |
| Js.SplitJoin | index.js:34 | splitting a space-joined list of space-free fields gives the list back (the other direction of the round trip) |
| Js.SecondFieldIsBetweenSpaces | index.js:34 | `split(" ")[1]` is exactly the text between the first space and the next space or end of string; it is `undefined` exactly when there is no space |
| Auth.ExtractToken | index.js:30-37 | a falsy (missing or empty) header gives no token; any token found is non-empty, space-free, and comes from a header that contains a space |
| Auth.ExtractTokenIsSecondField | index.js:34-37 | a token is found if and only if the header is a string whose second space-separated field is non-empty, and then the token is that field |
| Auth.AnySchemeWordIsAccepted | index.js:34 | the word before the first space is never inspected: any space-free word followed by a non-empty space-free token yields that token |
| Auth.NoTokenWithoutSecondField | index.js:35-37 | a header with no space, or whose second field is empty, is refused before verification |
| Auth.NoTokenInEmptyHeader | index.js:30-33 | an absent or empty header carries no token |
| Auth.NoTokenInBareScheme | index.js:35-37 | `"Bearer"` alone carries no token |
| Auth.NoTokenAfterTrailingSpace | index.js:35-37 | `"Bearer "` carries no token |
| Auth.NoTokenAfterDoubledSpace | index.js:35-37 | `"Bearer  abc"` carries no token, because its second field is empty |
| Auth.TokenBeforeExtraFields | index.js:34 | fields after the token are ignored: a space-free scheme word, a non-empty space-free token and a space followed by anything yield that token (`"Bearer abc def"` yields `abc`) |
| Auth.FirebaseGate | index.js:28-47 | every rejection is 401 "unauthorized access"; no token means rejection; the request continues exactly when there is a token and the identity provider accepts it, and it then carries that token's email claim |
| Auth.JwtGate | index.js:49-67 | the same decision with `jwt.verify` as the verifier: any reported error is the same 401, and a decoded token continues with its email claim |
| Auth.NoTokenIgnoresVerifier | index.js:30-37 | without a token both gates answer 401 whatever their verifier would say, so the verifier is not consulted |
| Auth.GatesConsultOnlyTheToken | index.js:39 | a gate's outcome depends on the verifier only through its verdict on the extracted token |
| Auth.FailureKindsIndistinguishable | index.js:43-46 | whatever kind of failure the verifier reports (invalid, expired, unreachable, bad signature), the client gets the identical 401 |
| Auth.GatesAgree | index.js:49-67 | given verifiers that accept the same tokens with the same emails, the self-issued-token gate decides exactly as the identity-provider gate does |
| Store.Find | index.js:185-186 | `find(query).toArray()` returns only stored documents matching the filter, and every matching stored document |
| Store.Matches | index.js:106 | the empty filter matches every document, and a matching document holds every non-null value the filter asks for |
| Store.MatchesNullField | index.js:105-106 | a one-field filter on `null` or `undefined` (a `/users` body with no `email`) matches exactly the documents whose field is missing, `null` or `undefined` |
| Store.FindOne | index.js:106 | a found document is stored and matches the filter; `null` comes back exactly when no stored document matches |
| Store.FirstMatch | index.js:106 | `findOne` picks the first matching document; no earlier one matches, and when none is picked no document matches |
| Store.FindOneIsFirstFound | index.js:106-107 | `findOne` is `null` exactly when `find` returns nothing, and otherwise is the first document `find` returns |
| Store.FindAllWithEmptyFilter | index.js:175 | the empty query `{}` returns the whole collection |
| Store.FindAfterInsert | index.js:112 | after `insertOne`, the new document is added at the end of every query result it matches, and other results are unchanged |
| Store.MatchesOneField | index.js:177 | a one-field filter on a value other than `null`/`undefined` (here a string) matches exactly the documents whose field holds that value |
| Store.UpdateOne | index.js:161 | `updateOne` with `$set` changes only the first matching document: it gains exactly the set fields with their new values and keeps all its other fields |
| Handlers.BidsAccess | index.js:174-183 | the request is forbidden exactly when `email !== token_email`; when it proceeds with a truthy `email`, the filter is `{buyer_email: token_email}`, and otherwise it is empty |
| Handlers.BuyerFilterFacts | index.js:175-177 | the empty `/bids` filter lists every bid, and the `{buyer_email: email}` filter for a truthy `email` matches exactly the bids whose `buyer_email` is `email` |
| Handlers.GetBids | index.js:172-188 | 401 exactly when the gate rejects; 403 exactly when the caller's identity differs from `email`; otherwise the listing contains exactly the bids whose `buyer_email` is `email`, or every bid when `email` is falsy |
| Handlers.OwnBidsListed | index.js:174-187 | a caller asking for the bids of their own truthy identity gets exactly the bids placed under it |
| Handlers.OwnBidsScenario | index.js:172-188 | with `Bearer tok` verified as `a@x.com`, `?email=a@x.com` lists exactly `a@x.com`'s bids |
| Handlers.OtherBidsScenario | index.js:180-183 | with the same token, `?email=b@y.com` is answered 403 "Forbidden Access" |
| Handlers.BearerTokGate | index.js:34-42 | when the verifier accepts `tok`, the header `Bearer tok` passes the identity-provider gate carrying the email the verifier gives `tok` |
| Handlers.MissingEmailForbidsIdentifiedCaller | index.js:180-183 | with no `email` parameter, any caller whose identity is not `undefined` is refused with 403 |
| Handlers.MissingEmailAndClaimListsEverything | index.js:174-185 | a verified token with no email claim and no `email` parameter passes with the empty filter and lists every bid |
| Handlers.PostProduct | index.js:143-149 | the product body is stored exactly when the identity-provider gate lets the request through; a rejected request is answered 401 and stores nothing |
| Handlers.PostProductWithoutHeader | index.js:143-149 | `POST /products` without an `Authorization` header is answered 401 and inserts nothing |
| Handlers.GetProductBids | index.js:214-220 | 401 exactly when the self-issued-token gate rejects, and a listing exactly when it lets the request through; the listing holds exactly the bids on that product, with no ownership check |
| Handlers.PostUser | index.js:102-115 | if a stored user matches the body's email, the store is unchanged and the reply says the user exists; otherwise the body is appended; afterwards the number of users matching that email is one if it was zero, and unchanged otherwise |
| Handlers.UserQuery | index.js:105 | the lookup `{email: body.email}` has the single field `email`, and the posted body always matches its own lookup, so a second post of it finds the first |
| Handlers.PostUserTwice | index.js:105-113 | posting the same user twice in a row: the second post changes nothing and reports the user as existing |
| Handlers.PostUserKeepsEmailsUnique | index.js:105-113 | a store with at most one user for an email still has exactly one after any post of that email |
| Handlers.ProductQuery | index.js:154 | the lookup `{_id: id}` matches exactly the products whose `_id` is the string `id` |
| Handlers.PatchProduct | index.js:151-163 | when some product has `_id` equal to `id`, the first such product afterwards holds the body's `name` and `price`; every other product is unchanged; the PATCH keeps every `_id` and changes no product with another `_id`; the changed product gains exactly `name` and `price` and keeps every other field |
| Handlers.PatchIgnoresOtherBodyFields | index.js:154-161 | body fields other than `name` and `price` have no effect on the update |

## Left out

- The internals of `jwt.sign` and `jwt.verify`: HMAC signing, the 1-hour expiry and the `/getToken` route (index.js:59, index.js:93-99). This is a foreign crypto library with a clock. Its verdict is the `verifyJwt` parameter, so expiry appears only as one of its failure kinds.
- `admin.auth().verifyIdToken` and the start-up decoding of the service credential (index.js:12-17, index.js:39). These are network and configuration plumbing. The verdict is the `verifyIdToken` parameter.
- The MongoDB client and connection, `ObjectId` parsing, `deleteOne`, and the database-side ordering `sort({bid_price:-1})` and `sort({created_at:-1}).limit(6)`. This is I/O, and the sorting is done by the database. `Handlers.GetProductBids` therefore says which bids are listed, not in what order.
- The pass-through routes with no decision logic: `GET /products`, `GET /latest-products`, `GET /products/:id` with its 404, `DELETE /products/:id`, `GET /bids/:id`, `POST /bids`, `DELETE /bids/:id`. Express routing, CORS, JSON body parsing, logging and `app.listen` are left out too. All of this is framework or store plumbing.
- The asynchronous suspension and interleaving of requests. Each request's decision path is sequential, and the model takes it one request at a time.
- The commented-out `/bids` handlers (index.js:191-205, index.js:222-230). They are not live code.
- Query parameters that Express parses into arrays or objects (`?email=a&email=b`, `?email[x]=y`). `Handlers.QueryParam` is limited to `undefined` or a string.
- Floating-point numbers and `NaN`. `Js.Value` numbers are integers, because no modelled decision compares numbers.
- How the driver stores an `undefined` written by `$set`. `Store.UpdateOne` stores the value as given.
- Array-valued document fields. MongoDB matches an array field that contains the wanted value, and `Store.FieldMatches` does not model that.
- Handlers.PostUser: the identifier `_id` that the driver adds to an inserted document is not modelled; the body is stored as sent (index.js:112).
- Handlers.PostUser: a body whose `_id` is already stored makes `insertOne` throw, and the handler does not catch it, so nothing is stored and no success reply is sent; the model always appends.
- Handlers.PostUser: an object-valued `email` such as `{"$ne": null}` is read by `findOne` as a query operator, not a value (index.js:106); `Js.Value` has no objects, so a body's `email` is always a primitive.
- Handlers.PostProduct: the driver-added `_id` and the uncaught duplicate-`_id` error of `insertOne` (index.js:147) are not modelled, for the same reasons as for `Handlers.PostUser`.
