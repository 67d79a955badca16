/**
 The request handlers of index.js whose decisions go beyond passing data
 through: the `/bids` listing with its ownership check, the two gated
 routes `POST /products` and `GET /products/bids/:productId`, the
 insert-if-absent rule of `POST /users` and the update document of
 `PATCH /products/:id`. Each handler is a function from the request and the
 collection it touches to the reply and the collection afterwards.
 */
module Handlers {
  import opened Wrappers
  import opened Js
  import opened Auth
  import opened Store

  /** The `email` query parameter: absent, or a string (possibly empty). */
  type QueryParam = v: Value | v.Undefined? || v.Str? witness Undefined

  /** What a handler sends: a status with a `{message}` body, a list of
      documents, or the driver's acknowledgement of a write. */
  datatype Reply = Sent(response: Response) | Listed(docs: seq<Document>) | Written

  /** A reply together with the collection as the request left it. */
  datatype Outcome = Outcome(reply: Reply, store: seq<Document>)

  /** The answer to an authenticated caller asking for someone else's bids. */
  const ForbiddenAccess := Response(403, "Forbidden Access")

  /** The answer to posting a user whose email is already stored. */
  const UserExists := Response(200, "user already exist.Do not need to insert again.")

  /** The `/bids` handler's decision once the gate has let the request through. */
  datatype BidsDecision = Forbidden | RunQuery(filter: Filter)

  /** The `/bids` ownership check: the query gets `buyer_email` only when
      `email` is truthy, and the request is refused whenever `email` and the
      gate's `token_email` are not strictly equal, even when `email` is
      absent. When it proceeds, the filter names the caller's own identity,
      or is empty. */
  function BidsAccess(email: QueryParam, tokenEmail: Value): (d: BidsDecision)
    ensures d.Forbidden? <==> email != tokenEmail
    ensures d.RunQuery? && Truthy(email) ==> d.filter == map["buyer_email" := tokenEmail]
    ensures d.RunQuery? && !Truthy(email) ==> d.filter == map[]
  {
    var query: Filter := if Truthy(email) then map["buyer_email" := email] else map[];
    if email != tokenEmail then Forbidden else RunQuery(query)
  }

  /** `GET /bids` behind the identity-provider gate. A 401 comes exactly from
      the gate, a 403 exactly when the caller's identity differs from the
      `email` parameter, and a listing otherwise: the caller's own bids, all
      of them, when `email` is given, and the whole collection when both the
      parameter and the identity are falsy and equal. */
  function GetBids(authorization: Header, verifyIdToken: string -> Verdict<IdpFailure>,
                   email: QueryParam, bids: seq<Document>): (r: Reply)
    ensures r.Sent? ==> r.response == Unauthorized || r.response == ForbiddenAccess
    ensures r == Sent(Unauthorized) <==> FirebaseGate(authorization, verifyIdToken).Reject?
    ensures r == Sent(ForbiddenAccess) <==>
              FirebaseGate(authorization, verifyIdToken).Continue? &&
              FirebaseGate(authorization, verifyIdToken).tokenEmail != email
    ensures r.Listed? <==> FirebaseGate(authorization, verifyIdToken) == Continue(email)
    ensures r.Listed? && Truthy(email) ==>
              forall d :: d in r.docs ==> d in bids && Get(d, "buyer_email") == email
    ensures r.Listed? && Truthy(email) ==>
              forall i :: 0 <= i < |bids| && Get(bids[i], "buyer_email") == email ==> bids[i] in r.docs
    ensures r.Listed? && !Truthy(email) ==> r.docs == bids
  {
    match FirebaseGate(authorization, verifyIdToken)
    case Reject(response) => Sent(response)
    case Continue(tokenEmail) =>
      match BidsAccess(email, tokenEmail)
      case Forbidden => Sent(ForbiddenAccess)
      case RunQuery(filter) =>
        BuyerFilterFacts(email, bids);
        Listed(Find(bids, filter))
  }

  /** The two filters `/bids` can run: `{}` lists the whole collection, and
      `{buyer_email: email}` for a truthy `email` matches exactly the bids
      whose `buyer_email` is `email`. */
  lemma BuyerFilterFacts(email: QueryParam, bids: seq<Document>)
    ensures Find(bids, map[]) == bids
    ensures Truthy(email) ==>
              forall d :: Matches(d, map["buyer_email" := email]) <==> Get(d, "buyer_email") == email
  {
    FindAllWithEmptyFilter(bids);
    if Truthy(email) {
      MatchesOneField("buyer_email", email);
    }
  }

  /** `POST /products` behind the identity-provider gate: the body is stored
      exactly when the gate lets the request through, and a rejected request
      leaves the collection untouched. */
  function PostProduct(authorization: Header, verifyIdToken: string -> Verdict<IdpFailure>,
                       products: seq<Document>, body: Document): (out: Outcome)
    ensures FirebaseGate(authorization, verifyIdToken).Reject? ==> out == Outcome(Sent(Unauthorized), products)
    ensures FirebaseGate(authorization, verifyIdToken).Continue? ==> out == Outcome(Written, products + [body])
  {
    match FirebaseGate(authorization, verifyIdToken)
    case Reject(response) => Outcome(Sent(response), products)
    case Continue(_) => Outcome(Written, products + [body])
  }

  /** `GET /products/bids/:productId` behind the self-issued-token gate: any
      holder of a valid token gets every bid on the product, whoever placed
      it; no ownership check is made. */
  function GetProductBids(authorization: Header, verifyJwt: string -> Verdict<JwtFailure>,
                          productId: string, bids: seq<Document>): (r: Reply)
    ensures r.Sent? <==> JwtGate(authorization, verifyJwt).Reject?
    ensures r.Listed? <==> JwtGate(authorization, verifyJwt).Continue?
    ensures r.Sent? ==> r.response == Unauthorized
    ensures r.Listed? ==> forall d :: d in r.docs ==> d in bids && Get(d, "product") == Str(productId)
    ensures r.Listed? ==>
              forall i :: 0 <= i < |bids| && Get(bids[i], "product") == Str(productId) ==> bids[i] in r.docs
  {
    match JwtGate(authorization, verifyJwt)
    case Reject(response) => Sent(response)
    case Continue(_) =>
      MatchesOneField("product", Str(productId));
      Listed(Find(bids, map["product" := Str(productId)]))
  }

  /** The `/users` lookup `{ email: body.email }`. Every body matches its
      own lookup, whether its `email` is a value, `null` or missing. */
  function UserQuery(body: Document): (q: Filter)
    ensures q.Keys == {"email"}
    ensures Matches(body, q)
  {
    map["email" := Get(body, "email")]
  }

  /** `POST /users`: the body is stored only when no stored user matches its
      email; otherwise the collection is unchanged and the reply says the user
      exists. Either way at least one user matches afterwards, and a second
      one is never added. */
  function PostUser(users: seq<Document>, body: Document): (out: Outcome)
    ensures Find(users, UserQuery(body)) != [] ==> out == Outcome(Sent(UserExists), users)
    ensures Find(users, UserQuery(body)) == [] ==> out == Outcome(Written, users + [body])
    ensures Count(out.store, UserQuery(body)) == if Count(users, UserQuery(body)) == 0 then 1 else Count(users, UserQuery(body))
  {
    FindOneIsFirstFound(users, UserQuery(body));
    FindAfterInsert(users, body, UserQuery(body));
    match FindOne(users, UserQuery(body))
    case Some(_) => Outcome(Sent(UserExists), users)
    case None => Outcome(Written, users + [body])
  }

  /** The `$set` document of `PATCH /products/:id`: the body's `name` and
      `price`, `undefined` when the body lacks them, and no other field. */
  function ProductUpdate(body: Document): Document
  {
    map["name" := Get(body, "name"), "price" := Get(body, "price")]
  }

  /** The `{ _id: id }` lookup of the product routes: it matches exactly the
      documents whose `_id` is the string `id`. */
  function ProductQuery(id: string): (q: Filter)
    ensures forall doc :: Matches(doc, q) <==> Get(doc, "_id") == Str(id)
  {
    MatchesOneField("_id", Str(id));
    map["_id" := Str(id)]
  }

  /** `PATCH /products/:id`: the first product whose `_id` is `id` gets the
      body's `name` and `price`; all its other fields, and all other
      products, are unchanged, and nothing else in the body is written. */
  function PatchProduct(products: seq<Document>, id: string, body: Document): (out: Outcome)
    ensures out.reply == Written
    ensures |out.store| == |products|
    ensures FirstMatch(products, ProductQuery(id)) >= 0 ==>
              var i := FirstMatch(products, ProductQuery(id));
              Get(out.store[i], "name") == Get(body, "name") && Get(out.store[i], "price") == Get(body, "price")
    ensures forall j :: 0 <= j < |products| && j != FirstMatch(products, ProductQuery(id)) ==> out.store[j] == products[j]
    ensures forall j :: 0 <= j < |products| && Get(products[j], "_id") != Str(id) ==> out.store[j] == products[j]
    ensures forall j :: 0 <= j < |products| ==> Get(out.store[j], "_id") == Get(products[j], "_id")
    ensures forall j :: 0 <= j < |products| && out.store[j] != products[j] ==>
              && out.store[j].Keys == products[j].Keys + {"name", "price"}
              && Get(out.store[j], "name") == Get(body, "name")
              && Get(out.store[j], "price") == Get(body, "price")
              && (forall k :: k in products[j] && k != "name" && k != "price" ==> out.store[j][k] == products[j][k])
  {
    MatchesOneField("_id", Str(id));
    var fields := ProductUpdate(body);
    assert fields.Keys == {"name", "price"};
    Outcome(Written, UpdateOne(products, ProductQuery(id), fields))
  }

  /** Posting the same user twice in a row: the second post changes nothing
      and reports the user as existing, and the users matching that email
      are the same as after one post, one if there were none before. */
  lemma PostUserTwice(users: seq<Document>, body: Document)
    ensures var once := PostUser(users, body);
            var twice := PostUser(once.store, body);
            && twice == Outcome(Sent(UserExists), once.store)
            && Count(twice.store, UserQuery(body)) == if Count(users, UserQuery(body)) == 0 then 1 else Count(users, UserQuery(body))
  {
  }

  /** A store with at most one user per queried email keeps that property
      through any post. */
  lemma PostUserKeepsEmailsUnique(users: seq<Document>, body: Document, q: Filter)
    requires q == UserQuery(body)
    requires Count(users, q) <= 1
    ensures Count(PostUser(users, body).store, q) == 1
  {
  }

  /** Fields of the PATCH body other than `name` and `price` have no effect:
      two bodies that agree on those two update the products identically. */
  lemma PatchIgnoresOtherBodyFields(products: seq<Document>, id: string, body1: Document, body2: Document)
    requires Get(body1, "name") == Get(body2, "name")
    requires Get(body1, "price") == Get(body2, "price")
    ensures PatchProduct(products, id, body1) == PatchProduct(products, id, body2)
  {
    assert ProductUpdate(body1) == ProductUpdate(body2);
  }

  /** Creating a product without an `Authorization` header is refused with
      401 and stores nothing, whatever the verifier would say. */
  lemma PostProductWithoutHeader(verifyIdToken: string -> Verdict<IdpFailure>, products: seq<Document>, body: Document)
    ensures PostProduct(Undefined, verifyIdToken, products, body) == Outcome(Sent(Unauthorized), products)
  {
  }

  /** With a token for `a@x.com` sent as `Bearer tok`, asking for
      `a@x.com`'s bids lists exactly the bids placed by `a@x.com`. The header
      and parameter are fixed by `requires` rather than written inline: with
      literal arguments the verifier unfolds `Split` on the literal and runs
      out of resource. */
  lemma OwnBidsScenario(authorization: Header, verifyIdToken: string -> Verdict<IdpFailure>,
                        email: QueryParam, bids: seq<Document>)
    requires authorization == Str("Bearer tok") && email == Str("a@x.com")
    requires verifyIdToken("tok") == Valid(email)
    ensures var r := GetBids(authorization, verifyIdToken, email, bids);
            && r.Listed?
            && (forall d :: d in r.docs ==> d in bids && Get(d, "buyer_email") == email)
            && (forall i :: 0 <= i < |bids| && Get(bids[i], "buyer_email") == email ==> bids[i] in r.docs)
  {
    BearerTokGate(verifyIdToken);
    OwnBidsListed(authorization, verifyIdToken, email, bids);
  }

  /** A caller asking for the bids of their own, truthy, identity gets exactly
      the bids placed under it. */
  lemma OwnBidsListed(authorization: Header, verifyIdToken: string -> Verdict<IdpFailure>,
                      email: QueryParam, bids: seq<Document>)
    requires FirebaseGate(authorization, verifyIdToken) == Continue(email)
    requires Truthy(email)
    ensures var r := GetBids(authorization, verifyIdToken, email, bids);
            && r.Listed?
            && (forall d :: d in r.docs ==> d in bids && Get(d, "buyer_email") == email)
            && (forall i :: 0 <= i < |bids| && Get(bids[i], "buyer_email") == email ==> bids[i] in r.docs)
  {
  }

  /** With a token for `a@x.com` sent as `Bearer tok`, asking for
      `b@y.com`'s bids is forbidden (arguments fixed by `requires` for the
      same reason as above). */
  lemma OtherBidsScenario(authorization: Header, verifyIdToken: string -> Verdict<IdpFailure>,
                          email: QueryParam, bids: seq<Document>)
    requires authorization == Str("Bearer tok") && email == Str("b@y.com")
    requires verifyIdToken("tok") == Valid(Str("a@x.com"))
    ensures GetBids(authorization, verifyIdToken, email, bids) == Sent(ForbiddenAccess)
  {
    BearerTokGate(verifyIdToken);
    assert Str("a@x.com") != email by {
      assert "a@x.com"[0] != "b@y.com"[0];
    }
  }

  /** The header `Bearer tok` gets the identity the verifier gives `tok`. */
  lemma BearerTokGate(verifyIdToken: string -> Verdict<IdpFailure>)
    requires verifyIdToken("tok").Valid?
    ensures FirebaseGate(Str("Bearer tok"), verifyIdToken) == Continue(verifyIdToken("tok").email)
  {
    assert "Bearer" + " " + "tok" == "Bearer tok";
    AnySchemeWordIsAccepted("Bearer", "tok");
  }

  /** Leaving out the `email` parameter does not list everything for a
      caller with an identity: `undefined !== token_email` refuses it. */
  lemma MissingEmailForbidsIdentifiedCaller(authorization: Header, verifyIdToken: string -> Verdict<IdpFailure>,
                                            bids: seq<Document>)
    requires FirebaseGate(authorization, verifyIdToken).Continue?
    requires FirebaseGate(authorization, verifyIdToken).tokenEmail != Undefined
    ensures GetBids(authorization, verifyIdToken, Undefined, bids) == Sent(ForbiddenAccess)
  {
  }

  /** A verified token that carries no email claim, with no `email`
      parameter, passes the check with the empty filter and lists every bid. */
  lemma MissingEmailAndClaimListsEverything(authorization: Header, verifyIdToken: string -> Verdict<IdpFailure>,
                                            bids: seq<Document>)
    requires FirebaseGate(authorization, verifyIdToken) == Continue(Undefined)
    ensures BidsAccess(Undefined, Undefined) == RunQuery(map[])
    ensures GetBids(authorization, verifyIdToken, Undefined, bids) == Listed(bids)
  {
  }
}
