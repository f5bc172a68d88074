/**
 * The request handlers of `app.py`, over an abstract store and cache.
 *
 * The hosted database's `products` and `users` trees are maps from key to
 * record, the identity provider's accounts are a map from email to uid, and
 * the in-process cache is a map from key to a cached product listing.  The
 * handlers that write (register, upload, delete, update, the cache fill of
 * user_products) are methods of `Gateway`, which holds that state; the
 * handlers that only read are functions of the product table.
 *
 * Every handler except `register` sits behind `auth_required` and is the
 * inner function of `Utils.Guard`: it receives the claims the gate obtained.
 * The handlers' own second `verify_id_token` of the same token is taken to
 * return those same claims.
 *
 * The store keeps no null-valued child and no empty object: a child written
 * as null is absent afterwards, and an object left without children is
 * removed.  `StoredForm` and `Gateway.Valid` say this.
 */
module App {
  import opened Wrappers
  import opened Json
  import opened PyStr
  import opened Utils

  /** A product record: a JSON object. */
  type Product = Fields

  /** The `products` tree, or a query result over it: product id -> record. */
  type Table = map<string, Product>

  /** What a handler sends back: a JSON body, or Flask's page for an uncaught exception. */
  datatype Payload =
    | Message(text: string)
    | Error(text: string)
    | Record(product: Product)
    | Records(products: Table)
    | ServerError

  datatype Reply = Reply(status: int, payload: Payload)

  const RequiredField: string := "required_field"

  // ---------------------------------------------------------------------------
  // The store's view of products
  // ---------------------------------------------------------------------------

  /** `order_by_child(field).equal_to(value).get()` on the `products` tree. */
  function Matching(t: Table, field: string, value: string): (r: Table)
    ensures forall id :: id in r <==> id in t && Lookup(t[id], field) == Str(value)
    ensures forall id :: id in r ==> r[id] == t[id]
  {
    map id | id in t && field in t[id] && t[id][field] == Str(value) :: t[id]
  }

  /** `if product:` after reading `products/<id>`: the record exists and is a non-empty object. */
  predicate Present(t: Table, id: string)
    ensures Present(t, id) <==> id in t && exists k :: k in t[id]
  {
    id in t && t[id] != map[]
  }

  /** The test of app.py:107: the record exists, has an owner, and the owner is `uid`. */
  predicate OwnedBy(t: Table, id: string, uid: string)
    ensures OwnedBy(t, id, uid) <==> Present(t, id) && Lookup(t[id], "user_id") == Str(uid)
  {
    Present(t, id) && "user_id" in t[id] && t[id]["user_id"] == Str(uid)
  }

  const CachePrefix: string := "user_products_"

  /** `'user_products_' + user_id` */
  function CacheKey(uid: string): (k: string)
    ensures StartsWith(k, CachePrefix) && k[|CachePrefix|..] == uid
  {
    CachePrefix + uid
  }

  /** Two users never share a cache entry. */
  lemma CacheKeyInjective(a: string, b: string)
    requires CacheKey(a) == CacheKey(b)
    ensures a == b
  {
    assert a == CacheKey(a)[14..];
    assert b == CacheKey(b)[14..];
  }

  /** What the store keeps of an object it is given: every child that is not null. */
  function StoredForm(f: Fields): Fields
  {
    map k | k in f && f[k] != Null :: f[k]
  }

  /** A table as the store can hold it: no empty record, no null field. */
  predicate StoredTable(t: Table)
  {
    forall id :: id in t ==> t[id] != map[] && forall k :: k in t[id] ==> t[id][k] != Null
  }

  /**
   * The record upload_product stores: the body with the caller's uid and the
   * new key written in, as the store keeps it (null-valued fields are dropped).
   */
  function Inject(body: Fields, uid: string, key: string): (p: Product)
    ensures p.Keys == (set k | k in body && body[k] != Null) + {"user_id", "product_id"}
    ensures p["user_id"] == Str(uid) && p["product_id"] == Str(key)
    ensures forall k :: k in body && body[k] != Null && k != "user_id" && k != "product_id" ==> p[k] == body[k]
    ensures forall k :: k in p ==> p[k] != Null
  {
    StoredForm(body["user_id" := Str(uid)]["product_id" := Str(key)])
  }

  /**
   * `product_ref.update(data)`: every key of `data` with a value is written,
   * every key of `data` that is null is deleted, every other field is kept.
   */
  function Merge(p: Product, data: Fields): (m: Product)
    ensures m.Keys <= p.Keys + data.Keys
    ensures forall k :: k in data && data[k] != Null ==> k in m && m[k] == data[k]
    ensures forall k :: k in data && data[k] == Null ==> k !in m
    ensures forall k :: k in p && k !in data && p[k] != Null ==> k in m && m[k] == p[k]
    ensures forall k :: k in m ==> m[k] != Null
  {
    StoredForm(p + data)
  }

  /** Every product in a user's listing is one that user may delete. */
  lemma ListedProductsAreOwned(t: Table, uid: string)
    requires forall id :: id in t ==> t[id] != map[]
    ensures forall id :: id in Matching(t, "user_id", uid) <==> OwnedBy(t, id, uid)
  {
  }

  /**
   * Uploading changes the uploader's listing, so a listing cached before the
   * upload is stale afterwards: it lacks the new product.
   */
  lemma UploadChangesListing(t: Table, body: Fields, uid: string, key: string)
    requires key !in t
    ensures var after := Matching(t[key := Inject(body, uid, key)], "user_id", uid);
            after == Matching(t, "user_id", uid)[key := Inject(body, uid, key)] &&
            after != Matching(t, "user_id", uid)
  {
    var p := Inject(body, uid, key);
    var after := Matching(t[key := p], "user_id", uid);
    assert key in after;
    assert key !in Matching(t, "user_id", uid);
  }

  /** Deleting one's product changes one's listing: a cached listing still shows it. */
  lemma DeleteChangesListing(t: Table, id: string, uid: string)
    requires OwnedBy(t, id, uid)
    ensures Matching(t - {id}, "user_id", uid) == Matching(t, "user_id", uid) - {id}
    ensures id in Matching(t, "user_id", uid)
  {
  }

  // ---------------------------------------------------------------------------
  // register: the validation branch
  // ---------------------------------------------------------------------------

  datatype Credentials = Credentials(email: string, password: string)

  const InvalidCredentials: string := "Invalid email or weak password format"

  /**
   * app.py:26-33, which run outside the handler's `try`: a body that is not a
   * JSON object, a non-string email, or (once the email passed) a non-string
   * password raises, and Flask answers 500.
   */
  function RegisterInput(body: Body): (r: Result<Credentials, Reply>)
    ensures body.NoObject? ==> r == Failure(Reply(500, ServerError))
    ensures body.Object? ==>
              var email, password := Lookup(body.fields, "email"), Lookup(body.fields, "password");
              (r.Success? <==> email.Str? && PatternMatches(email.s) &&
                               password.Str? && StrongPassword(password.s)) &&
              (r.Success? ==> r.value == Credentials(email.s, password.s)) &&
              (r == Failure(Reply(400, Error(InvalidCredentials))) <==>
                 email.Str? && (!PatternMatches(email.s) ||
                                (password.Str? && !StrongPassword(password.s)))) &&
              (r == Failure(Reply(500, ServerError)) <==>
                 !email.Str? || (PatternMatches(email.s) && !password.Str?))
  {
    match body
    case NoObject => Failure(Reply(500, ServerError))
    case Object(f) =>
      var email, password := Lookup(f, "email"), Lookup(f, "password");
      match ValidateEmailFormat(email)
      case Failure(_) => Failure(Reply(500, ServerError))
      case Success(emailOk) =>
        if !emailOk then Failure(Reply(400, Error(InvalidCredentials)))
        else
          match ValidatePasswordStrength(password)
          case Failure(_) => Failure(Reply(500, ServerError))
          case Success(strong) =>
            PasswordStrengthIff(password.s);
            if !strong then Failure(Reply(400, Error(InvalidCredentials)))
            else Success(Credentials(email.s, password.s))
  }

  // ---------------------------------------------------------------------------
  // The handlers that only read
  // ---------------------------------------------------------------------------

  /**
   * `product_info(product_id)`: the id is checked before the store is read,
   * and any authenticated caller may read any product.
   */
  function ProductInfo(t: Table, id: string): (r: Reply)
    ensures !IsNumeric(id) ==> r == Reply(400, Error("Invalid product ID format"))
    ensures IsNumeric(id) ==> (r.status == 200 <==> Present(t, id))
    ensures r.status == 200 ==> r.payload == Record(t[id])
    ensures IsNumeric(id) && !Present(t, id) ==> r == Reply(404, Error("Product not found"))
  {
    if !IsNumeric(id) then Reply(400, Error("Invalid product ID format"))
    else if Present(t, id) then Reply(200, Record(t[id]))
    else Reply(404, Error("Product not found"))
  }

  /** A freshly uploaded product under a numeric key can be read back by anyone. */
  lemma UploadedProductReadable(t: Table, body: Fields, uid: string, key: string)
    requires IsNumeric(key)
    ensures ProductInfo(t[key := Inject(body, uid, key)], key) == Reply(200, Record(Inject(body, uid, key)))
  {
    assert "user_id" in Inject(body, uid, key);
  }

  /** A key in the store's push format, which starts with '-', is refused before any read. */
  lemma PushStyleKeyRefused(t: Table, key: string)
    requires |key| > 0 && key[0] == '-'
    ensures ProductInfo(t, key) == Reply(400, Error("Invalid product ID format"))
  {
  }

  /**
   * The as-written `product_info` cannot read back what upload_product
   * stored: the key `push()` hands out starts with '-', so the product is in
   * the table and still answers 400.
   */
  lemma UploadedPushKeyUnreadable(t: Table, body: Fields, uid: string, key: string)
    requires PushKey(key)
    ensures var after := t[key := Inject(body, uid, key)];
            Present(after, key) && ProductInfo(after, key) == Reply(400, Error("Invalid product ID format"))
  {
    assert "user_id" in Inject(body, uid, key);
  }

  /** The characters of the store's push keys: '-', '_', ASCII digits and letters. */
  predicate IsKeyChar(c: char)
  {
    c == '-' || c == '_' || IsAsciiDigit(c) || IsAsciiLetter(c)
  }

  /** A key as `push().key` hands it out today: 20 key characters, the first one '-'. */
  predicate PushKey(k: string)
  {
    |k| == 20 && k[0] == '-' && forall i :: 0 <= i < |k| ==> IsKeyChar(k[i])
  }

  /** An id that is safe as one segment of a store path: non-empty, key characters only. */
  predicate SafeId(id: string)
  {
    |id| > 0 && forall i :: 0 <= i < |id| ==> IsKeyChar(id[i])
  }

  /**
   * `product_info` as intended: the id check admits the store's own keys and
   * still refuses anything that is not a plain path segment.
   */
  function ProductInfoCorrected(t: Table, id: string): (r: Reply)
    ensures !SafeId(id) ==> r == Reply(400, Error("Invalid product ID format"))
    ensures SafeId(id) ==> (r.status == 200 <==> Present(t, id))
    ensures r.status == 200 ==> r.payload == Record(t[id])
    ensures SafeId(id) && !Present(t, id) ==> r == Reply(404, Error("Product not found"))
  {
    if !SafeId(id) then Reply(400, Error("Invalid product ID format"))
    else if Present(t, id) then Reply(200, Record(t[id]))
    else Reply(404, Error("Product not found"))
  }

  /** The corrected handler reads back every product uploaded under a push key. */
  lemma PushKeyReadable(t: Table, body: Fields, uid: string, key: string)
    requires PushKey(key)
    ensures ProductInfoCorrected(t[key := Inject(body, uid, key)], key) == Reply(200, Record(Inject(body, uid, key)))
  {
    assert "user_id" in Inject(body, uid, key);
  }

  /** On every id the as-written handler accepted, the corrected one answers the same. */
  lemma CorrectedAgreesOnNumericIds(t: Table, id: string)
    requires IsNumeric(id)
    ensures ProductInfoCorrected(t, id) == ProductInfo(t, id)
  {
  }

  /** The corrected handler still refuses ids holding a path or query character. */
  lemma CorrectedRefusesPathCharacters(t: Table, id: string, i: int)
    requires 0 <= i < |id| && id[i] in "/.#$[]"
    ensures ProductInfoCorrected(t, id).status == 400
  {
    assert !IsKeyChar(id[i]);
  }

  /**
   * `all_products()`: the store reads an empty `products` tree as None, which
   * fails the object test.
   */
  function AllProducts(t: Table): (r: Reply)
    ensures r.status == 200 <==> t != map[]
    ensures r.status == 200 ==> r.payload == Records(t)
    ensures r.status != 200 ==> r == Reply(500, Error("Invalid data retrieved"))
  {
    if t == map[] then Reply(500, Error("Invalid data retrieved")) else Reply(200, Records(t))
  }

  /**
   * `search_products()`: `query` is the `query` request argument (None when
   * absent); it is stripped and lower-cased and must equal a title exactly.
   */
  function SearchProducts(t: Table, query: Option<string>): (r: Reply)
    ensures query.None? <==> r == Reply(400, Error("Search query is required"))
    ensures query.Some? ==> r.status == 200 && r.payload.Records?
    ensures query.Some? ==>
              forall id :: id in r.payload.products <==>
                             id in t && Lookup(t[id], "title") == Str(Lower(Strip(query.value)))
    ensures query.Some? ==> forall id :: id in r.payload.products ==> r.payload.products[id] == t[id]
  {
    match query
    case None => Reply(400, Error("Search query is required"))
    case Some(q) => Reply(200, Records(Matching(t, "title", Lower(Strip(q)))))
  }

  /** Surrounding whitespace in the query is ignored. */
  lemma SearchIgnoresPadding(t: Table, pre: string, q: string, post: string)
    requires AllSpace(pre) && AllSpace(post)
    ensures SearchProducts(t, Some(pre + q + post)) == SearchProducts(t, Some(q))
  {
    StripIgnoresPadding(pre, q, post);
  }

  /** Queries that agree up to ASCII case give the same answer. */
  lemma SearchIgnoresCase(t: Table, q1: string, q2: string)
    requires Lower(q1) == Lower(q2)
    ensures SearchProducts(t, Some(q1)) == SearchProducts(t, Some(q2))
  {
    LowerStrip(q1);
    LowerStrip(q2);
  }

  /** A product whose title holds an upper-case ASCII letter is never found. */
  lemma UpperCaseTitleNeverFound(t: Table, id: string, title: string, i: int, q: string)
    requires id in t && "title" in t[id] && t[id]["title"] == Str(title)
    requires 0 <= i < |title| && IsAsciiUpper(title[i])
    ensures id !in SearchProducts(t, Some(q)).payload.products
  {
  }

  /** `products_by_category(category_name)`: 404 when nothing matches. */
  function ProductsByCategory(t: Table, category: string): (r: Reply)
    ensures r.status == 404 <==> forall id :: id in t ==> Lookup(t[id], "category") != Str(category)
    ensures r.status != 404 ==> r.status == 200 && r.payload.Records?
    ensures r.status == 200 ==>
              forall id :: id in r.payload.products <==> id in t && Lookup(t[id], "category") == Str(category)
    ensures r.status == 200 ==> forall id :: id in r.payload.products ==> r.payload.products[id] == t[id]
  {
    var found := Matching(t, "category", category);
    if found == map[] then
      assert forall id :: id in t && Lookup(t[id], "category") == Str(category) ==> id in found;
      Reply(404, Error("No products found for the given category"))
    else Reply(200, Records(found))
  }

  // ---------------------------------------------------------------------------
  // The handlers that write
  // ---------------------------------------------------------------------------

  const RegistrationFailed: string := "An error occurred while registering the user"
  const UploadFailed: string := "An error occurred while uploading the product"
  const UpdateFailed: string := "An error occurred while updating the product"

  class Gateway {
    /** The store's `products` tree. */
    var products: Table
    /** The store's `users` tree. */
    var users: map<string, Fields>
    /** The identity provider's accounts: email -> uid. */
    var accounts: map<string, string>
    /** The process-local cache: key -> cached listing (None when None was stored). */
    var cache: map<string, Option<Table>>
    /** How many times the methods below have read the `products` tree. */
    ghost var storeReads: nat

    /** The store keeps no empty object and no null child. */
    ghost predicate Valid()
      reads this
    {
      StoredTable(products)
    }

    /**
     * Start-up: the store and the identity provider already hold what they
     * hold; the in-process cache starts empty.
     */
    constructor (products0: Table, users0: map<string, Fields>, accounts0: map<string, string>)
      requires StoredTable(products0)
      ensures Valid()
      ensures products == products0 && users == users0 && accounts == accounts0
      ensures cache == map[] && storeReads == 0
    {
      products, users, accounts, cache := products0, users0, accounts0, map[];
      storeReads := 0;
    }

    /**
     * `register()`.  `newUid` is the uid the identity provider hands out if
     * it creates the account; it refuses an email it already holds.
     */
    method Register(body: Body, newUid: string) returns (reply: Reply)
      requires newUid !in accounts.Values
      modifies this`users, this`accounts
      ensures RegisterInput(body).Failure? ==>
                reply == RegisterInput(body).error &&
                users == old(users) && accounts == old(accounts)
      ensures RegisterInput(body).Success? && RegisterInput(body).value.email in old(accounts) ==>
                reply == Reply(400, Error(RegistrationFailed)) &&
                users == old(users) && accounts == old(accounts)
      ensures RegisterInput(body).Success? && RegisterInput(body).value.email !in old(accounts) ==>
                var email := RegisterInput(body).value.email;
                reply == Reply(201, Message("User registered successfully")) &&
                accounts == old(accounts)[email := newUid] &&
                users == old(users)[newUid := map["email" := Str(email), "user_id" := Str(newUid)]]
    {
      var input := RegisterInput(body);
      if input.Failure? {
        return input.error;
      }
      var email := input.value.email;
      if email in accounts {
        return Reply(400, Error(RegistrationFailed));
      }
      accounts := accounts[email := newUid];
      users := users[newUid := map["email" := Str(email), "user_id" := Str(newUid)]];
      reply := Reply(201, Message("User registered successfully"));
    }

    /**
     * `upload_product()`.  `key` is what `push().key` returns: a key not yet
     * in the table.  The cache is neither read nor written.
     */
    method UploadProduct(claims: Claims, body: Body, key: string) returns (reply: Reply)
      requires Valid()
      requires key !in products
      modifies this`products
      ensures Valid()
      ensures cache == old(cache)
      ensures body.NoObject? ==> reply == Reply(500, Error(UploadFailed)) && products == old(products)
      ensures body.Object? && RequiredField !in body.fields ==>
                reply == Reply(400, Error("Required field missing")) && products == old(products)
      ensures body.Object? && RequiredField in body.fields ==>
                reply == Reply(201, Message("Product uploaded successfully")) &&
                products == old(products)[key := Inject(body.fields, claims.uid, key)] &&
                |products| == |old(products)| + 1
    {
      if body.NoObject? {
        return Reply(500, Error(UploadFailed));
      }
      var data := body.fields;
      if RequiredField !in data {
        return Reply(400, Error("Required field missing"));
      }
      data := data["user_id" := Str(claims.uid)];
      data := data["product_id" := Str(key)];
      assert "product_id" in StoredForm(data);
      products := products[key := StoredForm(data)];
      reply := Reply(201, Message("Product uploaded successfully"));
    }

    /**
     * `user_products()`: get-or-populate on the key `CacheKey(uid)`.  A hit
     * answers from the cache without reading the store; a miss (no entry, or
     * a stored None) reads the caller's products and caches them.
     */
    method UserProducts(claims: Claims) returns (reply: Reply)
      modifies this`cache, this`storeReads
      ensures products == old(products)
      ensures reply.status == 200 && reply.payload.Records?
      ensures var key := CacheKey(claims.uid);
              Valid() && !(key in old(cache) && old(cache)[key].Some?) ==>
                forall id :: id in reply.payload.products <==> OwnedBy(products, id, claims.uid)
      ensures var key := CacheKey(claims.uid);
              if key in old(cache) && old(cache)[key].Some? then
                reply == Reply(200, Records(old(cache)[key].value)) &&
                cache == old(cache) && storeReads == old(storeReads)
              else
                reply == Reply(200, Records(Matching(products, "user_id", claims.uid))) &&
                cache == old(cache)[key := Some(Matching(products, "user_id", claims.uid))] &&
                storeReads == old(storeReads) + 1
    {
      var key := CacheKey(claims.uid);
      var cached := if key in cache then cache[key] else None;
      if cached.None? {
        var listing := Matching(products, "user_id", claims.uid);
        if Valid() {
          ListedProductsAreOwned(products, claims.uid);
        }
        storeReads := storeReads + 1;
        cache := cache[key := Some(listing)];
        cached := Some(listing);
      }
      reply := Reply(200, Records(cached.value));
    }

    /**
     * `delete_product(product_id)`.  `token` is the bearer token of the
     * request.  A missing product and someone else's product both answer
     * 403.  The cache is neither read nor written.
     */
    method DeleteProduct(token: string, claims: Claims, id: string) returns (reply: Reply)
      requires Valid()
      modifies this`products, this`storeReads
      ensures Valid()
      ensures cache == old(cache)
      ensures token == "" ==>
                reply == Reply(403, Error("Empty or malformed token")) &&
                products == old(products) && storeReads == old(storeReads)
      ensures token != "" ==> storeReads == old(storeReads) + 1
      ensures token != "" && OwnedBy(old(products), id, claims.uid) ==>
                reply == Reply(200, Message("Product deleted successfully")) &&
                products == old(products) - {id}
      ensures token != "" && !OwnedBy(old(products), id, claims.uid) ==>
                reply == Reply(403, Error("Unauthorized")) && products == old(products)
    {
      if token == "" {
        return Reply(403, Error("Empty or malformed token"));
      }
      storeReads := storeReads + 1;
      if OwnedBy(products, id, claims.uid) {
        products := products - {id};
        reply := Reply(200, Message("Product deleted successfully"));
      } else {
        reply := Reply(403, Error("Unauthorized"));
      }
    }

    /**
     * `update_product(product_id)`.  A record without `user_id` raises
     * KeyError; the store refuses an update with an empty or absent object;
     * both end in the handler's 500.  A record that the update leaves without
     * fields is gone from the store.  The cache is neither read nor written.
     */
    method UpdateProduct(claims: Claims, id: string, body: Body) returns (reply: Reply)
      requires Valid()
      modifies this`products, this`storeReads
      ensures Valid()
      ensures cache == old(cache)
      ensures storeReads == old(storeReads) + 1
      ensures !Present(old(products), id) ==>
                reply == Reply(404, Error("Product not found")) && products == old(products)
      ensures Present(old(products), id) && "user_id" !in old(products)[id] ==>
                reply == Reply(500, Error(UpdateFailed)) && products == old(products)
      ensures Present(old(products), id) && "user_id" in old(products)[id] &&
              old(products)[id]["user_id"] != Str(claims.uid) ==>
                reply == Reply(403, Error("Unauthorized")) && products == old(products)
      ensures OwnedBy(old(products), id, claims.uid) && (body.NoObject? || body.fields == map[]) ==>
                reply == Reply(500, Error(UpdateFailed)) && products == old(products)
      ensures OwnedBy(old(products), id, claims.uid) && body.Object? && body.fields != map[] ==>
                reply == Reply(200, Message("Product updated successfully")) &&
                var m := Merge(old(products)[id], body.fields);
                products == if m == map[] then old(products) - {id} else old(products)[id := m]
    {
      storeReads := storeReads + 1;
      if !Present(products, id) {
        return Reply(404, Error("Product not found"));
      }
      var product := products[id];
      if "user_id" !in product {
        return Reply(500, Error(UpdateFailed));
      }
      if product["user_id"] != Str(claims.uid) {
        return Reply(403, Error("Unauthorized"));
      }
      if body.NoObject? || body.fields == map[] {
        return Reply(500, Error(UpdateFailed));
      }
      var merged := Merge(product, body.fields);
      products := if merged == map[] then products - {id} else products[id := merged];
      reply := Reply(200, Message("Product updated successfully"));
    }
  }

  // ---------------------------------------------------------------------------
  // Request sequences
  // ---------------------------------------------------------------------------

  /** Two listings with no write in between: the same answer, and at most one store read. */
  method ListTwice(gw: Gateway, claims: Claims) returns (first: Reply, second: Reply)
    modifies gw`cache, gw`storeReads
    ensures first == second && first.status == 200
    ensures gw.storeReads <= old(gw.storeReads) + 1
  {
    first := gw.UserProducts(claims);
    second := gw.UserProducts(claims);
  }

  /**
   * List, upload, list again: the second listing is the cached one and does
   * not show the new product, although the store holds it.
   */
  method StaleListingAfterUpload(gw: Gateway, claims: Claims, body: Fields, key: string)
    returns (before: Reply, after: Reply)
    requires gw.Valid() && key !in gw.products && RequiredField in body
    requires CacheKey(claims.uid) !in gw.cache
    modifies gw`cache, gw`storeReads, gw`products
    ensures before == after && after.payload.Records?
    ensures key in Matching(gw.products, "user_id", claims.uid)
    ensures key !in after.payload.products
  {
    before := gw.UserProducts(claims);
    var uploaded := gw.UploadProduct(claims, Object(body), key);
    after := gw.UserProducts(claims);
    UploadChangesListing(old(gw.products), body, claims.uid, key);
  }

  /**
   * Another user can read an uploaded product but cannot delete it.  The
   * read goes through the corrected `product_info`, which admits the key
   * `push()` handed out.
   */
  method OthersMayReadNotDelete(gw: Gateway, owner: Claims, other: Claims, token: string,
                                body: Fields, key: string)
    returns (info: Reply, deleted: Reply)
    requires gw.Valid() && key !in gw.products && RequiredField in body
    requires PushKey(key) && other.uid != owner.uid
    modifies gw`products, gw`storeReads
    ensures info == Reply(200, Record(Inject(body, owner.uid, key))) && deleted.status == 403
    ensures key in gw.products && gw.products[key] == Inject(body, owner.uid, key)
  {
    var uploaded := gw.UploadProduct(owner, Object(body), key);
    info := ProductInfoCorrected(gw.products, key);
    PushKeyReadable(old(gw.products), body, owner.uid, key);
    deleted := gw.DeleteProduct(token, other, key);
  }

  /** Registering the same email twice: created, then refused. */
  method RegisterTwice(gw: Gateway, body: Body, uid1: string, uid2: string)
    returns (first: Reply, second: Reply)
    requires RegisterInput(body).Success?
    requires RegisterInput(body).value.email !in gw.accounts
    requires uid1 !in gw.accounts.Values && uid2 != uid1 && uid2 !in gw.accounts.Values
    modifies gw`users, gw`accounts
    ensures first.status == 201 && second == Reply(400, Error(RegistrationFailed))
  {
    first := gw.Register(body, uid1);
    second := gw.Register(body, uid2);
  }
}
