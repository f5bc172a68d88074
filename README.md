# Product-management REST gateway: validators, bearer gate and handlers

The gateway is a Flask application in front of a hosted identity provider
and a hosted hierarchical database. This project models its core in Dafny:

- `utils.py`: the email validator, the password-strength validator and the
  `auth_required` bearer-token gate;
- `app.py`: the decision logic of the request handlers. `register`,
  `upload_product`, `user_products`, `delete_product` and `update_product`
  change state. `product_info`, `all_products`, `search_products` and
  `products_by_category` only read.

Files:

| file | module | what it holds |
|---|---|---|
| `wrappers.dfy` | `Wrappers` | `Option` (Python's None) and `Result` (a raised exception) |
| `json.dfy` | `Json` | JSON scalar values, objects (`Fields`), request bodies, `dict.get` |
| `pystr.dfy` | `PyStr` | the Python `str` operations the code calls (`startswith`, `split`, `strip`, `lower`, `isnumeric`, and `isspace` for `\s`), plus `find`, `rfind` and `count`, which the email proofs use |
| `utils.dfy` | `Utils` | `validate_email_format`, `validate_password_strength`, `auth_required` |
| `app.dfy` | `App` | the `Gateway` class and the read-only handlers, with lemmas and request sequences |

How the external world is represented:

- The `products` tree of the database is a `map<string, Product>`. A
  product is a map from field name to JSON value.
- The `users` tree is a map of the same kind.
- The identity provider's accounts are a map from email to uid.
  `create_user` fails on an email it already holds. Otherwise it hands out a
  uid that is not in use; this uid is a parameter of `Register`.
- `push().key` is a parameter of `UploadProduct`, required not to be a key
  of the table.
- `verify_id_token` is a function from token to `Option<Claims>`. `None`
  stands for any exception it raises.
- The Flask "simple" cache is a `map<string, Option<Table>>`.
- The store keeps no null-valued child and no empty object. `set` drops the
  null fields of the object it writes, `update` deletes the fields it is given
  as null, and a record left without fields disappears. `Gateway.Valid` states
  that every stored record is non-empty and null-free.
- At start-up the store and the identity provider already hold data; the
  constructor takes it as parameters, and only the cache starts empty.
- Every handler except `register`, which has no `@auth_required`, is the
  inner function of `Utils.Guard`, so it receives the claims the gate obtained. The handlers' own second `verify_id_token` call
  on the same token is taken to return the same claims.
- The ghost counter `storeReads` counts the reads of the `products` tree
  that the `Gateway` methods make. It states when `user_products` queries
  the store.
- Flask answers an exception raised outside a handler's `try` with a 500
  page. The model writes this as `Reply(500, ServerError)`.

The model follows the code in these places, where the status is not the
one the endpoint's purpose suggests:

- Deleting a product that does not exist answers 403, not 404
  (`app.py:107-113`).
- `update_product` has no empty-body check of its own. The store's `update`
  refuses an empty object, and the handler's `except` turns that into 500,
  not 400 (`app.py:171-176`).
- `all_products` on an empty table answers 500 "Invalid data retrieved",
  not 200 with a message. The store reads an empty tree as None, which fails
  the dictionary test (`app.py:142-147`).
- The validation in `register` runs outside its `try`. A body that is not a
  JSON object, a non-string email, or a valid email with a non-string
  password makes Flask answer 500 (`app.py:26-33`).
- A password with a newline still fails. The lookaheads at `utils.py:41` only
  look within one line, since `.` does not match a newline. But the newline
  is whitespace, so the check at `utils.py:43` rejects it anyway.
  `Utils.PasswordStrengthIff` proves that the code's three tests together
  are exactly the rules in the docstring.

## Model

| member | source | states |
|---|---|---|
| `PyStr.Split` | utils.py:64 | `split(' ')` yields at least one field and no field contains the separator |
| `PyStr.JoinSplit` | utils.py:64 | joining the fields of a split with the separator gives the original string back |
| `PyStr.SplitFirstField` | utils.py:64 | the first field runs up to the first separator (the whole string if there is none); the other fields are the split of the rest |
| `PyStr.Strip` | app.py:186 | the result has no whitespace at either end and is no longer than the input |
| `PyStr.StripIsMiddle` | app.py:186 | `strip()` returns a contiguous middle part of the string; everything before and after it is whitespace |
| `PyStr.IsNumeric` | app.py:123 | a numeric id is non-empty and holds no sign and no decimal point |
| `PyStr.LStrip` | app.py:186 | the result is a suffix, everything dropped is whitespace, and the result does not start with whitespace |
| `PyStr.RStrip` | app.py:186 | the result is a prefix, everything dropped is whitespace, and the result does not end with whitespace |
| `PyStr.StripIgnoresPadding` | app.py:186 | whitespace added around a string does not change what `strip()` returns |
| `PyStr.Lower` | app.py:189 | same length; no upper-case ASCII letter is left; each upper-case letter becomes its lower-case partner; every other character is unchanged |
| `PyStr.LowerStrip` | app.py:186-189 | lower-casing and stripping commute |
| `Utils.PatternCutIsUnique` | utils.py:20 | any split of the address that fits the pattern has its '@' at the first '@' and its '.' at the last '.' |
| `Utils.CutDecidesPattern` | utils.py:20 | the computed test (cut at the first '@' and the last '.') holds iff some split fits local part, domain and top-level part |
| `Utils.AcceptedIsPattern` | utils.py:20-21 | the computed acceptance equals `re.match` of the pattern, including `$` matching before one final newline |
| `Utils.ValidateEmailFormat` | utils.py:7-21 | raises ValueError exactly for non-strings; for a string, returns True iff the anchored pattern matches |
| `Utils.CutHasOneAt` | utils.py:20 | a string that fits the pattern's split holds exactly one '@' |
| `Utils.AcceptedEmailHasOneAt` | utils.py:20-21 | every accepted address contains exactly one '@' |
| `Utils.TrailingNewlineAccepted` | utils.py:20-21 | an address the pattern accepts is still accepted with one trailing newline |
| `Utils.EmailAcceptedExamples` | utils.py:20-21 | `a@b.com` is accepted, and so is `a@b.com` followed by a newline |
| `Utils.EmailRefusedExamples` | utils.py:18-21 | `a@b.c` is rejected (one-letter top-level part); a non-string raises ValueError |
| `Utils.LineEnd` | utils.py:41 | the end of the line that `.*` can scan from a position: the next newline, or the end of the string |
| `Utils.LookaheadsFrom` | utils.py:41 | `re.search` of the four lookaheads succeeds iff, from some start position, the rest of that line has an upper-case letter, a lower-case letter, a digit and a special character |
| `Utils.ValidatePasswordStrength` | utils.py:23-45 | raises TypeError for non-strings; a string shorter than 8 is rejected whatever it holds; a string with any whitespace is rejected |
| `Utils.PasswordStrengthIff` | utils.py:39-45 | accepted iff length ≥ 8, each of the four classes present, and no whitespace anywhere |
| `Utils.StrongPasswordExample` | utils.py:39-45 | `Passw0rd!` is accepted |
| `Utils.WeakPasswordExamples` | utils.py:39-45 | `password` (no upper-case letter, digit or special character) and `Pass 0rd!` (a space) are rejected |
| `Utils.BearerToken` | utils.py:64 | the token taken from the header holds no space |
| `Utils.BearerTokenIsFirstWord` | utils.py:64 | the token is the text after `"Bearer "` up to the next space or the end, and holds no space |
| `Utils.Guard` | utils.py:58-70 | 401 MissingOrInvalidHeader iff the header is absent or lacks the case-sensitive prefix; 401 InvalidOrExpiredToken iff verification of the token fails; otherwise the handler runs with the verified claims and its result is returned unchanged |
| `App.Matching` | app.py:87 | the query result holds exactly the records whose field, read as `dict.get`, equals the value, each as stored |
| `App.Present` | app.py:107 | `if product:` holds iff the record exists and has at least one field |
| `App.OwnedBy` | app.py:107 | the ownership test holds iff the record is present and its `user_id` is the caller's uid |
| `App.CacheKey` | app.py:82 | the key starts with `user_products_` and the rest of it is the uid |
| `App.CacheKeyInjective` | app.py:82 | different uids never share a cache key |
| `App.Inject` | app.py:62-65 | the stored record has the body's non-null fields, plus `user_id` = caller uid and `product_id` = the new key, which override body values; the other non-null body fields are kept unchanged; a null-valued body field is not stored |
| `App.Merge` | app.py:171-172 | after an update every non-null body key holds the body value, including `user_id`; every null body key is gone; every other field keeps its value; no field is null |
| `App.ListedProductsAreOwned` | app.py:87 | on a table without empty records, the `user_id` query lists exactly the products that pass the ownership test of delete |
| `App.UploadChangesListing` | app.py:54-69 | after an upload the uploader's listing gains the new product, so a listing cached before the upload is stale |
| `App.DeleteChangesListing` | app.py:105-109 | a delete by the owner removes the product from the owner's listing, which a cached listing still shows |
| `App.RegisterInput` | app.py:26-33 | no object, or a non-string email, or a valid email with a non-string password gives 500; otherwise 400 iff the email fails the pattern or the password is weak; passes exactly the credentials that satisfy both validators |
| `App.ProductInfo` | app.py:121-134 | a non-numeric id gives 400 whatever the table holds; otherwise 200 with the record iff it is present, else 404 |
| `App.UploadedProductReadable` | app.py:123-128 | a product uploaded under a numeric key can be read back, by any caller, with status 200 |
| `App.PushStyleKeyRefused` | app.py:123-124 | a key starting with '-' gets 400 from product_info before any read |
| `App.UploadedPushKeyUnreadable` | app.py:63-124 | a product uploaded under a key of the form `push()` hands out is in the table, yet `product_info` answers 400 for it |
| `App.ProductInfoCorrected` | app.py:121-134 | `product_info` with the intended id check: 400 iff the id is not a non-empty run of key characters; otherwise 200 with the record iff it is present, else 404 |
| `App.PushKeyReadable` | app.py:63-128 | with the corrected check, a product uploaded under a push key reads back with 200 |
| `App.CorrectedAgreesOnNumericIds` | app.py:123-131 | the corrected handler answers every numeric id exactly as the code does |
| `App.CorrectedRefusesPathCharacters` | app.py:123-124 | the corrected handler still refuses every id holding `/`, `.`, `#`, `$`, `[` or `]` |
| `App.AllProducts` | app.py:139-150 | 200 with the whole table iff the table is non-empty; otherwise 500 "Invalid data retrieved" |
| `App.SearchProducts` | app.py:182-192 | no query gives 400; otherwise 200 with exactly the products whose title equals the stripped, lower-cased query, each as stored |
| `App.SearchIgnoresPadding` | app.py:186 | whitespace around the query does not change the answer (of the function body, without the `@cache.cached` decorator; see Left out) |
| `App.SearchIgnoresCase` | app.py:186-189 | queries that agree up to ASCII case get the same answer (of the function body, without the `@cache.cached` decorator; see Left out) |
| `App.UpperCaseTitleNeverFound` | app.py:189 | a product whose title contains an upper-case ASCII letter is found by no query |
| `App.ProductsByCategory` | app.py:197-206 | 404 iff no product has that category; otherwise 200 with exactly the products of that category, as stored |
| `App.Gateway.constructor` | app.py:13-21 | the store and the accounts are the ones given, which the store can hold; the cache starts empty |
| `App.Gateway.Register` | app.py:24-48 | invalid input: the reply of the validation branch, with no account and no `users/` record created; a known email: 400 with nothing created; otherwise 201, one new account and the record `{email, user_id}` under `users/<uid>` |
| `App.Gateway.UploadProduct` | app.py:52-69 | no object gives 500; no `required_field` gives 400; in both cases the table is unchanged; otherwise 201 and exactly one new record `Inject(body, uid, key)` under the fresh key; the store stays null-free and without empty records; the cache is untouched |
| `App.Gateway.UserProducts` | app.py:74-93 | a hit (an entry that is not None under `CacheKey(uid)`) answers the cached listing with no store read; a miss answers the caller's products, caches them and reads the store once; on a miss the listing is exactly the products the caller may delete; the table is untouched |
| `App.Gateway.DeleteProduct` | app.py:98-116 | an empty token gives 403; a product passing the ownership test is removed with 200; a missing product or another owner gives 403 with the table unchanged; the cache is untouched |
| `App.Gateway.UpdateProduct` | app.py:155-176 | a missing product gives 404; a record without `user_id` gives 500; another owner gives 403; an empty or absent body gives 500; the table is unchanged in all four cases; otherwise 200, that product becomes `Merge(old, body)`, or is gone when the merge leaves no field, and nothing else changes; the cache is untouched |
| `App.ListTwice` | app.py:82-88 | two listings with no write between them give the same answer and read the store at most once |
| `App.StaleListingAfterUpload` | app.py:54-93 | list, upload, list: the second listing equals the first and lacks the new product, although the store holds it under the caller's uid |
| `App.OthersMayReadNotDelete` | app.py:52-131 | after U uploads under a push key, another user V reads it with 200 through the corrected `product_info`, but V's delete gets 403 and the record stays |
| `App.RegisterTwice` | app.py:35-48 | registering the same valid credentials twice gives 201, then 400 |

## Left out

- Flask plumbing: routing, `jsonify`, `request`, `app.run`. Inputs are plain values; outputs are a status and a payload kind.
- JSON bodies that are arrays, strings or numbers, and malformed JSON. A body is either an object or nothing usable.
- Nested JSON objects inside records. Values are scalar leaves only.
- Store or identity-provider failures inside a handler's `try` (network errors, a missing index), and the generic 400/500 replies they lead to. Only the failures that follow from the code itself are modelled: the KeyError in update, the refused empty update, and the uncaught exceptions in register.
- `user_products`' 400 path. It is reached when the store query at app.py:87 raises (for instance for a missing index) or when the second `verify_id_token` call fails after the gate's call succeeded; neither failure is modelled.
- `App.Gateway.Register`: identity-provider errors other than a duplicate email are not modelled. Emails are compared exactly, while the provider compares them without regard to case.
- `App.Gateway.UpdateProduct`: keys that contain `/`, which the store's `update` writes as deeper paths, are not modelled. A body key is written as a plain field.
- The store refuses ids containing `.`, `#`, `$`, `[` or `]`, and the handler answers 500. The model does not capture this check.
- The way `push().key` is generated (timestamp and random characters) is not modelled. The key is fresh, and `App.PushKey` states its present-day shape: 20 key characters starting with '-'.
- Cache expiry and eviction: Flask-Caching's default 300-second timeout and its 500-entry threshold depend on a clock and on library internals. The model's cache forgets nothing on its own.
- Concurrent requests sharing the cache.
- The `@cache.cached(timeout=300, key_prefix='search_results')` decorator on `search_products` is not modelled. It sits above the gate (app.py:180-181) with a fixed key, so for 300 seconds every caller gets the first reply, whatever the query and even without a token. `App.SearchProducts`, `App.SearchIgnoresPadding` and `App.SearchIgnoresCase` describe the function without it.
- The `isinstance(products, dict)` test of `all_products`, beyond the empty table reading as None.
- Logging and `get_remote_address()`: side effects only.
- `config.py`: configuration loaded from the environment; it holds no logic.
- `PyStr.Lower`: lower-cases ASCII letters only. Python's `str.lower` also maps other Unicode letters, some of them to two characters.
- `PyStr.IsNumeric`: accepts ASCII digits only. Python's `str.isnumeric` also accepts other Unicode numeric characters.
- `Utils.Guard`: "the handler runs exactly once" is stated as "the result is the handler's result". Calls are not counted.

## Findings

| source | as written | input that shows it | evidently intended | confidence | as-written member | corrected member |
|---|---|---|---|---|---|---|
| app.py:123-124 | `product_info` refuses every id that is not all digits, but the ids upload_product stores come from `push().key` (app.py:63) and start with '-' | upload a product; `push()` returns a key such as `-NzQ1abcDEFghiJKLmno`; `product_info` with that key answers 400 although the product exists | admit the store's own keys and still refuse ids that are not a plain path segment | medium, not executed | `App.UploadedPushKeyUnreadable` | `App.ProductInfoCorrected` |
