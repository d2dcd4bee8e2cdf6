# collabera customer service, modelled in Dafny

collabera is a small CRUD web service for customers. It sits behind a JWT gate, with signup and login against a user table. Its own logic is a thin layer of decisions on top of MongoDB, bcrypt, jsonwebtoken and zod. This project models that layer over an in-memory store and proves what each layer promises.

The layers, and how each is modelled:

- **Documents** (`documents.dfy`). Stored records are schemaless maps from field names to JSON values.
  - `Customer` and `User` are typed views of those maps.
  - Round-trip lemmas connect each view with its map.
- **Store** (`store.dfy`). The class `Database` stands in for the MongoDB driver. It holds:
  - one table per collection;
  - a generator of fresh ObjectIds;
  - whether the server is reachable and whether it acknowledges writes;
  - a ghost count of the collection handles it has handed out.

  The driver methods `findOne`, `find`, `insertOne`, `findOneAndUpdate` and `deleteOne` are each proved against a pure outcome function (`FindOneOutcome`, `FindOutcome`, `InsertOutcome`, `UpdateOutcome`, `DeleteOutcome`). `insertMany` has no outcome function of its own: it is a loop of `insertOne` calls, and its contract states the resulting table directly. Every method also keeps the invariant that `_id`s are present and unique, and that each other table is unchanged.
- **Repositories** (`repository.dfy`). The class `Repository` models `BaseRepository`:
  - the lazily cached collection handle;
  - the uncached handle used by `insertOne`;
  - `createdAt` stamping;
  - the NaN-limit default of 25;
  - the `returnDocument: 'after'` default.

  The two subclasses become the named constructors `Customers` and `Users`. The user repository's `findOne` override is `FindUser`, which strips `password` unless the caller passes options.
- **Services**:
  - `customer_service.dfy` is the customer service: one repository call per operation, with its result mapped.
  - `auth_service.dfy` holds the header gate (`Gate` and the class `Exchange`), `login` and `signupUser`. bcrypt and jsonwebtoken are passed in as the `Crypto` oracles.
- **Controllers** (`customer_controller.dfy`, `auth_controller.dfy`). Each handler does three things:
  - validates the body (zod schemas, with the email syntax as an oracle);
  - calls the service;
  - maps the outcome to the one response it writes (`Reply`).

  ObjectId parsing of path ids is an oracle that can fail.
- **Error formatting** (`formatting.dfy`). `formatZodError` is a map from issues to `{field, message}` records. `strings.dfy` holds JavaScript's `split` and `join`, used by the gate and by the formatter.

Some consequences of the code as written that the lemmas make explicit:

- `login` looks the user up through the password-stripping default projection. `bcrypt.compare` therefore never sees a stored hash (`AuthService.LoginComparesAgainstNoHash`).
- The `401` branch of `signup` is unreachable (`AuthController.SignupNeverUnauthorized`). A duplicate email makes the service return `null`, and `'error' in null` throws, so the handler answers `400` (`AuthController.DuplicateSignupIsBadRequest`).
- An update body that fails validation is answered with `500`, not `400` (`CustomerController.UpdateCustomer`).
- The user `signupUser` returns has no `createdAt`, while the stored one has (`AuthService.SignupUser`).
- `process.env.JWT_SECRET_KEY ?? 'json-secret-key'` keeps a set-but-empty secret (`AuthService.SecretKey`). jsonwebtoken then refuses to sign, so every correct password is answered with 400 (`AuthController.EmptySecretLoginIsBadRequest`).
- The header gate never looks at the scheme word (`AuthService.GateIgnoresScheme`).

## Model

| member | source | states |
|---|---|---|
| Strings.Split | services/authService.ts:18 | `split(' ')` yields one more part than there are separators, and no part contains the separator |
| Strings.JoinSplit | services/authService.ts:18 | joining the parts of a split gives back the original header |
| Strings.SplitJoin | services/authService.ts:18 | splitting a join of separator-free parts gives back exactly those parts |
| Strings.Join | services/formattingService.ts:7 | `join` of one part is that part, and of separator-free parts puts exactly one separator between each two, none for the empty array |
| Strings.CountAppend | services/formattingService.ts:7 | separators counted in a concatenation add up |
| Strings.Decimal | services/formattingService.ts:7 | an array index in a path is written as decimal digits that spell its value, one digit exactly below 10 and never with a leading zero |
| Strings.JsLength | controllers/customerController.ts:8 | a string's JavaScript length counts UTF-16 code units: between its character count and twice that, the character count exactly when every character is in the Basic Multilingual Plane, twice it when every one is above |
| Strings.JsLengthChar | controllers/customerController.ts:8 | one character has JavaScript length 1 up to U+FFFF and 2 above; with `JsLengthAppend` this fixes the length of every string |
| Strings.JsLengthAppend | controllers/authenticationController.ts:12 | the JavaScript length of a concatenation is the sum of the lengths |
| Strings.EmojiLength | controllers/authenticationController.ts:12 | three characters above U+FFFF have JavaScript length 6 |
| Http.StrField | controllers/customerController.ts:8-9 | a body field reads as a string exactly when the body is an object holding a string there |
| Http.NumField | controllers/customerController.ts:10 | a body field reads as a number exactly when the body is an object holding a number there |
| Documents.CustomerFields | controllers/customerController.ts:24-28 | the created customer object has exactly the keys name, email and age |
| Documents.UserFields | services/authService.ts:79-83 | the inserted user object has exactly the keys name, email and password |
| Documents.CustomerDoc | models/customer.ts:4-8 | a customer's document has `_id`, name, email, age, and `createdAt` exactly when the customer has one |
| Documents.UserDoc | models/user.ts:3-7 | a user's document has `_id`, name, email, a password when present, and `createdAt` exactly when present |
| Documents.AsCustomer | models/customer.ts:4-8 | a document reads as a customer exactly when `_id` is an ObjectId, name and email are strings, age is a number and any `createdAt` is a date |
| Documents.AsUser | models/user.ts:3-7 | a document reads as a user exactly when `_id`, name and email are well typed; a missing password reads as absent |
| Documents.CustomerRoundTrip | models/customer.ts:4-8 | reading back a customer's document gives the same customer |
| Documents.CustomerDocRoundTrip | models/base.ts:6-9 | a document of exactly the customer fields is the document of its typed view |
| Documents.UserRoundTrip | models/user.ts:3-7 | reading back a user's document gives the same user |
| Documents.UserDocRoundTrip | models/base.ts:6-9 | a document of exactly the user fields is the document of its typed view |
| Store.MatchesId | services/customerService.ts:23 | the filter `{_id}` matches exactly the documents whose `_id` equals it |
| Store.FirstMatch | repositories/baseRepository.ts:46-48 | the position found matches, no earlier document matches, and there is none exactly when nothing matches |
| Store.Select | repositories/baseRepository.ts:69-71 | a query returns only matching documents of the table and every one of them |
| Store.SelectAppend | repositories/baseRepository.ts:69-71 | matches come back in table order: selecting from two tables end to end is the first's matches followed by the second's |
| Store.SelectAll | services/customerService.ts:19 | the empty filter `{}` selects the whole table in insertion order |
| Store.Take | repositories/baseRepository.ts:66-69 | a limit keeps a prefix of the results, of the limit's size, or everything for no limit or 0 |
| Store.Project | repositories/userRepository.ts:13 | an exclusion projection drops exactly the excluded fields and keeps every other field unchanged |
| Store.FindOneIn | repositories/baseRepository.ts:46-48 | `findOne` gives nothing exactly when no document matches, otherwise the first match projected |
| Store.NextIdFresh | services/authService.ts:79 | no stored document carries the next generated ObjectId |
| Store.RemoveWellFormed | repositories/baseRepository.ts:105-108 | deleting a document keeps the ids unique, and its `_id` then matches nothing |
| Store.InsertOutcome | repositories/baseRepository.ts:82 | an insert fails on an unreachable server or a duplicate `_id` and leaves the table alone; otherwise it appends the document under its own or a fresh id and reports that id and the write concern |
| Store.GeneratedIdInserts | services/customerService.ts:26-30 | an insert of a body without `_id` always succeeds, with the next generated id |
| Store.UpdateOutcome | repositories/baseRepository.ts:57 | an update returns null and changes nothing exactly when nothing matches; on a match it fails, with `ImmutableId` and no change, exactly when the patch changes `_id`; otherwise it `$set`s the patch on the first match only and returns the document before or after as asked |
| Store.DeleteOutcome | repositories/baseRepository.ts:107 | a delete removes exactly the first match, reports a count of 1 exactly when there was one, and otherwise leaves the table alone |
| Store.FindAllIsTable | services/customerService.ts:18-20 | `find({})` without options returns the whole table, unprojected, in insertion order |
| Store.DeletedIdGone | services/customerService.ts:39-42 | after a delete by `_id` that removed a document, no document has that `_id` |
| Store.Database.DocsWellFormed | models/base.ts:6-9 | every table the store holds has present, unique `_id`s |
| Store.Database.constructor | services/mongoService.ts:39-46 | a new store has no documents and has handed out no handles |
| Store.Database.Collection | services/mongoService.ts:39-46 | a handle names the collection asked for; each request is counted |
| Store.Database.FindOne | repositories/baseRepository.ts:46-48 | the store's `findOne` is `FindOneOutcome` on the table |
| Store.Database.Find | repositories/baseRepository.ts:69-71 | the store's `find().toArray()` is `FindOutcome` on the table |
| Store.Database.InsertOne | repositories/baseRepository.ts:82 | the result and new table are `InsertOutcome`, other tables are unchanged, and ids stay unique |
| Store.Database.InsertMany | repositories/baseRepository.ts:94 | an empty batch fails; a full success appends the batch in order under the ids it reports, each the item's own `_id` or a newly generated one; any outcome only extends the table, by at most the batch |
| Store.Database.InsertEach | repositories/baseRepository.ts:94 | on a reachable server the batch goes in one document at a time; a full success appends it in order under ids that are each the item's own `_id` or a newly generated one |
| Store.Database.FindOneAndUpdate | repositories/baseRepository.ts:57 | the result and new table are `UpdateOutcome`, other tables are unchanged |
| Store.Database.DeleteOne | repositories/baseRepository.ts:107 | the result and new table are `DeleteOutcome`, other tables are unchanged |
| Repository.Stamp | repositories/baseRepository.ts:79-81 | `createdAt` is set to now only when absent; an existing one and every other field are kept |
| Repository.NormalizeLimit | repositories/baseRepository.ts:65-68 | a NaN limit becomes 25; any other limit, or no options, passes through unchanged |
| Repository.UserFindOptions | repositories/userRepository.ts:12-14 | no options become the projection excluding `password`; given options pass unchanged |
| Repository.Repository.Customers | repositories/customerRepository.ts:5 | the customer repository targets the collection `customers`, with no cached handle |
| Repository.Repository.Users | repositories/userRepository.ts:6 | the user repository targets the collection `users`, with no cached handle |
| Repository.Repository.GetCollection | repositories/baseRepository.ts:25-32 | the gateway is asked for a handle only while none is cached; afterwards the cached handle is returned |
| Repository.Repository.GetCollectionForInsert | repositories/baseRepository.ts:34-38 | the insert handle is requested anew on every call and never cached |
| Repository.Repository.FindOne | repositories/baseRepository.ts:40-49 | `findOne` is the store's first match under the given options, or with none when none are given |
| Repository.Repository.FindByIdAndUpdate | repositories/baseRepository.ts:51-58 | without options the post-update document is returned; the table is `UpdateOutcome`, others unchanged |
| Repository.Repository.Find | repositories/baseRepository.ts:60-72 | `find` is the store's query with the NaN-normalised options |
| Repository.Repository.InsertOne | repositories/baseRepository.ts:74-83 | the body is inserted after `createdAt` stamping; a body without `_id` is always inserted when the server is up |
| Repository.Repository.InsertMany | repositories/baseRepository.ts:85-95 | every batch item lacking `createdAt` is stamped in place with the clock reading taken at that item, order and length kept; the batch is then inserted in order, each item under its own `_id` or a newly generated one, with the acknowledgement the server gives; after a full success every batch item carries the `_id` it was stored under, written back in place as the driver does, and the stored documents are exactly the batch items; an empty batch fails with nothing written |
| Repository.Repository.DeleteOne | repositories/baseRepository.ts:105-108 | the result and new table are `DeleteOutcome`, others unchanged |
| Repository.Repository.FindUser | repositories/userRepository.ts:8-16 | without options the match comes back with every field but `password`; given options are forwarded unchanged |
| AuthService.SecretKey | services/authService.ts:8 | the signing key is the environment's value when set, even if empty, otherwise `json-secret-key` |
| AuthService.Gate | services/authService.ts:18-29 | 401 exactly when the header is absent or does not split into two parts; 403 exactly when the second part fails verification; otherwise the decoded user |
| AuthService.GateRejectsMalformed | services/authService.ts:18-21 | a header with no space or more than one space is answered with 401 without verification |
| AuthService.GateIgnoresScheme | services/authService.ts:18-24 | any scheme word followed by a space and a token hands that exact token to verification |
| AuthService.GateTwoPartShape | services/authService.ts:18-24 | every header the gate verifies is some scheme, one space and the token |
| AuthService.Exchange.constructor | services/authService.ts:11-15 | an exchange starts with empty locals, no response and no call to `next` |
| AuthService.Exchange.Authenticate | services/authService.ts:11-30 | verifying with the key `SecretKey` selects from the environment, a rejected request gets the 401/403 response with locals untouched and no call to `next`; an admitted one stores the decoded user in `locals.user` and calls `next` exactly once |
| AuthService.GenerateToken | services/authService.ts:32-34 | signing with an empty key fails, and otherwise the token is what `sign` gives for the user object as it is, with no options; a token, sent back as `Bearer <token>`, is admitted by the gate with that user whenever `verify` decodes it to the user and it holds no space |
| AuthService.SignedUpUser | services/authService.ts:88 | the returned user has exactly name, email, the hashed password and the inserted `_id`, with name and email holding the given values |
| AuthService.SignedUpUserView | services/authService.ts:88 | the returned user is the document of the `User` with the given name and email, the hashed password, the inserted id and no `createdAt`, and reads back as that user |
| AuthService.LoginOutcome | services/authService.ts:45-56 | a store error passes through; no user gives null; for a found user, a non-matching comparison gives null, a throwing one gives the compare error (and only it does), and a match gives the looked-up user with the token signed over it, or the sign error exactly when signing fails |
| AuthService.Login | services/authService.ts:41-57 | `login` is `LoginOutcome` applied to the user repository's default lookup by email, signing with the key `SecretKey` selects, and writes nothing |
| AuthService.StoredUserView | services/authService.ts:78-83 | the stored signup document is the document of the `User` with the hashed password and `createdAt`; read back through the default projection it is that user without a password |
| AuthService.LoginComparesAgainstNoHash | repositories/userRepository.ts:12-15 | the user `login` looks up never carries `password`, so the comparison is always against no hash |
| AuthService.LoginUnknownEmail | services/authService.ts:45-48 | an email no stored user has makes `login` return null |
| AuthService.SignupUser | services/authService.ts:69-91 | a known email gives null and inserts nothing; otherwise exactly one stamped user with the hashed password is appended, and that user is returned with its new id, or null without acknowledgement |
| CustomerService.GetCustomerList | services/customerService.ts:18-20 | the list is every stored customer in insertion order |
| CustomerService.GetCustomer | services/customerService.ts:22-24 | the result is a stored customer with that `_id`, or null exactly when none has it |
| CustomerService.CreateCustomer | services/customerService.ts:26-30 | exactly one customer, stamped with `createdAt`, is appended under a fresh id that the result reports |
| CustomerService.UpdateCustomer | services/customerService.ts:32-37 | the first customer with that `_id` gets the given fields `$set` and comes back after the update; a missing id gives null and no change |
| CustomerService.RemoveCustomer | services/customerService.ts:39-42 | true exactly when a customer with that id existed; it is then gone; false leaves the table unchanged |
| Formatting.ElementTexts | services/formattingService.ts:7 | one text per path element: a key as it is, an index as the decimal numeral of its value |
| Formatting.ElementTextsNoDot | services/formattingService.ts:7 | an index's text never holds a '.', so only a key can |
| Formatting.PathText | services/formattingService.ts:7 | the empty path gives "", one element gives its text, and when no key holds a '.' the field has exactly one '.' between each two elements |
| Formatting.FormatZodError | services/formattingService.ts:3-10 | one record per issue in issue order, each with exactly the keys field and message, field the path joined with '.', message unchanged |
| Formatting.EmptyPathIsEmptyField | services/formattingService.ts:7 | an issue with an empty path has the field `""` |
| Formatting.FieldSplitsIntoPath | services/formattingService.ts:7 | when no key contains '.', the field splits back into the path's elements |
| CustomerController.ParseCustomer | controllers/customerController.ts:7-11 | a body is accepted exactly when name is a string of JavaScript length at least 3, email a valid email string and age a positive number; only those three are kept |
| CustomerController.UpdateFields | controllers/customerController.ts:61-66 | an update writes exactly name, email, age and `_id`, with `_id` the path id |
| CustomerController.CreateReply | controllers/customerController.ts:29-32 | 201 with the insert result exactly when the insert succeeded, otherwise 400 Bad Request |
| CustomerController.ListReply | controllers/customerController.ts:36-40 | 200 with the documents as they are, in order, exactly when listing succeeded, otherwise 500 |
| CustomerController.FoundReply | controllers/customerController.ts:47-54 | null gives 404 Customer not found, a document gives 200 with it, an error gives 500 |
| CustomerController.DeleteReply | controllers/customerController.ts:82-89 | false gives 404, true gives the deletion message, an error gives 500 |
| CustomerController.CreateCustomer | controllers/customerController.ts:21-33 | an invalid body gives 400 without touching the store; a valid one is inserted with only name, email and age and answered by `CreateReply` |
| CustomerController.GetAllCustomers | controllers/customerController.ts:34-41 | the reply is the whole table as 200, or 500 when the store fails |
| CustomerController.GetCustomer | controllers/customerController.ts:42-55 | an unparseable id gives 500; otherwise the lookup by `_id` is answered by `FoundReply` |
| CustomerController.UpdateCustomer | controllers/customerController.ts:57-75 | an invalid body or id gives 500 without touching the store; otherwise the `$set` update by id is answered by `FoundReply` |
| CustomerController.DeleteCustomer | controllers/customerController.ts:77-90 | an unparseable id gives 500; otherwise the delete by id is answered by `DeleteReply` |
| CustomerController.UpdateReflectsNewValues | controllers/customerController.ts:57-71 | updating a stored customer answers 200 with the new name, email and age, the same id and the old `createdAt` |
| CustomerController.CreatedCustomerView | controllers/customerController.ts:23-28 | the document a valid create stores is the document of the `Customer` with the given fields, the new id and `createdAt` now |
| CustomerController.MissingIdIsNotFound | controllers/customerController.ts:67-70 | updating or getting an id no customer has answers 404 and writes nothing |
| AuthController.ParseLogin | controllers/authenticationController.ts:10-13 | a login body is accepted exactly when email is a valid email string and password a string of JavaScript length at least 6 |
| AuthController.ParseSignup | controllers/authenticationController.ts:31-35 | a signup body is accepted exactly when it is a valid login body with a name of JavaScript length at least 3 |
| AuthController.LoginReply | controllers/authenticationController.ts:20-28 | null gives 401 Invalid Credentials, a response is answered unchanged, anything thrown gives 400 |
| AuthController.HasErrorKey | controllers/authenticationController.ts:43 | `'error' in v` throws exactly on null and primitives, is false on arrays, dates and ObjectIds, and is true exactly when an object has the key `error` |
| AuthController.EmojiPasswordAccepted | controllers/authenticationController.ts:10-13 | a password of three emoji meets `min(6)`, since zod counts UTF-16 code units |
| AuthController.ResolvedReply | controllers/authenticationController.ts:43-49 | an `error` key gives 401, any other object gives 200 with it, and a value `in` throws on gives 400 |
| AuthController.SignupReply | controllers/authenticationController.ts:42-49 | signup answers 200 exactly when the service returned a user, with body `{user}`; every other outcome, a throw or the null of a duplicate email, is 400 `{error: 'Bad Request'}` |
| AuthController.DuplicateSignupIsBadRequest | controllers/authenticationController.ts:42-49 | the null a duplicate email yields is answered with 400 Bad Request |
| AuthController.EmptySecretLoginIsBadRequest | services/authService.ts:8 | a set but empty `JWT_SECRET_KEY` makes signing throw after a matching password, and login answers 400 |
| AuthController.SignupNeverUnauthorized | controllers/authenticationController.ts:43-44 | no service outcome makes signup answer 401 |
| AuthController.Login | controllers/authenticationController.ts:15-29 | an invalid body gives 400 without a lookup; otherwise the reply is `LoginReply` of the service's outcome |
| AuthController.Signup | controllers/authenticationController.ts:37-51 | an invalid body gives 400 before the service runs; a duplicate email gives 400 and no insert; a fresh one inserts the user and answers `{user}` with the hashed password, or 400 without acknowledgement |

## Left out

- services/mongoService.ts connects, disconnects and chooses the database name. The connection lifecycle is driver I/O. The store is an in-memory `Database`, and a server that cannot be reached is the flag `reachable`.
- app.ts and the routers are Express wiring: CORS, routing, `listen` and the shutdown handler. The gate is modelled as `Exchange.Authenticate`, but which routes it guards is not modelled.
- `bulkWrite`, `deleteMany` and `updateMany` in repositories/baseRepository.ts:97-122 only forward their arguments, and no service calls them.
- bcrypt and jsonwebtoken are foreign cryptography. They are the `Crypto` oracles. `compare`, `sign` and `verify` may throw, and `sign` always throws on an empty key, as jsonwebtoken does; a throw from `sign` is answered with 400. `hash` is modelled as never failing. jsonwebtoken's `verify` also throws on an empty key, so with `JWT_SECRET_KEY` set to "" the source gate answers every two-part header with 403; the model leaves `verify` free under an empty key and does not state this. A "login after signup succeeds" round trip would need an assumption relating `compare` to `hash`, so it is not stated. The default projection strips the hash anyway (`AuthService.LoginComparesAgainstNoHash`).
- Token expiry and signature semantics are not modelled. `verify` either yields a decoded document or fails. A payload that decodes to a non-object is not modelled.
- zod is reduced to the rules the schemas state. Email syntax is the oracle `isEmail`, and ZodError is reduced to each issue's path and message. An ObjectId is a natural number, and parsing a path id is the oracle `parseId`.
- `new Date()` is the parameter `now`. `insertMany` reads the clock once per item, so it takes one reading per item (`nows`).
- The signing key is `SecretKey(env)` of the `env` value passed to each call. The source reads `JWT_SECRET_KEY` once, when the module loads, so the model does not capture a variable that changes between calls.
- `reachable` is one flag for the whole store, fixed across a request. A request whose first store call succeeds and whose second fails is not modelled: signup's email lookup (services/authService.ts:74) and its insert (services/authService.ts:79) either both reach the server or neither does, so `AuthService.SignupUser` never returns a store error from the insert once the lookup succeeded.
- async/await is run sequentially. Interleaving of concurrent requests is not modelled, including the race between signup's email check and its insert.
- A JavaScript number limit is either NaN or an integer. Fractional and infinite limits are not modelled.
- The write concern is modelled only as the `acknowledged` flag of inserts. Updates and deletes always report their effect.
- Repository.Repository.InsertOne: it stamps `createdAt` on a copy of the body. The caller's object is not changed in place, but both callers pass a fresh object literal, so nothing can observe the difference.
- Repository.Repository.Find: it rewrites a copy of the options, not the caller's options object in place.
- Store.Database.InsertMany: on a failure partway through a batch, the contract only says that the documents already inserted stay, as a prefix of at most the batch's length. It does not state which documents those are.
- Store.Database.InsertEach: on a failure partway through a batch it states the same weaker bound as `Store.Database.InsertMany`.
- Repository.Repository.InsertMany: on failure it states the same weaker bound as `Store.Database.InsertMany`, and the batch items keep no `_id`: the `_id`s the driver may already have written into the caller's objects before the failure are not modelled.
- Repository.Repository.InsertMany: the batch holds document values, so a batch that repeats one object is modelled as independent documents. In the source the second visit of a shared object finds `createdAt` already set, and the driver gives the shared object one `_id`, so its second insert fails as a duplicate key; the model stamps each slot with its own clock reading and inserts each under its own id.
- AuthService.Exchange.Authenticate: it does not model an exception thrown by `next` itself. In the source that exception would be caught and answered with 403 after `next` ran.
- The tests expect several behaviours the code does not implement: `errors` arrays of per-field messages, a 404 `Invalid customer id`, `User already exists`, a `/signup` path, and an `_id` in the 201 body of a created customer (the code answers with the insert result `{acknowledged, insertedId}`, controllers/customerController.ts:29). The model follows the code.
