# Realtime product catalog — controllers, validation and client socket, in Dafny

This project models the decision logic of a small Express + Prisma product
catalog and of its React client's socket helper. It covers:

- the five product handlers: list, get, create, update, delete;
- the joi schema they validate payloads with;
- the user handlers that sign up a user and hand out access/refresh token
  pairs, signing the tokens over a copy of the user whose uuid is masked;
- the final error handler, the catch-all 404 and the access-token gate;
- the client-side singleton that holds at most one socket.io connection.

Every product and user handler is modelled with the same shape: it either
answers with a status and the `{error, message, data}` envelope
(`Http.Outcome.Respond`), or hands an `Error("<context> - <cause>")` to
`next` (`Http.Outcome.Forward`). `errorHandler` and `notFound` always answer,
so they return a `Reply` directly; `authenticate` is described below.

How the source becomes Dafny:

- **Read-only handlers** (`getAllProduct`, `getProductById`,
  `getAccessToken`, `getRefreshToken`, `errorHandler`, `notFound`) are
  functions of the request and the table.
- **Handlers that write** (`createProduct`, `updateProduct`,
  `deleteProduct`, `createUser`) are methods on a class holding the table.
  Their postconditions give the reply and the whole new table on every
  branch.
- **`authenticate`** is a method that updates `req.user`, the response
  and a count of `next` calls.
- **The socket helper** is a class with a nullable `socket` field.

JavaScript's string operations are written out in `Strings` (`trim`,
`indexOf`, `split`, `join`). `Number()` on route ids is written out in
`Numbers`. Their properties are proved:

- `trim` removes exactly the surrounding whitespace.
- `split` loses nothing.
- `Number(String(n)) === n`.

The handlers' contracts rest on these.

Modules, one per file:

| file | module | what it holds |
|---|---|---|
| wrappers.dfy | Wrappers | `Option`, `Result` |
| strings.dfy | Strings | `trim`, `indexOf`, `split`, `join` |
| numbers.dfy | Numbers | `Number()` on integer strings, `String(n)` |
| http.dfy | Http | JSON values, the envelope, `Outcome`, Bearer header parsing |
| product_validation.dfy | ProductValidation | the product schema |
| product_controller.dfy | ProductController | the product handlers and table |
| user_controller.dfy | UserController | masking, token handlers, user table |
| error_controller.dfy | ErrorController | `errorHandler`, `notFound`, `authenticate` |
| socket_service.dfy | SocketService | the client socket singleton |

### External calls as parameters

- **Database failures.** The `fault: Option<string>` parameter of a
  handler stands for its Prisma query rejecting with that message.
  Independently of it:
  - updating or deleting an id that is not stored fails, as Prisma's
    `update`/`delete` do (error P2025);
  - that failure is forwarded to `next` like any other.
- **JWT helpers.** `generateAccessToken`, `generateRefreshToken`,
  `verifyRefreshToken` and `parseJWT` are uninterpreted function values in
  `UserController.Jwt`. `verifyAccessToken` is the `verify` parameter of
  `ErrorController.Authenticate`.
- **User schema.** The user schema is a `validate` parameter.
- **Database-generated uuid.** The uuid the database generates is a
  parameter.
- **Client socket.** The connection `io(url)` opens is a `Socket` object.
  `VITE_BACKEND_URL` is an `Option<string>` parameter.

### Behaviour of the code worth knowing

- `getAllProduct` answers an empty table with 404 and `data: []`. This
  breaks the otherwise uniform envelope, in which every error reply has
  `data: null` (`ProductController.EmptyListingIsNotUniform`).
- Updating or deleting a missing id is not answered with 404. The Prisma
  error goes to `next`, and the error handler then answers 500.
- The error handler answers with the forwarded message's text between its
  first and second `" - "`. For a handler's `context - cause` this is the
  cause's first segment (`ErrorController.ForwardedCause`).
- The handlers do no pagination, filtering or broadcasting.

## Model

| member | source | states |
|---|---|---|
| Strings.Trim | backend/src/validations/product.validation.js:5 | the trimmed string has no whitespace at either end and is no longer than the input |
| Strings.TrimExact | backend/src/validations/product.validation.js:5-8 | trimming whitespace + text + whitespace gives back exactly the text, when the text has no whitespace at its ends |
| Strings.TrimOfTrimmed | backend/src/validations/product.validation.js:5-8 | a string with no whitespace at its ends is left unchanged by `trim` |
| Strings.TrimIdempotent | backend/src/validations/product.validation.js:5-8 | trimming twice equals trimming once |
| Strings.IndexFrom | backend/src/controllers/error.controller.js:8 | `indexOf(sep, k)` returns the first occurrence at or after `k`, and none means no occurrence at or after `k` |
| Strings.Split | backend/src/controllers/error.controller.js:8 | `s.split(sep)` for a non-empty separator: the pieces between successive non-overlapping occurrences, left to right (definition; its meaning is stated by the rows below) |
| Strings.SplitJoin | backend/src/controllers/error.controller.js:8 | joining the pieces of `split(sep)` with `sep` gives back the input |
| Strings.SplitAtIndex | backend/src/controllers/error.controller.js:8 | `split` cuts at the first occurrence `indexOf` finds, or returns the whole string when there is none |
| Strings.SplitSegments | backend/src/controllers/error.controller.js:8 | `split(sep)[0]` is the text before the first separator; `split(sep)[1]` exists exactly when a separator exists, and is the text up to the next one |
| Strings.FirstSegmentNoSeparator | backend/src/controllers/error.controller.js:42 | the first segment of a split on one character contains no such character, and ends at the end of the input or at that character |
| Numbers.NumberOf | backend/src/controllers/product.controller.js:34 | `Number(req.params.id)` on decimal integer forms only: surrounding whitespace is ignored, a blank string is 0, an optional sign and digits give their value, anything else is None for NaN (definition) |
| Numbers.ShowInt | backend/src/controllers/product.controller.js:34 | `String(n)` for an integer: a leading '-' exactly when `n` is negative, followed by digits only, with no leading zero ("0" for zero), as `String(n)` writes it |
| Numbers.ShowNatValue | backend/src/controllers/product.controller.js:34 | the decimal digits of `n` spell the value `n` |
| Numbers.NumberOfDigits | backend/src/controllers/product.controller.js:34 | `Number` of a non-empty digit string is the value the digits spell |
| Numbers.NumberOfNegative | backend/src/controllers/product.controller.js:34 | `Number("-" + digits)` is the negated value of the digits |
| Numbers.NumberOfShowInt | backend/src/controllers/product.controller.js:34 | `Number(String(n)) === n` for every integer `n`, so every stored id can be addressed by its route parameter |
| Http.Context | backend/src/controllers/product.controller.js:25 | the prefix "Error in <controller>.controller:<handler>" every catch block puts before the cause (definition) |
| Http.Caught | backend/src/controllers/product.controller.js:24-26 | a caught error goes to `next` as the message "<context> - <cause>", with no response written (definition) |
| Http.BearerSplit | backend/src/controllers/error.controller.js:42 | on a header starting with "Bearer ", `split(" ")` has a second piece, and it is the text after the prefix up to the next space |
| Http.BearerToken | backend/src/controllers/error.controller.js:33-42 | a token exists exactly when the header is present and starts with "Bearer " (case-sensitive); the token has no space, follows the prefix, and ends at the end of the header or at a space |
| Http.BearerTokenOf | backend/src/controllers/error.controller.js:42 | "Bearer " followed by a token without spaces yields exactly that token |
| Http.EmptyBearerToken | backend/src/controllers/error.controller.js:42 | "Bearer " alone passes the prefix test and yields the empty token |
| ProductValidation.Conforms | backend/src/validations/product.validation.js:4-9 | the schema as one predicate, key by key: an object with a non-blank string `name`, safe-integer numbers `qty` and `price`, and a `category` that is absent, `null` or a string (definition; `InputProductValidation` is proved to accept exactly these) |
| ProductValidation.InputProductValidation | backend/src/validations/product.validation.js:3-10 | the payload is accepted exactly when it is an object whose `name` is a string that is not blank, whose `qty` and `price` are numbers within joi's safe-integer range (magnitude at most 2^53 - 1), and whose `category` is absent, `null` or a string; the value holds the trimmed name, the numbers and the trimmed category, and the name is non-empty |
| ProductValidation.UnsafeQtyRefused | backend/src/validations/product.validation.js:6 | after a valid `name`, a `qty` outside the safe-integer range is refused with the `Unsafe` violation on `qty` (joi's "must be a safe number") |
| ProductValidation.MissingRequiredFails | backend/src/validations/product.validation.js:5-7 | a payload without `name`, `qty` or `price` is refused |
| ProductValidation.ReportsFirstFailingKey | backend/src/validations/product.validation.js:4-10 | the reported violation names the first key, in declaration order, whose rule fails; every key before it conforms |
| ProductValidation.ToJsonConforms | backend/src/validations/product.validation.js:4-9 | a validated value, written back as JSON, satisfies the schema and carries the same fields |
| ProductValidation.RevalidationIsIdentity | backend/src/validations/product.validation.js:3-10 | validating an already validated value gives back the same value |
| ProductController.Locate | backend/src/controllers/product.controller.js:43 | the lookup by id returns a position holding that id, and none exactly when no product has it |
| ProductController.NewProduct | backend/src/controllers/product.controller.js:78 | the stored row takes the given id and the validated name, qty and price; it has a category exactly when the validated value has a text category, and a text category becomes that (trimmed) text |
| ProductController.UpdatedProduct | backend/src/controllers/product.controller.js:113-116 | the updated row keeps its id and takes the validated name, qty and price; a left-out category keeps the old one, a `null` category clears it, and a text category becomes that (trimmed) text |
| ProductController.LocateStored | backend/src/controllers/product.controller.js:43 | in a table with ascending ids, each stored product is found at its own position |
| ProductController.RemoveAt | backend/src/controllers/product.controller.js:142 | removing one product keeps the ids ascending and keeps every other product |
| ProductController.ReplaceAt | backend/src/controllers/product.controller.js:113-116 | replacing a product by one with the same id keeps the ids ascending, and the id is then found at the same position |
| ProductController.GetAllProduct | backend/src/controllers/product.controller.js:7-27 | a store failure is forwarded with the getAllProduct context; otherwise 404 "No products found" with `data: []` exactly when the table is empty, else 200 with the table |
| ProductController.EmptyListingIsNotUniform | backend/src/controllers/product.controller.js:11-17 | the empty-table reply is an error reply that carries data, unlike every other error reply |
| ProductController.GetProductById | backend/src/controllers/product.controller.js:32-61 | 400 "Invalid product ID" when `Number(id)` is NaN; a store failure is forwarded; with a numeric id and a healthy store a reply is always written, and it is 404 exactly when no product has the id; 200 only with a stored product of that id; the envelope is uniform |
| ProductController.FindsStoredProduct | backend/src/controllers/product.controller.js:43-57 | every stored product is answered with 200 and exactly that product when asked for by any parameter `Number()` maps to its id |
| ProductController.FindsStoredProductByShownId | backend/src/controllers/product.controller.js:34-57 | the decimal form of a stored id is such a parameter, so every stored product is reachable by its id's own rendering |
| ProductController.MissingProductNotFound | backend/src/controllers/product.controller.js:45-51 | any parameter `Number()` maps to an id no product has is answered with 404 "Product not found" |
| ProductController.InvalidIdIgnoresTable | backend/src/controllers/product.controller.js:34-41 | a non-numeric id gets the same reply whatever the table and whether or not the store would fail |
| ProductController.ProductStore.CreateProduct | backend/src/controllers/product.controller.js:66-88 | invalid payload: 400 with the first violation's message and the table unchanged; store failure: forwarded, table unchanged; otherwise exactly one product, built from the validated value with the next id, is appended, 201 returns it, and a later get by its id returns it |
| ProductController.ProductStore.UpdateProduct | backend/src/controllers/product.controller.js:93-126 | the id is checked before the body and the body before the table; a missing id or store failure is forwarded with the table unchanged; otherwise only that product changes (a left-out category is kept), 200 returns it, and a later get returns it |
| ProductController.ProductStore.DeleteProduct | backend/src/controllers/product.controller.js:131-152 | 400 for a non-numeric id; a missing id or store failure is forwarded with the table unchanged; otherwise exactly that product is removed, every other product stays in order, 200 returns the removed product, and a later get answers 404 |
| UserController.Mask | backend/src/controllers/user.controller.js:55 | `{ ...user, uuid: "xxxxxxxxxxxxx" }`: the user with its uuid replaced by the placeholder (definition; its meaning is stated by the next row) |
| UserController.Issue | backend/src/controllers/user.controller.js:55-66 | the grant carries the masked user, with the stored user's id and profile, and both tokens are signed over that masked user |
| UserController.MaskForgetsOnlyUuid | backend/src/controllers/user.controller.js:55 | the masked user's uuid is the placeholder; two users mask alike exactly when they agree on id and profile; masking twice is masking once |
| UserController.FindUnique | backend/src/controllers/user.controller.js:43-45 | the lookup returns a stored user matching the key, and none exactly when no stored user matches |
| UserController.FindStored | backend/src/controllers/user.controller.js:98-100 | in a table with unique ids and uuids, a stored user is the one found by its id and by its uuid |
| UserController.GetAccessToken | backend/src/controllers/user.controller.js:39-71 | a store failure is forwarded; 404 "User not found" only when no user has the uuid; 200 only with a grant whose user is the masked stored user with that uuid, both tokens signed over that masked user |
| UserController.GetRefreshToken | backend/src/controllers/user.controller.js:76-126 | 401 "No token provided" without a Bearer header; 401 "Invalid refresh token" when verification fails; then store failure forwarded; with a healthy store a reply is always written, and any reply other than 200 is 404 "User not found" with no user having the payload's id; 200 only with a grant for that masked user, tokens signed over it |
| UserController.RefreshRejectsBeforeLookup | backend/src/controllers/user.controller.js:78-95 | both 401 replies are the same whatever the user table and whether or not the store would fail |
| UserController.RefreshAgreesWithAccess | backend/src/controllers/user.controller.js:97-121 | refreshing with a verified token that names a stored user returns the same grant as requesting tokens by that user's uuid |
| UserController.UserStore.CreateUser | backend/src/controllers/user.controller.js:13-34 | invalid payload: 400 with the validator's message, table unchanged; store failure: forwarded, table unchanged; otherwise exactly one user is added with the next id and the generated uuid, 201 returns it, and it is then found by its uuid and its id |
| ErrorController.ErrorMessage | backend/src/controllers/error.controller.js:8 | the message is the text between the first and second " - ", or "Unexpected error" when there is no " - " or that text is empty; it is never empty |
| ErrorController.ErrorHandler | backend/src/controllers/error.controller.js:7-16 | always 500 with `error: true`, `data: null` and the extracted message |
| ErrorController.NotFound | backend/src/controllers/error.controller.js:21-27 | always 404 "Resource not found" with `data: null` |
| ErrorController.SeparatorAfter | backend/src/controllers/error.controller.js:8 | in "context - cause" with no '-' in the context, the first " - " is the one after the context |
| ErrorController.ForwardedCause | backend/src/controllers/error.controller.js:8 | for a forwarded "context - cause", the client reads the cause up to its own first " - ", or "Unexpected error" when that is empty |
| ErrorController.ContextHasNoDash | backend/src/controllers/product.controller.js:25 | a handler context "Error in <controller>.controller:<handler>" has no '-' when its names have none |
| ErrorController.CaughtCauseReachesClient | backend/src/controllers/error.controller.js:8 | a non-empty cause without " - ", forwarded by any handler, reaches the client whole |
| ErrorController.Authenticate | backend/src/controllers/error.controller.js:32-55 | no Bearer header: 401 "No token provided", `req.user` unchanged, `next` not called; rejected token: 401 "Invalid token", same; otherwise `req.user` is the verified claims, `next` is called exactly once and no response is written |
| SocketService.BackendUrl | frontend/src/services/SocketService.jsx:7 | the configured URL when it is set and non-empty, else "http://localhost:3000" |
| SocketService.Socket.Disconnect | frontend/src/services/SocketService.jsx:21 | the handle is closed (no longer open) and has received one more `disconnect` call |
| SocketService.SocketHolder.InitializeSocket | frontend/src/services/SocketService.jsx:5-10 | with a socket held, returns that socket and does not call `io`; otherwise `io` is called once with the backend URL and the new socket is held and returned |
| SocketService.SocketHolder.GetSocket | frontend/src/services/SocketService.jsx:12-17 | the error "Socket not initialized!" when no socket is held, else the held socket |
| SocketService.SocketHolder.DisconnectSocket | frontend/src/services/SocketService.jsx:19-24 | with a socket held, disconnects it exactly once and holds none; with none held, changes nothing |
| SocketService.InitializeTwice | frontend/src/services/SocketService.jsx:5-17 | two initialisations return the same open handle with the backend URL, and `getSocket` then hands out that very handle |
| SocketService.GetBeforeInitialize | frontend/src/services/SocketService.jsx:12-15 | `getSocket` before any initialisation fails with "Socket not initialized!" |
| SocketService.ReconnectCycle | frontend/src/services/SocketService.jsx:5-24 | after a disconnect, `getSocket` fails, and the next initialisation opens a new, open handle while the old one stays closed |

## Left out

- Numbers.NumberOf: only the decimal integer forms of `Number()` are modelled (surrounding whitespace, an optional sign, digits, and the blank string as 0). Fractions, exponents, hex/octal/binary prefixes and "Infinity" are treated as NaN here, although JavaScript accepts them. `Numbers.NumberOf` and `Numbers.ShowNat` are also exact at every size: JavaScript's `String(n)` switches to exponent form from 1e21, and `Number()` rounds digit strings whose value exceeds 2^53, so `Numbers.NumberOfShowInt` holds in JavaScript only for ids of magnitude at most 2^53.
- Http.Json: JSON numbers are integers. Prices and quantities are never computed with, and floating point is not modelled.
- ProductValidation.InputProductValidation: joi's handling of unknown keys is not modelled (the model ignores them). Neither is the conversion of numeric strings to numbers, nor any rule beyond the four keys declared in the schema.
- ProductValidation.InputProductValidation: a missing request body (`undefined`) is not modelled; the payload is always a JSON value.
- Database failures have no detail beyond a message. The P2025 messages for a missing record are this model's own wording, not Prisma's.
- Prisma's id assignment is an autoincrement counter starting at 1. `findMany` is taken to return products in ascending id order; the real order depends on the database.
- UserController.UserStore.CreateUser: requires the generated uuid to be unused; a collision on the unique uuid column is not modelled.
- UserController.Jwt: signing and verification are uninterpreted, so expiry, secrets and cryptography are not modelled (RFC 7519). Exceptions thrown by these helpers are not modelled. `parseJWT(token).id` is always taken to be an integer. Signing here depends on the user alone, so `UserController.RefreshAgreesWithAccess` gets equal grants; real tokens also carry their issue time (`iat`), so two grants issued at different times differ in their token strings.
- The user schema is not part of this model; it is an abstract validator returning the stored profile or the first error message.
- The winston logger call in the error handler, the socket.io transport and what `io()` does on the network, `dotenv`, and the server startup in index.js are left out, because they are I/O.
- Express routing, and the order in which middleware runs, are left out. Each handler is modelled on its own, with its inputs as parameters.
