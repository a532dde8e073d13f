# Account-and-access core of a small Express user service, in Dafny

This project models the account and access core of a REST user service. The core has five parts:

- **The account store** (`UserService`) is a class over a user table, `map<Id, UserRecord>`. It creates, reads, lists, updates, deletes and logs in users. Its invariant says that every row is filed under its own id and that emails are unique. Every method keeps that invariant. Every failing call leaves the table as it was. Callers only ever receive a `User`, a row without its password column, so a password digest cannot be returned.
- **The auth service** (`Auth`). `Login` signs the claim `{userId, email, role}` of the row that logged in. `VerifyToken` resolves a token's claim to the row the store holds *now*. The email and role it returns therefore come from the store, not from the claim.
- **The access-control gate** (`AuthMiddleware`). `ExtractToken` parses the `Authorization` header exactly as `header.startsWith('Bearer ')` and `header.split(' ')[1]` do. `Split` and `Join` model JavaScript's `split` and `join` and are proved to be inverses. `Authenticate` fills `req.user` on a `Request` object. `Authorize` is the role gate. Each gate method returns the one value that `next` receives (`None` for `next()`), so the first failure ends the pipeline.
- **The error taxonomy** (`Errors`): `ApiError` and its six constructors, with their fixed status codes, default messages and operational flags.
- **The boundary translator** (`ErrorMiddleware`). It turns a thrown error into a status, a message and a flag saying whether the stack trace is included. It also renders the 404 for unmatched routes.

Library behaviour enters as values. Password hashing is a `PasswordCodec`, a pair of function values `hash(password, salt)` and `compare(password, digest)`. The store holds the codec. `Sound()` states the only law that is assumed: `compare(p, hash(p, s))` holds for every password `p` and every salt `s`. The salt is the randomness bcrypt draws, and it is a parameter. Token signing and verification are function values `Signer` and `Verifier`. A `Verifier` is partial: it returns `None` for a bad or expired token.

Two behaviours of the code are worth stating plainly:

- A valid token whose user id is no longer in the store ends in 401 "Invalid or expired token", not "Authentication required". `getUserById` throws a 404 (src/services/user.service.ts:59-61), and the catch-all at src/middlewares/auth.middleware.ts:46-48 turns it into that 401.
- Token verification returns a claim or nothing. src/utils/jwt.ts:31-37 returns `null` whenever `jwt.verify` throws (a bad signature, an expired token, a token that cannot be decoded), so the model does not distinguish those causes. When `jwt.verify` succeeds, jwt.ts checks nothing further about the payload.

## Model

| member | source | states |
|---|---|---|
| Errors.NewApiError | src/utils/errors.ts:8-12 | keeps status and message; the error is operational unless `false` is passed explicitly |
| Errors.BadRequest | src/utils/errors.ts:21-23 | status 400, operational, message "Bad Request" unless one is given |
| Errors.Unauthorized | src/utils/errors.ts:28-30 | status 401, operational, message "Unauthorized" unless one is given |
| Errors.Forbidden | src/utils/errors.ts:35-37 | status 403, operational, message "Forbidden" unless one is given |
| Errors.NotFound | src/utils/errors.ts:42-44 | status 404, operational, message "Resource Not Found" unless one is given |
| Errors.Conflict | src/utils/errors.ts:49-51 | status 409, operational, message "Conflict" unless one is given |
| Errors.InternalServerError | src/utils/errors.ts:56-60 | status 500, not operational, message "Internal Server Error" unless one is given |
| Errors.StatusIdentifiesConstructor | src/utils/errors.ts:21-60 | two constructors give the same status exactly when they are the same constructor |
| Errors.OperationalUnlessInternal | src/utils/errors.ts:21-60 | an error is operational exactly when it did not come from `internalServerError`, and exactly when its status is below 500 |
| Users.PublicRoundTrip | src/services/user.service.ts:45-46 | stripping the password and putting it back gives the row again; putting a password on and stripping it gives the view again |
| Users.PublicForgetsOnlyPassword | src/services/user.service.ts:64-65 | two rows have the same returned view exactly when they differ at most in the password |
| Users.EmailConflictIsAnotherRow | src/services/user.service.ts:99-107 | in a valid table, `updateUser`'s conflict condition holds exactly when the supplied email is held by a different row; re-supplying one's own email is no conflict |
| Users.Patched | src/services/user.service.ts:115-124 | the written row keeps its id; each supplied field replaces the old value and each omitted field keeps it; the password changes only when a new digest is given |
| Users.CreatedRowAcceptsItsPassword | src/services/user.service.ts:32-41 | a row stored with `hash(p, salt)` is one that logging in with its email and `p` finds |
| Users.UserService.CreateUser | src/services/user.service.ts:21-47 | a taken email gives 409 "User with email … already exists" and no change; otherwise exactly one new row with the hashed password and role USER by default, no other row changed, the row's public view returned; uniqueness kept |
| Users.UserService.GetUserById | src/services/user.service.ts:54-66 | succeeds exactly when the id is present, returning that row's public view; otherwise 404 "User with ID … not found" |
| Users.UserService.GetAllUsers | src/services/user.service.ts:72-80 | returns each row's public view exactly once: as many entries as rows, distinct ids, every row present |
| Users.UserService.UpdateUser | src/services/user.service.ts:88-129 | an absent id gives 404 and no change; an email held by another row gives 409 "Email … is already in use" and no change; otherwise only that row is rewritten, with a new digest exactly when a non-empty password is supplied; uniqueness kept |
| Users.UserService.DeleteUser | src/services/user.service.ts:136-154 | an absent id gives 404 and no change; otherwise exactly that row is removed and its public view returned |
| Users.UserService.LoginUser | src/services/user.service.ts:161-183 | succeeds exactly when some row has the email and accepts the password, returning that row's view; an unknown email and a wrong password give the same 401 "Invalid email or password" |
| Auth.Login | src/services/auth.service.ts:15-27 | fails exactly when `loginUser` fails, with its error and no token; otherwise the token signs exactly `{userId, email, role}` of the logged-in row |
| Auth.VerifyToken | src/services/auth.service.ts:34-46 | no claim gives 401 "Invalid token"; a claim succeeds exactly when its user id is in the store, returning the store's current row rather than the claim; otherwise the 404 of `getUserById` |
| AuthMiddleware.JoinSplit | src/middlewares/auth.middleware.ts:31 | joining the parts of `s.split(sep)` with `sep` gives `s` back |
| AuthMiddleware.SplitJoin | src/middlewares/auth.middleware.ts:31 | splitting a join of separator-free parts gives the parts back |
| AuthMiddleware.SplitPartsLackSeparator | src/middlewares/auth.middleware.ts:31 | no part of a split contains the separator |
| AuthMiddleware.FirstPart | src/middlewares/auth.middleware.ts:31 | the first part of a split is the longest separator-free prefix |
| AuthMiddleware.BearerSecondPart | src/middlewares/auth.middleware.ts:25-31 | a header starting with `Bearer ` splits into at least two parts, and `split(' ')[1]` is the first segment after the prefix |
| AuthMiddleware.ExtractToken | src/middlewares/auth.middleware.ts:23-36 | a token is found exactly when the header is present, starts with `Bearer ` and has a non-space after it; the token is the non-empty run up to the next space; every refusal is 401 "Authentication required" |
| AuthMiddleware.BearerHeaderRoundTrip | src/middlewares/auth.middleware.ts:25-36 | `Bearer <t>` gives back `t` for every non-empty `t` without spaces |
| AuthMiddleware.Authenticate | src/middlewares/auth.middleware.ts:17-49 | a bad header gives 401 "Authentication required" without consulting the verifier; any failure of verification or lookup gives 401 "Invalid or expired token"; success attaches the store's current row and calls `next()`; `req.user` changes only on success |
| AuthMiddleware.Authorize | src/middlewares/auth.middleware.ts:55-69 | no user gives 401 "Authentication required"; with a user, it refuses exactly when the role is not listed, with 403 "You do not have permission to access this resource" |
| AuthMiddleware.AuthorizeDecidedByRole | src/middlewares/auth.middleware.ts:62-67 | the outcome for a user depends only on the user's role, and a user who passes still passes when more roles are listed |
| AuthMiddleware.AuthenticateThenAuthorize | src/routes/user.routes.ts:12 | the role gate runs only after `authenticate` passed; a pass means the attached user is the store's current row with a listed role; every refusal is an operational 401 or 403 |
| AuthMiddleware.LoginThenAccess | src/services/auth.service.ts:15-27 | after a successful login, the token it issued authenticates as exactly the logged-in user, and the guarded route passes exactly when that user's role is listed; after a failed login, the request is refused with 401 |
| ErrorMiddleware.HandleError | src/middlewares/error.middleware.ts:8-39 | an `ApiError` keeps its status and message, and its stack is included exactly in development or when it is not operational; any other error gives 500 "Internal Server Error", with the stack exactly in development |
| ErrorMiddleware.NotFoundRoute | src/middlewares/error.middleware.ts:44-53 | 404 with message "Cannot <method> <url>" and no stack |
| ErrorMiddleware.InternalErrorShowsStackInProduction | src/middlewares/error.middleware.ts:23 | as written, `internalServerError()` in production includes the stack |
| ErrorMiddleware.HandleErrorDevStackOnly | src/middlewares/error.middleware.ts:22-23 | same status and message as `errorMiddleware`; the stack is included exactly in development |
| ErrorMiddleware.NoLeakOutsideDevelopment | src/middlewares/error.middleware.ts:17-37 | outside development the corrected translator shows no stack for any error, keeps each constructor's status and message, and never shows a foreign error's message; it differs from the code exactly on `internalServerError` |

## Findings

| source | as written | input that shows it | evidently intended | confidence | as-written member | corrected member |
|---|---|---|---|---|---|---|
| src/middlewares/error.middleware.ts:23 | the stack is sent when `NODE_ENV === 'development' \|\| !isOperational` | `internalServerError()` reaching the middleware with `NODE_ENV=production`: the response body carries the stack trace. The defect is latent: no code path in the repository calls `internalServerError` (it is only defined, at src/utils/errors.ts:56-60) | no stack trace outside development; the comment on line 22 ("Only send stack trace in development mode …") is supporting evidence, though it can also be read as the union the code computes | medium, not executed | ErrorMiddleware.InternalErrorShowsStackInProduction | ErrorMiddleware.HandleErrorDevStackOnly |

## Left out

- Password hashing (src/utils/password.ts) is the abstract `PasswordCodec`. The bcrypt cost factor and salt generation are not modelled. So are the claims that a digest never equals the plaintext and that two salts give different digests: an abstract hash cannot support them.
- Token signing and verification (src/utils/jwt.ts) are the function values `Signer` and `Verifier`. The secret, the expiry and the wall clock live inside them. `AuthMiddleware.LoginThenAccess` therefore assumes that the verifier accepts every token the signer issued, and that tokens contain no space (compact JWTs have none).
- Auth.VerifyToken: its `Verifier` always returns a well-formed `TokenPayload`. src/utils/jwt.ts:34 casts the decoded payload without checking its shape, so a correctly signed token without a string `userId` would reach `getUserById` with an undefined id, and the store's answer to that is not modelled. Only a holder of the signing secret can mint such a token, and `authenticate` still answers 401 "Invalid or expired token" for any failure there (src/middlewares/auth.middleware.ts:46-48).
- Users.UserService.CreateUser takes the uuid that the table's default generates as the parameter `newId`, and requires that it is not yet a key. A uuid collision is not modelled.
- Users.UserService.UpdateUser requires that a supplied email is not the empty string. The update schema's email format check (src/models/user.schema.ts:24) rules it out, and the service would otherwise skip the conflict check yet still write `""`.
- The `createdAt` and `updatedAt` columns are not modelled. They come from the clock.
- Users.UserService.GetAllUsers promises no order. `findMany` is called without `orderBy`.
- Operations are sequential and atomic. The check-then-act race in create and update is not modelled. Neither is the store's own unique-constraint error, which would surface as a non-`ApiError` (a 500).
- Request validation (src/middlewares/validation.middleware.ts, src/models/user.schema.ts) is not modelled, apart from the email precondition above. This covers email format, the 8–100 password length bounds and role parsing.
- Controllers, route tables (apart from the `authenticate, authorize(roles)` composition), `asyncHandler`, environment loading, Prisma bootstrap and server startup are not modelled. They only forward, serialise or do I/O.
- `console.error` logging, the constant `status: 'error'` JSON field and the text of the stack trace are not modelled. The model records only whether the stack trace is included.
- `req.user.role` is a string and `roles` an array of strings in the code. The model uses the closed `Role` enumeration and `seq<Role>`.
- `next` is called exactly once on every path because each gate member returns exactly one value for it. The asynchronous `then`/`catch` ordering is not modelled.
