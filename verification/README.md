# E-verify account state, modelled in Dafny

E-verify is a small Go web service for email verification and password
recovery. Each account is a document in a `users` collection. The document
holds the address, a SHA-256 password digest, a `verified` flag, a
verification token with its expiry, and a password-reset token with its
expiry. Six request handlers look a document up (by address or by token),
branch on `verified`, on a password match or on an expiry, and apply a
small update or insert. This project models those state machines and
proves what they promise.

Layout (one module per component):

- `wrappers.dfy`, module `Wrappers`: `Option`.
- `hex.dfy`, module `Hex`: lower-case hexadecimal encoding (the form of both
  the digests and the tokens), its inverse, and the round trips in both
  directions.
- `credentials.dfy`, module `Credentials`: `HashPassword` (hex of a digest)
  and `GenerateToken` (hex of 16 random bytes, or nothing when the random
  source fails).
- `accounts.dfy`, module `Accounts`: the `User` document and the lookup
  `Find` (FindOne: the first document matching a filter). It also holds the
  collection invariant `WellFormed`: one account per address, and an issued
  token names at most one account. Finally there is one function per
  handler giving the response and the collection after the request.
- `account_properties.dfy`, module `AccountProperties`: lemmas that relate
  several requests, and proofs that every handler keeps `WellFormed`.
- `user_store.dfy`, module `Store`: class `UserStore`. It owns the collection
  as a `seq<User>` field, with one method per handler. Each method looks the
  document up, branches with early returns, and updates it in place. Its
  postcondition ties the response and the new collection to the
  corresponding `Accounts` function and keeps `Valid()`.

Collaborators become inputs:
- The clock is `now`, an integer count of milliseconds since the Unix epoch.
  That is the resolution at which the collection stores timestamps.
- SHA-256 is a function value `sha` of type `string -> Digest`, where a
  `Digest` is 32 bytes.
- The random source is `random: Option<Entropy>`, where `Entropy` is 16
  bytes and `None` means the read failed. `FreshEntropy` states the
  assumption that 128 random bits never repeat a token already issued. The
  methods that issue a token require it.
- A store write that fails is `writeOk == false`.
- A failed verification mail is `mailOk == false`. It is an input only on
  the two registration paths, the only ones that report it.

Expiry is strict (`time.Now().After(expiry)`, predicate `Accounts.Expired`):
a link used at exactly its expiry instant is still accepted. The reset
token is absent when it is the empty string. A new document stores `""`
and Go's zero time (`ZERO_TIME`, -62135596800000 ms) in the reset fields,
and a `$unset` reads back as the same two values. No handler ever looks up
an empty token.

Some behaviour of the code is easy to misread:
- Expiry is strict, so `now == expiry` is still valid.
- The resend handler answers "Your email is already verified!" for a
  verified account. Only unknown and unverified addresses get the same
  generic answer (`Accounts.ResendVerification`).
- On the verify page, an empty token gets its own message
  (`MissingToken`).
- Reset-password rejects an empty token as a bad request before any
  lookup.
- Reset-password takes the token from the JSON body on every verb, so its
  GET branch is modelled with the body fields.
- Forgot-password gives the same notice for a known and an unknown address
  only when the token and the write succeed. If either fails, a known
  address gets a server error while an unknown one still gets the notice
  (`AccountProperties.RequestResetFailureRevealsAccount`).

## Model

| member | source | states |
|---|---|---|
| `Hex.Encode` | main.go:69 | the encoding has two characters per byte, all from `0-9a-f` |
| `Hex.DecodeEncode` | main.go:69 | decoding an encoding gives back the bytes |
| `Hex.EncodeDecode` | main.go:60 | every decodable string is the encoding of what it decodes to |
| `Hex.EncodeInjective` | main.go:69 | distinct byte strings have distinct encodings |
| `Credentials.HashPassword` | main.go:58-61 | the stored digest is 64 lower-case hex characters |
| `Credentials.HashMatchesIffDigestMatches` | main.go:58-61 | two passwords hash equal exactly when their SHA-256 digests are equal |
| `Credentials.GenerateToken` | main.go:63-70 | a token exists exactly when the random read succeeded, and is 32 lower-case hex characters |
| `Credentials.DistinctEntropyDistinctTokens` | main.go:63-70 | different random bytes give different tokens |
| `Credentials.TokenDecodes` | main.go:63-70 | a token decodes back to the 16 random bytes it was made from |
| `Accounts.Find` | main.go:94-95 | the result is the first matching document; None exactly when no document matches |
| `Accounts.Rearm` | main.go:141-153 | with a token and a successful write, only `verification_token`, `verification_expiry` (now + 3 min) and `verified := false` change on that document. A failed random read gives InternalError(TokenGeneration), and a token with a failed write gives InternalError(StoreWrite); both leave the collection unchanged |
| `Accounts.Register` | main.go:83-164 | empty fields give BadRequest. An unknown address, a token and a write insert exactly one unverified document: the hashed password, the token, expiry now + 3 min. Insertion happens only when the address is unknown. A wrong password gives IncorrectPassword, and a verified account gives AlreadyVerified; both leave the collection unchanged. Otherwise the verification cycle is re-armed. A mail failure is reported but keeps the write. On the insert or re-arm path, a failed random read gives InternalError(TokenGeneration) and a failed write gives InternalError(StoreWrite); neither writes anything. The outcome is always one of these seven. Address uniqueness is preserved |
| `Accounts.ConfirmVerification` | main.go:172-200 | gives MissingToken, InvalidLink, AlreadyVerified, LinkExpired (`now > expiry`) or Verified, each exactly under its condition. A failed write on a live, unverified link gives InternalError(StoreWrite). Nothing else can be answered. Only `verified` changes, only on success; the token stays. No account becomes unverified |
| `Accounts.CheckVerified` | main.go:206-230 | never reports verified and expired together. `verified` and `expired` each hold exactly under their condition; an empty or unknown address gives both false |
| `Accounts.RequestReset` | main.go:244-276 | answers ResetNotice for an unknown address and for a known one (given a token and a write). Never creates a document. Leaves an unknown address's collection unchanged. For a known address, a failed random read or write gives the matching InternalError and writes nothing. Sets only the reset token and its expiry (now + 15 min) |
| `Accounts.ConfirmReset` | main.go:290-325 | empty fields give BadRequest. An unknown token or `now > expiry` gives InvalidLink. On a live link, GET gives ResetForm(token) and any verb other than GET or POST gives MethodNotAllowed. A POST with a wrong address gives EmailMismatch. A failed write gives InternalError(StoreWrite). Nothing else can be answered. Only on ResetOk do the hash change and both reset fields go. No password hash changes unless the address matches |
| `Accounts.ResendVerification` | main.go:397-432 | AlreadyVerified exactly for a verified account. An unknown address and an unverified one (given a token and a write) both get ResendNotice. For an unverified account, a failed random read or write gives the matching InternalError and writes nothing. An empty or unknown address leaves the collection unchanged. Only the verification fields of that document change |
| `AccountProperties.RearmKeepsWellFormed` | main.go:148 | a re-armed cycle with an unused token keeps one account per address and unique tokens |
| `AccountProperties.RegisterKeepsWellFormed` | main.go:94-112 | registration keeps the collection well formed: an insert happens only for an unknown address |
| `AccountProperties.ConfirmVerificationKeepsWellFormed` | main.go:195 | confirming keeps the collection well formed |
| `AccountProperties.RequestResetKeepsWellFormed` | main.go:266 | issuing a fresh reset token keeps the collection well formed |
| `AccountProperties.ConfirmResetKeepsWellFormed` | main.go:315 | a reset keeps the collection well formed |
| `AccountProperties.ResendKeepsWellFormed` | main.go:422 | a resend keeps the collection well formed |
| `AccountProperties.ConfirmTwice` | main.go:181-195 | after Verified, the same link answers AlreadyVerified at any later time |
| `AccountProperties.RegisterThenConfirm` | main.go:104-112 | after a first registration: the status is unverified, and expired only after now + 3 min. The new link confirms up to and including now + 3 min, and gives LinkExpired after |
| `AccountProperties.ConfirmUnknownToken` | main.go:181-184 | a token no document holds gives InvalidLink and no change |
| `AccountProperties.CheckVerifiedOfAccount` | main.go:216-230 | with one account per address, the status is that of the account holding the address |
| `AccountProperties.RequestResetIndistinguishable` | main.go:254-276 | given a token and a successful write, the forgot-password answer is identical for any two collections |
| `AccountProperties.RequestResetFailureRevealsAccount` | main.go:254-263 | when the random read fails, a known address gets InternalError(TokenGeneration), while an unknown one gets ResetNotice whatever the collection |
| `AccountProperties.RequestThenConfirmReset` | main.go:265-304 | a freshly issued reset link resets the password up to issue + 15 min, and gives InvalidLink after |
| `AccountProperties.ResetTokenSingleUse` | main.go:300-315 | after a successful reset the token finds no document, and every later use gives InvalidLink |
| `AccountProperties.ResetThenSignIn` | main.go:314-315 | after a reset, the password check of registration rejects an attempt exactly when its hash differs from the new password's |
| `Store.UserStore.VerifyRequest` | main.go:78-164 | response and new collection are those of `Accounts.Register`; the invariant is kept |
| `Store.UserStore.Verify` | main.go:170-202 | response and new collection are those of `Accounts.ConfirmVerification`; the invariant is kept |
| `Store.UserStore.CheckVerified` | main.go:204-231 | read-only; the answer is `Accounts.CheckVerified` and never has both flags set |
| `Store.UserStore.ForgotPassword` | main.go:240-277 | response and new collection are those of `Accounts.RequestReset`; the invariant is kept |
| `Store.UserStore.ResetPassword` | main.go:283-329 | response and new collection are those of `Accounts.ConfirmReset`; the invariant is kept |
| `Store.UserStore.ResendVerification` | main.go:394-433 | response and new collection are those of `Accounts.ResendVerification`; the invariant is kept |

## Left out

- HTTP plumbing is not modelled: JSON decoding, status codes, template rendering, the CORS wrapper, routing, static files and start-up (main.go:331-384). A body that fails to decode is treated like empty fields (BadRequest). Outcome constructors stand for the response messages.
- The GET branches of `/` and `/forgot-password` only render a form. Their "Method not allowed" branches, and that of `/resend-verification`, are taken before any lookup. None of these is modelled. The verb is modelled only for reset-password, where it is examined after the token lookup.
- `sendMail` (main.go:43-56) is an SMTP call. The two registration paths report its failure, so there it is the `mailOk` input. The other sends (main.go:137, 275, 323, 431) discard the result, so they are not modelled at all.
- The MongoDB driver is replaced by an in-memory sequence. A document's position stands for its `_id`. Every `FindOne` error is read as "not found", and only that case is modelled. A failing write is the `writeOk` input. Context timeouts are not modelled.
- SHA-256 is the function value `sha`, and `crypto/rand` is the `random` input. The 128-bit uniqueness of tokens is the `FreshEntropy` assumption, not something proved.
- Each request runs atomically in the model. Races between concurrent requests on one document (last write wins) are not modelled.
- Go's clock precision below a millisecond is not modelled.
- The frontend files (`frontend/src/App.js`, `frontend/src/AnimatedNavbar.js`, `frontend/src/pages/ForgotPasswordPage.jsx`) contain no state logic and are not part of this model.
- `hashPassword` is deterministic because it is a Dafny function; no lemma states that separately.
