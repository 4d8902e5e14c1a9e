# passkeys-sample: the WebAuthn relying-party core in Dafny

This project models the core of a small WebAuthn (passkey) relying-party sample
written in TypeScript. It covers the in-memory store and the two ceremonies that
read and change it:

- **Store** (`src/db.ts`). The store holds a fixed table of three users, each of
  whom can hold one `currentChallenge`. It also holds a per-user list of registered
  authenticators. The seven store operations are modelled as pure functions over
  `Db.Store`, a pair of maps. An operation that can throw returns a `Result`.
- **Registration** (`src/registration.ts`). Building the options lists the user's
  authenticators as exclusions and remembers the challenge. Verifying hands the
  response, the stored challenge, the origin and the RP ID to the library verifier.
  The verifier's `registrationInfo` is then copied into a new record and appended
  to the user's list.
- **Authentication** (`src/authentication.ts`). Building the options lists the
  user's authenticators as allowed credentials and remembers the challenge.
  Verifying looks up the authenticator named in the response and hands it to the
  verifier. The verifier's `newCounter` is then stored.

The library's option generator and its two verifiers are outside the model. The
generated challenge is a parameter. Each verifier is a function-valued parameter
that either returns a verification record or throws with a message. A ceremony
returns a `Db.Step`: what it returned or threw, plus the store it left behind.
The store is kept on both paths because JavaScript does not undo a mutation made
before a later throw. This matters in one place: the authentication lookup renames
an entry before the verifier runs.

The relying party's constants (`Constants`) are `RpName = "SimpleWebAuthn Example"`,
`RpId = "localhost"` and `Origin = "http://" + RpId + ":3000"`.

The code has several known quirks, and the model keeps all of them:

- **Lookup by assignment.** `getUserAuthenticator` looks up an authenticator with
  `a.credentialID = credentialId` where it means `===`. With a non-empty ID, it
  therefore returns the first entry of the list, renamed to the queried ID, and the
  rename stays in the store. With the empty ID, it renames every entry to `""` and
  returns nothing.
- **Lists are never created.** No code ever creates an authenticator list. Starting
  from the seeded store, every save therefore throws and every authentication
  lookup finds nothing (module `Lifecycle`).
- **Challenges are never cleared.** A challenge stays in place when a ceremony
  finishes, whatever the outcome.
- **`verified` is never read.** Registration saves whenever `registrationInfo` is
  present. Authentication stores `newCounter` whenever the verifier returns.
- **No checks beyond the verifier.** The code does not reject duplicate
  credential IDs, does not raise a "no authenticators" error, and does no counter
  comparison. Challenges are neither single-use nor expiring. Clone detection is
  left entirely to the verifier. The model claims none of these behaviours.

Module `Intended` holds separately named corrected variants of the lookup, the save
and both verify steps, with the intended properties proved. It ends with a
register-then-authenticate lemma that starts from process start.

## Model

| member | source | states |
|---|---|---|
| Db.InitialUserLookup | src/db.ts:5-15 | In the seeded table, a lookup finds a user for exactly the ids `some-id-1`, `some-id-2` and `some-id-3`; the record has the key as its id, the matching `some-username-N`, and no challenge. Any other id gives undefined. |
| Db.SeededLookup | src/db.ts:13-15 | For any store whose user table is the seeded one up to challenges, a lookup finds a user for exactly the seeded ids, and the record equals the seeded one apart from its challenge. |
| Db.GetUserAuthenticators | src/db.ts:26-28 | Returns the user's stored list, or the empty sequence when the user has no list. |
| Db.SaveNewUserAuthenticatorInDB | src/db.ts:17-20 | Throws "user not found" exactly when the user has no list; an existing empty list is enough. Otherwise it appends the authenticator at the end, keeps the earlier entries, and leaves other users' lists and the user table unchanged. |
| Db.FindAssigning | src/db.ts:23 | The `find` whose callback assigns the ID. The list keeps its length, and only credential IDs change. It returns an entry exactly when the list is non-empty and the ID is truthy; that entry is the first one, renamed, and only the first entry changes. With a falsy ID, every entry is renamed and nothing is returned. |
| Db.GetUserAuthenticator | src/db.ts:22-24 | Finds an entry exactly when the user's list is non-empty and the queried ID is non-empty. The entry found is the first one, renamed to the queried ID, and that rename is kept in the store. With the empty ID, nothing is found and every entry of the user's list is renamed to `""`. A missing or empty list leaves the store as it was. Counters and the other fields, other users' lists and the user table are unchanged. |
| Db.SetCounter | src/db.ts:32-38 | The `map` over the list keeps its length. Every entry whose ID equals the given one gets the new counter with all other fields kept; every other entry is kept as it is. |
| Db.SaveUpdatedAuthenticatorCounter | src/db.ts:30-39 | Throws "user not found" exactly when the user has no list. Otherwise the list keeps its length, entries with the authenticator's ID get `counter := newCounter`, and every other entry, every other list and the user table are untouched. |
| Db.SetUserCurrentChallenge | src/db.ts:41-44 | Throws exactly for a user the table does not hold. Otherwise the user's challenge becomes the new value, replacing any earlier one; every other row, the user's id and username, and all lists are kept. |
| Db.GetAfterSet | src/db.ts:41-48 | Reading the challenge after setting it returns the value just set. |
| Db.SetOverwrites | src/db.ts:41-44 | Setting `c1` and then `c2` leaves the same store as setting `c2` alone: a user never holds more than one challenge. |
| CredentialDescriptors.Descriptors | src/registration.ts:32-37 | One descriptor per authenticator, in the same order. Each descriptor is `{id: credentialID, type: "public-key", transports}`. |
| CredentialDescriptors.DescriptorsAppend | src/authentication.ts:26-30 | Appending an authenticator to the list appends its descriptor to the descriptor list. |
| Registration.GenerateRegOptions | src/registration.ts:15-52 | Fails for an unknown user and leaves the store unchanged. Otherwise the options carry `rpName`, `rpID`, the user's id and username, `attestationType "none"`, `residentKey` and `userVerification "preferred"`, and one exclusion per existing authenticator. The stored challenge becomes `options.challenge`, replacing any earlier one, and nothing else changes. |
| Registration.SaveNewUserAuthenticator | src/registration.ts:74-96 | Throws when there is no `registrationInfo`. Otherwise it appends a record whose fields are the `registrationInfo` fields plus the client's transports, and it succeeds exactly when the user has a list. `verified` plays no part. |
| Registration.VerifyRegResponse | src/registration.ts:55-71 | Fails for an unknown user. Otherwise the verifier is asked to match the stored challenge, `Origin` and `RpId`. If the verifier throws, or gives no `registrationInfo`, the call fails and the store is unchanged. When the verifier returns info but the user has no list, the call fails with the store's "user not found". The call succeeds exactly when the verifier returns info and the user has a list; it then returns the verifier's record and appends the copied authenticator. The user table, and so every challenge, is never changed. |
| Registration.UnverifiedIsStillSaved | src/registration.ts:68-95 | If the verifier returns `verified: false` together with a `registrationInfo`, the call still succeeds and the user's list grows by one. |
| Registration.VerifierSeesIssuedChallenge | src/registration.ts:49-66 | After options are issued, the verifier's expected challenge is exactly the challenge those options carried. |
| Registration.NextOptionsExcludeNewCredential | src/registration.ts:21-37 | After a successful registration, the next options exclude every earlier credential in order, followed by the new credential's descriptor. |
| Authentication.GenerateAuthOptions | src/authentication.ts:16-38 | Fails for an unknown user and leaves the store unchanged. Otherwise it succeeds even with an empty list. The options carry `rpID`, `userVerification "preferred"` and one allow entry per authenticator in order, and the stored challenge becomes `options.challenge`. |
| Authentication.SaveUpdatedAuthenticator | src/authentication.ts:67-72 | Throws exactly when the user has no list. Otherwise every entry carrying the given authenticator's ID gets the verifier's `newCounter` verbatim; all other entries, other lists and the user table are kept. |
| Authentication.CounterUpdateIgnoresVerified | src/authentication.ts:67-72 | The store after saving is the same whatever the verifier's `verified` flag says. |
| Authentication.VerifyAuthResponse | src/authentication.ts:41-64 | Fails for an unknown user. When the list is empty or the response ID is empty, it fails with "authenticator not found" before the verifier runs. A missing or empty list leaves the store unchanged. An empty response ID leaves every entry of the user's list renamed to `""`. Otherwise the verifier gets the stored challenge, `RpId` and the looked-up entry, which is the first entry renamed to the response ID. If the verifier throws, the rename stays but no counter changes. If it returns, its record is returned and every entry carrying the looked-up ID gets its `newCounter` verbatim, with all other entries kept. Counters never change on failure, and challenges are never cleared. |
| Lifecycle.ApplyPreservesInv | src/db.ts:11-48 | Every ceremony call keeps the seeded user table, up to challenges, and keeps the list table empty. |
| Lifecycle.RunPreservesInv | src/db.ts:11-48 | The same holds for any sequence of calls. |
| Lifecycle.ReachableUserLookup | src/db.ts:5-15 | After any sequence of calls from the initial store, user lookup still succeeds for exactly the seeded ids, with the seeded record apart from its challenge. |
| Lifecycle.SaveNewAlwaysFails | src/db.ts:17-18 | After any sequence of calls from the initial store, saving a new authenticator throws "user not found". |
| Lifecycle.RegistrationNeverSaves | src/registration.ts:55-95 | After any sequence of calls, whatever the verifier returns, finishing a registration fails and leaves the store unchanged. For a known user whose verifier returns `registrationInfo`, the failure is "user not found" from the save (src/db.ts:18). |
| Lifecycle.OptionsListNothing | src/authentication.ts:16-38 | After any sequence of calls, both kinds of options are issued for exactly the seeded users and list no credential. |
| Lifecycle.AuthenticationNeverFinds | src/authentication.ts:41-51 | After any sequence of calls, finishing an authentication for a seeded user fails with "authenticator not found" before the verifier runs, and the store is unchanged. |
| Lifecycle.FinishKeepsChallenge | src/authentication.ts:41-64 | Finishing either ceremony, whatever its outcome, leaves every user's current challenge as it was. |
| Quirks.LookupReturnsFirstEntry | src/db.ts:22-24 | Looking up the second of two credentials returns the first one, renamed. The store is left with two entries carrying the queried ID, and the first credential's own ID is gone. |
| Quirks.EmptyLookupRenamesAll | src/db.ts:23 | Looking up the empty ID returns nothing but renames every entry to the empty ID. |
| Quirks.AuthenticationBumpsBoth | src/authentication.ts:48-72 | With such a pair, authenticating the second credential with a verifier that returns writes the new counter onto both entries. This assumes credential IDs are strings compared by value (see "## Left out"). |
| Intended.FirstWithId | src/db.ts:23 | Gives the index of the first entry whose ID equals the queried one, or none when no entry has it. |
| Intended.FindAuthenticator | src/db.ts:22-24 | Strict lookup. It finds an entry exactly when one carries the queried ID, the entry found is in the list and has that ID, and the store is not touched. |
| Intended.SaveNewAuthenticator | src/db.ts:17-20 | Succeeds exactly for a user in the table, creating the list if it is missing. It appends at the end and keeps the user table and the other lists. |
| Intended.VerifyRegResponse | src/registration.ts:55-96 | With lists created on demand, a known user's registration succeeds exactly when the verifier returns `registrationInfo`. The user's list then gains the copied record at the end. The user gains a list if they had none, and no other user's list changes. |
| Intended.VerifyAuthResponse | src/authentication.ts:41-72 | With the strict lookup, the call fails "not found" when no entry carries the response ID, and every failure leaves the store unchanged. When an entry carries the ID, the verifier is given the first such entry. The call succeeds exactly when the verifier returns, and it returns the verifier's record; a verifier error becomes a verification error. On success, the verifier was given a stored entry with that ID, and exactly the entries with that ID get the verifier's `newCounter`. The user table and every other user's list are never changed. |
| Intended.LookupsAgreeWhenFirstMatches | src/db.ts:22-24 | When the first entry already carries the queried ID, the assigning lookup and the strict one return the same entry, and the assigning one leaves the store unchanged. |
| Intended.RegisterThenAuthenticate | src/authentication.ts:16-72 | Starting from the seeded store with the corrected variants: issuing registration options and then registering leaves exactly one authenticator. The authentication options then allow exactly that credential, and authenticating with it sets its stored counter to the verifier's `newCounter`. |

## Left out

- `src/index.ts` is HTTP server plumbing, so it is not modelled. It also imports `generateOptions`, which `src/registration.ts` does not export.
- `src/types.ts` is not part of this model. The record fields are taken from how `src/db.ts`, `src/registration.ts` and `src/authentication.ts` use them.
- The library internals are opaque function parameters. This covers signature, origin, RP-ID and counter checks, CBOR/COSE parsing, and random challenge generation.
- The option generator's JSON output is not modelled: defaults such as `pubKeyCredParams` and `timeout`, and base64url encoding. The model's options are the arguments the code passes, plus the generated challenge.
- Async/Promise semantics and concurrency are not modelled; each call runs to completion before the next starts. The code is in fact exposed to interleaving. `verifyAuthResponse` takes a reference to a stored entry (src/db.ts:23), awaits the verifier (src/authentication.ts:53), and only then writes the counter (src/authentication.ts:61). A second authentication of the same user can finish in that gap. The first call's verifier then checks a stale counter, and its write can replace a higher counter with a lower one. That lost update is outside the model.
- `Authentication.VerifyAuthResponse` takes the expected origin as a parameter. `src/authentication.ts` passes `origin` without importing it, so its value is not determined by the modelled files.
- Unknown user ids: the `!` assertions in both ceremonies only mean that a later property access throws. The model returns a generic `UndefinedUser` error and leaves the store unchanged.
- Credential IDs are compared by value as strings. JavaScript compares byte arrays with `!==` by reference identity; that is not modelled. The type of `credentialID` lives in `src/types.ts`. The double cast at src/authentication.ts:48 suggests it may be a byte array rather than the response's `id` string.
- Quirks.AuthenticationBumpsBoth: holds only if stored credential IDs are strings equal by value to the response's `id`. With byte-array IDs, entry `b` keeps its own array after the rename, so `!==` at src/db.ts:33 is true for it. Only the renamed first entry would then get the counter.
- `Record` lookups by inherited property names such as `toString` are not modelled. The tables are plain maps.
- Counters are unbounded naturals. JavaScript numbers and the 32-bit signature counter are not modelled.
- `getUserCurrentChallenge` is a function of the store, so "reading leaves the store unchanged" holds by construction and has no separate lemma.
- `Db.GetUserFromDB` and `Db.GetUserCurrentChallenge` have no contract of their own. Their behaviour is stated through `Db.InitialUserLookup`, `Db.SeededLookup`, `Db.GetAfterSet` and the ceremony contracts.

## Findings

| source | as written | input that shows it | evidently intended | confidence | as-written member | corrected member |
|---|---|---|---|---|---|---|
| src/db.ts:23 | `find((a) => a.credentialID = credentialId)` assigns instead of comparing. It returns the first entry and renames it to the queried ID. | A list `[a, b]` with different IDs, queried with `b`'s ID: returns `a` renamed, so `a`'s own ID is lost and the verifier is handed `a`'s key and counter under `b`'s ID. | A strict-equality lookup that returns the entry with that ID and changes nothing. | high (not executed) | Quirks.LookupReturnsFirstEntry | Intended.FindAuthenticator |
| src/db.ts:11 | The authenticator table starts empty and nothing ever adds a list, yet `saveNewUserAuthenticatorInDB` (src/db.ts:18) throws when the list is missing. | Any call sequence from the initial store followed by a registration whose verifier returns `registrationInfo`: the save throws "user not found" for a seeded user. | A known user's first registration starts their list. | medium (not executed) | Lifecycle.RegistrationNeverSaves | Intended.SaveNewAuthenticator |
