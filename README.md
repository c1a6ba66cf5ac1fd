# SecureKeep password vault — a Dafny model of its security and vault-state logic

SecureKeep is a Next.js password vault. Users register and log in with an email and a
password. A signed session token is kept in the `token` cookie. Each user keeps
website/username/password entries whose passwords are stored encrypted. This project models
the parts of the code that carry logic:

- **The ciphertext envelope** (`lib/crypto.ts`, module `Crypto`, with `Hex` and `Strings`).
  The key is the secret right-padded with `'0'` to 32 characters. One 16-byte IV is drawn when
  the module loads. `encrypt` returns `hex(IV) ":" hex(ciphertext)`, and `decrypt` splits on
  `:` and decodes fields 0 and 1. AES-256-CBC and Node's UTF-8 codec are the four functions of
  `Crypto.Cipher`. `Crypto.Sound` is the round trip assumed of them. Hex follows base16 as in
  section 8 of RFC 4648, with Node's decoding rules: either case is accepted, decoding stops at
  the first bad pair, and a trailing odd digit is dropped.
- **The server routes over an in-memory store** (module `Server`, records in `Models`). The
  class `Server.Database` holds the users, the password entries, the mail outbox and the next
  fresh id. It has register, login, forgot-password, and the owner-scoped POST and GET of
  `/api/passwords`. Hashing, token signing and verifying, random bytes, the clock and mail
  delivery are parameters.
- **The middleware gate** (module `Middleware`). This is a pure decision between continuing
  and redirecting to `/login`. A token must have the three `.`-separated parts of the JWS
  compact form (section 7.1 of RFC 7515). `Gate` adds the `/dashboard/:path*` matcher.
- **The dashboard's client state** (module `Dashboard`, class `DashboardPage`). It covers the
  search filter, the visibility flags, the decrypt cache and the list of ids being decrypted.
  It also covers add, delete and save bookkeeping, and the CSV export loop.
- **The password generator** (module `AddEntryForm`). It assembles the charset and draws a
  12-character password from it.
- **The password table** (module `PasswordTable`, class `EditState`). It has the display and
  copy rules and the edit state machine.

Every fetch a handler makes is replaced by its outcome, passed in as a parameter. Every async
handler awaits its fetches, so other handlers can run while it waits. Only
`togglePasswordVisibility` is split at its `await`, into `TogglePasswordVisibility` and
`DecryptSettled`. Each of the other handlers is modelled as one step.

Three behaviours of the code are worth stating up front:

- `lib/crypto.ts:4` draws one IV per process, not one per call. Two encryptions of the same
  plaintext are therefore equal, and every stored form begins with the same 33 characters
  (`Crypto.EncryptSharesIv`).
- `app/api/auth/forgot-password/route.ts:17-19` answers an unknown email with
  `'User not found. '`. That differs from the reply to a known email at lines 68-70, so the
  route reveals whether an account exists.
- `app/api/passwords/route.ts:30-31` answers 401 `Unauthorized` when encryption throws, the
  same answer as a failed token check.

## Model

| member | source | states |
|---|---|---|
| `Seqs.Filter` | app/dashboard/page.tsx:45-49 | `Array.filter`: every kept element satisfies the predicate, and the result is a subsequence of the input (order kept) and no longer than it |
| `Seqs.FilterMembers` | app/api/passwords/route.ts:41 | an element is kept if and only if it is in the input and satisfies the predicate |
| `Seqs.FilterCount` | app/dashboard/page.tsx:45-49 | an element that passes the predicate is kept as many times as it occurs in the input, and one that fails is dropped entirely |
| `Seqs.FilterAppend` | app/dashboard/page.tsx:141 | filtering a concatenation is the concatenation of the filtered parts, so relative order survives |
| `Seqs.FilterAll` | app/dashboard/page.tsx:141 | when every element passes, the filter returns the sequence unchanged (deleting an absent id changes nothing) |
| `Strings.Split` | lib/crypto.ts:18 | `split` on one character gives one more field than there are separators, and no field contains the separator |
| `Strings.JoinSplit` | lib/crypto.ts:18 | joining the fields of a split with the separator gives back the original string |
| `Strings.SplitJoin` | lib/crypto.ts:14-18 | splitting the join of separator-free fields gives back exactly those fields |
| `Strings.PadEnd` | lib/crypto.ts:3 | `padEnd(n, fill)` leaves a string of length at least `n` as it is; otherwise the result has length `n`, starts with the string, and is `fill` after it |
| `Strings.IncludesAt` | app/dashboard/page.tsx:47-48 | `includes(t)` holds if and only if some position of the string starts a copy of `t` |
| `Strings.Lower` | app/dashboard/page.tsx:44 | `toLowerCase` keeps the length and lower-cases each character on its own |
| `Strings.TrimEmpty` | app/dashboard/page.tsx:43 | `trim()` is empty if and only if every character is ECMAScript white space or a line terminator |
| `Hex.Encode` | lib/crypto.ts:14 | `toString('hex')` doubles the length and emits only `0-9a-f` |
| `Hex.Decode` | lib/crypto.ts:19-20 | `Buffer.from(s, 'hex')` yields at most half as many bytes as `s` has characters |
| `Hex.DecodeEncode` | lib/crypto.ts:14-20 | decoding the hex encoding of any bytes returns those bytes |
| `Hex.EncodeHasNoColon` | lib/crypto.ts:14 | a hex encoding never contains the `:` separator |
| `Crypto.EffectiveKey` | lib/crypto.ts:3 | the key is the secret padded with `'0'` to 32 characters; a secret of 32 or more characters is left unchanged |
| `Crypto.Encrypt` | lib/crypto.ts:6-15 | `encrypt` fails exactly when the key is not 32 bytes, and then with an invalid-key-length error |
| `Crypto.Decrypt` | lib/crypto.ts:17-29 | `decrypt` fails because `parts[1]` is undefined exactly when the stored text has no `:`; otherwise a field 0 that does not decode to 16 bytes fails as an invalid IV, checked before the key, and only with a 16-byte IV does a key that is not 32 bytes fail as an invalid key length, the order `createDecipheriv` uses |
| `Crypto.EncryptFraming` | lib/crypto.ts:14 | the stored form has exactly one `:`; before it are the 32 lower-case hex digits of the IV; it splits back into hex IV and hex ciphertext |
| `Crypto.IvPrefix` | lib/crypto.ts:4-14 | every stored form begins with the hex of the module's IV followed by `:` |
| `Crypto.EncryptSharesIv` | lib/crypto.ts:3-14 | under the module loaded from a secret and the one IV drawn at load, any two successful `encrypt` calls agree on their first 33 characters (hex IV and `:`), whatever their plaintexts |
| `Crypto.DecryptEncrypt` | lib/crypto.ts:6-29 | assuming the cipher and the UTF-8 codec round-trip, `decrypt(encrypt(t)) == t` |
| `Crypto.DecryptAcrossLoads` | lib/crypto.ts:4-25 | under the same secret, a form stored by one load of the module decrypts back to its plaintext under any other load, whose IV differs, because decrypt takes the IV from field 0 of the stored text |
| `Crypto.DecryptIgnoresExtraFields` | lib/crypto.ts:18-20 | fields after the second are ignored: appending `":" + rest` does not change the result |
| `Server.FindByEmail` | app/api/auth/register/route.ts:10 | `findOne({ email })`: the first user with that email, or none if and only if no user has it |
| `Server.OwnedBy` | app/api/passwords/route.ts:41 | `find({ userId })`: exactly the entries of that user, each as many times as it is stored, in store order |
| `Server.Database.Register` | app/api/auth/register/route.ts:6-21 | an existing email gets 400 `User already exists` and nothing is created; a new email appends exactly one user with a fresh id and `hashPassword(password)`, and the reply carries only the email; emails stay pairwise distinct |
| `Server.Database.Login` | app/api/auth/login/route.ts:7-27 | unknown email and wrong password both give the one 401 `Invalid credentials`; on success the `token` cookie is `signToken(user id)` with httpOnly, path `/`, sameSite `lax`, and secure exactly in production; the store is never modified |
| `Server.Database.ForgotPassword` | app/api/auth/forgot-password/route.ts:7-71 | a missing email gives 400; an unknown email gives `User not found. `, with no change and no mail; otherwise only the matched user's token becomes hex of 32 random bytes and its expiry now + 1,800,000 ms, overwriting any earlier ones; then one mail with link base + `/reset-password/` + token; a failed send keeps the saved token |
| `Server.Database.CreateEntry` | app/api/passwords/route.ts:7-33 | no token, a failed verification, no password or a failed encryption gives 401 and leaves the store unchanged; otherwise exactly one entry is appended under the verified user id, holding `encrypt(password)`, which decrypts back to the password |
| `Server.Database.ListEntries` | app/api/passwords/route.ts:35-51 | no token or a failed verification gives 401; otherwise exactly the verified user's entries, each as many times as it is stored, in store order, with passwords as stored |
| `Middleware.Middleware` | middleware.ts:5-24 | `/login` and `/register` pass; any other path continues if and only if the token is present, has exactly two `.` (three parts) and `verifyToken` accepts it, the verifier the API routes use |
| `Middleware.Gate` | middleware.ts:26-28 | paths outside `/dashboard/:path*` always continue; matched paths follow the token rule |
| `Middleware.MalformedNeverVerified` | middleware.ts:12-15 | a missing or malformed token is redirected whatever verification would say |
| `Middleware.PublicPathsUnmatched` | middleware.ts:8-28 | no path the matcher admits is public, so behind the matcher the public-path check never fires |
| `Dashboard.NotEditing` | app/dashboard/page.tsx:77 | the fetched list keeps length and order, with every entry's `isEditing` false |
| `Dashboard.FilteredEntries` | app/dashboard/page.tsx:42-50 | a blank search returns all entries; otherwise the result holds exactly the entries whose lower-cased website or username contains the lower-cased, untrimmed term, each as many times as it occurs, in original order |
| `Dashboard.BlankSearchShowsAll` | app/dashboard/page.tsx:43 | a search made only of white space shows every entry in order |
| `Dashboard.PasswordCell` | app/dashboard/page.tsx:216 | a CSV password cell is never empty (`UNKNOWN` replaces an empty value) |
| `Dashboard.CsvRows` | app/dashboard/page.tsx:210-219 | the header `Website,Username,Password` comes first, then one row per entry in order |
| `Dashboard.CollectedAt` | app/dashboard/page.tsx:191-208 | with distinct ids, the export map holds for each entry the value the loop recorded for it |
| `Dashboard.ExportedPassword` | app/dashboard/page.tsx:191-219 | each exported password is the cached plaintext if any; otherwise `DECRYPTION_FAILED` if the request threw, `UNKNOWN` if the reply had no password, and that password otherwise |
| `Dashboard.DashboardPage.constructor` | app/dashboard/page.tsx:24-40 | the page starts empty, loading, with an empty form |
| `Dashboard.DashboardPage.FetchEntries` | app/dashboard/page.tsx:71-83 | a successful fetch replaces the list, a failed one alerts and keeps it, and loading ends false |
| `Dashboard.DashboardPage.TogglePasswordVisibility` | app/dashboard/page.tsx:85-91 | only that id's flag flips; a fetch starts exactly when no plaintext is cached, and then the id enters the decrypting list |
| `Dashboard.DashboardPage.DecryptSettled` | app/dashboard/page.tsx:95-101 | a JSON reply is cached under the id; the id leaves the decrypting list, and all other ids stay |
| `Dashboard.DashboardPage.HandleFormChange` | app/dashboard/page.tsx:110-112 | only the named form field changes |
| `Dashboard.DashboardPage.AddPassword` | app/dashboard/page.tsx:114-131 | on success the new entry goes to the front, the refresh then replaces the list if it succeeds, and the form is reset; on failure nothing changes |
| `Dashboard.DashboardPage.DeleteEntry` | app/dashboard/page.tsx:133-145 | a confirmed, successful delete removes every entry with that id and keeps the rest in order; otherwise the list is unchanged |
| `Dashboard.DashboardPage.SaveEntry` | app/dashboard/page.tsx:147-183 | an id not in the list does nothing; a failed PUT changes nothing; a successful one drops the id from the cache, sets its flag false and refreshes, alerting exactly when the refresh fails |
| `Dashboard.DashboardPage.ExportToCsv` | app/dashboard/page.tsx:185-231 | nothing without confirmation; otherwise the text is the header and rows joined by newlines, built from the map the loop collects |
| `AddEntryForm.CharsetMembers` | components/dashboard/AddEntryForm.tsx:31-40 | a character is available if and only if it belongs to an enabled set; the charset is empty if and only if no set is enabled |
| `AddEntryForm.DefaultCharsetSize` | components/dashboard/AddEntryForm.tsx:25-35 | with the defaults the charset has 26 + 26 + 10 + 21 = 83 characters |
| `AddEntryForm.RandomIndex` | components/dashboard/AddEntryForm.tsx:45 | `Math.floor(Math.random() * n)` is a valid index below `n` |
| `AddEntryForm.GeneratePassword` | components/dashboard/AddEntryForm.tsx:30-52 | with no set enabled it alerts and the form is unchanged; otherwise only the password field changes, to 12 characters, each the charset character at its draw's index |
| `PasswordTable.DisplayPassword` | components/dashboard/PasswordTable.tsx:147-154 | hidden shows eight bullets; visible with cached plaintext shows it; visible without shows `Decrypting...` |
| `PasswordTable.CopyText` | components/dashboard/PasswordTable.tsx:250-253 | copy takes the cached plaintext, otherwise the stored password field |
| `PasswordTable.EditState.constructor` | components/dashboard/PasswordTable.tsx:49-55 | no row is edited and nothing is being saved at first |
| `PasswordTable.EditState.StartEditing` | components/dashboard/PasswordTable.tsx:57-85 | edit mode starts only after a successful decrypt, with the decrypted password in the draft; on failure it alerts and the state is unchanged |
| `PasswordTable.EditState.CancelEditing` | components/dashboard/PasswordTable.tsx:87-90 | both `editingId` and `editedEntry` become null |
| `PasswordTable.EditState.HandleSave` | components/dashboard/PasswordTable.tsx:92-103 | nothing happens unless both an id and a draft are set; after a save attempt `isSaving` is false, and edit mode is cleared only on success |
| `PasswordTable.EditState.HandleFieldChange` | components/dashboard/PasswordTable.tsx:105-107 | only the named draft field changes; a null draft stays null |

## Left out

- AES-256-CBC with its padding, and Node's UTF-8 encode and decode, are foreign library code.
  They are the functions of `Crypto.Cipher`. Their round trips are the hypothesis `Crypto.Sound`.
- `crypto.randomBytes`, `Date.now()` and `Math.random()` are parameters: the IV, the 32 reset
  token bytes, `now`, and one draw in [0, 1) per generated character.
- `signToken` and `verifyToken` (lib/jwt.ts) are abstract functions. One `Server.Verifier` stands
  for `verifyToken` in both the middleware and the routes. lib/jwt.ts is not part of
  this model, nor is the 7-day expiry the token library enforces. `hashPassword` and
  `comparePassword` (lib/hash) are abstract too.
- lib/db.ts (connection caching) is I/O and is not part of this model. Storage never fails here.
- lib/email.ts is SMTP I/O. A sent mail is a record in `Database.outbox` holding the recipient,
  the subject and the reset link. The rest of the HTML body is not modelled. Whether delivery
  succeeds is an input.
- Several routes are not part of this model: the reset-password route that consumes the token,
  the per-entry decrypt, PUT and DELETE routes under `app/api/passwords/[id]`, `app/api/me` and
  logout. Their answers reach the client handlers as inputs.
- MongoDB ObjectIds and their string conversions are natural numbers handed out by the store.
  `signToken(user._id.toString())` and `verifyToken(...).userId` are modelled over those ids.
- `ENCRYPTION_KEY` being unset, which makes the module throw at load, is not modelled. The
  secret is always a string.
- Crypto.EffectiveKey: counts Dafny characters, whereas `padEnd` counts UTF-16 code units. The
  two differ only for characters outside the Basic Multilingual Plane.
- Strings.Lower: maps only the ASCII letters A–Z. JavaScript's full Unicode lower-casing is not
  modelled.
- Server.Database.Register: takes email and password as strings. A request body that lacks
  them is not modelled. In that case `findOne({ email: undefined })` would match any user.
- Server.Database.Login: takes the email as a string. A non-string email, such as the query
  object `{"$gt": ""}`, would reach `User.findOne({ email })` as a query and match some user.
  The one-401 rule and the cookie contents hold for string emails only.
- Server.Database.ForgotPassword: takes the email as an optional string. A non-string email
  would reach `User.findOne({ email })` as a query. "Only the matched user's reset fields
  change" holds for string emails only.
- Server.Database.CreateEntry: takes website and username as strings. A missing password is
  modelled; other missing or non-string body fields are not.
- Dashboard.DashboardPage.TogglePasswordVisibility: the one handler split at its `await`. Every
  other handler also awaits its fetches, but is modelled as one step that runs them to
  completion. React's batching of state updates, and
  the interleaving of concurrent handlers, are not modelled.
- PasswordTable.EditState.HandleSave: covers the whole save in one step. The `isSaving == true`
  state, seen while `saveEntry` is pending, is not a separate step.
- Browser effects are replaced by values. `alert` becomes a boolean result, `confirm` a boolean
  input, and the clipboard and the Blob download are the text returned (`CopyText`,
  `ExportToCsv`).
- An undefined `password` in a decrypt reply is modelled as the empty string. Every reader of
  that value only tests whether it is truthy.
- Presentation-only components and pages are markup and `fetch` glue with no logic to state:
  the landing page sections, skeletons, search bar, headers, layout, and the login, register,
  forgot-password and reset pages.
