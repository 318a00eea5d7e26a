# Paraphrase: user store, webhook policy and request gates

Paraphrase is a web app that rewrites AI-generated text with Gemini and
scores texts for AI likelihood. Users are identified by an `x-user-id`
header. They subscribe through Lemon Squeezy, whose webhook flips a
per-user `is_subscribed` flag. Non-subscribers may not humanize texts of
more than 100 words.

This Dafny project models the logic of four files:

- `server/db.ts`: the SQLite user table. `getUser` is a get-or-create.
  `updateUserSubscription` is an `UPDATE ... WHERE id = ?`.
- `api/server-vercel.ts`: the serverless variant. Its records live in an
  in-memory `Map`, and `updateMemorySubscription` is an upsert.
- `server.ts`: the Express server over the SQLite store. It holds the
  authentication middleware, the 100-word gate, tone selection, the
  normalisation of the detector's score, the mock checkout link and the
  webhook.
- `src/App.tsx`: the client's word counter, limit flag, button guard, score
  colour bands and upgrade button.

Modules:

- `Js` (js.dfy): the JavaScript string built-ins the handlers rely on,
  stated over Dafny strings.
  - `trim` and the `\s` class use the ECMAScript white-space and
    line-terminator set.
  - `split(/\s+/)` is modelled with its empty-piece behaviour.
  - `includes` is substring search.
  - `parseInt(s, 10)` returns None for NaN.
  - `CountWords` is an independent reference for "number of maximal
    non-space runs".
- `Users` (users.dfy): the user record and the get-or-create lookup that
  both stores perform.
- `SqliteUsers` (sqlite_users.dfy): the function `UpdateWhere` and the class
  `UserTable`, whose methods are proved against `GetOrCreate` and
  `UpdateWhere`.
- `MemoryUsers` (memory_users.dfy): the function `Upsert` and the class
  `MemoryStore`.
- `Http` (http.dfy): the replies, the outcome of a remote call, the parsed
  webhook payload with every field optional, and the store call a webhook
  makes.
- `Server` (server.dfy): the route handlers of server.ts as pure decisions.
  A route that calls Gemini is split into the checks made before the call
  and the answer built from its outcome, so "refused before any upstream
  call" is a statement about the first half. The webhook is a decision
  function followed by the single store call, run by the method
  `HandleWebhook` over a `UserTable`.
- `Vercel` (vercel.dfy): the handlers where api/server-vercel.ts departs
  from server.ts:
  - the middleware over the in-memory store;
  - `/api/humanize` without the word gate;
  - the webhook with its substring policy.

  The two versions are related by lemmas. They agree on active created and
  updated subscriptions, and differ on:
  - created or updated subscription events with an off-list status;
  - other events whose names contain "created" or "updated", such as
    `order_created` or `license_key_updated`: server.ts ignores them, this
    version stores `is_subscribed = true`;
  - every other event about a user that server.ts neither grants on nor
    ends on, such as `subscription_payment_success` or
    `subscription_resumed`: server.ts ignores it, this version stores
    `is_subscribed = false` with that event's `data.id`;
  - payloads without a user id;
  - signatures of the wrong length;
  - malformed payloads about a user:
    - without `event_name`, server.ts answers 200 and changes nothing,
      while `event.includes` throws here and answers 500;
    - a created or updated subscription whose `data` has no `attributes`
      throws in server.ts (500), while this version stores `true` and
      answers 200;
    - an event server.ts ignores, sent without `data`, is 200 there and 500
      here.

  `/api/detect-ai`, `/api/user`, `/api/checkout` and tone selection
  behave the same in both files as far as modelled, so the `Server` functions
  model both. They differ only in details that are not modelled: error-reply
  bodies, the default for a missing Gemini key, and a try/catch around
  `/api/user`.
- `App` (app.dfy): the client rules, and their agreement with the server's
  gate.

Two properties of the stores are worth stating up front:

- `updateUserSubscription` in server/db.ts is a plain `UPDATE`. On an id
  with no row it changes nothing, unlike `updateMemorySubscription` in
  api/server-vercel.ts, which upserts. `SqliteUsers.UpdateWhere` models the
  first and `MemoryUsers.Upsert` the second;
  `Server.WebhookForUnknownUserIsLost` states the consequence for server.ts.
- server.ts imports server/db.ts directly, and api/server-vercel.ts keeps
  its own map. No backend selection exists in these files.

## Model

| member | source | states |
|---|---|---|
| `Js.TrimStart` | server.ts:138 | the leading white space `parseInt` skips is removed, and nothing else is: the result is a suffix preceded only by white space and does not itself start with white space |
| `Js.Truthy` | server.ts:33 | `if (userId)` on a possibly missing string: true exactly for a present, non-empty one |
| `Js.IsSpace` | server.ts:47 | the ECMAScript white-space and line-terminator set that `trim` and `\s` use; no white-space character is a digit or a sign |
| `Js.Trim` | server.ts:47 | `trim()` returns the infix surrounded only by white space that neither starts nor ends with white space; it is empty exactly when the text is all white space |
| `Js.TrimIdempotent` | server.ts:47 | trimming twice is trimming once |
| `Js.TrimPadded` | server.ts:137 | trimming a non-space-delimited text surrounded by white space returns that text |
| `Js.SplitWs` | server.ts:47 | `split(/\s+/)` always yields at least one piece, and no piece contains white space |
| `Js.SplitWsCountsWords` | server.ts:47 | on a trimmed, non-empty text, `split(/\s+/)` yields exactly as many pieces as the text has words, all non-empty |
| `Js.CountWordsTrim` | src/App.tsx:57-58 | trimming does not change the number of words |
| `Js.CountWordsOfAllSpace` | src/App.tsx:58 | a blank text has no words |
| `Js.IncludesSuffix` | api/server-vercel.ts:207 | `includes` finds a string at the end of another |
| `Js.Includes` | api/server-vercel.ts:207 | `includes` is true exactly when the searched string occurs at some index |
| `Js.DigitPrefix` | server.ts:138 | the digits `parseInt` reads are the longest prefix of digits |
| `Js.ParseInt` | server.ts:138 | `parseInt(s, 10)` is NaN exactly when no digit follows the leading white space and optional sign, and is non-negative without a minus sign |
| `Js.Decimal` | server.ts:138 | the decimal numeral of n is a non-empty digit string whose value is n |
| `Js.ParseIntReadsNumeral` | server.ts:138 | `parseInt` reads back any numeral after white space, an optional sign and any number of leading zeros, whatever non-digit follows: the inverse of `Decimal`, exact in the model (JavaScript rounds above 2^53, see Left out) |
| `Users.BitOf` | server/db.ts:31 | `isSubscribed ? 1 : 0` is 1 exactly for true |
| `Users.GetOrCreate` | server/db.ts:21-28 | the lookup returns the stored row of a known id and leaves the table as it was; on an unknown id it inserts exactly the default row (`is_subscribed` 0, no subscription id) and returns it; no other row changes, and every row stays keyed by its own id |
| `Users.DefaultUser` | server/db.ts:13-19 | the row `INSERT INTO users (id)` creates: the id, `is_subscribed` at its default 0, no subscription id |
| `Users.GetOrCreateAddsOneRow` | server/db.ts:23-25 | a miss adds exactly one row, a hit none |
| `Users.GetOrCreateTwice` | server/db.ts:21-28 | a second lookup of the same id returns the same row and changes nothing |
| `SqliteUsers.StoredSubscriptionId` | server/db.ts:31 | a missing or empty subscription id is stored as NULL, any other as given |
| `SqliteUsers.UpdateWhere` | server/db.ts:30-32 | the update inserts and removes no row; on an existing id it sets the flag to 1/0 and the stored subscription id, keeping the id; an id with no row leaves the table unchanged; every other row is untouched |
| `SqliteUsers.UpdateWhereIdempotent` | server/db.ts:31 | applying the same update twice equals applying it once |
| `SqliteUsers.UpdateWhereLastWins` | server/db.ts:31 | of two updates to the same id the later one wins |
| `SqliteUsers.UpdateWhereCommutes` | server/db.ts:31 | updates to different ids commute |
| `SqliteUsers.GetUserAfterUpdate` | server/db.ts:21-32 | a lookup after an update of a known user sees the update; after an update of an unknown id it sees the default row |
| `SqliteUsers.UserTable.constructor` | server/db.ts:13-19 | a fresh table is empty |
| `SqliteUsers.UserTable.GetUser` | server/db.ts:21-28 | the method's new table and result are `GetOrCreate` of the old table |
| `SqliteUsers.UserTable.UpdateUserSubscription` | server/db.ts:30-32 | the method's new table is `UpdateWhere` of the old one |
| `MemoryUsers.Upsert` | api/server-vercel.ts:20-23 | afterwards the map holds the id, whether or not it did before, with the flag set to 1/0 and the subscription id exactly as given; no other entry changes |
| `MemoryUsers.UpsertIdempotent` | api/server-vercel.ts:22 | applying the same upsert twice equals applying it once |
| `MemoryUsers.GetAfterUpsert` | api/server-vercel.ts:11-23 | a lookup after an upsert returns the upserted record, also for an id never seen before |
| `MemoryUsers.UpsertAgreesWithUpdateWhere` | api/server-vercel.ts:22 | on an existing user and a non-empty subscription id, the upsert and the SQL update leave the same table |
| `MemoryUsers.UpsertDiffersFromUpdateWhere` | api/server-vercel.ts:20-23 | on an unknown id only the upsert creates the record |
| `MemoryUsers.MemoryStore.constructor` | api/server-vercel.ts:8 | the store starts empty |
| `MemoryUsers.MemoryStore.GetMemoryUser` | api/server-vercel.ts:11-18 | the method's new map and result are `GetOrCreate` of the old map |
| `MemoryUsers.MemoryStore.UpdateMemorySubscription` | api/server-vercel.ts:20-23 | the method's new map is `Upsert` of the old one |
| `Server.Authenticate` | server.ts:31-37 | a truthy `x-user-id` attaches `getUser` of it (the table changes as `GetOrCreate` says); otherwise no user is attached and the table is unchanged |
| `Server.ServerWordCount` | server.ts:47 | `text.trim().split(/\s+/).length` is the number of words of a non-blank text, and 1 for a blank one |
| `Server.OverWordLimit` | server.ts:49 | the gate holds exactly for a non-subscriber whose text has more than 100 words; a blank text, counted 1, never reaches it |
| `Server.SelectTone` | server.ts:53-60 | a non-default tone is chosen only by its own name; "Friendly", "Professional" and "Narrator" never fall to the default |
| `Server.SelectToneByName` | server.ts:53-60 | each tone is selected by its name |
| `Server.HumanizeRequest` | server.ts:39-51 | 401 without a user; a missing text throws outside the try block; 403 exactly when the word count exceeds 100 and the user is not subscribed; otherwise Gemini gets the text and the selected tone, and only then |
| `Server.RewriteReply` | server.ts:62-106 | a missing API key or a failed call is 500; otherwise the reply text, with a missing or empty one sent as "" |
| `Server.Humanize` | server.ts:39-107 | 401 exactly without a user, 403 exactly for an over-limit non-subscriber; any rewritten text comes from a request under the limit or from a subscriber; a request that passes the checks gets `RewriteReply` of the Gemini outcome |
| `Server.SubscriberPassesGate` | server.ts:49-51 | a subscriber is never refused by the gate |
| `Server.LongTextNeedsSubscription` | server.ts:47-51 | a non-subscriber's text of more than 100 words is refused with 403 before Gemini is called |
| `Server.DetectRequest` | server.ts:113-119 | 401 without a user; a missing, empty or blank text scores 0 with no remote call; any other text goes to the detector |
| `Server.Clamp` | server.ts:146 | `Math.max(0, Math.min(100, x))` lies in 0..100, keeps values in range and maps values below and above to 0 and 100 |
| `Server.DetectorScore` | server.ts:137-146 | every normalised score lies in 0..100 |
| `Server.DetectorScoreOfBlank` | server.ts:137 | a missing or blank reply becomes "0" and scores 0 |
| `Server.DetectorScoreOfNaN` | server.ts:141-143 | an unparsable reply scores 0 |
| `Server.DetectorScoreReadsNumeral` | server.ts:137-146 | a reply holding a possibly signed numeral with any leading zeros, surrounded by white space and followed by anything that does not extend the number, scores that number clamped to 0..100 |
| `Server.DetectReply` | api/server-vercel.ts:98-122 | once a text was sent, a failed call is 500 and a reply is its normalised score (server.ts:121-160 behaves the same as modelled; the two differ only in error-reply bodies) |
| `Server.DetectAi` | server.ts:109-161 | 401 exactly without a user; every score answered lies in 0..100; a blank text scores 0; any other text gets `DetectReply` of the detector's outcome |
| `Server.UserStatus` | server.ts:163-171 | 401 exactly without a user; otherwise whether the stored flag is 1 |
| `Server.MockCheckoutUrl` | server.ts:184-188 | the demo link starts with the demo checkout base |
| `Server.ParseMockCheckoutUrl` | server.ts:187 | every link it accepts is the demo link of the variant and user id it returns, and that variant has no '?' |
| `Server.MockCheckoutUrlRoundTrip` | server.ts:187 | the demo link of a variant without '?' reads back as that variant and user id |
| `Server.MockCheckoutUrlSeparatesUsers` | server.ts:187 | distinct users get distinct demo links for the same variant, whatever the variant |
| `Server.Checkout` | server.ts:174-238 | 401 exactly without a user; without an API key or store id, the demo link carrying the user's id; otherwise the API's URL, or 500 exactly when that call failed |
| `Server.ActiveStatus` | server.ts:267 | the statuses that count as subscribed are exactly active, past_due and on_trial |
| `Server.GrantingEvent` | server.ts:265 | the events on which the status decides are exactly subscription_created and subscription_updated |
| `Server.EndingEvent` | server.ts:269 | the events that clear the flag are exactly subscription_cancelled and subscription_expired, and none of them is a granting event |
| `Server.BadSignature` | server.ts:250 | the length test and `timingSafeEqual` together refuse exactly the headers that differ from the digest |
| `Http.UserIdOf` | server.ts:258-259 | `custom_data?.user_id`: missing when `custom_data` is, otherwise its `user_id` |
| `Server.ServerWebhook` | server.ts:241-278 | with a secret, a header that is not the digest is 403 before any parse or store call; a store call is only made with 200 'OK'; on every accepted header (no secret, or the digest): with no user id, 400 and no change; created/updated set the flag to whether the status is active, past_due or on_trial, with `data.id`, and without `data` or `data.attributes` are 500 with no change; cancelled/expired clear it, and without `data` are 500 with no change; other events are 200 with no change; an unparsable body is 500 with no change |
| `Server.UnsignedWebhookIgnoresSignature` | server.ts:242-245 | without a secret the header is not consulted and never causes a 403 |
| `Server.SignedWebhookAccepted` | server.ts:246-252 | with a secret, the header carrying the body's digest passes the check |
| `Server.ApplyToTable` | server.ts:265-271 | the table after the webhook is unchanged or the decided `UpdateWhere`, and it keeps exactly the ids it had |
| `Server.StatusAfterWebhook` | server.ts:265-270 | after a webhook sets the flag of a user who has a row, `/api/user` reports that flag |
| `Server.WebhookForUnknownUserIsLost` | server.ts:265-270 | an update for a user without a row is acknowledged but leaves the table as it was |
| `Server.HandleWebhook` | server.ts:241-278 | the route answers the decision's reply, and its table afterwards is the decision applied to the old table |
| `Vercel.Authenticate` | api/server-vercel.ts:29-35 | a truthy `x-user-id` attaches `getMemoryUser` of it; otherwise no user is attached and the map is unchanged |
| `Vercel.HumanizeRequest` | api/server-vercel.ts:38-50 | the only refusal is 401 without a user; otherwise Gemini gets the text, whatever its length, with the selected tone |
| `Vercel.Humanize` | api/server-vercel.ts:38-90 | 401 exactly without a user, and never 403; with a user, the answer is `RewriteReply` of the Gemini outcome whatever the length |
| `Vercel.WordGateOnlyInServer` | api/server-vercel.ts:38-50 | a long text from a non-subscriber is refused by server.ts and sent to Gemini here |
| `Vercel.SameRewriteWhenAllowed` | api/server-vercel.ts:38-64 | wherever server.ts lets a request through, both versions send the same text and tone |
| `Vercel.VercelWebhook` | api/server-vercel.ts:192-214 | with a secret, a header of another length than the digest throws outside the try block, one of the same length but other bytes is 403; never 400; on every accepted header (no secret, or the digest): with no user id, 200 and no change; with a user id, the flag is whether the event name contains "created" or "updated", whatever the status, with the raw `data.id`, and a missing `event_name` or `data` is 500 with no change; an unparsable body is 500 with no change |
| `Vercel.GrantsByName` | api/server-vercel.ts:207 | the flag is set exactly when "created" or "updated" occurs anywhere in the event name |
| `Vercel.PoliciesAgreeOnActiveSubscription` | api/server-vercel.ts:204-208 | on an accepted created/updated event with a whitelisted status, both versions make the same store call |
| `Vercel.GrantingEventsGrantByName` | api/server-vercel.ts:207 | both granting event names of server.ts contain "created" or "updated" |
| `Vercel.PoliciesDifferOnInactiveUpdate` | api/server-vercel.ts:207 | an accepted update with an off-list status unsubscribes in server.ts and subscribes here |
| `Vercel.PoliciesDifferOnOrderCreated` | api/server-vercel.ts:207 | an accepted `order_created` event subscribes the user here and is ignored by server.ts |
| `Vercel.PoliciesDifferOnOtherEvent` | api/server-vercel.ts:207-208 | an accepted event about a user whose name contains neither word and is no ending event is ignored by server.ts and unsubscribes the user here, storing that event's `data.id` |
| `Vercel.PoliciesDifferOnMissingUserId` | api/server-vercel.ts:205-210 | without a user id, server.ts answers 400 and this version 200; neither changes anything |
| `Vercel.PoliciesDifferOnSignatureLength` | api/server-vercel.ts:198 | a signature of the wrong length is 403 in server.ts and an uncaught error here |
| `Vercel.ApplyToStore` | api/server-vercel.ts:208 | the map after the webhook is unchanged or the decided `Upsert`, and a store call adds exactly the event's user id to the ids |
| `Vercel.StatusAfterWebhook` | api/server-vercel.ts:204-208 | after a stored webhook, `/api/user` reports its flag, whether or not the user was known |
| `Vercel.WebhookCreatesUnknownUser` | api/server-vercel.ts:208 | a stored webhook about a never-seen user creates the record, and a later lookup sees the stored flag |
| `Vercel.HandleWebhook` | api/server-vercel.ts:192-214 | the route answers the decision's reply, and its map afterwards is the decision applied to the old map |
| `App.GetWordCount` | src/App.tsx:56-59 | the count is the number of maximal non-space runs, and 0 exactly for a blank text |
| `App.IsOverLimit` | src/App.tsx:62 | the client flag holds exactly when the text has more than 100 words and the status is not known to be true |
| `App.HumanizeBlocked` | src/App.tsx:65 | the handler returns at once exactly on a blank text or an over-limit one |
| `App.HumanizeDisabled` | src/App.tsx:237 | the button is disabled exactly while loading, on a blank text, or over the limit |
| `App.CountWordsOfTrimmed` | src/App.tsx:58 | a non-empty trimmed text has at least one word |
| `App.EnabledButtonPassesGuard` | src/App.tsx:237 | an enabled button never runs into the handler's early return, and a blank text always disables it |
| `App.ClientAndServerCountsAgree` | src/App.tsx:58 | client and server counts agree on non-blank text; on blank text the client counts 0 and the server 1 |
| `App.ClientLimitMatchesServerGate` | src/App.tsx:62 | with the stored status known, the client's over-limit flag is exactly the server's 403 condition |
| `App.UnknownStatusIsConservative` | src/App.tsx:25 | a null status is treated as not subscribed, so it blocks at least what a known status blocks |
| `App.ClientSendsOnlyWhatServerAccepts` | src/App.tsx:65 | a humanize request the client lets through, with the status known, passes every check of server.ts |
| `App.ScoreBand` | src/App.tsx:274-278 | red exactly above 50, amber exactly in 21..50, emerald exactly at 20 or below (the output badge at 307-311 uses the same rule) |
| `App.ScoreBandMonotone` | src/App.tsx:274-278 | a higher score never gets a milder colour |
| `App.ShowUpgrade` | src/App.tsx:202 | the upgrade button shows exactly when the status is known to be false |

## Left out

- server/sqlite.ts is not part of this model. It loads a native module and
  sets up a directory and schema, and no modelled file imports it.
- The SQLite engine and the `fs`/`path` set-up of server/db.ts:1-11 are left
  out. The table is the map the engine maintains, and SQL text is not
  modelled. Storage errors are not modelled either: `getUser` and
  `updateUserSubscription` have no error handling of their own.
- HMAC-SHA256 and `crypto.timingSafeEqual` are foreign cryptography.
  - The digest is a function parameter that returns the UTF-8 bytes of the
    hex digest.
  - `timingSafeEqual` on equal lengths is byte equality. It is constant
    time, which the model cannot express.
  - The `X-Signature` header enters as its UTF-8 bytes, empty when absent.
- `JSON.parse` and property access are not modelled as such.
  - The parse result is a parameter; None means the parse threw or gave no
    object.
  - Every JSON field is an optional string. A JSON `null` and a missing
    field are both None.
  - Non-string values, such as a numeric `user_id` or `id`, are not
    modelled.
- Gemini calls are left out. Each call is represented by its outcome
  (throws, or replies a possibly missing text). The prompt texts are
  represented by the chosen `Tone`. The model, temperature and other
  request options are not modelled.
- The `fetch` to the Lemon Squeezy checkout API and its `data.errors`
  handling are left out. They are represented by the call's outcome: it
  fails (500) or replies a possibly missing URL. The error message texts
  are not modelled.
- Reply bodies beyond the fields listed in `Http.Response` are not
  modelled. These include error message strings, `details` and `stack`,
  and the JSON shape of each reply. Both versions' catch blocks are the
  same 500 reply.
- An error thrown outside a try block is the reply `Uncaught`. This covers a
  missing `text` in server.ts, and a signature-length mismatch in
  api/server-vercel.ts, where the error middleware is registered before the
  route. What the framework then sends is not modelled.
- Express plumbing is left out: middleware ordering beyond the above,
  logging, `/api/health`, `process.on` handlers, Vite and static serving,
  and `app.listen`.
- `variantId` enters as the text it renders to in the template literal.
  Template rendering of non-string values is not modelled.
- React rendering and state setters are left out. So is `getUserId`, which
  depends on `Math.random` and `localStorage`. The fetch to `/api/user` is
  represented by the `boolean | null` state it sets.
- src/components/PricingModal.tsx is UI making a two-way variant choice
  followed by fetch and redirect. src/components/SEO.tsx holds static meta
  tags. Neither is in the model.
- Concurrency between requests is not modelled; the code has no
  concurrency logic.
- Strings are sequences of code points, not UTF-16 code units. This matters
  only outside the Basic Multilingual Plane and does not affect whitespace
  classes or digits.
- `Js.ParseInt`: JavaScript's `parseInt` returns a double, so above 2^53 it
  rounds (and a very long numeral gives Infinity); the model returns the
  exact integer. The only caller clamps the result to 0..100, which hides
  the difference.
- `Js.ParseIntReadsNumeral`: it reads back the exact value of any numeral;
  JavaScript's `parseInt` does so only up to 2^53, above which it rounds to
  a double. `Server.DetectorScore` clamps to 100 long before that.
- `Server.DetectorScore`: its own contract states only the 0..100 bound.
  What it computes is stated case by case by `Server.DetectorScoreOfBlank`,
  `Server.DetectorScoreOfNaN` and `Server.DetectorScoreReadsNumeral`, the
  last for numerals with or without leading zeros.
