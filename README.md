# Vapi spam blocker: call gate, webhook bookkeeping and phone audit in Dafny

This project models the decision logic of a small spam-call-blocking backend
built on a voice-AI platform (Vapi) and a hosted users database. Three pieces:

- **Call start** (`call_start.dfy`, module `CallStart`): `/api/call/start`
  accepts a phone number only when it matches `^\+\d{10,15}$` (a `+`, then
  10 to 15 decimal digits; 15 is the E.164 maximum of section 6 of ITU-T
  Recommendation E.164). A rejected number answers status 400 with
  `success: false` before any payload exists. An accepted one gets a payload
  with `assistantId`, `customer.number`, and `phoneNumberId` only when that
  setting is configured. The regular expression is modelled twice: as a
  left-to-right matcher (`Matches`), and as the declarative set
  `IsE164Format`. They are proved equal. `server.js` is an earlier revision
  whose handler text is the same as `server.cjs`, so one module models both.
  The two validators therefore accept the same strings by construction.
- **Webhook** (`webhook.dfy`, module `Webhook`): the event type is
  `message.type` when truthy, else the top-level `type`. `checkCallAllowed`
  gives one of three outcomes. An unregistered number is denied. A user at or
  over the monthly limit is denied. Otherwise the call is allowed with
  `callsRemaining = limit - used`, which is at least 1. The
  `end-of-call-report` branch writes a call-log row: the persona name comes
  from the assistant id, defaulting to 'Unknown', and the duration is whole
  seconds, or 0 when there is no end time. It then sets the user's counter to
  the count it read plus one, even when the user is already over the limit.
  The users and call-log tables are fields of class `Database`, which
  `HandleWebhook` updates.
- **Phone audit** (`phone_mappings.dfy`, module `PhoneMappings`): a loop
  groups users by phone number into a dictionary. Users with no phone or an
  empty phone are skipped, and each bucket keeps input order. A second loop
  flags a phone as DUPLICATE when its bucket has more than one user. The user
  of the most recent call is the first user with that id.

`lists.dfy` models `Array.prototype.find`, `users.dfy` the user row, and
`wrappers.dfy` the optional value that stands for `undefined`/`null`.

Modelling choices:
- Database reads are parameters. The users-table query by phone number
  followed by `.single()` is a total function
  `lookup: Option<string> -> Option<User>`. It is applied to the number the
  source queries: the receiving number for end-of-call, the caller's number
  for `checkCallAllowed`.
- The clock (`updated_at`) is the parameter `now`. Timestamps are integer
  milliseconds.
- Whether the call-log insert succeeds is the parameter `logInsertOk`. The
  source only logs a failed insert and still increments the counter.
- `startedAt` has three forms. When it is `undefined`, `new Date(undefined)`
  is an invalid date and a present `endedAt` gives `NaN` (`Seconds.NotANumber`).
  When it is `null`, `new Date(null)` is the epoch, so the duration is
  `endedAt` counted from 0.
- An `end-of-call-report` with no `message` (its type then came from the
  top-level field) makes `callData.call` throw, and the handler answers 500
  (`ServerError`).

## Model

| member | source | states |
|---|---|---|
| `Lists.FirstIndex` | server.cjs:215 | the index returned holds the first element satisfying the predicate; none is returned only when no element satisfies it |
| `Lists.Find` | check-phone-mappings.js:54 | returns the first element satisfying the predicate, or nothing when none does |
| `CallStart.RunInDigits` | server.cjs:34 | after the `+`, the matcher stays alive exactly while it reads digits, and at most 15 of them |
| `CallStart.MatchesIffE164Format` | server.cjs:34 | the anchored pattern accepts exactly `+` followed by 10 to 15 decimal digits and nothing else |
| `CallStart.AcceptsIffE164` | server.js:35 | a phone number is accepted iff it is present and in that format; missing or empty numbers are rejected |
| `CallStart.AcceptedIsAnchored` | server.js:35 | an accepted number has one leading `+`, 11 to 16 characters, and only digits after the `+` |
| `CallStart.DigitStringAccepted` | server.cjs:34 | every `+` followed by 10 to 15 digits is accepted |
| `CallStart.BuildPayload` | server.js:43-53 | the payload carries the given assistant id and customer number; `phoneNumberId` is present iff configured and then equals the setting |
| `CallStart.StartCall` | server.cjs:26-52 | 400 with `success: false` and the format error iff the number is not in the format, before any payload is built; otherwise the payload for that number |
| `Webhook.OrNull` | server.cjs:228-229 | `x \|\| null`: present exactly when the value is present and non-empty, and then unchanged |
| `Webhook.EventType` | server.cjs:153 | the message's type when it is present and non-empty, otherwise the top-level type |
| `Webhook.CheckCallAllowed` | server.cjs:274-297 | no user: denied as not registered; used >= limit: denied as limit reached; otherwise allowed with limit - used remaining, which is at least 1 |
| `Webhook.PersonaIdsDistinct` | server.cjs:145-150 | the four persona ids are pairwise distinct |
| `Webhook.AgentNameLookup` | server.cjs:215-223 | the agent name is the name of the persona whose id is the assistant id, and 'Unknown' when none matches |
| `Webhook.CallDuration` | server.cjs:187-189 | 0 without an end time; NaN when the start time is undefined; otherwise always a whole number, the floor of the elapsed milliseconds over 1000, with a null start read as the epoch |
| `Webhook.CallLogRecord` | server.cjs:218-230 | the logged row has the user's id, the caller's number, status 'completed', the assistant id, the persona name or 'Unknown' when no persona matches, the call's duration, the call id, and the transcript and recording URL with empty values as null |
| `Webhook.Incremented` | server.cjs:239-245 | the user's row gets the count it was read with plus one and the new `updated_at`; every other row and the key set stay the same |
| `Webhook.RecordedCallConsumesOne` | server.cjs:242 | after a recorded call the remaining allowance drops by exactly one, or becomes limit-reached; limit-reached stays limit-reached |
| `Webhook.OverLimitStillCounted` | server.cjs:210-212 | a user already at or over the limit is still counted: the counter becomes old + 1 and exceeds the limit |
| `Webhook.Database.HandleWebhook` | server.cjs:130-302 | end-of-call without a message: 500, nothing written. Unknown receiving number: warning, nothing written. Known user: one log row when the insert works, counter bumped. `checkCallAllowed`: the gate's answer for the caller's number. Anything else: acknowledged, nothing written |
| `PhoneMappings.GroupByPhone` | check-phone-mappings.js:18-27 | the keys, in creation order, are the distinct phones in first-appearance order; each key's bucket holds exactly its users in input order |
| `PhoneMappings.BucketEmptyOffKeys` | check-phone-mappings.js:22-24 | a phone that is not a key has an empty bucket |
| `PhoneMappings.PhonesAreDistinctPhones` | check-phone-mappings.js:20-27 | the key set is exactly the set of non-empty phones among the users, and no key is repeated |
| `PhoneMappings.BucketMembers` | check-phone-mappings.js:22-25 | every user in a bucket has a phone, and it is the bucket's key |
| `PhoneMappings.BucketAppend` | check-phone-mappings.js:20-25 | grouping distributes over concatenation, so users keep their relative input order within a bucket |
| `PhoneMappings.BucketMultiplicity` | check-phone-mappings.js:21-25 | each occurrence of a user with a phone appears once in its own phone's bucket and in no other; a user without a phone is in no bucket |
| `PhoneMappings.BucketSizesSum` | check-phone-mappings.js:20-27 | the bucket sizes add up to the number of users with a phone |
| `PhoneMappings.BucketNonEmpty` | check-phone-mappings.js:22-25 | a bucket is non-empty iff some user has that phone |
| `PhoneMappings.DuplicateIffShared` | check-phone-mappings.js:32 | a bucket has more than one user iff two distinct positions in the input share that phone |
| `PhoneMappings.Report` | check-phone-mappings.js:30-42 | one block per key, in key order, with that key's users; flagged DUPLICATE iff the bucket has more than one user |
| `PhoneMappings.CheckMappings` | check-phone-mappings.js:18-54 | one block per distinct phone in first-appearance order, each with its bucket and the duplicate flag; the recent call's user is the first user with that id, or none |

## Left out

- HTTP routing, middleware, `app.listen`, the API-key check with `process.exit`, and `console` output: framework and logging.
- The outbound `fetch` calls to the voice platform (`/api/call/start` after the payload is built, `/api/call/end`, `/api/assistants`) and their 200/500 handling: network I/O. `StartCall` stops at the payload it would send.
- Supabase client creation, query construction and `.single()` semantics: a foreign library. Lookups are the `lookup` parameter, writes are the `Database` fields, and a failed counter update is not modelled (every update is taken to succeed).
- Stripe checkout and webhook signature verification (server.cjs:309-358): library calls.
- `Date` parsing and `toISOString`: timestamps are integers. An `endedAt` string that is present but does not parse is not modelled.
- Concurrent webhooks: the read-then-write increment can lose updates. Only the single-call effect (snapshot count + 1) is modelled, and `Incremented` writes the snapshot's count + 1 rather than the stored count + 1.
- The `status-update`, `transcript` and other event branches: they only log (the in-progress branch also reads the users table) and write nothing. They are modelled as acknowledging with no write.
- A `phoneNumber` request field that is not a string (which would make `.match` throw): the model takes it to be a string or absent.
- `Object.keys` order: JavaScript lists integer-like keys (such as a 9-digit phone without `+`) first, in numeric order. The model uses insertion order for every key.
- Keys that collide with `Object.prototype` members (`constructor`, `__proto__`) on the plain-object `phoneMap`: not modelled.
- In check-phone-mappings.js, a `null` result for the recent call or for its user makes the script throw when it prints. `CheckMappings` returns `None` for the user instead.
- The React UI (src/App.jsx) and the other debug scripts: UI and database printing only.
- Caller-id sentinels, blocklists, SIP diversion-header parsing and duplicate-phone tie-breaking appear in none of the modelled files, so they are not modelled.
