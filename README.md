# Purchase-approval audit system, modelled in Dafny

The system is a small web application for purchase-approval requests ("audits") with two
roles. A USER files requests. An AUDITOR approves or rejects them. This project models its
core in Dafny 4.11 and proves properties of that model:

- **The store (`db.dfy`, module `Db`).** The `users` and `audits` tables are sequences of
  rows held by the class `Database`. Their CREATE TABLE constraints are the class invariant
  `Valid()`: AUTOINCREMENT ids, UNIQUE NOT NULL usernames, and the role and status CHECKs.
  The INSERT primitives enforce those constraints in SQLite's order (CHECK before UNIQUE).
  `seedUser` and `seedInitialUsers` are a conditional insert and a loop over the seed list.
  The loop is proved against the reference function `SeedAll`, and `SeedAll` is proved
  idempotent.
- **The server (`server.dfy`, module `Server`).** The handlers for register, login,
  `/api/me`, and GET/POST/PUT `/api/audits` are methods. They take the database handle and
  the session identity. The queries they run are functions over a snapshot of the tables:
  the least-loaded auditor, the role-scoped listing, the audit lookup and `safeParse`. Every
  handler keeps `Consistent`, which is the store invariant plus the references the
  application maintains: every `assigned_to` and `reviewed_by` names an AUDITOR, and every
  `created_by` names a stored user. The handlers that act for a session take an identity
  that is a stored user's, which is the only kind a successful login puts in a session. The creation and update handlers also
  never produce the declared but unused PENDING_DATA state.
- **JSON (`json.dfy`, module `Json`).** Request payloads are JSON values. Stored blobs are
  cells: NULL, the encoding of a value, or text that does not parse.
- **The client (`client.dfy`, module `Client`).** This is the decision logic of
  `public/script.js`: status labels, the invoice verification report, the dashboard filter
  and counters, the purchase payload and request body, and the panel gating of the detail
  view. The globals `currentUser` and `currentAuditId` are fields of the class `Page`.

The model follows the code where it is looser than the intended workflow:

- Any AUDITOR may review any audit, in any state.
- Any requested status other than `APPROVED` becomes REJECTED.
- The creator may resubmit whatever the current status.
- The assignment query has no tie-break.
- A session whose role is neither USER nor AUDITOR gets an unfiltered listing (`WHERE 1=1`
  with no further condition), not an empty one.
- A login that fails leaves the session as it was.

## Model

| member | source | states |
|---|---|---|
| `Json.Stringify` | server.js:188-189 | `JSON.stringify` of an absent value is stored as NULL; a present value is stored as its encoding |
| `Json.SafeParse` | server.js:257-263 | an encoded value reads back as itself; NULL, empty and unparsable text read as `{}` |
| `Json.ParseStringified` | server.js:257-263 | what the server writes, `safeParse` returns; an absent payload reads back as `{}` |
| `Json.LookupDistinct` | public/script.js:187-196 | in an object literal with distinct keys, property access yields the member's value |
| `Db.FindByUsername` | db.js:116 | finds a row exactly when a row with that username exists, and the row it returns has that username |
| `Db.FindUser` | server.js:199 | finds a row exactly when a row with that id exists, and the row it returns has that id |
| `Db.AddUser` | db.js:50-55 | an insert with a valid role and a fresh username keeps the users constraints, adds that username and removes none |
| `Db.SeedStep` | db.js:116-142 | an existing username leaves the table as it is; the step fails only when the username is absent and the role breaks the CHECK |
| `Db.SeedAllKeeps` | db.js:102-111 | seeding never removes a username |
| `Db.SeedAllGrows` | db.js:102-111 | seeding only appends rows |
| `Db.SeedAllEstablishes` | db.js:102-111 | with valid roles, seeding completes and every seed username exists afterwards |
| `Db.SeedAllInserts` | db.js:102-111 | a seed username that was absent ends up with the seed's role |
| `Db.SeedAllPresent` | db.js:122-126 | when every seed username exists, seeding changes nothing |
| `Db.SeedAllIdempotent` | db.js:102-111 | seeding twice gives the same result as seeding once |
| `Db.SeedAllValid` | db.js:50-55 | seeding keeps the users constraints and only appends rows |
| `Db.Database.constructor` | db.js:47-80 | a freshly created store is empty, satisfies the table constraints, and both AUTOINCREMENT sequences hand out id 1 first |
| `Db.Database.Now` | server.js:222 | `datetime('now')` returns the clock and advances it, changing nothing else |
| `Db.Database.InsertUser` | db.js:50-55 | the role CHECK is tested before the UNIQUE index; a refused row changes nothing; an accepted row gets the next id and the current time |
| `Db.Database.InsertAudit` | db.js:61-80 | the status CHECK is enforced; an accepted row is appended with the next id and the current time, and its other nullable columns are NULL |
| `Db.Database.UpdateAudit` | db.js:69 | an update that keeps the status CHECK replaces exactly that row; any other update changes nothing |
| `Db.Database.SeedUser` | db.js:113-150 | resolves and leaves the table unchanged for an existing username; otherwise inserts exactly one row, or rejects with no change |
| `Db.Database.SeedInitialUsers` | db.js:102-111 | equals `SeedAll` over `auditor`/AUDITOR and then `user`/USER; afterwards both usernames exist, a seed that was absent has its seeded role, and when both already existed nothing changes |
| `Server.RequireAuth` | server.js:43-47 | refuses with 401 "Unauthorized" exactly when there is no session identity; otherwise hands on that identity |
| `Server.Me` | server.js:110 | 401 without a session, otherwise the session identity |
| `Server.ValidationError` | server.js:37-41 | reports an error exactly when the body breaks the schema: username must be ASCII-alphanumeric with 3 to 30 characters, password at least 6 characters, role USER or AUDITOR, and no other keys |
| `Server.Register` | server.js:51-75 | an invalid body gives 400 with no change; a taken username gives 409 with no change; otherwise 201 with exactly one new row holding the username, the password's digest and the role; the code is 201 exactly in that case; after a success the username is taken, so a second registration of it gives 409, and the same username and password pass login's check |
| `Server.Login` | server.js:77-98 | missing fields give 400; success happens exactly when the username exists and the password matches; an unknown user and a wrong password both give 401 "Invalid credentials" and keep the session; success sets the session to exactly that user's {id, username, role}; a session that held a stored user's identity still does afterwards |
| `Server.LeastLoaded` | server.js:158-176 | none exactly when no AUDITOR-role user exists; otherwise an AUDITOR whose count of assigned PENDING_REVIEW audits is at most every other auditor's |
| `Server.DisplayName` | server.js:199-205 | the username of the id when it resolves, otherwise "Unknown" |
| `Server.KindOr` | server.js:185 | the given type when it is non-empty, otherwise "Purchase" |
| `Server.InsertRequest` | server.js:180-191 | appends exactly one row: the next id, PENDING_REVIEW, the caller as creator, the given assignee, config `{require_purchase_rate: true}`, the type or "Purchase", the payload's encoding and the current time; the id sequence and the clock each move on by one; users are unchanged; the creator is a stored user and the assignee an auditor |
| `Server.CreateAudit` | server.js:147-209 | no session gives 401; a missing title or purchase_data gives 400; no auditor gives 400 "No auditors available in the system."; all three change nothing; otherwise exactly one row is appended (PENDING_REVIEW, the caller as creator, config `{require_purchase_rate: true}`, the type or "Purchase") and assigned to a least-loaded auditor, with all existing rows unchanged; the new id is the next in the sequence, which moves on by one, and the clock advances by one reading; the code is 201 exactly when the caller is signed in, both fields are given and an auditor exists; the new row's creator is a stored user |
| `Server.ListingSound` | server.js:117-141 | every listed row is an audit the caller may see (USER: created_by is the caller; AUDITOR: assigned_to is the caller), with both blobs read through `safeParse` and the joined usernames |
| `Server.ListingComplete` | server.js:124-130 | every audit the caller may see is listed |
| `Server.ListingNewestFirst` | server.js:132 | listed rows come in strictly decreasing created_at |
| `Server.GetAudits` | server.js:113-144 | no session gives 401; otherwise 200 with the role-scoped listing of the current tables |
| `Server.FindAudit` | server.js:216-217 | finds a position exactly when some audit has the id, and the audit at that position has the id |
| `Server.ReviewedRow` | server.js:220-224 | status becomes VERIFIED exactly when the requested status is 'APPROVED', otherwise REJECTED; notes become the given notes or ""; the reviewer and review time are set; no other column changes |
| `Server.ResubmittedRow` | server.js:238-240 | status becomes PENDING_REVIEW and the stored purchase data reads back as the submitted one; assignee, notes and review columns are untouched |
| `Server.Review` | server.js:220-235 | any AUDITOR rewrites row k as `ReviewedRow` does, whatever its status, with the review time taken from the clock; the reply names the creator or "Unknown"; no other row changes, and the reviewer recorded is a stored AUDITOR |
| `Server.Resubmit` | server.js:238-250 | row k is rewritten as `ResubmittedRow` does, whatever its status; the reply names the assignee or "Unknown"; no other row, no user and no clock reading changes |
| `Server.UpdateAudit` | server.js:212-255 | no session gives 401 and a missing id gives 404, both with no change; an AUDITOR rewrites only that row, as `ReviewedRow` does, whatever its current status; the creating USER rewrites only that row, as `ResubmittedRow` does, whatever its current status; anyone else gets 403 with no change; the code is 200 exactly in the AUDITOR and creator cases |
| `Client.ReplaceUnderscores` | public/script.js:288 | same length; every '_' becomes a space and every other character is kept |
| `Client.FormatStatus` | public/script.js:281-289 | the four statuses map to "Draft", "Pending Review", "Verified" and "Rejected"; any other string has each '_' replaced by a space; no label contains '_' |
| `Client.FormatStatusDistinguishes` | public/script.js:282-287 | distinct statuses get distinct labels |
| `Client.Verify` | public/script.js:306-329 | no invoice gives High/Rejected with one observation and one action; an invoice with a missing number or date gives Medium/Flagged with the "key details are missing" observation and one action per missing field, number before date; invoice, number and date together give Low/Verified with no action; there are no actions exactly when the risk is Low |
| `Client.OnlyStatus` | public/script.js:241 | keeps exactly the rows with that status |
| `Client.OnlyStatusAppend` | public/script.js:241 | the filter preserves the original order: filtering a concatenation concatenates the filtered parts |
| `Client.FilterByStatus` | public/script.js:240-242 | 'all' shows every row; any other filter shows exactly the rows with that status, in their original order (it is `OnlyStatus`, which `OnlyStatusAppend` shows order-preserving) |
| `Client.DashboardAsWritten` | public/script.js:247-273 | when the filtered list is empty both counters are 0; otherwise they count all audits and the PENDING_REVIEW ones |
| `Client.DashboardAsWrittenMiscounts` | public/script.js:247-251 | one VERIFIED audit under the PENDING_REVIEW filter shows a total of 0, but a total of 1 under 'all' |
| `Client.DashboardOf` | public/script.js:270-273 | the counters are the number of all audits and the number a PENDING_REVIEW filter would show, whatever the filter |
| `Client.DashboardCountersIgnoreFilter` | public/script.js:270-273 | the intended counters are the same under any two filters |
| `Client.PurchaseData` | public/script.js:186-196 | purchase_rate equals amount; approved_rate is 0; attachments.invoice is the checkbox |
| `Client.CreateRequest` | public/script.js:207-212 | the body carries the title, type "Purchase Request" and that purchase data |
| `Client.CreateRequestAccepted` | public/script.js:207-212 | a request with a title passes the server's missing-field check, is stored with type "Purchase Request", and its purchase data reads back unchanged |
| `Client.DetailPanels` | public/script.js:409-440 | the decision panel appears exactly for an AUDITOR on a PENDING_REVIEW audit; the rejection box appears exactly for a USER on a REJECTED audit and shows the notes, or "Please contact auditor." when they are empty; the approval note appears exactly for a USER on a VERIFIED audit |
| `Client.PanelsExclusive` | public/script.js:409-440 | at most one of the three panels is shown |
| `Client.FindView` | public/script.js:376-378 | `find` returns the first row with that id, or nothing exactly when no row has it |
| `Client.Page.constructor` | public/script.js:1-2 | both globals start as null |
| `Client.Page.SignIn` | public/script.js:88-90 | `currentUser` becomes the identity the server returned |
| `Client.Page.SignOut` | public/script.js:139-145 | `currentUser` becomes null |
| `Client.Page.OpenAuditDetail` | public/script.js:372-443 | `currentAuditId` becomes the id even when no row has it; with a row, the panels are those of `DetailPanels` for the current role |
| `Client.Page.SubmitReview` | public/script.js:445-452 | the PUT targets `currentAuditId` and carries the decision and the notes, or "" |
| `Client.ReviewButtons` | public/script.js:418-419 | Approve leads to VERIFIED and Reject to REJECTED, with the typed notes stored |

## Left out

- HTTP plumbing is not modelled: Express routing, static serving, the SPA catch-all, helmet and the three `app.listen` calls.
- Sessions are not modelled as such. The session is an optional identity that handlers take and `Login` returns. Cookie and express-session mechanics, their lifetime and POST /api/logout are left out.
- bcrypt is an uninterpreted `digest` function fixed when the store is created, so `compare(p, h)` is `digest(p) == h`. Salt randomness and the cost factor are not modelled. "The stored digest never equals the plain text" cannot be stated for an arbitrary function.
- Server.Register: "login with any other password fails" is not promised. It would need an injective `digest`, and real bcrypt is not injective: it ignores everything after the first 72 bytes of a password.
- Server.CreateAudit, Server.UpdateAudit, Server.Review: they require a session identity that belongs to a stored user (or no session). In the source only a successful login sets the session, from a stored row, and rows are never changed or deleted. Sessions that outlive their database file are not modelled.
- Joi internals are not modelled. The messages follow Joi's default wording for the first failing rule. Request fields that are not strings are not represented. Lengths are counted in Unicode scalar values, not UTF-16 code units.
- Storage failures are not modelled: the 500 paths, the SQLite engine, the WAL pragmas, the indexes, data-directory creation, `process.exit` and the SIGINT handler. Foreign keys are not modelled because SQLite does not enforce them without a pragma the code never sets.
- Time is a counter that every `datetime('now')` reads and advances. The real clock has one-second resolution, so rows created in the same second tie in `ORDER BY created_at DESC` and may come back in any order. The model has no such ties.
- JSON numbers are integers. Floating-point values are not modelled.
- The audit id in PUT /api/audits/:id is a natural number. A non-numeric path segment, which finds no row and gives 404, is not represented.
- Concurrency is not modelled. Each handler runs as one atomic step, although the assignment query, the insert and the name lookup of creation are separate callbacks in the source.
- Server.LeastLoaded: the function is deterministic and takes the earliest minimal auditor, while the SQL query may return any minimal one. The contract promises only minimality.
- Browser rendering is not modelled: the DOM and innerHTML, `fetch`, notifications, `setTimeout`, `switchView`, `setupUI`, and the registration and login forms. The two fetches of `loadAudits` are modelled as one snapshot.
- The amount check `parseFloat(amount) <= 0` is not modelled, because it is floating-point parsing.
- The body of `handleCreateRequest` also has a top-level `require_purchase_rate: true` key. It is not represented because the server never reads it.
- `formatStatus` looks up `statusMap` on a plain object, so inherited keys such as `constructor` would also hit. The model treats only the four declared keys as hits.
- Client.Page.OpenAuditDetail requires a signed-in user. With `currentUser` null, the source throws a TypeError at the role check.

## Findings

| source | as written | input that shows it | evidently intended | confidence | as-written member | corrected member |
|---|---|---|---|---|---|---|
| public/script.js:247-251 | when the filtered list is empty, `loadAudits` sets both counters to 0 and returns before counting all audits | one VERIFIED audit under the PENDING_REVIEW filter: the total shows 0 | the counters always count all audits, whatever the filter (the comment at line 270) | medium, not executed | `Client.DashboardAsWrittenMiscounts` | `Client.DashboardOf` |
