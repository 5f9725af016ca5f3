/**
 * The HTTP handlers of the audit server, over the store of module Db: registration, login,
 * the authentication gate, least-loaded assignment, creation, role-scoped listing, and the
 * review / resubmit update. Handlers that write take the database handle and mutate it;
 * the queries they run are functions over a snapshot of the two tables.
 */
module Server {
  import opened Common
  import opened Json
  import opened Db

  /** `req.session.user`: the identity stored in the session at login. */
  datatype Identity = Identity(id: nat, username: string, role: string)

  /** A row of GET /api/audits: the audit, its parsed blobs and the two joined usernames. */
  datatype AuditView = AuditView(
    row: Audit,
    config: Json,
    purchaseData: Json,
    auditorName: Option<string>,   // LEFT JOIN users u ON a.assigned_to = u.id
    creatorName: Option<string>)   // LEFT JOIN users creator ON a.created_by = creator.id

  /** The response: status code and JSON body. */
  datatype Reply =
    | Failure(code: nat, error: string)
    | Registered(userId: nat)
    | LoggedIn(user: Identity)
    | Current(user: Identity)
    | Audits(rows: seq<AuditView>)
    | Submitted(id: nat, assignedTo: nat, assignedToName: string)
    | Reviewed(status: string, notifiedUser: string)
    | Resubmitted(notifiedAuditor: string)
  {
    function Code(): nat {
      match this
      case Failure(code, _) => code
      case Registered(_) => 201
      case Submitted(_, _, _) => 201
      case _ => 200
    }
  }

  const Unauthorized: Reply := Failure(401, "Unauthorized")
  const InvalidCredentials: Reply := Failure(401, "Invalid credentials")

  /**
   * The store invariant plus the references the application keeps: assignees and reviewers
   * are auditors, and every creator is a stored user.
   */
  ghost predicate Consistent(db: Db.Database)
    reads db
  {
    db.Valid() && References(db.users, db.audits)
  }

  predicate IsAuditorIn(users: seq<User>, id: nat) {
    exists i :: 0 <= i < |users| && users[i].id == id && users[i].role == AUDITOR
  }

  predicate IsUserIn(users: seq<User>, id: nat) {
    exists i :: 0 <= i < |users| && users[i].id == id
  }

  ghost predicate AssignedToAuditors(users: seq<User>, audits: seq<Audit>) {
    forall j :: 0 <= j < |audits| && audits[j].assignedTo.Some? ==> IsAuditorIn(users, audits[j].assignedTo.value)
  }

  ghost predicate ReviewedByAuditors(users: seq<User>, audits: seq<Audit>) {
    forall j :: 0 <= j < |audits| && audits[j].reviewedBy.Some? ==> IsAuditorIn(users, audits[j].reviewedBy.value)
  }

  ghost predicate CreatedByUsers(users: seq<User>, audits: seq<Audit>) {
    forall j :: 0 <= j < |audits| ==> IsUserIn(users, audits[j].createdBy)
  }

  /** `assigned_to` and `reviewed_by` name auditors; `created_by` names a user. */
  ghost predicate References(users: seq<User>, audits: seq<Audit>) {
    AssignedToAuditors(users, audits) && ReviewedByAuditors(users, audits) && CreatedByUsers(users, audits)
  }

  /**
   * A session identity is only ever set by a successful login, from a stored row, and rows
   * are never changed or deleted: the identity is that of some user in the table.
   */
  ghost predicate SignedIn(users: seq<User>, session: Option<Identity>) {
    session.Some? ==> exists i :: 0 <= i < |users| && IdentityOf(users[i]) == session.value
  }

  /** A signed-in identity is a stored user, and an AUDITOR identity is a stored auditor. */
  lemma SignedInRole(users: seq<User>, who: Identity)
    requires SignedIn(users, Some(who))
    ensures IsUserIn(users, who.id)
    ensures who.role == AUDITOR ==> IsAuditorIn(users, who.id)
  {
    var i :| 0 <= i < |users| && IdentityOf(users[i]) == who;
    assert users[i].id == who.id && users[i].role == who.role;
  }

  /** No audit is in the declared but never produced PENDING_DATA state. */
  ghost predicate NoDrafts(audits: seq<Audit>) {
    forall j :: 0 <= j < |audits| ==> audits[j].status != PENDING_DATA
  }

  /** Adding users keeps every reference valid. */
  lemma ReferencesGrow(users: seq<User>, users': seq<User>, audits: seq<Audit>)
    requires References(users, audits) && users <= users'
    ensures References(users', audits)
  {
    forall j | 0 <= j < |audits| && audits[j].assignedTo.Some?
      ensures IsAuditorIn(users', audits[j].assignedTo.value)
    {
      var i :| 0 <= i < |users| && users[i].id == audits[j].assignedTo.value && users[i].role == AUDITOR;
      assert users'[i] == users[i];
    }
    forall j | 0 <= j < |audits| && audits[j].reviewedBy.Some?
      ensures IsAuditorIn(users', audits[j].reviewedBy.value)
    {
      var i :| 0 <= i < |users| && users[i].id == audits[j].reviewedBy.value && users[i].role == AUDITOR;
      assert users'[i] == users[i];
    }
    forall j | 0 <= j < |audits| ensures IsUserIn(users', audits[j].createdBy) {
      var i :| 0 <= i < |users| && users[i].id == audits[j].createdBy;
      assert users'[i] == users[i];
    }
  }

  /** A signed-in identity stays signed in when users are added. */
  lemma SignedInGrow(users: seq<User>, users': seq<User>, session: Option<Identity>)
    requires SignedIn(users, session) && users <= users'
    ensures SignedIn(users', session)
  {
    if session.Some? {
      var i :| 0 <= i < |users| && IdentityOf(users[i]) == session.value;
      assert users'[i] == users[i];
    }
  }

  // ---------------------------------------------------------------------------------------
  // Authentication gate

  datatype Gate = Admit(user: Identity) | Refuse(reply: Reply)

  /** `requireAuth`: without a session identity the request ends with 401. */
  function RequireAuth(session: Option<Identity>): (g: Gate)
    ensures g.Refuse? <==> session.None?
    ensures g.Refuse? ==> g.reply == Unauthorized
    ensures g.Admit? ==> session == Some(g.user)
  {
    match session
    case None => Refuse(Unauthorized)
    case Some(who) => Admit(who)
  }

  /** GET /api/me */
  function Me(session: Option<Identity>): (reply: Reply)
    ensures session.None? <==> reply == Unauthorized
    ensures session.Some? ==> reply == Current(session.value)
  {
    match RequireAuth(session)
    case Refuse(r) => r
    case Admit(who) => Current(who)
  }

  // ---------------------------------------------------------------------------------------
  // Registration

  /** The fields of a POST /api/register body; `otherKeys` are keys outside the schema. */
  datatype RegisterBody = RegisterBody(
    username: Option<string>, password: Option<string>, role: Option<string>, otherKeys: seq<string>)

  predicate IsAlphanumeric(c: char) {
    ('a' <= c <= 'z') || ('A' <= c <= 'Z') || ('0' <= c <= '9')
  }

  predicate AllAlphanumeric(s: string) {
    forall i :: 0 <= i < |s| ==> IsAlphanumeric(s[i])
  }

  /** `registerSchema`: the rules a registration must meet. The schema admits no other keys. */
  predicate ValidRegistration(b: RegisterBody) {
    && b.username.Some? && AllAlphanumeric(b.username.value) && 3 <= |b.username.value| <= 30
    && b.password.Some? && 6 <= |b.password.value|
    && b.role.Some? && IsRole(b.role.value)
    && b.otherKeys == []
  }

  /**
   * `registerSchema.validate(body).error.details[0].message`: the first failing rule, taking
   * the keys in schema order and each key's rules in the order they were declared.
   */
  function ValidationError(b: RegisterBody): (e: Option<string>)
    ensures e.None? <==> ValidRegistration(b)
  {
    if b.username.None? then Some("\"username\" is required")
    else if b.username.value == "" then Some("\"username\" is not allowed to be empty")
    else if !AllAlphanumeric(b.username.value) then Some("\"username\" must only contain alpha-numeric characters")
    else if |b.username.value| < 3 then Some("\"username\" length must be at least 3 characters long")
    else if |b.username.value| > 30 then Some("\"username\" length must be less than or equal to 30 characters long")
    else if b.password.None? then Some("\"password\" is required")
    else if b.password.value == "" then Some("\"password\" is not allowed to be empty")
    else if |b.password.value| < 6 then Some("\"password\" length must be at least 6 characters long")
    else if b.role.None? then Some("\"role\" is required")
    else if !IsRole(b.role.value) then Some("\"role\" must be one of [USER, AUDITOR]")
    else if b.otherKeys != [] then Some("\"" + b.otherKeys[0] + "\" is not allowed")
    else None
  }

  /** POST /api/register */
  method Register(db: Database, body: RegisterBody) returns (reply: Reply)
    requires Consistent(db)
    modifies db
    ensures Consistent(db)
    ensures !ValidRegistration(body) ==>
              reply == Failure(400, ValidationError(body).value) && unchanged(db)
    ensures ValidRegistration(body) && HasUsername(old(db.users), body.username.value) ==>
              reply == Failure(409, "Username already taken") && unchanged(db)
    ensures ValidRegistration(body) && !HasUsername(old(db.users), body.username.value) ==>
              && reply == Registered(old(db.nextUserId))
              && db.Table() == AddUser(old(db.Table()), body.username.value, db.digest(body.password.value), body.role.value)
              && db.audits == old(db.audits) && db.nextAuditId == old(db.nextAuditId)
    ensures old(db.users) <= db.users
    ensures reply.Code() == 201 <==> ValidRegistration(body) && !HasUsername(old(db.users), body.username.value)
    ensures reply.Registered? ==>
              && HasUsername(db.users, body.username.value)
              && Authenticates(db, body.username.value, body.password.value)
  {
    var error := ValidationError(body);
    if error.Some? {
      return Failure(400, error.value);
    }
    var hashed := db.digest(body.password.value);
    var r := db.InsertUser(body.username.value, hashed, body.role.value);
    ReferencesGrow(old(db.users), db.users, db.audits);
    reply := if r.Inserted? then Registered(r.id) else Failure(409, "Username already taken");
    if r.Inserted? {
      // the new row is the last one, holding the username and the password's digest
      assert db.users[|db.users| - 1].username == body.username.value;
      assert db.users[|db.users| - 1].password == hashed;
    }
  }

  // ---------------------------------------------------------------------------------------
  // Login

  datatype LoginBody = LoginBody(username: Option<string>, password: Option<string>)

  /** The session identity of a user row: exactly its id, username and role. */
  function IdentityOf(u: User): Identity {
    Identity(u.id, u.username, u.role)
  }

  /** The user `name` exists and `password` hashes to its stored digest. */
  predicate Authenticates(db: Database, name: string, password: string)
    reads db
  {
    exists i :: 0 <= i < |db.users| && db.users[i].username == name && db.digest(password) == db.users[i].password
  }

  /**
   * POST /api/login. `session` is the session identity before the request, `session'` after:
   * it is replaced only on success.
   */
  method Login(db: Database, body: LoginBody, session: Option<Identity>) returns (reply: Reply, session': Option<Identity>)
    requires Consistent(db)
    ensures !Filled(body.username) || !Filled(body.password) ==>
              reply == Failure(400, "Missing fields") && session' == session
    ensures Filled(body.username) && Filled(body.password) ==>
              (reply.LoggedIn? <==> Authenticates(db, body.username.value, body.password.value))
    ensures Filled(body.username) && Filled(body.password) && !reply.LoggedIn? ==>
              reply == InvalidCredentials && session' == session
    ensures SignedIn(db.users, session) ==> SignedIn(db.users, session')
    ensures reply.LoggedIn? ==>
              && session' == Some(reply.user)
              && exists i :: 0 <= i < |db.users| && db.users[i].username == body.username.value &&
                             reply.user == IdentityOf(db.users[i])
  {
    if !Filled(body.username) || !Filled(body.password) {
      return Failure(400, "Missing fields"), session;
    }
    var name, password := body.username.value, body.password.value;
    var user := FindByUsername(db.users, name);
    if user.None? {
      return InvalidCredentials, session;
    }
    var u := user.value;
    if db.digest(password) != u.password {
      // usernames are unique, so no other row could match
      assert forall i :: 0 <= i < |db.users| && db.users[i].username == name ==> db.users[i] == u;
      return InvalidCredentials, session;
    }
    var who := IdentityOf(u);
    reply, session' := LoggedIn(who), Some(who);
  }

  // ---------------------------------------------------------------------------------------
  // Assignment

  /** The number of audits assigned to `id` that are waiting in PENDING_REVIEW. */
  function PendingCount(audits: seq<Audit>, id: nat): (n: nat)
    ensures n <= |audits|
  {
    if audits == [] then 0
    else PendingCount(audits[..|audits| - 1], id) +
         (if audits[|audits| - 1].assignedTo == Some(id) && audits[|audits| - 1].status == PENDING_REVIEW then 1 else 0)
  }

  /**
   * The assignment query: an AUDITOR-role user whose pending count is least. The query has no
   * tie-break; this definition happens to take the earliest row, and the contract promises
   * only that the result is some auditor with minimal count.
   */
  function LeastLoaded(users: seq<User>, audits: seq<Audit>): (r: Option<nat>)
    ensures r.None? <==> forall i :: 0 <= i < |users| ==> users[i].role != AUDITOR
    ensures r.Some? ==> IsAuditorIn(users, r.value)
    ensures r.Some? ==> forall i :: 0 <= i < |users| && users[i].role == AUDITOR ==>
                          PendingCount(audits, r.value) <= PendingCount(audits, users[i].id)
  {
    if users == [] then None
    else
      var rest := LeastLoaded(users[1..], audits);
      assert forall i :: 1 <= i < |users| ==> users[i] == users[1..][i - 1];
      assert rest.Some? ==> IsAuditorIn(users, rest.value) by {
        if rest.Some? {
          var i :| 0 <= i < |users[1..]| && users[1..][i].id == rest.value && users[1..][i].role == AUDITOR;
          assert users[i + 1] == users[1..][i];
        }
      }
      if users[0].role != AUDITOR then rest
      else if rest.Some? && PendingCount(audits, rest.value) < PendingCount(audits, users[0].id) then rest
      else Some(users[0].id)
  }

  /** `auditorInfo ? auditorInfo.username : "Unknown"`: the username of a user id, if it resolves. */
  function DisplayName(users: seq<User>, id: Option<nat>): (name: string)
    ensures id.Some? && FindUser(users, id.value).Some? ==> name == FindUser(users, id.value).value.username
    ensures (id.None? || FindUser(users, id.value).None?) ==> name == "Unknown"
  {
    if id.None? then "Unknown"
    else match FindUser(users, id.value)
      case Some(u) => u.username
      case None => "Unknown"
  }

  // ---------------------------------------------------------------------------------------
  // Creation

  datatype CreateBody = CreateBody(title: Option<string>, kind: Option<string>, purchaseData: Option<Json>)

  /** The `config` blob every new audit gets. */
  const PurchaseConfig: Json := JObj([Member("require_purchase_rate", JBool(true))])

  /** `type || "Purchase"` */
  function KindOr(kind: Option<string>): (k: string)
    ensures Filled(kind) ==> k == kind.value
    ensures !Filled(kind) ==> k == "Purchase"
  {
    if Filled(kind) then kind.value else "Purchase"
  }

  /** Appending a row whose references are valid keeps every reference valid. */
  lemma AppendKeepsReferences(users: seq<User>, audits: seq<Audit>, row: Audit)
    requires References(users, audits)
    requires row.assignedTo.Some? ==> IsAuditorIn(users, row.assignedTo.value)
    requires row.reviewedBy.Some? ==> IsAuditorIn(users, row.reviewedBy.value)
    requires IsUserIn(users, row.createdBy)
    ensures References(users, audits + [row])
  {
    var audits' := audits + [row];
    forall j | 0 <= j < |audits'| ensures audits'[j] == if j < |audits| then audits[j] else row { }
  }

  /**
   * The INSERT of POST /api/audits: a new row in PENDING_REVIEW, created by `who`, assigned to
   * `assignedTo`, with the fixed config and the type or "Purchase".
   */
  method InsertRequest(db: Database, who: Identity, title: string, kind: Option<string>, purchaseData: Json,
                       assignedTo: nat) returns (id: nat)
    requires Consistent(db) && SignedIn(db.users, Some(who)) && IsAuditorIn(db.users, assignedTo)
    modifies db
    ensures Consistent(db)
    ensures NoDrafts(old(db.audits)) ==> NoDrafts(db.audits)
    ensures id == old(db.nextAuditId)
    ensures db.audits == old(db.audits) + [Audit(id, title, Some(KindOr(kind)), Some(assignedTo), who.id,
                                                 Encoded(PurchaseConfig), Encoded(purchaseData),
                                                 PENDING_REVIEW, None, None, None, None, old(db.clock))]
    ensures db.users == old(db.users) && db.nextUserId == old(db.nextUserId)
    ensures db.nextAuditId == old(db.nextAuditId) + 1 && db.clock == old(db.clock) + 1
  {
    var r := db.InsertAudit(title, Some(KindOr(kind)), Some(assignedTo), who.id,
                            Stringify(Some(PurchaseConfig)), Stringify(Some(purchaseData)), PENDING_REVIEW);
    SignedInRole(db.users, who);
    AppendKeepsReferences(db.users, old(db.audits), db.audits[|db.audits| - 1]);
    id := r.id;
  }

  /** POST /api/audits */
  method CreateAudit(db: Database, session: Option<Identity>, body: CreateBody) returns (reply: Reply)
    requires Consistent(db) && SignedIn(db.users, session)
    modifies db
    ensures Consistent(db)
    ensures NoDrafts(old(db.audits)) ==> NoDrafts(db.audits)
    ensures session.None? ==> reply == Unauthorized && unchanged(db)
    ensures session.Some? && !(Filled(body.title) && Present(body.purchaseData)) ==>
              reply == Failure(400, "Missing required fields") && unchanged(db)
    ensures session.Some? && Filled(body.title) && Present(body.purchaseData) &&
            LeastLoaded(old(db.users), old(db.audits)).None? ==>
              reply == Failure(400, "No auditors available in the system.") && unchanged(db)
    ensures reply.Submitted? ==>
              && session.Some? && Filled(body.title) && Present(body.purchaseData)
              && IsAuditorIn(db.users, reply.assignedTo)
              && (forall i :: 0 <= i < |db.users| && db.users[i].role == AUDITOR ==>
                    PendingCount(old(db.audits), reply.assignedTo) <= PendingCount(old(db.audits), db.users[i].id))
              && reply == Submitted(old(db.nextAuditId), reply.assignedTo, DisplayName(db.users, Some(reply.assignedTo)))
              && db.audits == old(db.audits) + [Audit(old(db.nextAuditId), body.title.value, Some(KindOr(body.kind)),
                                                      Some(reply.assignedTo), session.value.id,
                                                      Encoded(PurchaseConfig), Encoded(body.purchaseData.value),
                                                      PENDING_REVIEW, None, None, None, None, old(db.clock))]
              && db.users == old(db.users) && db.nextUserId == old(db.nextUserId)
              && db.nextAuditId == old(db.nextAuditId) + 1 && db.clock == old(db.clock) + 1
    ensures session.Some? && Filled(body.title) && Present(body.purchaseData) &&
              LeastLoaded(old(db.users), old(db.audits)).Some? ==>
              reply.Submitted?
    ensures reply.Code() == 201 <==>
              session.Some? && Filled(body.title) && Present(body.purchaseData) &&
              LeastLoaded(old(db.users), old(db.audits)).Some?
  {
    var gate := RequireAuth(session);
    if gate.Refuse? {
      return gate.reply;
    }
    if !Filled(body.title) || !Present(body.purchaseData) {
      return Failure(400, "Missing required fields");
    }
    var auditor := LeastLoaded(db.users, db.audits);
    if auditor.None? {
      return Failure(400, "No auditors available in the system.");
    }
    var assignedTo := auditor.value;
    var id := InsertRequest(db, gate.user, body.title.value, body.kind, body.purchaseData.value, assignedTo);
    reply := Submitted(id, assignedTo, DisplayName(db.users, Some(assignedTo)));
  }

  // ---------------------------------------------------------------------------------------
  // Listing

  /** The WHERE clause of GET /api/audits: a USER sees what they created, an AUDITOR what is
      assigned to them; any other role gets no filter at all. */
  predicate Visible(who: Identity, a: Audit) {
    if who.role == USER then a.createdBy == who.id
    else if who.role == AUDITOR then a.assignedTo == Some(who.id)
    else true
  }

  /** One result row: the joined usernames and the blobs read through `safeParse`. */
  function View(users: seq<User>, a: Audit): AuditView {
    var auditor := if a.assignedTo.None? then None else FindUser(users, a.assignedTo.value);
    var creator := FindUser(users, a.createdBy);
    AuditView(a, SafeParse(a.config), SafeParse(a.purchaseData),
              if auditor.Some? then Some(auditor.value.username) else None,
              if creator.Some? then Some(creator.value.username) else None)
  }

  predicate CreationOrdered(audits: seq<Audit>) {
    forall i, j :: 0 <= i < j < |audits| ==> audits[i].createdAt < audits[j].createdAt
  }

  /** The rows of GET /api/audits for `who`, ORDER BY created_at DESC. */
  function Listing(users: seq<User>, audits: seq<Audit>, who: Identity): (rows: seq<AuditView>)
    ensures |rows| <= |audits|
  {
    if audits == [] then []
    else
      var last := audits[|audits| - 1];
      var rest := Listing(users, audits[..|audits| - 1], who);
      if Visible(who, last) then [View(users, last)] + rest else rest
  }

  /** Every listed row is a visible audit, shown through `View`. */
  lemma {:induction false} ListingSound(users: seq<User>, audits: seq<Audit>, who: Identity)
    ensures forall i :: 0 <= i < |Listing(users, audits, who)| ==>
              && Listing(users, audits, who)[i].row in audits
              && Visible(who, Listing(users, audits, who)[i].row)
              && Listing(users, audits, who)[i] == View(users, Listing(users, audits, who)[i].row)
  {
    if audits != [] {
      var init := audits[..|audits| - 1];
      var last := audits[|audits| - 1];
      var rest := Listing(users, init, who);
      var rows := Listing(users, audits, who);
      ListingSound(users, init, who);
      forall i | 0 <= i < |rows|
        ensures rows[i].row in audits && Visible(who, rows[i].row) && rows[i] == View(users, rows[i].row)
      {
        if Visible(who, last) && i == 0 {
          assert rows[i] == View(users, last);
        } else {
          var i' := if Visible(who, last) then i - 1 else i;
          assert rows[i] == rest[i'];
          assert rest[i'].row in init;
        }
      }
    }
  }

  /** Every visible audit is listed. */
  lemma {:induction false} ListingComplete(users: seq<User>, audits: seq<Audit>, who: Identity)
    ensures forall j :: 0 <= j < |audits| && Visible(who, audits[j]) ==> View(users, audits[j]) in Listing(users, audits, who)
  {
    if audits != [] {
      var init := audits[..|audits| - 1];
      ListingComplete(users, init, who);
      forall j | 0 <= j < |audits| - 1 ensures audits[j] == init[j] { }
    }
  }

  /** Rows come newest first: created_at strictly decreases down the list. */
  lemma {:induction false} ListingNewestFirst(users: seq<User>, audits: seq<Audit>, who: Identity)
    requires CreationOrdered(audits)
    ensures forall i, k :: 0 <= i < k < |Listing(users, audits, who)| ==>
              Listing(users, audits, who)[i].row.createdAt > Listing(users, audits, who)[k].row.createdAt
  {
    if audits != [] {
      var init := audits[..|audits| - 1];
      var last := audits[|audits| - 1];
      assert CreationOrdered(init) by {
        forall i, j | 0 <= i < j < |init| ensures init[i].createdAt < init[j].createdAt {
          assert init[i] == audits[i] && init[j] == audits[j];
        }
      }
      ListingNewestFirst(users, init, who);
      ListingSound(users, init, who);
      var rest := Listing(users, init, who);
      forall i | 0 <= i < |rest| ensures rest[i].row.createdAt < last.createdAt {
        assert rest[i].row in init;
        var j :| 0 <= j < |init| && init[j] == rest[i].row;
        assert init[j] == audits[j];
      }
      var rows := Listing(users, audits, who);
      if Visible(who, last) {
        forall i, k | 0 <= i < k < |rows| ensures rows[i].row.createdAt > rows[k].row.createdAt {
          assert rows[k] == rest[k - 1];
          if i > 0 {
            assert rows[i] == rest[i - 1];
          }
        }
      }
    }
  }

  /** GET /api/audits */
  method GetAudits(db: Database, session: Option<Identity>) returns (reply: Reply)
    requires Consistent(db)
    ensures session.None? ==> reply == Unauthorized
    ensures session.Some? ==> reply == Audits(Listing(db.users, db.audits, session.value))
    ensures reply.Code() == 200 <==> session.Some?
  {
    var gate := RequireAuth(session);
    if gate.Refuse? {
      return gate.reply;
    }
    reply := Audits(Listing(db.users, db.audits, gate.user));
  }

  // ---------------------------------------------------------------------------------------
  // Review and resubmission

  /** The fields of a PUT /api/audits/:id body. */
  datatype UpdateBody = UpdateBody(status: Option<string>, adminNotes: Option<string>, purchaseData: Option<Json>)

  /** SELECT * FROM audits WHERE id = ?, as a position in the table. */
  function FindAudit(audits: seq<Audit>, id: nat): (k: Option<nat>)
    ensures k.Some? ==> k.value < |audits| && audits[k.value].id == id
    ensures k.None? <==> forall j :: 0 <= j < |audits| ==> audits[j].id != id
  {
    if audits == [] then None
    else if audits[|audits| - 1].id == id then Some(|audits| - 1)
    else
      var k := FindAudit(audits[..|audits| - 1], id);
      assert forall j :: 0 <= j < |audits| - 1 ==> audits[..|audits| - 1][j] == audits[j];
      k
  }

  /** The auditor's UPDATE: status, admin_notes, reviewed_at and reviewed_by, and nothing else. */
  function ReviewedRow(a: Audit, requested: Option<string>, notes: Option<string>, reviewer: nat, now: nat): (r: Audit)
    ensures r.status == VERIFIED <==> requested == Some("APPROVED")
    ensures r.status != VERIFIED ==> r.status == REJECTED
    ensures r.adminNotes == Some(if notes.Some? then notes.value else "")
    ensures r.reviewedBy == Some(reviewer) && r.reviewedAt == Some(now)
    ensures r.(status := a.status, adminNotes := a.adminNotes, reviewedAt := a.reviewedAt, reviewedBy := a.reviewedBy) == a
  {
    a.(status := if requested == Some("APPROVED") then VERIFIED else REJECTED,
       adminNotes := Some(if Filled(notes) then notes.value else ""),
       reviewedAt := Some(now),
       reviewedBy := Some(reviewer))
  }

  /** The creator's UPDATE: purchase_data and status PENDING_REVIEW, and nothing else. */
  function ResubmittedRow(a: Audit, purchaseData: Option<Json>): (r: Audit)
    ensures r.status == PENDING_REVIEW
    ensures SafeParse(r.purchaseData) == purchaseData.GetOr(EmptyObject)
    ensures r.(status := a.status, purchaseData := a.purchaseData) == a
  {
    ParseStringified(purchaseData);
    a.(purchaseData := Stringify(purchaseData), status := PENDING_REVIEW)
  }

  /** Replacing one row by one whose references are valid keeps every reference valid. */
  lemma UpdateKeepsReferences(users: seq<User>, audits: seq<Audit>, k: nat, row: Audit)
    requires References(users, audits) && k < |audits|
    requires row.assignedTo == audits[k].assignedTo && row.createdBy == audits[k].createdBy
    requires row.reviewedBy == audits[k].reviewedBy || (row.reviewedBy.Some? && IsAuditorIn(users, row.reviewedBy.value))
    ensures References(users, audits[k := row])
  {
    var audits' := audits[k := row];
    forall j | 0 <= j < |audits'| ensures audits'[j] == row || audits'[j] == audits[j] { }
  }

  /** The AUDITOR branch of PUT /api/audits/:id: any auditor reviews row k, whatever its status. */
  method Review(db: Database, k: nat, who: Identity, body: UpdateBody) returns (reply: Reply)
    requires Consistent(db) && SignedIn(db.users, Some(who)) && who.role == AUDITOR && k < |db.audits|
    modifies db
    ensures Consistent(db)
    ensures NoDrafts(old(db.audits)) ==> NoDrafts(db.audits)
    ensures var a := old(db.audits)[k];
      var r := ReviewedRow(a, body.status, body.adminNotes, who.id, old(db.clock));
      && reply == Reviewed(r.status, DisplayName(db.users, Some(a.createdBy)))
      && db.audits == old(db.audits)[k := r]
      && db.users == old(db.users) && db.clock == old(db.clock) + 1
      && db.nextAuditId == old(db.nextAuditId) && db.nextUserId == old(db.nextUserId)
  {
    var a := db.audits[k];
    var now := db.Now();
    var row := ReviewedRow(a, body.status, body.adminNotes, who.id, now);
    var ok := db.UpdateAudit(k, row);
    SignedInRole(db.users, who);
    UpdateKeepsReferences(db.users, old(db.audits), k, row);
    reply := Reviewed(row.status, DisplayName(db.users, Some(a.createdBy)));
  }

  /** The creator's branch of PUT /api/audits/:id: row k gets the new purchase data, whatever its status. */
  method Resubmit(db: Database, k: nat, body: UpdateBody) returns (reply: Reply)
    requires Consistent(db) && k < |db.audits|
    modifies db
    ensures Consistent(db)
    ensures NoDrafts(old(db.audits)) ==> NoDrafts(db.audits)
    ensures var a := old(db.audits)[k];
      && reply == Resubmitted(DisplayName(db.users, a.assignedTo))
      && db.audits == old(db.audits)[k := ResubmittedRow(a, body.purchaseData)]
      && db.users == old(db.users) && db.clock == old(db.clock)
      && db.nextAuditId == old(db.nextAuditId) && db.nextUserId == old(db.nextUserId)
  {
    var a := db.audits[k];
    var row := ResubmittedRow(a, body.purchaseData);
    var ok := db.UpdateAudit(k, row);
    UpdateKeepsReferences(db.users, old(db.audits), k, row);
    reply := Resubmitted(DisplayName(db.users, a.assignedTo));
  }

  /** PUT /api/audits/:id */
  method UpdateAudit(db: Database, session: Option<Identity>, auditId: nat, body: UpdateBody) returns (reply: Reply)
    requires Consistent(db) && SignedIn(db.users, session)
    modifies db
    ensures Consistent(db)
    ensures NoDrafts(old(db.audits)) ==> NoDrafts(db.audits)
    ensures db.users == old(db.users)
    ensures session.None? ==> reply == Unauthorized && unchanged(db)
    ensures session.Some? && FindAudit(old(db.audits), auditId).None? ==>
              reply == Failure(404, "Audit not found") && unchanged(db)
    ensures session.Some? && FindAudit(old(db.audits), auditId).Some? ==>
              var who, k := session.value, FindAudit(old(db.audits), auditId).value;
              var a := old(db.audits)[k];
              if who.role == AUDITOR then
                var r := ReviewedRow(a, body.status, body.adminNotes, who.id, old(db.clock));
                && reply == Reviewed(r.status, DisplayName(db.users, Some(a.createdBy)))
                && db.audits == old(db.audits)[k := r]
                && db.clock == old(db.clock) + 1 && db.nextAuditId == old(db.nextAuditId)
                && db.nextUserId == old(db.nextUserId)
              else if who.role == USER && a.createdBy == who.id then
                && reply == Resubmitted(DisplayName(db.users, a.assignedTo))
                && db.audits == old(db.audits)[k := ResubmittedRow(a, body.purchaseData)]
                && db.clock == old(db.clock) && db.nextAuditId == old(db.nextAuditId)
                && db.nextUserId == old(db.nextUserId)
              else
                reply == Failure(403, "Permission denied") && unchanged(db)
    ensures reply.Code() == 200 <==>
              && session.Some? && FindAudit(old(db.audits), auditId).Some?
              && var who, a := session.value, old(db.audits)[FindAudit(old(db.audits), auditId).value];
                 who.role == AUDITOR || (who.role == USER && a.createdBy == who.id)
  {
    var gate := RequireAuth(session);
    if gate.Refuse? {
      return gate.reply;
    }
    var who := gate.user;
    var found := FindAudit(db.audits, auditId);
    if found.None? {
      return Failure(404, "Audit not found");
    }
    var k := found.value;
    if who.role == AUDITOR {
      reply := Review(db, k, who, body);
      assert reply.Code() == 200;
    } else if who.role == USER && db.audits[k].createdBy == who.id {
      reply := Resubmit(db, k, body);
      assert reply.Code() == 200;
    } else {
      reply := Failure(403, "Permission denied");
    }
  }
}
