/**
 * The relational store of the audit system: the `users` and `audits` tables, the
 * constraints their CREATE TABLE statements declare, the INSERT/UPDATE primitives that
 * enforce them, and the seeding of the two initial accounts.
 *
 * Time is an opaque counter: every `datetime('now')` reads the clock and advances it, so
 * stamps taken later are larger.
 */
module Db {
  import opened Common
  import opened Json

  const USER: string := "USER"
  const AUDITOR: string := "AUDITOR"

  const PENDING_DATA: string := "PENDING_DATA"
  const PENDING_REVIEW: string := "PENDING_REVIEW"
  const VERIFIED: string := "VERIFIED"
  const REJECTED: string := "REJECTED"

  /** CHECK(role IN ('USER', 'AUDITOR')) */
  predicate IsRole(r: string) {
    r == USER || r == AUDITOR
  }

  /** CHECK(status IN ('PENDING_DATA', 'PENDING_REVIEW', 'VERIFIED', 'REJECTED')) */
  predicate IsStatus(s: string) {
    s == PENDING_DATA || s == PENDING_REVIEW || s == VERIFIED || s == REJECTED
  }

  /** A row of `users`; `password` holds the bcrypt digest, never the plain text. */
  datatype User = User(id: nat, username: string, password: string, role: string, createdAt: nat)

  /** A row of `audits`; NOT NULL columns are plain fields, nullable ones are options. */
  datatype Audit = Audit(
    id: nat,
    title: string,
    kind: Option<string>,        // column `type`
    assignedTo: Option<nat>,
    createdBy: nat,
    config: Cell,
    purchaseData: Cell,
    status: string,
    adminNotes: Option<string>,
    submittedAt: Option<nat>,
    reviewedAt: Option<nat>,
    reviewedBy: Option<nat>,
    createdAt: nat)

  predicate HasUsername(users: seq<User>, name: string) {
    exists i :: 0 <= i < |users| && users[i].username == name
  }

  /** SELECT * FROM users WHERE username = ? */
  function FindByUsername(users: seq<User>, name: string): (r: Option<User>)
    ensures r.Some? <==> HasUsername(users, name)
    ensures r.Some? ==> r.value in users && r.value.username == name
  {
    if users == [] then None
    else if users[0].username == name then Some(users[0])
    else
      var r := FindByUsername(users[1..], name);
      assert HasUsername(users[1..], name) ==> HasUsername(users, name) by {
        if HasUsername(users[1..], name) {
          var i :| 0 <= i < |users[1..]| && users[1..][i].username == name;
          assert users[i + 1].username == name;
        }
      }
      r
  }

  /** SELECT * FROM users WHERE id = ? */
  function FindUser(users: seq<User>, id: nat): (r: Option<User>)
    ensures r.Some? <==> exists i :: 0 <= i < |users| && users[i].id == id
    ensures r.Some? ==> r.value in users && r.value.id == id
  {
    if users == [] then None
    else if users[0].id == id then Some(users[0])
    else
      var r := FindUser(users[1..], id);
      assert (exists i :: 0 <= i < |users[1..]| && users[1..][i].id == id) ==>
             (exists i :: 0 <= i < |users| && users[i].id == id) by {
        if exists i :: 0 <= i < |users[1..]| && users[1..][i].id == id {
          var i :| 0 <= i < |users[1..]| && users[1..][i].id == id;
          assert users[i + 1].id == id;
        }
      }
      r
  }

  /** The constraints of `users`: AUTOINCREMENT ids, UNIQUE NOT NULL username, the role CHECK. */
  ghost predicate UsersOk(users: seq<User>, nextId: nat, clock: nat) {
    && 1 <= nextId
    && (forall i :: 0 <= i < |users| ==>
          1 <= users[i].id < nextId && IsRole(users[i].role) && users[i].createdAt < clock)
    && (forall i, j :: 0 <= i < j < |users| ==>
          users[i].id < users[j].id && users[i].username != users[j].username)
  }

  /** The constraints of `audits`: AUTOINCREMENT ids, the status CHECK, creation order. */
  ghost predicate AuditsOk(audits: seq<Audit>, nextId: nat, clock: nat) {
    && 1 <= nextId
    && (forall i :: 0 <= i < |audits| ==>
          1 <= audits[i].id < nextId && IsStatus(audits[i].status) && audits[i].createdAt < clock)
    && (forall i, j :: 0 <= i < j < |audits| ==>
          audits[i].id < audits[j].id && audits[i].createdAt < audits[j].createdAt)
  }

  /** The user table's contents together with its id sequence and the clock. */
  datatype UserTable = UserTable(rows: seq<User>, nextId: nat, clock: nat)

  /** A successful INSERT INTO users: the next id, the current time, and one tick of the clock. */
  function AddUser(t: UserTable, username: string, password: string, role: string): (r: UserTable)
    ensures UsersOk(t.rows, t.nextId, t.clock) && IsRole(role) && !HasUsername(t.rows, username) ==>
              UsersOk(r.rows, r.nextId, r.clock)
    ensures forall name :: HasUsername(r.rows, name) <==> HasUsername(t.rows, name) || name == username
    ensures t.rows <= r.rows
  {
    var r := UserTable(t.rows + [User(t.nextId, username, password, role, t.clock)], t.nextId + 1, t.clock + 1);
    assert r.rows[|t.rows|].username == username;
    assert forall i :: 0 <= i < |t.rows| ==> r.rows[i] == t.rows[i];
    r
  }

  /** One entry of the seed list. */
  datatype Seed = Seed(username: string, password: string, role: string)

  /** The accounts `seedInitialUsers` creates, in the order it creates them. */
  const Seeds: seq<Seed> := [Seed("auditor", "auditor123", AUDITOR), Seed("user", "user123", USER)]

  /**
   * `seedUser` on a table: an existing username is skipped; otherwise the row is inserted,
   * and the insert fails (None, the promise rejects) when the role breaks the CHECK.
   */
  function SeedStep(t: UserTable, s: Seed, digest: string -> string): (r: Option<UserTable>)
    ensures HasUsername(t.rows, s.username) ==> r == Some(t)
    ensures r.None? <==> !HasUsername(t.rows, s.username) && !IsRole(s.role)
  {
    if HasUsername(t.rows, s.username) then Some(t)
    else if !IsRole(s.role) then None
    else Some(AddUser(t, s.username, digest(s.password), s.role))
  }

  /** The table after a seeding run, and whether every seed was processed without a rejection. */
  datatype Seeding = Seeding(table: UserTable, completed: bool)

  /** `seedInitialUsers` on a list: seeds in order, stopping at the first rejected one. */
  function SeedAll(t: UserTable, seeds: seq<Seed>, digest: string -> string): (r: Seeding)
    decreases |seeds|
  {
    if seeds == [] then Seeding(t, true)
    else
      match SeedStep(t, seeds[0], digest)
      case None => Seeding(t, false)
      case Some(t') => SeedAll(t', seeds[1..], digest)
  }

  /**
   * A seed whose username was absent ends up as a row with that username and the seed's role,
   * provided no earlier seed claimed the same username.
   */
  lemma {:induction false} SeedAllInserts(t: UserTable, seeds: seq<Seed>, digest: string -> string, k: nat)
    requires forall j :: 0 <= j < |seeds| ==> IsRole(seeds[j].role)
    requires k < |seeds| && forall j :: 0 <= j < k ==> seeds[j].username != seeds[k].username
    requires !HasUsername(t.rows, seeds[k].username)
    ensures var rows := SeedAll(t, seeds, digest).table.rows;
      exists i :: 0 <= i < |rows| && rows[i].username == seeds[k].username && rows[i].role == seeds[k].role
    decreases |seeds|
  {
    var s := seeds[0];
    assert IsRole(s.role);
    var t' := SeedStep(t, s, digest).value;
    var rows := SeedAll(t', seeds[1..], digest).table.rows;
    assert SeedAll(t, seeds, digest).table.rows == rows;
    if k == 0 {
      var i := |t.rows|;
      assert t'.rows[i].username == s.username && t'.rows[i].role == s.role;
      SeedAllGrows(t', seeds[1..], digest);
      assert rows[i] == t'.rows[i];
    } else {
      assert !HasUsername(t'.rows, seeds[k].username);
      assert seeds[1..][k - 1] == seeds[k];
      forall j | 0 <= j < k - 1 ensures seeds[1..][j].username != seeds[1..][k - 1].username {
        assert seeds[1..][j] == seeds[j + 1];
      }
      SeedAllInserts(t', seeds[1..], digest, k - 1);
    }
  }

  /** Seeding only appends rows. */
  lemma {:induction false} SeedAllGrows(t: UserTable, seeds: seq<Seed>, digest: string -> string)
    ensures t.rows <= SeedAll(t, seeds, digest).table.rows
    decreases |seeds|
  {
    if seeds != [] {
      match SeedStep(t, seeds[0], digest)
      case None =>
      case Some(t') => SeedAllGrows(t', seeds[1..], digest);
    }
  }

  /** Seeding never removes a username that was there. */
  lemma {:induction false} SeedAllKeeps(t: UserTable, seeds: seq<Seed>, digest: string -> string, name: string)
    requires HasUsername(t.rows, name)
    ensures HasUsername(SeedAll(t, seeds, digest).table.rows, name)
    decreases |seeds|
  {
    if seeds != [] {
      match SeedStep(t, seeds[0], digest)
      case None =>
      case Some(t') =>
        assert HasUsername(t'.rows, name);
        SeedAllKeeps(t', seeds[1..], digest, name);
    }
  }

  /** With every seed role valid, a seeding run completes and leaves every seed username present. */
  lemma {:induction false} SeedAllEstablishes(t: UserTable, seeds: seq<Seed>, digest: string -> string)
    requires forall k :: 0 <= k < |seeds| ==> IsRole(seeds[k].role)
    ensures SeedAll(t, seeds, digest).completed
    ensures forall k :: 0 <= k < |seeds| ==> HasUsername(SeedAll(t, seeds, digest).table.rows, seeds[k].username)
    decreases |seeds|
  {
    if seeds != [] {
      var t' := SeedStep(t, seeds[0], digest).value;
      assert HasUsername(t'.rows, seeds[0].username);
      SeedAllEstablishes(t', seeds[1..], digest);
      SeedAllKeeps(t', seeds[1..], digest, seeds[0].username);
      forall k | 1 <= k < |seeds|
        ensures HasUsername(SeedAll(t, seeds, digest).table.rows, seeds[k].username)
      {
        assert seeds[k] == seeds[1..][k - 1];
      }
    }
  }

  /** A seeding run over a table that already holds every seed username changes nothing. */
  lemma {:induction false} SeedAllPresent(t: UserTable, seeds: seq<Seed>, digest: string -> string)
    requires forall k :: 0 <= k < |seeds| ==> HasUsername(t.rows, seeds[k].username)
    ensures SeedAll(t, seeds, digest) == Seeding(t, true)
    decreases |seeds|
  {
    if seeds != [] {
      assert HasUsername(t.rows, seeds[0].username);
      forall k | 0 <= k < |seeds[1..]| ensures HasUsername(t.rows, seeds[1..][k].username) {
        assert seeds[1..][k] == seeds[k + 1];
      }
      SeedAllPresent(t, seeds[1..], digest);
    }
  }

  /** Running the seeding twice is the same as running it once. */
  lemma SeedAllIdempotent(t: UserTable, seeds: seq<Seed>, digest: string -> string)
    requires forall k :: 0 <= k < |seeds| ==> IsRole(seeds[k].role)
    ensures SeedAll(SeedAll(t, seeds, digest).table, seeds, digest) == SeedAll(t, seeds, digest)
  {
    SeedAllEstablishes(t, seeds, digest);
    SeedAllPresent(SeedAll(t, seeds, digest).table, seeds, digest);
  }

  /** A seeding run keeps the user table's constraints. */
  lemma {:induction false} SeedAllValid(t: UserTable, seeds: seq<Seed>, digest: string -> string)
    requires UsersOk(t.rows, t.nextId, t.clock)
    ensures var r := SeedAll(t, seeds, digest).table;
      UsersOk(r.rows, r.nextId, r.clock) && t.rows <= r.rows && t.clock <= r.clock
    decreases |seeds|
  {
    if seeds != [] {
      match SeedStep(t, seeds[0], digest)
      case None =>
      case Some(t') => SeedAllValid(t', seeds[1..], digest);
    }
  }

  /** The outcome of an INSERT: the new row's id, or the constraint that refused it. */
  datatype InsertResult = Inserted(id: nat) | CheckFailed | UniqueFailed

  /** The database handle: both tables, their id sequences, the clock and the password hash. */
  class Database {
    var users: seq<User>
    var audits: seq<Audit>
    var nextUserId: nat
    var nextAuditId: nat
    var clock: nat

    /**
     * bcrypt.hash with its salt folded in; bcrypt.compare(p, h) holds exactly when
     * digest(p) == h. Uninterpreted: any function may be supplied.
     */
    const digest: string -> string

    /** The table constraints, the store's invariant. */
    ghost predicate Valid()
      reads this
    {
      UsersOk(users, nextUserId, clock) && AuditsOk(audits, nextAuditId, clock)
    }

    function Table(): UserTable
      reads this
    {
      UserTable(users, nextUserId, clock)
    }

    /** A freshly created database file: CREATE TABLE on an empty store. */
    constructor (digest: string -> string)
      ensures Valid()
      ensures users == [] && audits == [] && this.digest == digest
      ensures nextUserId == 1 && nextAuditId == 1
    {
      users, audits := [], [];
      nextUserId, nextAuditId, clock := 1, 1, 0;
      this.digest := digest;
    }

    /** datetime('now'): the current time; the clock moves on. */
    method Now() returns (t: nat)
      requires Valid()
      modifies this
      ensures Valid()
      ensures t == old(clock) && clock == t + 1
      ensures users == old(users) && audits == old(audits)
      ensures nextUserId == old(nextUserId) && nextAuditId == old(nextAuditId)
    {
      t := clock;
      clock := clock + 1;
    }

    /**
     * INSERT INTO users (username, password, role, created_at): the role CHECK is
     * evaluated before the UNIQUE index on username, as SQLite does.
     */
    method InsertUser(username: string, password: string, role: string) returns (r: InsertResult)
      requires Valid()
      modifies this
      ensures Valid()
      ensures audits == old(audits) && nextAuditId == old(nextAuditId)
      ensures !IsRole(role) ==> r == CheckFailed && unchanged(this)
      ensures IsRole(role) && HasUsername(old(users), username) ==> r == UniqueFailed && unchanged(this)
      ensures IsRole(role) && !HasUsername(old(users), username) ==>
                r == Inserted(old(nextUserId)) && Table() == AddUser(old(Table()), username, password, role)
    {
      if !IsRole(role) {
        return CheckFailed;
      }
      if FindByUsername(users, username).Some? {
        return UniqueFailed;
      }
      var t := AddUser(Table(), username, password, role);
      r := Inserted(nextUserId);
      users, nextUserId, clock := t.rows, t.nextId, t.clock;
    }

    /**
     * INSERT INTO audits (..., created_at): the status CHECK is enforced; the row takes the
     * next id and the current time, and goes to the end of the table.
     */
    method InsertAudit(title: string, kind: Option<string>, assignedTo: Option<nat>, createdBy: nat,
                       config: Cell, purchaseData: Cell, status: string) returns (r: InsertResult)
      requires Valid()
      modifies this
      ensures Valid()
      ensures users == old(users) && nextUserId == old(nextUserId)
      ensures !IsStatus(status) ==>
                r == CheckFailed && audits == old(audits) && nextAuditId == old(nextAuditId) && clock == old(clock)
      ensures IsStatus(status) ==>
                && r == Inserted(old(nextAuditId))
                && audits == old(audits) + [Audit(old(nextAuditId), title, kind, assignedTo, createdBy, config,
                                                  purchaseData, status, None, None, None, None, old(clock))]
                && nextAuditId == old(nextAuditId) + 1 && clock == old(clock) + 1
    {
      if !IsStatus(status) {
        return CheckFailed;
      }
      var row := Audit(nextAuditId, title, kind, assignedTo, createdBy, config, purchaseData, status,
                       None, None, None, None, clock);
      r := Inserted(nextAuditId);
      audits := audits + [row];
      nextAuditId, clock := nextAuditId + 1, clock + 1;
    }

    /**
     * UPDATE audits SET ... WHERE id = ?, for the statements the server issues, which never
     * write `id` or `created_at`. The status CHECK is enforced; `ok` says whether the row changed.
     */
    method UpdateAudit(k: nat, row: Audit) returns (ok: bool)
      requires Valid()
      requires k < |audits| && row.id == audits[k].id && row.createdAt == audits[k].createdAt
      modifies this`audits
      ensures Valid()
      ensures ok == IsStatus(row.status)
      ensures audits == if ok then old(audits)[k := row] else old(audits)
    {
      ok := IsStatus(row.status);
      if ok {
        audits := audits[k := row];
      }
    }

    /** `seedUser(username, plainPassword, role)`; `resolved` is false when its promise rejects. */
    method SeedUser(username: string, plainPassword: string, role: string) returns (resolved: bool)
      requires Valid()
      modifies this
      ensures Valid()
      ensures audits == old(audits) && nextAuditId == old(nextAuditId)
      ensures var step := SeedStep(old(Table()), Seed(username, plainPassword, role), digest);
        resolved == step.Some? && Table() == step.GetOr(old(Table()))
    {
      if FindByUsername(users, username).Some? {
        return true;
      }
      var r := InsertUser(username, digest(plainPassword), role);
      resolved := r.Inserted?;
    }

    /** `seedInitialUsers`: seeds each entry of `Seeds` in order, awaiting each one. */
    method SeedInitialUsers() returns (completed: bool)
      requires Valid()
      modifies this
      ensures Valid()
      ensures audits == old(audits) && nextAuditId == old(nextAuditId)
      ensures Seeding(Table(), completed) == SeedAll(old(Table()), Seeds, digest)
      ensures completed && old(users) <= users
      ensures forall k :: 0 <= k < |Seeds| ==> HasUsername(users, Seeds[k].username)
      ensures forall k :: 0 <= k < |Seeds| && !HasUsername(old(users), Seeds[k].username) ==>
                exists i :: 0 <= i < |users| && users[i].username == Seeds[k].username && users[i].role == Seeds[k].role
      ensures (forall k :: 0 <= k < |Seeds| ==> HasUsername(old(users), Seeds[k].username)) ==>
                Table() == old(Table())
    {
      completed := true;
      var i := 0;
      while i < |Seeds|
        invariant 0 <= i <= |Seeds|
        invariant Valid()
        invariant audits == old(audits) && nextAuditId == old(nextAuditId)
        invariant SeedAll(old(Table()), Seeds, digest) == SeedAll(Table(), Seeds[i..], digest)
      {
        var resolved := SeedUser(Seeds[i].username, Seeds[i].password, Seeds[i].role);
        if !resolved {
          // the awaited promise rejected: the remaining entries are not seeded
          completed := false;
          break;
        }
        i := i + 1;
      }
      SeedAllEstablishes(old(Table()), Seeds, digest);
      SeedAllValid(old(Table()), Seeds, digest);
      forall k | 0 <= k < |Seeds| && !HasUsername(old(users), Seeds[k].username)
        ensures exists i :: 0 <= i < |users| && users[i].username == Seeds[k].username && users[i].role == Seeds[k].role
      {
        SeedAllInserts(old(Table()), Seeds, digest, k);
      }
      if forall k :: 0 <= k < |Seeds| ==> HasUsername(old(users), Seeds[k].username) {
        SeedAllPresent(old(Table()), Seeds, digest);
      }
    }
  }
}
