/**
  The four account mutations, with grants, share links and the deletion of organisations. Each runs as one
  transaction: it either refuses and changes nothing, or commits all its writes. An account's id is its
  place in the table; rows are never removed here.
*/
module AccountCores {
  import opened Prelude
  import opened Roles
  import opened Access
  import opened ProjectAccess
  import opened Protection
  import AccountListing
  import opened TwoOwners

  const SWEEP_BATCH: nat := 100
  const RETENTION: int := 7 * 24 * 60 * 60 * 1000

  datatype Account = Account(
    project: Id, name: string, websiteUrl: Option<string>, description: Option<string>, environments: seq<string>,
    vaultRef: Ref, createdBy: Id, lastModifiedBy: Id, version: nat, deletedAt: Option<int>)

  datatype Action =
    | AccountCreated(account: Id)
    | AccountUpdated(account: Id)
    | AccountDeleted(account: Id)
    | ChangeOverridden(account: Id, kind: Kind)
    | ChangeRequested(request: Id)
    | ChangeApplied(request: Id)
    | ChangeRejected(request: Id)
    | ChangeCanceled(request: Id)
    | ChangeExpired(request: Id)
    | ShareRevoked(account: Id)
    | OrganizationDeleted(org: Id)

  datatype AuditRow = AuditRow(user: Id, action: Action)

  datatype ShareStatus = Active | Burned | Revoked | Lapsed

  /** A share link to an account; a one-time link burns when it is opened. */
  datatype Share = Share(account: Id, oneTime: bool, expiresAt: int, status: ShareStatus)

  /** `deletions` lists the vault objects handed to the scheduler for deletion, in order. */
  datatype Tables = Tables(
    db: Db, accounts: seq<Account>, shares: seq<Share>, requests: seq<Request>, audit: seq<AuditRow>, deletions: seq<Ref>)

  datatype Refusal =
    | NoProject | NoAccount | Denied(denial: Denial) | NeverAnswers | NoWriteAccess | OutOfScope
    | NoEnvironments | Unprotected(refusal: WriteRefusal) | TierGate | BadWebsiteUrl | NotDeleted | RetentionPassed
    | NotPermitted | GrantExists | NoGrant | NoShare | ShareClosed

  /** `urlAccepted` is the answer of the URL validator and `tierAllows` that of the two tier gates. */
  datatype CreateArgs = CreateArgs(
    project: Id, actor: Id, name: string, websiteUrl: Option<string>, urlAccepted: bool, description: Option<string>,
    environments: seq<string>, vaultRef: Ref, via: Option<Id>, override: bool, tierAllows: bool)

  datatype UpdateArgs = UpdateArgs(
    account: Id, actor: Id, name: Option<string>, websiteUrl: Option<string>, urlAccepted: bool, description: Option<string>,
    environments: Option<seq<string>>, vaultRef: Option<Ref>, via: Option<Id>, override: bool)

  datatype RemovalArgs = RemovalArgs(account: Id, actor: Id, via: Option<Id>, override: bool)

  /** A timestamp that the code tests for truth rather than for presence. */
  predicate Truthy(t: Option<int>) {
    t.Some? && t.value != 0
  }

  /** A check without an answer within as many levels as there are links has none, and its mutation never commits. */
  function Authorize(db: Db, actor: Id, project: Id, capability: string): Result<ProjectAuth, Refusal> {
    match Check(db, actor, project, capability, |db.links|)
    case None => Err(NeverAnswers)
    case Some(Err(e)) => Err(Denied(e))
    case Some(Ok(auth)) => Ok(auth)
  }

  function DetailsOf(a: Account): AccountListing.Details {
    AccountListing.Details(a.name, a.websiteUrl, a.description, a.createdBy, a.lastModifiedBy, a.version)
  }

  function LevelOn(t: Tables, actor: Id, id: Id, now: int): Level
    requires id < |t.accounts|
  {
    var a := t.accounts[id];
    AccountListing.AccountAccess(t.db, actor,
                                 AccountListing.Account(id, a.project, DetailsOf(a), a.environments, Truthy(a.deletedAt), a.vaultRef), now)
  }

  function AccountWrite(project: Id, environments: seq<string>, actor: Id, id: Option<Id>, via: Option<Id>, override: bool): PlannedWrite {
    PlannedWrite(project, environments, actor, AccountResource,
          if id.Some? then Some(Target(AccountResource, id.value)) else None, via, override)
  }

  function Protects(db: Db, project: Id): seq<string> {
    if project in db.projects then db.projects[project].protection else []
  }

  /** The break-glass row, when the write needed one. */
  function OverrideRows(protection: seq<string>, environments: seq<string>, override: bool, actor: Id, id: Id, kind: Kind): seq<AuditRow> {
    if override && IsProtectedWrite(protection, environments) then [AuditRow(actor, ChangeOverridden(id, kind))] else []
  }

  // ----- create

  function TryCreate(t: Tables, a: CreateArgs): Result<Tables, Refusal> {
    if a.project !in t.db.projects || t.db.projects[a.project].deleted then Err(NoProject)
    else
      match Authorize(t.db, a.actor, a.project, "project.accounts.create")
      case Err(e) => Err(e)
      case Ok(auth) =>
        if !ScopeAllows(auth.scope, a.environments) then Err(OutOfScope)
        else if a.environments == [] then Err(NoEnvironments)
        else
          var refusal := AssertProtectedWrite(t.db, t.requests, AccountWrite(a.project, a.environments, a.actor, None, a.via, a.override));
          if refusal.Some? then Err(Unprotected(refusal.value))
          else if !a.tierAllows then Err(TierGate)
          else if !a.urlAccepted then Err(BadWebsiteUrl)
          else Ok(Created(t, a, auth.profile))
  }

  function Created(t: Tables, a: CreateArgs, creator: Profile): Tables {
    var id := |t.accounts|;
    t.(accounts := t.accounts + [Account(a.project, a.name, a.websiteUrl, a.description, a.environments, a.vaultRef,
                                         a.actor, a.actor, 1, None)],
       db := t.db.(accountGrants := t.db.accountGrants +
                     if Has(creator, "project.accounts.update") then [] else [Grant(id, a.actor, "write", None, true)]),
       audit := t.audit + [AuditRow(a.actor, AccountCreated(id))]
                + OverrideRows(Protects(t.db, a.project), a.environments, a.override, a.actor, id, CreateKind))
  }

  // ----- update

  /** The new environments must stay inside the editor's own scope. */
  predicate EditorMayMove(db: Db, actor: Id, project: Id, environments: seq<string>)
    requires project in db.projects
  {
    var membership := Membership(db, db.projects[project].org, actor);
    var assignment := AssignmentOf(db, project, actor);
    membership.Some? ==>
      ScopeAllows(EffectiveEnvironments(ProfileOf(db, membership.value.role),
                                        if assignment.Some? then assignment.value.environments else None),
                  environments)
  }

  function TouchedBy(before: seq<string>, after: Option<seq<string>>): seq<string> {
    Touched(before, if after.Some? then after.value else [])
  }

  function TryUpdate(t: Tables, u: UpdateArgs, now: int): Result<Tables, Refusal> {
    if u.account >= |t.accounts| || Truthy(t.accounts[u.account].deletedAt) then Err(NoAccount)
    else
      var account := t.accounts[u.account];
      if account.project !in t.db.projects then Err(NoProject)
      else if LevelOn(t, u.actor, u.account, now) != Level.Write then Err(NoWriteAccess)
      else if u.environments.Some? && u.environments.value == [] then Err(NoEnvironments)
      else if u.environments.Some? && !EditorMayMove(t.db, u.actor, account.project, u.environments.value) then Err(OutOfScope)
      else
        var touched := TouchedBy(account.environments, u.environments);
        var refusal := AssertProtectedWrite(t.db, t.requests, AccountWrite(account.project, touched, u.actor, Some(u.account), u.via, u.override));
        if refusal.Some? then Err(Unprotected(refusal.value))
        else if u.websiteUrl.Some? && !u.urlAccepted then Err(BadWebsiteUrl)
        else Ok(Updated(t, u))
  }

  /** An absent field keeps its value and an empty one clears it. */
  function Edited(value: Option<string>, edit: Option<string>): Option<string> {
    if edit == None then value else if edit.value == "" then None else edit
  }

  function Patched(a: Account, u: UpdateArgs): Account {
    a.(name := if u.name.Some? then u.name.value else a.name,
       websiteUrl := Edited(a.websiteUrl, u.websiteUrl),
       description := Edited(a.description, u.description),
       environments := if u.environments.Some? then u.environments.value else a.environments,
       vaultRef := if u.vaultRef.Some? then u.vaultRef.value else a.vaultRef,
       lastModifiedBy := u.actor,
       version := a.version + 1)
  }

  function Updated(t: Tables, u: UpdateArgs): Tables
    requires u.account < |t.accounts|
  {
    var a := t.accounts[u.account];
    t.(accounts := t.accounts[u.account := Patched(a, u)],
       deletions := t.deletions + if u.vaultRef.Some? && u.vaultRef.value != a.vaultRef then [a.vaultRef] else [],
       audit := t.audit + [AuditRow(u.actor, AccountUpdated(u.account))]
                + OverrideRows(Protects(t.db, a.project), TouchedBy(a.environments, u.environments), u.override, u.actor, u.account, UpdateKind))
  }

  // ----- remove

  function TryRemove(t: Tables, r: RemovalArgs, now: int): Result<Tables, Refusal> {
    if r.account >= |t.accounts| then Err(NoAccount)
    else
      var account := t.accounts[r.account];
      if account.project !in t.db.projects then Err(NoProject)
      else
        match Authorize(t.db, r.actor, account.project, "project.accounts.delete")
        case Err(e) => Err(e)
        case Ok(_) =>
          var refusal := AssertProtectedWrite(t.db, t.requests, AccountWrite(account.project, account.environments, r.actor, Some(r.account), r.via, r.override));
          if refusal.Some? then Err(Unprotected(refusal.value))
          else if account.deletedAt.Some? then Ok(t)
          else Ok(Removed(t, r, now))
  }

  function Removed(t: Tables, r: RemovalArgs, now: int): Tables
    requires r.account < |t.accounts|
  {
    var gone := Deleted(t, r, now);
    CancelEach(gone, Aimed(t.requests, r.account), r.via, r.actor)
  }

  /** The first batch of pending requests aimed at an account. */
  function Aimed(requests: seq<Request>, id: Id): seq<Id> {
    AccountListing.Take(PendingFrom(requests, Target(AccountResource, id), 0), SWEEP_BATCH)
  }

  function Deleted(t: Tables, r: RemovalArgs, now: int): Tables
    requires r.account < |t.accounts|
  {
    var a := t.accounts[r.account];
    t.(accounts := t.accounts[r.account := a.(deletedAt := Some(now))],
       db := t.db.(accountGrants := RevokedUpTo(t.db.accountGrants, r.account, |t.db.accountGrants|)),
       shares := SharesRevokedUpTo(t.shares, r.account, |t.shares|),
       audit := t.audit + ShareRows(t.shares, r.account, r.actor) + [AuditRow(r.actor, AccountDeleted(r.account))]
                + OverrideRows(Protects(t.db, a.project), a.environments, r.override, r.actor, r.account, DeleteKind))
  }

  /** The grants, those of an account among the first `n` revoked. */
  function RevokedUpTo(grants: seq<Grant>, id: Id, n: nat): seq<Grant> {
    seq(|grants|, k requires 0 <= k < |grants| =>
      if k < n && grants[k].resource == id then grants[k].(isActive := false) else grants[k])
  }

  function SharesRevokedUpTo(shares: seq<Share>, id: Id, n: nat): seq<Share> {
    seq(|shares|, k requires 0 <= k < |shares| =>
      if k < n && shares[k].account == id && shares[k].status == Active then shares[k].(status := Revoked) else shares[k])
  }

  /** One audit row for each active share of an account. */
  function ShareRows(shares: seq<Share>, id: Id, actor: Id): seq<AuditRow> {
    if shares == [] then []
    else
      var last := shares[|shares| - 1];
      ShareRows(shares[..|shares| - 1], id, actor)
      + if last.account == id && last.status == Active then [AuditRow(actor, ShareRevoked(id))] else []
  }

  /** The pending requests aimed at a resource, from place `i` of the table. */
  function PendingFrom(requests: seq<Request>, target: Target, i: nat): seq<Id>
    decreases |requests| - i
  {
    if i >= |requests| then []
    else
      (if requests[i].target == Some(target) && requests[i].status == Pending then [i] else [])
      + PendingFrom(requests, target, i + 1)
  }

  /** Closes one request without applying it: its staged vault object goes to the scheduler. */
  function Close(t: Tables, id: Id, status: Status, row: AuditRow): Tables
    requires id < |t.requests|
  {
    t.(requests := t.requests[id := t.requests[id].(status := status)],
       deletions := t.deletions + if t.requests[id].vaultRef.Some? then [t.requests[id].vaultRef.value] else [],
       audit := t.audit + [row])
  }

  function CancelEach(t: Tables, ids: seq<Id>, except: Option<Id>, actor: Id): Tables
    decreases |ids|
  {
    if ids == [] then t
    else
      CancelEach(if except == Some(ids[0]) || ids[0] >= |t.requests| then t
                 else Close(t, ids[0], Canceled, AuditRow(actor, ChangeCanceled(ids[0]))),
                 ids[1..], except, actor)
  }

  // ----- restore

  function TryRestore(t: Tables, r: RemovalArgs, now: int): Result<Tables, Refusal> {
    if r.account >= |t.accounts| then Err(NoAccount)
    else
      var account := t.accounts[r.account];
      if !Truthy(account.deletedAt) then Err(NotDeleted)
      else if account.deletedAt.value < now - RETENTION then Err(RetentionPassed)
      else if account.project !in t.db.projects then Err(NoProject)
      else
        match Authorize(t.db, r.actor, account.project, "project.accounts.delete")
        case Err(e) => Err(e)
        case Ok(_) =>
          var refusal := AssertProtectedWrite(t.db, t.requests, AccountWrite(account.project, account.environments, r.actor, Some(r.account), r.via, r.override));
          if refusal.Some? then Err(Unprotected(refusal.value)) else Ok(Restored(t, r))
  }

  function Restored(t: Tables, r: RemovalArgs): Tables
    requires r.account < |t.accounts|
  {
    var a := t.accounts[r.account];
    t.(accounts := t.accounts[r.account := a.(deletedAt := None)],
       audit := t.audit + [AuditRow(r.actor, AccountUpdated(r.account))]
                + OverrideRows(Protects(t.db, a.project), a.environments, r.override, r.actor, r.account, RestoreKind))
  }

  // ----- the mutations on the stored tables

  class Store {
    var db: Db
    var accounts: seq<Account>
    var shares: seq<Share>
    var requests: seq<Request>
    var audit: seq<AuditRow>
    var deletions: seq<Ref>

    function Contents(): Tables
      reads this
    {
      Tables(db, accounts, shares, requests, audit, deletions)
    }

    constructor (t: Tables)
      ensures Contents() == t
    {
      db, accounts, shares, requests, audit, deletions := t.db, t.accounts, t.shares, t.requests, t.audit, t.deletions;
    }

    /** Appends a mutation's audit row and, when it broke the glass, the row that says so. */
    method Log(row: AuditRow, project: Id, environments: seq<string>, override: bool, id: Id, kind: Kind)
      requires project in db.projects
      modifies this`audit
      ensures audit == old(audit) + [row] + OverrideRows(db.projects[project].protection, environments, override, row.user, id, kind)
    {
      audit := audit + [row];
      if override && IsProtectedWrite(db.projects[project].protection, environments) {
        audit := audit + [AuditRow(row.user, ChangeOverridden(id, kind))];
      }
    }

    method CreateCore(a: CreateArgs) returns (r: Result<Id, Refusal>)
      modifies this
      ensures match TryCreate(old(Contents()), a)
              case Ok(after) => r == Ok(|old(accounts)|) && Contents() == after
              case Err(e) => r == Err(e) && Contents() == old(Contents())
    {
      hide Authorize, AssertProtectedWrite, ScopeAllows, OverrideRows, Has;
      if a.project !in db.projects || db.projects[a.project].deleted {
        return Err(NoProject);
      }
      var auth := Authorize(db, a.actor, a.project, "project.accounts.create");
      if auth.Err? {
        return Err(auth.error);
      }
      if !ScopeAllows(auth.value.scope, a.environments) {
        return Err(OutOfScope);
      }
      if |a.environments| == 0 {
        return Err(NoEnvironments);
      }
      var refusal := AssertProtectedWrite(db, requests, AccountWrite(a.project, a.environments, a.actor, None, a.via, a.override));
      if refusal.Some? {
        return Err(Unprotected(refusal.value));
      }
      if !a.tierAllows {
        return Err(TierGate);
      }
      if !a.urlAccepted {
        return Err(BadWebsiteUrl);
      }
      var id := |accounts|;
      accounts := accounts + [Account(a.project, a.name, a.websiteUrl, a.description, a.environments, a.vaultRef, a.actor, a.actor, 1, None)];
      if !Has(auth.value.profile, "project.accounts.update") {
        db := db.(accountGrants := db.accountGrants + [Grant(id, a.actor, "write", None, true)]);
      } else {
        assert db.accountGrants + [] == db.accountGrants;
      }
      Log(AuditRow(a.actor, AccountCreated(id)), a.project, a.environments, a.override, id, CreateKind);
      return Ok(id);
    }

    method BuildPatch(account: Account, u: UpdateArgs) returns (update: Account)
      ensures update == Patched(account, u)
    {
      update := account.(lastModifiedBy := u.actor, version := account.version + 1);
      if u.name.Some? {
        update := update.(name := u.name.value);
      }
      if u.websiteUrl.Some? {
        update := update.(websiteUrl := if u.websiteUrl.value == "" then None else u.websiteUrl);
      }
      if u.description.Some? {
        update := update.(description := if u.description.value == "" then None else u.description);
      }
      if u.environments.Some? {
        update := update.(environments := u.environments.value);
      }
      if u.vaultRef.Some? && u.vaultRef.value != account.vaultRef {
        update := update.(vaultRef := u.vaultRef.value);
      }
    }

    method UpdateCore(u: UpdateArgs, now: int) returns (r: Result<Id, Refusal>)
      modifies this
      ensures match TryUpdate(old(Contents()), u, now)
              case Ok(after) => r == Ok(u.account) && Contents() == after
              case Err(e) => r == Err(e) && Contents() == old(Contents())
    {
      hide LevelOn, EditorMayMove, AssertProtectedWrite, OverrideRows, TouchedBy, Patched;
      if u.account >= |accounts| || Truthy(accounts[u.account].deletedAt) {
        return Err(NoAccount);
      }
      var account := accounts[u.account];
      if account.project !in db.projects {
        return Err(NoProject);
      }
      if LevelOn(Contents(), u.actor, u.account, now) != Level.Write {
        return Err(NoWriteAccess);
      }
      if u.environments.Some? {
        if |u.environments.value| == 0 {
          return Err(NoEnvironments);
        }
        if !EditorMayMove(db, u.actor, account.project, u.environments.value) {
          return Err(OutOfScope);
        }
      }
      var touched := TouchedBy(account.environments, u.environments);
      var refusal := AssertProtectedWrite(db, requests, AccountWrite(account.project, touched, u.actor, Some(u.account), u.via, u.override));
      if refusal.Some? {
        return Err(Unprotected(refusal.value));
      }
      if u.websiteUrl.Some? && !u.urlAccepted {
        return Err(BadWebsiteUrl);
      }
      var update := BuildPatch(account, u);
      if u.vaultRef.Some? && u.vaultRef.value != account.vaultRef {
        deletions := deletions + [account.vaultRef];
      } else {
        assert deletions + [] == deletions;
      }
      accounts := accounts[u.account := update];
      Log(AuditRow(u.actor, AccountUpdated(u.account)), account.project, touched, u.override, u.account, UpdateKind);
      return Ok(u.account);
    }

    method RemoveCore(r: RemovalArgs, now: int) returns (done: Result<Id, Refusal>)
      modifies this
      ensures match TryRemove(old(Contents()), r, now)
              case Ok(after) => done == Ok(r.account) && Contents() == after
              case Err(e) => done == Err(e) && Contents() == old(Contents())
    {
      hide Authorize, AssertProtectedWrite, OverrideRows, CancelEach, Aimed, RevokedUpTo, SharesRevokedUpTo, ShareRows;
      if r.account >= |accounts| {
        return Err(NoAccount);
      }
      var account := accounts[r.account];
      if account.project !in db.projects {
        return Err(NoProject);
      }
      var auth := Authorize(db, r.actor, account.project, "project.accounts.delete");
      if auth.Err? {
        return Err(auth.error);
      }
      var refusal := AssertProtectedWrite(db, requests, AccountWrite(account.project, account.environments, r.actor, Some(r.account), r.via, r.override));
      if refusal.Some? {
        return Err(Unprotected(refusal.value));
      }
      if account.deletedAt.Some? {
        return Ok(r.account);
      }
      accounts := accounts[r.account := account.(deletedAt := Some(now))];
      RevokeGrants(r.account);
      RevokeShares(r.account, r.actor);
      Log(AuditRow(r.actor, AccountDeleted(r.account)), account.project, account.environments, r.override, r.account, DeleteKind);
      assert Contents() == Deleted(old(Contents()), r, now);
      CancelPendingForTarget(r.account, r.actor, r.via);
      return Ok(r.account);
    }

    method RevokeGrants(id: Id)
      modifies this`db
      ensures db == old(db).(accountGrants := RevokedUpTo(old(db).accountGrants, id, |old(db).accountGrants|))
    {
      ghost var was := db.accountGrants;
      assert RevokedUpTo(was, id, 0) == was;
      for i := 0 to |db.accountGrants|
        invariant |db.accountGrants| == |was| && db == old(db).(accountGrants := RevokedUpTo(was, id, i))
      {
        RevokeOne(was, id, i);
        if db.accountGrants[i].resource == id && db.accountGrants[i].isActive {
          db := db.(accountGrants := db.accountGrants[i := db.accountGrants[i].(isActive := false)]);
        }
      }
    }

    method RevokeShares(id: Id, actor: Id)
      modifies this`shares, this`audit
      ensures shares == SharesRevokedUpTo(old(shares), id, |old(shares)|)
      ensures audit == old(audit) + ShareRows(old(shares), id, actor)
    {
      ghost var (was, log) := (shares, audit);
      assert SharesRevokedUpTo(was, id, 0) == was;
      assert log + ShareRows(was[..0], id, actor) == log;
      for i := 0 to |shares|
        invariant |shares| == |was| && shares == SharesRevokedUpTo(was, id, i)
        invariant audit == log + ShareRows(was[..i], id, actor)
      {
        RevokeOneShare(was, id, actor, i);
        if shares[i].account != id || shares[i].status != Active {
          continue;
        }
        shares := shares[i := shares[i].(status := Revoked)];
        audit := audit + [AuditRow(actor, ShareRevoked(id))];
      }
      assert was[..|was|] == was;
    }

    method CancelPendingForTarget(id: Id, actor: Id, except: Option<Id>)
      modifies this`requests, this`deletions, this`audit
      ensures Contents() == CancelEach(old(Contents()), Aimed(old(requests), id), except, actor)
    {
      var pending := Aimed(requests, id);
      AimedInTable(requests, id);
      hide Aimed;
      for i := 0 to |pending|
        invariant |requests| == |old(requests)|
        invariant CancelEach(Contents(), pending[i..], except, actor) == CancelEach(old(Contents()), pending, except, actor)
      {
        var request := pending[i];
        assert pending[i..][0] == request && pending[i..][1..] == pending[i + 1..];
        assert request in pending;
        if except == Some(request) {
          continue;
        }
        CancelPendingRequest(request, actor);
      }
      assert pending[|pending|..] == [];
    }

    method CancelPendingRequest(id: Id, actor: Id)
      requires id < |requests|
      modifies this`requests, this`deletions, this`audit
      ensures Contents() == Close(old(Contents()), id, Canceled, AuditRow(actor, ChangeCanceled(id)))
    {
      requests := requests[id := requests[id].(status := Canceled)];
      if requests[id].vaultRef.Some? {
        deletions := deletions + [requests[id].vaultRef.value];
      } else {
        assert deletions + [] == deletions;
      }
      audit := audit + [AuditRow(actor, ChangeCanceled(id))];
    }

    method RestoreCore(r: RemovalArgs, now: int) returns (done: Result<Id, Refusal>)
      modifies this
      ensures match TryRestore(old(Contents()), r, now)
              case Ok(after) => done == Ok(r.account) && Contents() == after
              case Err(e) => done == Err(e) && Contents() == old(Contents())
    {
      hide Authorize, AssertProtectedWrite, OverrideRows;
      if r.account >= |accounts| {
        return Err(NoAccount);
      }
      var account := accounts[r.account];
      if !Truthy(account.deletedAt) {
        return Err(NotDeleted);
      }
      if account.deletedAt.value < now - RETENTION {
        return Err(RetentionPassed);
      }
      if account.project !in db.projects {
        return Err(NoProject);
      }
      var auth := Authorize(db, r.actor, account.project, "project.accounts.delete");
      if auth.Err? {
        return Err(auth.error);
      }
      var refusal := AssertProtectedWrite(db, requests, AccountWrite(account.project, account.environments, r.actor, Some(r.account), r.via, r.override));
      if refusal.Some? {
        return Err(Unprotected(refusal.value));
      }
      accounts := accounts[r.account := account.(deletedAt := None)];
      Log(AuditRow(r.actor, AccountUpdated(r.account)), account.project, account.environments, r.override, r.account, RestoreKind);
      return Ok(r.account);
    }
  }

  lemma RevokeOne(grants: seq<Grant>, id: Id, i: nat)
    requires i < |grants|
    ensures |RevokedUpTo(grants, id, i)| == |grants| && RevokedUpTo(grants, id, i)[i] == grants[i]
    ensures RevokedUpTo(grants, id, i + 1) ==
              if grants[i].resource == id && grants[i].isActive
              then RevokedUpTo(grants, id, i)[i := grants[i].(isActive := false)]
              else RevokedUpTo(grants, id, i)
  {
  }

  lemma RevokeOneShare(shares: seq<Share>, id: Id, actor: Id, i: nat)
    requires i < |shares|
    ensures |SharesRevokedUpTo(shares, id, i)| == |shares| && SharesRevokedUpTo(shares, id, i)[i] == shares[i]
    ensures var hit := shares[i].account == id && shares[i].status == Active;
            && SharesRevokedUpTo(shares, id, i + 1) ==
                 (if hit then SharesRevokedUpTo(shares, id, i)[i := shares[i].(status := Revoked)] else SharesRevokedUpTo(shares, id, i))
            && ShareRows(shares[..i + 1], id, actor) ==
                 ShareRows(shares[..i], id, actor) + (if hit then [AuditRow(actor, ShareRevoked(id))] else [])
  {
    assert shares[..i + 1][..i] == shares[..i];
  }

  lemma {:induction false} PendingInTable(requests: seq<Request>, target: Target, i: nat)
    ensures forall id :: id in PendingFrom(requests, target, i) <==>
              i <= id < |requests| && requests[id].target == Some(target) && requests[id].status == Pending
    decreases |requests| - i
  {
    if i < |requests| {
      PendingInTable(requests, target, i + 1);
    }
  }

  lemma AimedInTable(requests: seq<Request>, id: Id)
    ensures forall request <- Aimed(requests, id) :: request < |requests|
  {
    var all := PendingFrom(requests, Target(AccountResource, id), 0);
    PendingInTable(requests, Target(AccountResource, id), 0);
    assert forall request <- Aimed(requests, id) :: request in all;
  }

  lemma {:induction false} CancelEachStatus(t: Tables, ids: seq<Id>, except: Option<Id>, actor: Id, k: Id)
    requires k < |t.requests|
    ensures |CancelEach(t, ids, except, actor).requests| == |t.requests|
    ensures CancelEach(t, ids, except, actor).requests[k] ==
              if k in ids && except != Some(k) then t.requests[k].(status := Canceled) else t.requests[k]
    decreases |ids|
  {
    if ids != [] {
      var next := if except == Some(ids[0]) || ids[0] >= |t.requests| then t
                  else Close(t, ids[0], Canceled, AuditRow(actor, ChangeCanceled(ids[0])));
      CancelEachStatus(next, ids[1..], except, actor, k);
    }
  }

  /**
    Deleting an account cancels the first batch of the proposals aimed at it, but for the one being
    applied; one is left over only beyond a full batch.
  */
  lemma DeletionClosesProposals(t: Tables, r: RemovalArgs, now: int, k: Id)
    requires r.account < |t.accounts| && k < |t.requests| && t.requests[k].target == Some(Target(AccountResource, r.account))
    ensures |Removed(t, r, now).requests| == |t.requests|
    ensures Removed(t, r, now).requests[k].status == Pending <==>
              t.requests[k].status == Pending && (r.via == Some(k) || k !in Aimed(t.requests, r.account))
    ensures t.requests[k].status == Pending && k !in Aimed(t.requests, r.account) ==> |Aimed(t.requests, r.account)| == SWEEP_BATCH
  {
    PendingInTable(t.requests, Target(AccountResource, r.account), 0);
    var all := PendingFrom(t.requests, Target(AccountResource, r.account), 0);
    assert forall id <- Aimed(t.requests, r.account) :: id in all;
    CancelEachStatus(Deleted(t, r, now), Aimed(t.requests, r.account), r.via, r.actor, k);
    hide CancelEach, PendingFrom, RevokedUpTo, OverrideRows;
  }

  // ----- grants and shares

  /**
    What the grant and share mutations do; `permitted` is the answer of their own authorization and gates,
    `verified` that of the recipient's one-time code.
  */
  datatype AccessChange =
    | GiveGrant(account: Id, user: Id, permission: string, expiresAt: Option<int>, permitted: bool)
    | ChangeGrant(place: nat, newPermission: Option<string>, newExpiry: Option<int>, permitted: bool)
    | EndGrant(place: nat)
    | GiveShare(account: Id, oneTime: bool, validUntil: int, permitted: bool)
    | EndShare(place: nat, permitted: bool)
    | OpenShare(place: nat, verified: bool, now: int)
    | RestoreBurned(place: nat)
    | LapseShares(now: int)

  predicate IsLive(t: Tables, id: Id) {
    id < |t.accounts| && !Truthy(t.accounts[id].deletedAt)
  }

  /** The clean-up job: every active share whose time has passed. */
  function Lapsing(shares: seq<Share>, now: int): seq<Share> {
    seq(|shares|, k requires 0 <= k < |shares| =>
      if shares[k].status == Active && shares[k].expiresAt < now then shares[k].(status := Lapsed) else shares[k])
  }

  function TryAccess(t: Tables, c: AccessChange): Result<Tables, Refusal> {
    var grants := t.db.accountGrants;
    match c
    case GiveGrant(id, user, permission, expiresAt, permitted) =>
      if !IsLive(t, id) then Err(NoAccount)
      else if !permitted then Err(NotPermitted)
      else if exists g <- grants :: g.resource == id && g.user == user && g.isActive then Err(GrantExists)
      else Ok(t.(db := t.db.(accountGrants := grants + [Grant(id, user, permission, expiresAt, true)])))
    case ChangeGrant(place, permission, expiresAt, permitted) =>
      if place >= |grants| || !grants[place].isActive then Err(NoGrant)
      else if !IsLive(t, grants[place].resource) then Err(NoAccount)
      else if !permitted then Err(NotPermitted)
      else
        var g := grants[place];
        Ok(t.(db := t.db.(accountGrants := grants[place := g.(
             permission := if permission.Some? then permission.value else g.permission,
             expiresAt := if expiresAt.Some? then expiresAt else g.expiresAt)])))
    case EndGrant(place) =>
      if place >= |grants| then Err(NoGrant)
      else Ok(t.(db := t.db.(accountGrants := grants[place := grants[place].(isActive := false)])))
    case GiveShare(id, oneTime, validUntil, permitted) =>
      if !IsLive(t, id) then Err(NoAccount)
      else if !permitted then Err(NotPermitted)
      else Ok(t.(shares := t.shares + [Share(id, oneTime, validUntil, Active)]))
    case EndShare(place, permitted) =>
      if place >= |t.shares| then Err(NoShare)
      else if !permitted then Err(NotPermitted)
      else if t.shares[place].status != Active then Err(ShareClosed)
      else Ok(t.(shares := t.shares[place := t.shares[place].(status := Revoked)]))
    case OpenShare(place, verified, now) =>
      if place >= |t.shares| then Err(NoShare)
      else if t.shares[place].status != Active || t.shares[place].expiresAt < now then Err(ShareClosed)
      else if !IsLive(t, t.shares[place].account) then Err(NoAccount)
      else if !verified then Err(NotPermitted)
      else if !t.shares[place].oneTime then Ok(t)
      else Ok(t.(shares := t.shares[place := t.shares[place].(status := Burned)]))
    case RestoreBurned(place) =>
      if place >= |t.shares| || !t.shares[place].oneTime || t.shares[place].status != Burned then Ok(t)
      else Ok(t.(shares := t.shares[place := t.shares[place].(status := Active)]))
    case LapseShares(now) => Ok(t.(shares := Lapsing(t.shares, now)))
  }

  /** An account that goes with its organisation: not deleted yet, and of one of its projects. */
  predicate GoesWith(t: Tables, org: Id, id: Id) {
    && id < |t.accounts| && t.accounts[id].deletedAt == None
    && t.accounts[id].project in t.db.projects && t.db.projects[t.accounts[id].project].org == org
  }

  /** Deleting an organisation deletes its accounts and revokes their grants; shares and proposals stay as they are. */
  function Dropped(t: Tables, org: Id, actor: Id, now: int): Tables {
    var grants := t.db.accountGrants;
    t.(accounts := seq(|t.accounts|, k requires 0 <= k < |t.accounts| =>
                     if GoesWith(t, org, k) then t.accounts[k].(deletedAt := Some(now)) else t.accounts[k]),
       db := t.db.(
         projects := map p | p in t.db.projects && t.db.projects[p].org != org :: t.db.projects[p],
         members := AccountListing.Filter(t.db.members, (m: Member) => m.org != org),
         accountGrants := seq(|grants|, k requires 0 <= k < |grants| =>
                            if GoesWith(t, org, grants[k].resource) then grants[k].(isActive := false) else grants[k])),
       audit := t.audit + [AuditRow(actor, OrganizationDeleted(org))])
  }

  /** `Elsewhere` is any change that other parts of the product make to the other access tables and requests. */
  datatype Event =
    | CreateEvent(create: CreateArgs)
    | UpdateEvent(update: UpdateArgs, now: int)
    | RemoveEvent(removal: RemovalArgs, now: int)
    | RestoreEvent(removal: RemovalArgs, now: int)
    | AccessEvent(change: AccessChange)
    | DropOrganization(org: Id, actor: Id, permitted: bool, at: int)
    | Elsewhere(db: Db, requests: seq<Request>)

  /** One of the four account mutations. */
  predicate IsCore(ev: Event) {
    ev.CreateEvent? || ev.UpdateEvent? || ev.RemoveEvent? || ev.RestoreEvent?
  }

  function Attempt(t: Tables, ev: Event): Result<Tables, Refusal> {
    match ev
    case CreateEvent(a) => TryCreate(t, a)
    case UpdateEvent(u, now) => TryUpdate(t, u, now)
    case RemoveEvent(r, now) => TryRemove(t, r, now)
    case RestoreEvent(r, now) => TryRestore(t, r, now)
    case AccessEvent(c) => TryAccess(t, c)
    case DropOrganization(org, actor, permitted, now) => if permitted then Ok(Dropped(t, org, actor, now)) else Err(NotPermitted)
    case Elsewhere(db, requests) => Ok(t.(db := db.(accountGrants := t.db.accountGrants), requests := requests))
  }

  function Step(t: Tables, ev: Event): Tables {
    match Attempt(t, ev)
    case Ok(after) => after
    case Err(_) => t
  }

  function Run(t: Tables, evs: seq<Event>): Tables
    decreases |evs|
  {
    if evs == [] then t else Run(Step(t, evs[0]), evs[1..])
  }

  /** What a mutation that went through did to the tables. */
  ghost predicate Effect(t: Tables, ev: Event, after: Tables) {
    match ev
    case CreateEvent(a) => exists creator :: after == Created(t, a, creator)
    case UpdateEvent(u, now) => u.account < |t.accounts| && after == Updated(t, u)
    case RemoveEvent(r, now) =>
      r.account < |t.accounts| && after == if t.accounts[r.account].deletedAt.Some? then t else Removed(t, r, now)
    case RestoreEvent(r, now) => r.account < |t.accounts| && after == Restored(t, r)
    case AccessEvent(c) => TryAccess(t, c) == Ok(after)
    case DropOrganization(org, actor, _, now) => after == Dropped(t, org, actor, now)
    case Elsewhere(db, requests) => after == t.(db := db.(accountGrants := t.db.accountGrants), requests := requests)
  }

  lemma StepEffect(t: Tables, ev: Event)
    ensures Step(t, ev) == t || Effect(t, ev, Step(t, ev))
    ensures Attempt(t, ev).Ok? ==> Effect(t, ev, Step(t, ev))
    ensures Attempt(t, ev).Ok? && ev.CreateEvent? ==> ev.create.environments != []
    ensures Attempt(t, ev).Ok? && ev.UpdateEvent? && ev.update.environments.Some? ==> ev.update.environments.value != []
  {
    hide Authorize, AssertProtectedWrite, LevelOn, EditorMayMove, Created, Updated, Removed, Restored, ScopeAllows, TouchedBy;
    if ev.CreateEvent? && Attempt(t, ev).Ok? {
      var creator := Authorize(t.db, ev.create.actor, ev.create.project, "project.accounts.create").value.profile;
      assert Step(t, ev) == Created(t, ev.create, creator);
    }
  }

  lemma {:induction false} CancelEachFrame(t: Tables, ids: seq<Id>, except: Option<Id>, actor: Id)
    ensures var after := CancelEach(t, ids, except, actor);
            && after.db == t.db && after.accounts == t.accounts && after.shares == t.shares && |after.requests| == |t.requests|
            && Overridden(after.audit) == Overridden(t.audit)
    decreases |ids|
  {
    if ids != [] {
      if except != Some(ids[0]) && ids[0] < |t.requests| {
        var row := AuditRow(actor, ChangeCanceled(ids[0]));
        OverriddenSum(t.audit, [row]);
        CancelEachFrame(Close(t, ids[0], Canceled, row), ids[1..], except, actor);
      } else {
        CancelEachFrame(t, ids[1..], except, actor);
      }
    }
  }

  // ----- versions, environments and grants

  function VersionOf(t: Tables, id: Id): nat {
    if id < |t.accounts| then t.accounts[id].version else 1
  }

  /** How many updates of an account went through in a run. */
  function Updates(t: Tables, evs: seq<Event>, id: Id): nat
    decreases |evs|
  {
    if evs == [] then 0
    else
      (if evs[0].UpdateEvent? && evs[0].update.account == id && Attempt(t, evs[0]).Ok? then 1 else 0)
      + Updates(Step(t, evs[0]), evs[1..], id)
  }

  lemma StepVersion(t: Tables, ev: Event, id: Id)
    ensures VersionOf(Step(t, ev), id) ==
              VersionOf(t, id) + if ev.UpdateEvent? && ev.update.account == id && Attempt(t, ev).Ok? then 1 else 0
  {
    StepEffect(t, ev);
    if ev.RemoveEvent? && ev.removal.account < |t.accounts| {
      CancelEachFrame(Deleted(t, ev.removal, ev.now), Aimed(t.requests, ev.removal.account), ev.removal.via, ev.removal.actor);
    }
    hide Attempt, Step, CancelEach, Aimed, RevokedUpTo, OverrideRows, TouchedBy;
  }

  /** An account's version is one plus the updates that went through since it was created. */
  lemma {:induction false} VersionCountsUpdates(t: Tables, evs: seq<Event>, id: Id)
    ensures VersionOf(Run(t, evs), id) == VersionOf(t, id) + Updates(t, evs, id)
    decreases |evs|
  {
    if evs != [] {
      StepVersion(t, evs[0], id);
      VersionCountsUpdates(Step(t, evs[0]), evs[1..], id);
    }
  }

  /** Every account has an environment, and only accounts that are not deleted have active grants. */
  ghost predicate Sound(t: Tables) {
    && (forall a <- t.accounts :: a.environments != [])
    && (forall g <- t.db.accountGrants :: g.isActive ==> IsLive(t, g.resource))
    && (forall s <- t.shares :: s.account < |t.accounts|)
  }

  lemma CreatedSound(t: Tables, a: CreateArgs, creator: Profile)
    requires Sound(t) && a.environments != []
    ensures Sound(Created(t, a, creator))
  {
    hide OverrideRows;
  }

  lemma UpdatedSound(t: Tables, u: UpdateArgs)
    requires Sound(t) && u.account < |t.accounts| && (u.environments.Some? ==> u.environments.value != [])
    ensures Sound(Updated(t, u))
  {
    hide OverrideRows, TouchedBy, Edited;
  }

  lemma RemovedSound(t: Tables, r: RemovalArgs, now: int)
    requires Sound(t) && r.account < |t.accounts|
    ensures Sound(Removed(t, r, now))
  {
    CancelEachFrame(Deleted(t, r, now), Aimed(t.requests, r.account), r.via, r.actor);
    var after := Removed(t, r, now);
    hide OverrideRows, CancelEach, Aimed;
    assert forall k :: 0 <= k < |after.shares| ==> after.shares[k].account == t.shares[k].account;
  }

  lemma RestoredSound(t: Tables, r: RemovalArgs)
    requires Sound(t) && r.account < |t.accounts|
    ensures Sound(Restored(t, r))
  {
    hide OverrideRows;
  }

  lemma AccessSound(t: Tables, c: AccessChange)
    requires Sound(t) && TryAccess(t, c).Ok?
    ensures Sound(TryAccess(t, c).value)
  {
    var after := TryAccess(t, c).value;
    assert forall k :: 0 <= k < |t.shares| ==> after.shares[k].account == t.shares[k].account;
  }

  lemma DroppedSound(t: Tables, org: Id, actor: Id, now: int)
    requires Sound(t)
    ensures Sound(Dropped(t, org, actor, now))
  {
    var after := Dropped(t, org, actor, now);
    forall g | g in after.db.accountGrants && g.isActive
      ensures IsLive(after, g.resource)
    {
      assert g in t.db.accountGrants;
    }
  }

  lemma StepSound(t: Tables, ev: Event)
    requires Sound(t)
    ensures Sound(Step(t, ev))
  {
    StepEffect(t, ev);
    if Attempt(t, ev).Ok? {
      match ev
      case CreateEvent(a) =>
        var creator :| Step(t, ev) == Created(t, a, creator);
        CreatedSound(t, a, creator);
      case UpdateEvent(u, _) => UpdatedSound(t, u);
      case RemoveEvent(r, now) => RemovedSound(t, r, now);
      case RestoreEvent(r, _) => RestoredSound(t, r);
      case AccessEvent(c) => AccessSound(t, c);
      case DropOrganization(org, actor, _, now) => DroppedSound(t, org, actor, now);
      case Elsewhere(_, _) =>
    }
  }

  lemma {:induction false} EveryRunSound(t: Tables, evs: seq<Event>)
    requires Sound(t)
    ensures Sound(Run(t, evs))
    decreases |evs|
  {
    if evs != [] {
      StepSound(t, evs[0]);
      EveryRunSound(Step(t, evs[0]), evs[1..]);
    }
  }

  // ----- shares of deleted accounts

  predicate Gone(t: Tables, id: Id) {
    id < |t.accounts| && !IsLive(t, id)
  }

  predicate Reopens(ev: Event, k: nat) {
    ev == AccessEvent(RestoreBurned(k))
  }

  /** The event closes an active share for good. */
  predicate Ends(ev: Event, k: nat, expiresAt: int) {
    ev == AccessEvent(EndShare(k, true)) || (ev.AccessEvent? && ev.change.LapseShares? && expiresAt < ev.change.now)
  }

  /** What an event does to share `k` while its account is deleted. */
  function Turned(s: Share, ev: Event, k: nat): Share {
    if s.oneTime && s.status == Burned && Reopens(ev, k) then s.(status := Active)
    else if s.status == Active && Ends(ev, k, s.expiresAt) then s.(status := if ev.change.EndShare? then Revoked else Lapsed)
    else s
  }

  function Fate(s: Share, evs: seq<Event>, k: nat): Share {
    if evs == [] then s else Turned(Fate(s, evs[..|evs| - 1], k), evs[|evs| - 1], k)
  }

  /** The share was reopened and nothing closed it afterwards. */
  ghost predicate Reopened(evs: seq<Event>, k: nat, expiresAt: int) {
    && (exists j | 0 <= j < |evs| :: Reopens(evs[j], k))
    && forall i, j | 0 <= i < j < |evs| :: Reopens(evs[i], k) ==> !Ends(evs[j], k, expiresAt)
  }

  lemma {:induction false} FateIs(s: Share, evs: seq<Event>, k: nat)
    ensures var f := Fate(s, evs, k);
            && f == s.(status := f.status)
            && (f.status == Burned ==> s.status == Burned)
            && (s.status == Active ==> (f.status == Active <==> forall ev <- evs :: !Ends(ev, k, s.expiresAt)))
            && (!(s.oneTime && s.status == Burned) && s.status != Active ==> f.status != Active)
            && (s.oneTime && s.status == Burned ==>
                  && (f.status == Active <==> Reopened(evs, k, s.expiresAt))
                  && (f.status == Burned <==> forall ev <- evs :: !Reopens(ev, k)))
  {
    if evs != [] {
      var (init, last) := (evs[..|evs| - 1], evs[|evs| - 1]);
      FateIs(s, init, k);
      assert evs == init + [last];
      assert forall i | 0 <= i < |init| :: init[i] == evs[i];
      hide Fate;
      if s.oneTime && s.status == Burned {
        ReopenedSnoc(init, last, k, s.expiresAt);
        assert Fate(s, evs, k) == Turned(Fate(s, init, k), last, k) by {
          assert evs[..|evs| - 1] == init;
          FateSnoc(s, evs, k);
        }
      } else {
        FateSnoc(s, evs, k);
      }
    }
  }

  lemma FateSnoc(s: Share, evs: seq<Event>, k: nat)
    requires evs != []
    ensures Fate(s, evs, k) == Turned(Fate(s, evs[..|evs| - 1], k), evs[|evs| - 1], k)
  {
  }

  lemma ReopenedSnoc(evs: seq<Event>, ev: Event, k: nat, expiresAt: int)
    ensures Reopened(evs + [ev], k, expiresAt) <==>
              if forall e <- evs :: !Reopens(e, k) then Reopens(ev, k)
              else Reopened(evs, k, expiresAt) && !Ends(ev, k, expiresAt)
  {
    var all := evs + [ev];
    assert forall i | 0 <= i < |evs| :: all[i] == evs[i];
    assert all[|evs|] == ev;
    if Reopened(all, k, expiresAt) && !(forall e <- evs :: !Reopens(e, k)) {
      var e :| e in evs && Reopens(e, k);
      var i :| 0 <= i < |evs| && evs[i] == e;
      assert Reopens(all[i], k) && !Ends(all[|evs|], k, expiresAt);
    }
    if Reopens(ev, k) && forall e <- evs :: !Reopens(e, k) {
      forall i, j | 0 <= i < j < |all|
        ensures Reopens(all[i], k) ==> !Ends(all[j], k, expiresAt)
      {
        assert evs[i] in evs;
      }
    }
  }

  /** Shares are only ever added, and keep everything but their status. */
  ghost predicate SharesGrow(t: Tables, after: Tables) {
    && |t.shares| <= |after.shares|
    && forall k :: 0 <= k < |t.shares| ==> after.shares[k] == t.shares[k].(status := after.shares[k].status)
  }

  /** What the account mutations do to shares. */
  lemma CoreShares(t: Tables, ev: Event)
    requires !ev.AccessEvent?
    ensures Step(t, ev).shares == t.shares
         || (ev.RemoveEvent? && ev.removal.account < |t.accounts| && t.accounts[ev.removal.account].deletedAt == None
             && Step(t, ev).shares == SharesRevokedUpTo(t.shares, ev.removal.account, |t.shares|))
  {
    StepEffect(t, ev);
    if ev.RemoveEvent? && ev.removal.account < |t.accounts| {
      CancelEachFrame(Deleted(t, ev.removal, ev.now), Aimed(t.requests, ev.removal.account), ev.removal.via, ev.removal.actor);
    }
    hide Attempt, Step, CancelEach, Aimed, RevokedUpTo, SharesRevokedUpTo, OverrideRows, TouchedBy;
  }

  lemma AccessShares(t: Tables, c: AccessChange, id: Id, k: nat)
    requires k < |Step(t, AccessEvent(c)).shares|
    ensures SharesGrow(t, Step(t, AccessEvent(c)))
    ensures !IsLive(t, id) ==>
              var after := Step(t, AccessEvent(c)).shares[k];
              if k < |t.shares| then t.shares[k].account == id ==> after == Turned(t.shares[k], AccessEvent(c), k)
              else after.account != id
  {
  }

  lemma StepShares(t: Tables, ev: Event)
    ensures SharesGrow(t, Step(t, ev))
  {
    if ev.AccessEvent? {
      if t.shares != [] {
        AccessGrows(t, ev.change);
        AccessShares(t, ev.change, 0, 0);
      }
    } else {
      CoreShares(t, ev);
      hide Step;
    }
  }

  lemma AccessGrows(t: Tables, c: AccessChange)
    ensures |t.shares| <= |Step(t, AccessEvent(c)).shares|
  {
  }

  /** While an account stays deleted nothing is shared from it, and its shares turn only so. */
  lemma GoneStep(t: Tables, ev: Event, id: Id, k: nat)
    requires Gone(t, id) && k < |Step(t, ev).shares|
    ensures |t.shares| <= k ==> Step(t, ev).shares[k].account != id
    ensures k < |t.shares| && t.shares[k].account == id ==> Step(t, ev).shares[k] == Turned(t.shares[k], ev, k)
  {
    if ev.AccessEvent? {
      AccessShares(t, ev.change, id, k);
    } else {
      CoreShares(t, ev);
      hide Step;
    }
  }

  /** An account that is gone after a step and was not before was deleted by it, alone or with its organisation. */
  lemma BecomesGone(t: Tables, ev: Event, id: Id)
    requires !Gone(t, id) && Gone(Step(t, ev), id)
    ensures id < |t.accounts| && IsLive(t, id)
    ensures (ev.RemoveEvent? && ev.removal.account == id) || ev.DropOrganization?
    ensures Step(t, ev).shares == if ev.RemoveEvent? then SharesRevokedUpTo(t.shares, id, |t.shares|) else t.shares
  {
    StepEffect(t, ev);
    if ev.RemoveEvent? && ev.removal.account < |t.accounts| {
      CancelEachFrame(Deleted(t, ev.removal, ev.now), Aimed(t.requests, ev.removal.account), ev.removal.via, ev.removal.actor);
    }
    hide Attempt, Step, CancelEach, Aimed, RevokedUpTo, OverrideRows, TouchedBy;
  }

  lemma {:induction false} RunLast(t: Tables, evs: seq<Event>)
    requires evs != []
    ensures Run(t, evs) == Step(Run(t, evs[..|evs| - 1]), evs[|evs| - 1])
    decreases |evs|
  {
    hide Step;
    if |evs| == 1 {
      assert evs[1..] == [] && evs[..0] == [];
    } else {
      RunLast(Step(t, evs[0]), evs[1..]);
      assert evs[1..][..|evs| - 2] == evs[..|evs| - 1][1..];
    }
  }

  lemma RunNext(t: Tables, evs: seq<Event>, n: nat)
    requires n < |evs|
    ensures Run(t, evs[..n + 1]) == Step(Run(t, evs[..n]), evs[n])
  {
    RunLast(t, evs[..n + 1]);
    assert evs[..n + 1][..n] == evs[..n];
    hide Step, Run;
  }

  /** From step `i` to step `n` the account is gone. */
  ghost predicate GoneTo(t: Tables, evs: seq<Event>, i: nat, n: nat, id: Id)
    requires n <= |evs|
  {
    forall m | i < m <= n :: Gone(Run(t, evs[..m]), id)
  }

  ghost predicate GoneSince(t: Tables, evs: seq<Event>, i: nat, id: Id) {
    GoneTo(t, evs, i, |evs|, id)
  }

  /** The last deletion of an account that is gone after `n` steps. */
  lemma {:induction false} LastDeletion(t: Tables, evs: seq<Event>, n: nat, id: Id) returns (i: nat)
    requires n <= |evs| && !Gone(Run(t, evs[..0]), id) && Gone(Run(t, evs[..n]), id)
    ensures i < n && !Gone(Run(t, evs[..i]), id) && GoneTo(t, evs, i, n, id)
    decreases n
  {
    hide Gone, Run;
    i := n - 1;
    if Gone(Run(t, evs[..n - 1]), id) {
      i := LastDeletion(t, evs, n - 1, id);
    }
  }

  lemma LastIsUnique(t: Tables, evs: seq<Event>, i: nat, j: nat, id: Id)
    requires i < |evs| && !Gone(Run(t, evs[..i]), id) && GoneSince(t, evs, i, id)
    requires j < |evs| && !Gone(Run(t, evs[..j]), id) && GoneSince(t, evs, j, id)
    ensures i == j
  {
    hide Run, Gone;
  }

  lemma GoneInTheEnd(t: Tables, evs: seq<Event>, i: nat, id: Id)
    requires i < |evs|
    ensures GoneSince(t, evs, i, id) ==> Gone(Run(t, evs), id)
  {
    assert evs[..|evs|] == evs;
    hide Run, Gone;
  }

  /** From its deletion on, a share's fate follows from the events alone, and no share is added. */
  lemma {:induction false} FateSince(t: Tables, evs: seq<Event>, i: nat, n: nat, id: Id, k: nat)
    requires i < n <= |evs| && GoneSince(t, evs, i, id) && k < |Run(t, evs[..n]).shares|
    ensures var (start, now) := (Run(t, evs[..i + 1]), Run(t, evs[..n]));
            if k < |start.shares| then start.shares[k].account == id ==> now.shares[k] == Fate(start.shares[k], evs[i + 1..n], k)
            else now.shares[k].account != id
    decreases n
  {
    hide Gone, Step, Run;
    if n == i + 1 {
      assert evs[i + 1..n] == [];
    } else {
      var prior := Run(t, evs[..n - 1]);
      RunNext(t, evs, n - 1);
      assert Gone(prior, id) && Gone(Run(t, evs[..n]), id);
      GoneStep(prior, evs[n - 1], id, k);
      StepShares(prior, evs[n - 1]);
      SharesSince(t, evs, i + 1, n - 1);
      if k < |prior.shares| {
        FateSince(t, evs, i, n - 1, id, k);
        assert evs[i + 1..n][..n - i - 2] == evs[i + 1..n - 1];
        if k < |Run(t, evs[..i + 1]).shares| && Run(t, evs[..i + 1]).shares[k].account == id {
          FateIs(Run(t, evs[..i + 1]).shares[k], evs[i + 1..n - 1], k);
        }
      }
    }
  }

  lemma {:induction false} SharesSince(t: Tables, evs: seq<Event>, i: nat, n: nat)
    requires i <= n <= |evs|
    ensures SharesGrow(Run(t, evs[..i]), Run(t, evs[..n]))
    decreases n
  {
    hide Step, Run;
    if i < n {
      SharesSince(t, evs, i, n - 1);
      RunNext(t, evs, n - 1);
      StepShares(Run(t, evs[..n - 1]), evs[n - 1]);
    }
  }

  /** At step `i` the account of share `k` is deleted for good. */
  ghost predicate DeletedAt(t: Tables, evs: seq<Event>, i: nat, k: nat)
    requires i < |evs|
  {
    var before := Run(t, evs[..i]);
    k < |before.shares| && IsLive(before, before.shares[k].account) && GoneSince(t, evs, i, before.shares[k].account)
  }

  /**
    How share `k` survives the deletion at step `i`: burned before and reopened after it, without being
    closed again; or left active by the deletion of the organisation, and never closed.
  */
  ghost predicate Survives(t: Tables, evs: seq<Event>, i: nat, k: nat)
    requires i < |evs| && k < |Run(t, evs[..i]).shares|
  {
    var s := Run(t, evs[..i]).shares[k];
    || (s.oneTime && s.status == Burned && Reopened(evs[i + 1..], k, s.expiresAt))
    || (s.status == Active && evs[i].DropOrganization? && forall ev <- evs[i + 1..] :: !Ends(ev, k, s.expiresAt))
  }

  /** What a deletion does to the shares of its account. */
  lemma AtDeletion(t: Tables, ev: Event, id: Id, k: nat)
    requires !Gone(t, id) && Gone(Step(t, ev), id) && k < |Step(t, ev).shares| && Step(t, ev).shares[k].account == id
    ensures IsLive(t, id) && k < |t.shares| && (ev.RemoveEvent? || ev.DropOrganization?)
    ensures Step(t, ev).shares[k] ==
              if ev.RemoveEvent? && t.shares[k].status == Active then t.shares[k].(status := Revoked) else t.shares[k]
  {
    BecomesGone(t, ev, id);
    hide Step, IsLive;
  }

  /** A share of an account deleted at step `i` is active in the end exactly when it survives that. */
  lemma AfterDeletion(t: Tables, evs: seq<Event>, i: nat, k: nat)
    requires i < |evs| && k < |Run(t, evs).shares|
    requires var id := Run(t, evs).shares[k].account; !Gone(Run(t, evs[..i]), id) && GoneSince(t, evs, i, id)
    ensures DeletedAt(t, evs, i, k)
    ensures Run(t, evs).shares[k].status == Active <==> Survives(t, evs, i, k)
  {
    var id := Run(t, evs).shares[k].account;
    var (before, start) := (Run(t, evs[..i]), Run(t, evs[..i + 1]));
    assert evs[..|evs|] == evs && evs[i + 1..|evs|] == evs[i + 1..];
    RunNext(t, evs, i);
    FateSince(t, evs, i, |evs|, id, k);
    SharesSince(t, evs, i + 1, |evs|);
    assert Gone(start, id);
    hide Run, Step, Reopened, Fate, Gone, IsLive, GoneTo, Ends;
    AtDeletion(before, evs[i], id, k);
    FateIs(start.shares[k], evs[i + 1..], k);
  }

  /**
    In every run that begins without accounts, a deleted account has an active share exactly when the
    share survived the account's last deletion: as a one-time share that was burned then and reopened
    since, or because the account was deleted with its organisation.
  */
  lemma DeletedShareActiveIff(t: Tables, evs: seq<Event>, k: nat)
    requires t.accounts == [] && k < |Run(t, evs).shares|
    ensures var s := Run(t, evs).shares[k];
            s.status == Active && Gone(Run(t, evs), s.account) <==>
              exists i | 0 <= i < |evs| :: DeletedAt(t, evs, i, k) && Survives(t, evs, i, k)
  {
    var s := Run(t, evs).shares[k];
    assert evs[..|evs|] == evs;
    if Gone(Run(t, evs), s.account) {
      assert Run(t, evs[..0]) == t;
      var i := LastDeletion(t, evs, |evs|, s.account);
      AfterDeletion(t, evs, i, k);
      hide Run, Survives;
      forall j | 0 <= j < |evs| && DeletedAt(t, evs, j, k)
        ensures j == i
      {
        SharesSince(t, evs, j, |evs|);
        LastIsUnique(t, evs, i, j, s.account);
      }
    } else {
      hide Run, Survives;
      forall j | 0 <= j < |evs|
        ensures !DeletedAt(t, evs, j, k)
      {
        SharesSince(t, evs, j, |evs|);
        GoneInTheEnd(t, evs, j, s.account);
      }
    }
  }

  /** Owners pass every check of the account mutations, on their project's own row. */
  lemma OwnersAuthorized(meta: Meta, protection: seq<string>, user: Id, capability: string)
    requires (user == 1 || user == 2) && capability in CAPABILITIES
    ensures Authorize(OwnersDb(meta, protection), user, 1, capability) == Ok(ProjectAuth(OWNER, false, OwnerProfile(), None))
  {
    OwnerMay(meta, protection, user, capability);
    hide Check;
  }

  /** A development account of the project of two owners. */
  function SmallAccount(ref: Ref, via: Option<Id>): CreateArgs {
    CreateArgs(1, 1, "mail", None, true, None, ["development"], ref, via, false, true)
  }

  function SmallRow(ref: Ref): Account {
    Account(1, "mail", None, None, ["development"], ref, 1, 1, 1, None)
  }

  lemma SmallCreate(t: Tables, meta: Meta, ref: Ref)
    requires t.db == OwnersDb(meta, [])
    ensures Attempt(t, CreateEvent(SmallAccount(ref, None))) ==
              Ok(t.(accounts := t.accounts + [SmallRow(ref)], audit := t.audit + [AuditRow(1, AccountCreated(|t.accounts|))]))
  {
    OwnersAuthorized(meta, [], 1, "project.accounts.create");
    ProtectedWriteMeets([], ["development"]);
    hide Authorize, ProtectedIn;
    assert t.db.accountGrants + [] == t.db.accountGrants;
    assert t.audit + [AuditRow(1, AccountCreated(|t.accounts|))] + [] == t.audit + [AuditRow(1, AccountCreated(|t.accounts|))];
  }

  lemma SmallRemove(t: Tables, meta: Meta, now: int)
    requires t.db == OwnersDb(meta, []) && |t.accounts| == 1 && t.accounts[0] == SmallRow(t.accounts[0].vaultRef) && t.requests == []
    ensures var r := RemoveEvent(RemovalArgs(0, 1, None, false), now);
            && Attempt(t, r).Ok?
            && Attempt(t, r).value.accounts == [t.accounts[0].(deletedAt := Some(now))]
            && Attempt(t, r).value.shares == SharesRevokedUpTo(t.shares, 0, |t.shares|)
  {
    OwnersAuthorized(meta, [], 1, "project.accounts.delete");
    ProtectedWriteMeets([], ["development"]);
    hide Authorize, ProtectedIn, ShareRows;
    assert Aimed(t.requests, 0) == [];
  }

  /** A one-time share is opened, its account deleted and the share reopened. */
  function BurnedShareRun(): seq<Event> {
    [CreateEvent(SmallAccount(0, None)), AccessEvent(GiveShare(0, true, 10, true)), AccessEvent(OpenShare(0, true, 5)),
     RemoveEvent(RemovalArgs(0, 1, None, false), 6), AccessEvent(RestoreBurned(0))]
  }

  /** Afterwards the deleted account has an active share. */
  lemma DeletedShareRevives(meta: Meta)
    ensures var after := Run(Tables(OwnersDb(meta, []), [], [], [], [], []), BurnedShareRun());
            after.shares == [Share(0, true, 10, Active)] && Gone(after, 0)
  {
    var (s0, evs) := (Tables(OwnersDb(meta, []), [], [], [], [], []), BurnedShareRun());
    SmallCreate(s0, meta, 0);
    var s1 := Step(s0, evs[0]);
    SmallShare(s1);
    var s3 := Step(Step(s1, evs[1]), evs[2]);
    SmallRemove(s3, meta, 6);
    var s4 := Step(s3, evs[3]);
    SmallReopen(s4);
    FiveSteps(s0, evs);
    hide Attempt, Run;
  }

  lemma SmallShare(t: Tables)
    requires IsLive(t, 0) && t.shares == []
    ensures Step(Step(t, AccessEvent(GiveShare(0, true, 10, true))), AccessEvent(OpenShare(0, true, 5))) ==
              t.(shares := [Share(0, true, 10, Burned)])
  {
    var given := Step(t, AccessEvent(GiveShare(0, true, 10, true)));
    assert given == t.(shares := [Share(0, true, 10, Active)]);
    assert IsLive(given, 0);
  }

  /** Deleting the organisation leaves a share of its account active. */
  lemma OrganizationLeavesShare(meta: Meta)
    ensures var evs := [CreateEvent(SmallAccount(0, None)), AccessEvent(GiveShare(0, false, 10, true)), DropOrganization(1, 1, true, 6)];
            var after := Run(Tables(OwnersDb(meta, []), [], [], [], [], []), evs);
            after.shares == [Share(0, false, 10, Active)] && Gone(after, 0)
  {
    var s0 := Tables(OwnersDb(meta, []), [], [], [], [], []);
    var evs := [CreateEvent(SmallAccount(0, None)), AccessEvent(GiveShare(0, false, 10, true)), DropOrganization(1, 1, true, 6)];
    SmallCreate(s0, meta, 0);
    var s1 := Step(s0, evs[0]);
    var s2 := Step(s1, evs[1]);
    assert s2 == s1.(shares := [Share(0, false, 10, Active)]);
    var s3 := Step(s2, evs[2]);
    assert GoesWith(s2, 1, 0);
    assert s3 == Dropped(s2, 1, 1, 6);
    assert evs[1..][1..][1..] == [];
    hide Attempt, Step;
    assert Run(s2, evs[1..][1..]) == s3;
    assert Run(s1, evs[1..]) == Run(s2, evs[1..][1..]);
  }

  lemma SmallReopen(t: Tables)
    requires t.shares == SharesRevokedUpTo([Share(0, true, 10, Burned)], 0, 1)
    ensures Step(t, AccessEvent(RestoreBurned(0))) == t.(shares := [Share(0, true, 10, Active)])
  {
    assert t.shares == [Share(0, true, 10, Burned)];
  }

  lemma FiveSteps(t: Tables, evs: seq<Event>)
    requires |evs| == 5
    ensures Run(t, evs) == Step(Step(Step(Step(Step(t, evs[0]), evs[1]), evs[2]), evs[3]), evs[4])
  {
    hide Step;
    var (one, two, three, four) := (evs[1..], evs[2..], evs[3..], evs[4..]);
    assert one[1..] == two && two[1..] == three && three[1..] == four && four[1..] == [];
    assert one[0] == evs[1] && two[0] == evs[2] && three[0] == evs[3] && four[0] == evs[4];
    var s4 := Step(Step(Step(Step(t, evs[0]), evs[1]), evs[2]), evs[3]);
    assert Run(s4, four) == Step(s4, evs[4]);
    assert Run(Step(Step(Step(t, evs[0]), evs[1]), evs[2]), three) == Run(s4, four);
    assert Run(Step(Step(t, evs[0]), evs[1]), two) == Run(Step(Step(Step(t, evs[0]), evs[1]), evs[2]), three);
  }

  // ----- protected changes

  predicate IsOverride(row: AuditRow) {
    row.action.ChangeOverridden?
  }

  function Overridden(audit: seq<AuditRow>): nat {
    if audit == [] then 0 else (if IsOverride(audit[0]) then 1 else 0) + Overridden(audit[1..])
  }

  lemma {:induction false} OverriddenSum(a: seq<AuditRow>, b: seq<AuditRow>)
    ensures Overridden(a + b) == Overridden(a) + Overridden(b)
  {
    if a == [] {
      assert a + b == b;
    } else {
      OverriddenSum(a[1..], b);
      assert (a + b)[1..] == a[1..] + b;
    }
  }

  function OverrideOf(ev: Event): bool {
    match ev
    case CreateEvent(a) => a.override
    case UpdateEvent(u, _) => u.override
    case RemoveEvent(r, _) => r.override
    case RestoreEvent(r, _) => r.override
    case _ => false
  }

  /** The write an event asks for, on the tables it meets. */
  function WriteOf(t: Tables, ev: Event): PlannedWrite {
    match ev
    case CreateEvent(a) => AccountWrite(a.project, a.environments, a.actor, None, a.via, a.override)
    case UpdateEvent(u, _) =>
      var a := AccountAt(t, u.account);
      AccountWrite(a.project, TouchedBy(a.environments, u.environments), u.actor, Some(u.account), u.via, u.override)
    case RemoveEvent(r, _) =>
      AccountWrite(AccountAt(t, r.account).project, AccountAt(t, r.account).environments, r.actor, Some(r.account), r.via, r.override)
    case RestoreEvent(r, _) =>
      AccountWrite(AccountAt(t, r.account).project, AccountAt(t, r.account).environments, r.actor, Some(r.account), r.via, r.override)
    case _ => PlannedWrite(0, [], 0, AccountResource, None, None, false)
  }

  /** The first audit row of an event, its account and its kind of change. */
  function MainRow(t: Tables, ev: Event): (AuditRow, Id, Kind) {
    match ev
    case CreateEvent(a) => (AuditRow(a.actor, AccountCreated(|t.accounts|)), |t.accounts|, CreateKind)
    case UpdateEvent(u, _) => (AuditRow(u.actor, AccountUpdated(u.account)), u.account, UpdateKind)
    case RemoveEvent(r, _) => (AuditRow(r.actor, AccountDeleted(r.account)), r.account, DeleteKind)
    case RestoreEvent(r, _) => (AuditRow(r.actor, AccountUpdated(r.account)), r.account, RestoreKind)
    case _ => (AuditRow(0, AccountUpdated(0)), 0, UpdateKind)
  }

  function AccountAt(t: Tables, id: Id): Account {
    if id < |t.accounts| then t.accounts[id] else Account(0, "", None, None, [], 0, 0, 0, 0, None)
  }

  /** Accounts as they were before and after a step; a created one had no environments before. */
  ghost predicate ChangesAccount(t: Tables, after: Tables, id: Id) {
    id < |after.accounts| && (id >= |t.accounts| || after.accounts[id] != t.accounts[id])
  }

  ghost predicate TouchesProtected(t: Tables, after: Tables, id: Id)
    requires id < |after.accounts|
  {
    exists e :: e in Protects(t.db, after.accounts[id].project) && (e in after.accounts[id].environments || e in AccountAt(t, id).environments)
  }

  lemma AcceptedPasses(t: Tables, ev: Event)
    requires Attempt(t, ev).Ok? && IsCore(ev)
    ensures WriteOf(t, ev).project in t.db.projects
    ensures AssertProtectedWrite(t.db, t.requests, WriteOf(t, ev)) == None
  {
    hide Authorize, AssertProtectedWrite, LevelOn, EditorMayMove, ScopeAllows, TouchedBy, Created, Updated, Removed, Restored;
  }

  /** A change names one account; its write covers the environments before and after. */
  lemma ChangeIsWritten(t: Tables, ev: Event, id: Id)
    requires ChangesAccount(t, Step(t, ev), id) && !ev.DropOrganization?
    ensures var (after, w) := (Step(t, ev), WriteOf(t, ev));
            && Attempt(t, ev).Ok? && IsCore(ev) && w.project == after.accounts[id].project
            && w.target == (if ev.CreateEvent? then None else Some(Target(AccountResource, id)))
            && (ev.CreateEvent? <==> id >= |t.accounts|)
            && (forall e :: e in w.environments <==> e in after.accounts[id].environments || e in AccountAt(t, id).environments)
  {
    StepEffect(t, ev);
    var after := Step(t, ev);
    if ev.RemoveEvent? && ev.removal.account < |t.accounts| {
      CancelEachFrame(Deleted(t, ev.removal, ev.now), Aimed(t.requests, ev.removal.account), ev.removal.via, ev.removal.actor);
    }
    if ev.UpdateEvent? && ev.update.account < |t.accounts| {
      TouchedIff(t.accounts[ev.update.account].environments,
                 if ev.update.environments.Some? then ev.update.environments.value else []);
    }
    assert Attempt(t, ev).Ok?;
    hide Attempt, Step, CancelEach, Aimed, RevokedUpTo, OverrideRows, Touched, Edited;
  }

  /** A mutation that goes through and is not a repeated delete. */
  predicate TakesEffect(t: Tables, ev: Event) {
    && Attempt(t, ev).Ok? && IsCore(ev)
    && (ev.RemoveEvent? && ev.removal.account < |t.accounts| ==> t.accounts[ev.removal.account].deletedAt == None)
  }

  /** It broke the glass: an override on a write into a protected environment. */
  predicate BreaksGlass(t: Tables, ev: Event) {
    && TakesEffect(t, ev) && OverrideOf(ev)
    && IsProtectedWrite(Protects(t.db, WriteOf(t, ev).project), WriteOf(t, ev).environments)
  }

  lemma ShareRowsOverrideNothing(t: Tables, ev: Event)
    ensures ev.RemoveEvent? ==> Overridden(ShareRows(t.shares, ev.removal.account, ev.removal.actor)) == 0
  {
    if ev.RemoveEvent? {
      ShareRowsAre(t.shares, ev.removal.account, ev.removal.actor);
      NoneOverridden(ShareRows(t.shares, ev.removal.account, ev.removal.actor));
    }
  }

  lemma {:induction false} ShareRowsAre(shares: seq<Share>, id: Id, actor: Id)
    ensures forall row <- ShareRows(shares, id, actor) :: row == AuditRow(actor, ShareRevoked(id))
  {
    if shares != [] {
      ShareRowsAre(shares[..|shares| - 1], id, actor);
    }
  }

  lemma {:induction false} NoneOverridden(rows: seq<AuditRow>)
    requires forall row <- rows :: !IsOverride(row)
    ensures Overridden(rows) == 0
  {
    if rows != [] {
      assert rows[0] in rows;
      NoneOverridden(rows[1..]);
    }
  }

  lemma EffectAudit(t: Tables, ev: Event)
    requires TakesEffect(t, ev)
    ensures Overridden(Step(t, ev).audit) == Overridden(t.audit) + if BreaksGlass(t, ev) then 1 else 0
  {
    StepEffect(t, ev);
    var w := WriteOf(t, ev);
    var (row, subject, kind) := MainRow(t, ev);
    var rows := OverrideRows(Protects(t.db, w.project), w.environments, OverrideOf(ev), w.actor, subject, kind);
    var first := if ev.RemoveEvent? then ShareRows(t.shares, ev.removal.account, ev.removal.actor) else [];
    ShareRowsOverrideNothing(t, ev);
    assert t.audit + [] == t.audit;
    OverriddenSum(t.audit, first);
    OverriddenSum(t.audit + first, [row]);
    OverriddenSum(t.audit + first + [row], rows);
    if ev.RemoveEvent? && ev.removal.account < |t.accounts| {
      CancelEachFrame(Deleted(t, ev.removal, ev.now), Aimed(t.requests, ev.removal.account), ev.removal.via, ev.removal.actor);
    }
    hide Attempt, Step, CancelEach, Aimed, RevokedUpTo, SharesRevokedUpTo, ShareRows, IsProtectedWrite, TouchedBy, Edited;
  }

  lemma StepAudit(t: Tables, ev: Event)
    ensures Overridden(Step(t, ev).audit) == Overridden(t.audit) + if BreaksGlass(t, ev) then 1 else 0
  {
    if TakesEffect(t, ev) {
      EffectAudit(t, ev);
    } else {
      StepEffect(t, ev);
      if ev.DropOrganization? {
        OverriddenSum(t.audit, [AuditRow(ev.actor, OrganizationDeleted(ev.org))]);
      }
      hide Attempt, Step;
    }
  }

  /** How many steps of a run broke the glass. */
  function GlassBroken(t: Tables, evs: seq<Event>): nat
    decreases |evs|
  {
    if evs == [] then 0 else (if BreaksGlass(t, evs[0]) then 1 else 0) + GlassBroken(Step(t, evs[0]), evs[1..])
  }

  /** Over every run the audit log gains one override row for each step that broke the glass, and no other. */
  lemma {:induction false} OverridesAreAudited(t: Tables, evs: seq<Event>)
    ensures Overridden(Run(t, evs).audit) == Overridden(t.audit) + GlassBroken(t, evs)
    decreases |evs|
  {
    if evs != [] {
      StepAudit(t, evs[0]);
      hide BreaksGlass, Overridden, Step;
      OverridesAreAudited(Step(t, evs[0]), evs[1..]);
    }
  }

  /**
    A step, other than the deletion of an organisation, that changes an account one of whose environments, before or after, is protected either
    applies a pending request that names exactly that account, or is the override of an active member
    with the break-glass capability, and then adds exactly one override row.
  */
  ghost predicate Covered(before: Tables, ev: Event, id: Id) {
    var (after, w) := (Step(before, ev), WriteOf(before, ev));
    !ev.DropOrganization? && ChangesAccount(before, after, id) && TouchesProtected(before, after, id) ==>
      && w.project == after.accounts[id].project && w.resource == AccountResource
      && w.target == (if id < |before.accounts| then Some(Target(AccountResource, id)) else None)
      && w.project in before.db.projects
      && (if w.via.Some? then Authorises(before.requests, w.via.value, w)
          else && w.override && CanOverride(before.db, w.project, w.actor)
               && Overridden(after.audit) == Overridden(before.audit) + 1)
  }

  lemma StepCovered(before: Tables, ev: Event, id: Id)
    ensures Covered(before, ev, id)
  {
    var (after, w) := (Step(before, ev), WriteOf(before, ev));
    if !ev.DropOrganization? && ChangesAccount(before, after, id) && TouchesProtected(before, after, id) {
      ChangeIsWritten(before, ev, id);
      AcceptedPasses(before, ev);
      StepAudit(before, ev);
      WriteAllowedIff(before.db, before.requests, w);
      ProtectedWriteMeets(Protects(before.db, w.project), w.environments);
      StepEffect(before, ev);
      hide Step, Attempt, AssertProtectedWrite, IsProtectedWrite, CanOverride, Overridden, TouchedBy, Created, Updated, Removed, Restored;
    }
  }

  /** In every run, whatever else happens to projects, roles and requests in between. */
  lemma ProtectedChangesAreCovered(t: Tables, evs: seq<Event>)
    ensures forall k, id :: 0 <= k < |evs| ==> Covered(Run(t, evs[..k]), evs[k], id)
  {
    hide Covered, Run;
    forall k, id | 0 <= k < |evs|
      ensures Covered(Run(t, evs[..k]), evs[k], id)
    {
      StepCovered(Run(t, evs[..k]), evs[k], id);
    }
  }
}
