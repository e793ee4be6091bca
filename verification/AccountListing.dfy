/** The account list: one pass over a project's accounts that must agree with the per-account decision. */
module AccountListing {
  import opened Prelude
  import opened Roles
  import opened Access

  const DEFAULT_LIMIT := 500

  /** The fields of an account that no decision reads. */
  datatype Details = Details(name: string, websiteUrl: Option<string>, description: Option<string>, createdBy: Id,
                             lastModifiedBy: Id, version: nat)

  datatype Account = Account(id: Id, project: Id, details: Details, environments: seq<string>, deleted: bool, vaultRef: Ref)

  datatype Permission = Admin | Plain(level: Level)

  /** The role names that older clients know. */
  datatype LegacyRole = Manager | Developer | Viewer

  datatype Listed = Listed(account: Id, details: Details, environments: seq<string>, vaultRef: Option<Ref>, hasAccess: bool,
                           permission: Permission, roleAccess: bool, userRole: string, projectRole: Option<LegacyRole>,
                           canManagePermissions: bool)

  /** What older clients see of an assigned member's role; the owner class is listed as not assigned. */
  function ProjectRole(p: Profile, isAssigned: bool): Option<LegacyRole> {
    if !isAssigned then None
    else if Bypasses(p) || Has(p, "project.variables.update") then Some(Manager)
    else if Has(p, "access.blanket_read") then Some(Viewer)
    else Some(Developer)
  }

  // ----- the per-account decision

  predicate LiveProject(db: Db, project: Id) {
    project in db.projects && !db.projects[project].deleted
  }

  function AccountAccess(db: Db, user: Id, a: Account, now: int): Level {
    if !LiveProject(db, a.project) then NoAccess
    else ResolveResourceAccess(db, user, a.project, db.projects[a.project].org, a.environments, "project.accounts.update",
                               ActiveGrant(db.accountGrants, user, a.id, now))
  }

  function CallerProfile(db: Db, user: Id, project: Id): Option<Profile> {
    if !LiveProject(db, project) then None
    else
      match ActiveMembership(db, db.projects[project].org, user)
      case None => None
      case Some(membership) => Some(ProfileOf(db, membership.role))
  }

  /** The scope the list applies: the role default narrowed by the assignment, whether or not there is one. */
  function ListScope(db: Db, user: Id, project: Id, profile: Profile): Option<seq<string>> {
    var assignment := AssignmentOf(db, project, user);
    EffectiveEnvironments(profile, if assignment.Some? then assignment.value.environments else None)
  }

  /** Which accounts a caller sees, account by account. */
  predicate Shown(db: Db, user: Id, a: Account, now: int) {
    var profile := CallerProfile(db, user, a.project);
    && profile.Some? && !a.deleted
    && (|| Bypasses(profile.value)
        || (&& ScopeAllows(ListScope(db, user, a.project, profile.value), a.environments)
            && (AssignmentOf(db, a.project, user).Some? || AccountAccess(db, user, a, now) != NoAccess)))
  }

  /** What a caller sees of an account, from the per-account decision. */
  function RowFor(db: Db, user: Id, a: Account, now: int): Listed
    requires CallerProfile(db, user, a.project).Some?
  {
    var profile := CallerProfile(db, user, a.project).value;
    var level := AccountAccess(db, user, a, now);
    var isAssigned := AssignmentOf(db, a.project, user).Some?;
    var manages := Bypasses(profile) || (isAssigned && Has(profile, "project.permissions.manage"));
    var role := ActiveMembership(db, db.projects[a.project].org, user).value.role;
    Listed(a.id, a.details, a.environments, if level == NoAccess then None else Some(a.vaultRef), level != NoAccess,
           if manages then Admin else Plain(level),
           Bypasses(profile) || (isAssigned && Has(profile, "project.accounts.update")), NormalizeRole(role),
           ProjectRole(profile, isAssigned && !Bypasses(profile)), manages)
  }

  function Listing(db: Db, user: Id, accounts: seq<Account>, now: int): seq<Listed>
    decreases |accounts|
  {
    if accounts == [] then []
    else
      (if Shown(db, user, accounts[0], now) then [RowFor(db, user, accounts[0], now)] else [])
      + Listing(db, user, accounts[1..], now)
  }

  function Filter<T>(s: seq<T>, p: T -> bool): seq<T> {
    if s == [] then [] else (if p(s[0]) then [s[0]] else []) + Filter(s[1..], p)
  }

  function Take<T>(s: seq<T>, n: nat): seq<T> {
    if |s| <= n then s else s[..n]
  }

  function InProject(project: Id): Account -> bool {
    (a: Account) => a.project == project
  }

  /** The rows one index scan of a project returns. */
  function Scanned(accounts: seq<Account>, project: Id, limit: Option<nat>): seq<Account> {
    Take(Filter(accounts, InProject(project)), if limit.Some? then limit.value else DEFAULT_LIMIT)
  }

  lemma {:induction false} FilterIff<T>(s: seq<T>, p: T -> bool)
    ensures forall x :: x in Filter(s, p) <==> x in s && p(x)
  {
    if s != [] {
      FilterIff(s[1..], p);
    }
  }

  // ----- the grant map

  /** The first active grant of each account, where `grants` holds one caller's rows. */
  method BuildActiveAccountGrantMap(grants: seq<Grant>, now: int) returns (byAccount: map<Id, Grant>)
    ensures forall id :: Lookup(byAccount, id) == FirstFor(grants, id, now)
  {
    byAccount := map[];
    for i := 0 to |grants|
      invariant forall id ::
                  FirstFor(grants, id, now) == if id in byAccount then Some(byAccount[id]) else FirstFor(grants[i..], id, now)
    {
      var grant := grants[i];
      assert grants[i..][0] == grant && grants[i..][1..] == grants[i + 1..];
      forall id
        ensures FirstFor(grants[i..], id, now) ==
                  if grant.resource == id && grant.isActive && Unexpired(grant, now) then Some(grant)
                  else FirstFor(grants[i + 1..], id, now)
      {
        FirstStep(grants[i..], id, now);
      }
      hide FirstFor;
      if !grant.isActive {
        continue;
      }
      if grant.expiresAt.Some? && grant.expiresAt.value != 0 && grant.expiresAt.value <= now {
        continue;
      }
      if grant.resource !in byAccount {
        byAccount := byAccount[grant.resource := grant];
      }
    }
  }

  function Lookup(byAccount: map<Id, Grant>, id: Id): Option<Grant> {
    if id in byAccount then Some(byAccount[id]) else None
  }

  function FirstFor(grants: seq<Grant>, id: Id, now: int): Option<Grant> {
    Find(grants, (g: Grant) => g.resource == id && g.isActive && Unexpired(g, now))
  }

  lemma FirstStep(grants: seq<Grant>, id: Id, now: int)
    requires grants != []
    ensures FirstFor(grants, id, now) ==
              if grants[0].resource == id && grants[0].isActive && Unexpired(grants[0], now) then Some(grants[0])
              else FirstFor(grants[1..], id, now)
  {
  }

  /** One pass over the caller's active rows finds the grant that the per-account search finds. */
  lemma {:induction false} GrantMapAgrees(grants: seq<Grant>, user: Id, id: Id, now: int)
    ensures FirstFor(Filter(grants, (g: Grant) => g.user == user && g.isActive), id, now) == ActiveGrant(grants, user, id, now)
    decreases |grants|
  {
    if grants != [] {
      GrantMapAgrees(grants[1..], user, id, now);
      var mine := Filter(grants[1..], (g: Grant) => g.user == user && g.isActive);
      if grants[0].user == user && grants[0].isActive {
        assert Filter(grants, (g: Grant) => g.user == user && g.isActive) == [grants[0]] + mine;
        FirstStep([grants[0]] + mine, id, now);
        assert ([grants[0]] + mine)[1..] == mine;
      } else {
        assert Filter(grants, (g: Grant) => g.user == user && g.isActive) == mine;
      }
    }
  }

  // ----- the batched list

  /** What one call of the list fetches about its caller, once. */
  datatype Caller = Caller(profile: Profile, isAssigned: bool, scope: Option<seq<string>>, role: string)

  ghost predicate CallerOf(db: Db, user: Id, project: Id, c: Caller) {
    && CallerProfile(db, user, project) == Some(c.profile)
    && c.role == NormalizeRole(ActiveMembership(db, db.projects[project].org, user).value.role)
    && (if Bypasses(c.profile) then !c.isAssigned && c.scope == None
        else c.isAssigned == AssignmentOf(db, project, user).Some? && c.scope == ListScope(db, user, project, c.profile))
  }

  method FetchCaller(db: Db, user: Id, project: Id) returns (c: Option<Caller>)
    ensures c == None <==> CallerProfile(db, user, project) == None
    ensures c.Some? ==> CallerOf(db, user, project, c.value)
  {
    hide GetRoleProfile, Find, Has;
    if project !in db.projects || db.projects[project].deleted {
      return None;
    }
    var membership := ActiveMembership(db, db.projects[project].org, user);
    if membership == None {
      return None;
    }
    var profile := ProfileOf(db, membership.value.role);
    var isOwner := Bypasses(profile);
    var assignment: Option<Assignment> := None;
    var scope: Option<seq<string>> := None;
    if !isOwner {
      assignment := AssignmentOf(db, project, user);
      scope := EffectiveEnvironments(profile, if assignment.Some? then assignment.value.environments else None);
    }
    return Some(Caller(profile, assignment.Some?, scope, NormalizeRole(membership.value.role)));
  }

  method FetchGrants(db: Db, user: Id, now: int) returns (byAccount: map<Id, Grant>)
    ensures forall id :: Lookup(byAccount, id) == ActiveGrant(db.accountGrants, user, id, now)
  {
    var grants := Filter(db.accountGrants, (g: Grant) => g.user == user && g.isActive);
    byAccount := BuildActiveAccountGrantMap(grants, now);
    forall id
      ensures Lookup(byAccount, id) == ActiveGrant(db.accountGrants, user, id, now)
    {
      GrantMapAgrees(db.accountGrants, user, id, now);
    }
  }

  method ListAccounts(db: Db, accounts: seq<Account>, user: Id, project: Id, limit: Option<nat>, now: int)
    returns (rows: seq<Listed>)
    ensures rows == Listing(db, user, Scanned(accounts, project, limit), now)
  {
    var found := Scanned(accounts, project, limit);
    ScannedProject(accounts, project, limit);
    var caller := FetchCaller(db, user, project);
    if caller == None {
      NothingShown(db, user, found, project, now);
      return [];
    }
    var c := caller.value;
    var byAccount := FetchGrants(db, user, now);
    rows := [];
    assert found[0..] == found;
    hide *;
    for i := 0 to |found|
      invariant rows + Listing(db, user, found[i..], now) == Listing(db, user, found, now)
    {
      var account := found[i];
      assert account in found;
      var grant := Lookup(byAccount, account.id);
      ListStep(db, user, c, found, i, now, rows);
      if BatchedShown(c, account, grant) {
        rows := rows + [BatchedRow(c, account, grant)];
      }
    }
    assert found[|found|..] == [];
    ListEnd(db, user, now, rows);
  }

  predicate RoleAccess(c: Caller) {
    Bypasses(c.profile) || (c.isAssigned && Has(c.profile, "project.accounts.update"))
  }

  function BatchedLevel(c: Caller, grant: Option<Grant>): Level {
    if RoleAccess(c) then Write
    else if c.isAssigned && Has(c.profile, "access.blanket_read") then Read
    else if grant == None then NoAccess
    else if !c.isAssigned || grant.value.permission == "read" then Read
    else if Has(c.profile, "access.grant_fallback") then Write
    else Read
  }

  predicate BatchedShown(c: Caller, a: Account, grant: Option<Grant>) {
    && !a.deleted && ScopeAllows(c.scope, a.environments)
    && (Bypasses(c.profile) || c.isAssigned || BatchedLevel(c, grant) != NoAccess)
  }

  function BatchedRow(c: Caller, a: Account, grant: Option<Grant>): Listed {
    var level := BatchedLevel(c, grant);
    var manages := Bypasses(c.profile) || (c.isAssigned && Has(c.profile, "project.permissions.manage"));
    Listed(a.id, a.details, a.environments, if level == NoAccess then None else Some(a.vaultRef), level != NoAccess,
           if manages then Admin else Plain(level), RoleAccess(c), c.role, ProjectRole(c.profile, c.isAssigned), manages)
  }

  lemma LevelAgrees(db: Db, user: Id, c: Caller, a: Account, now: int)
    requires CallerOf(db, user, a.project, c) && ScopeAllows(c.scope, a.environments)
    ensures BatchedLevel(c, ActiveGrant(db.accountGrants, user, a.id, now)) == AccountAccess(db, user, a, now)
  {
    hide ScopeAllows, ActiveGrant, ActiveMembership, AssignmentOf, Bypasses, Has, ProfileOf, EffectiveEnvironments;
  }

  lemma ShownAgrees(db: Db, user: Id, c: Caller, a: Account, now: int)
    requires CallerOf(db, user, a.project, c)
    ensures BatchedShown(c, a, ActiveGrant(db.accountGrants, user, a.id, now)) <==> Shown(db, user, a, now)
    ensures Shown(db, user, a, now) ==>
              BatchedRow(c, a, ActiveGrant(db.accountGrants, user, a.id, now)) == RowFor(db, user, a, now)
  {
    if ScopeAllows(c.scope, a.environments) {
      LevelAgrees(db, user, c, a, now);
    }
  }

  lemma ListStep(db: Db, user: Id, c: Caller, found: seq<Account>, i: nat, now: int, rows: seq<Listed>)
    requires i < |found| && CallerOf(db, user, found[i].project, c)
    ensures var grant := ActiveGrant(db.accountGrants, user, found[i].id, now);
            rows + Listing(db, user, found[i..], now) ==
            (if BatchedShown(c, found[i], grant) then rows + [BatchedRow(c, found[i], grant)] else rows)
            + Listing(db, user, found[i + 1..], now)
  {
    ShownAgrees(db, user, c, found[i], now);
    hide CallerOf, Shown, RowFor, BatchedShown, BatchedRow, ActiveGrant;
    assert found[i..][0] == found[i] && found[i..][1..] == found[i + 1..];
    var (next, tail) := (if Shown(db, user, found[i], now) then [RowFor(db, user, found[i], now)] else [],
                         Listing(db, user, found[i + 1..], now));
    ConcatAssociative(rows, next, tail);
    assert rows + [] == rows;
  }

  lemma ListEnd(db: Db, user: Id, now: int, rows: seq<Listed>)
    ensures rows + Listing(db, user, [], now) == rows
  {
  }

  lemma ScannedProject(accounts: seq<Account>, project: Id, limit: Option<nat>)
    ensures forall a <- Scanned(accounts, project, limit) :: a.project == project
  {
    FilterIff(accounts, InProject(project));
    hide Filter;
    assert forall a <- Scanned(accounts, project, limit) :: a in Filter(accounts, InProject(project));
  }

  lemma {:induction false} NothingShown(db: Db, user: Id, accounts: seq<Account>, project: Id, now: int)
    requires CallerProfile(db, user, project) == None && forall a <- accounts :: a.project == project
    ensures Listing(db, user, accounts, now) == []
    decreases |accounts|
  {
    if accounts != [] {
      NothingShown(db, user, accounts[1..], project, now);
    }
  }

  // ----- what the list shows

  lemma {:induction false} ListingIff(db: Db, user: Id, accounts: seq<Account>, now: int, row: Listed)
    ensures row in Listing(db, user, accounts, now)
       <==> exists a <- accounts :: Shown(db, user, a, now) && row == RowFor(db, user, a, now)
    decreases |accounts|
  {
    if accounts != [] {
      ListingIff(db, user, accounts[1..], now, row);
      hide Shown, RowFor;
      assert forall a :: a in accounts <==> a == accounts[0] || a in accounts[1..];
    }
  }

  /** A listed row carries the per-account level, and the vault reference exactly when there is access. */
  lemma ListedRow(db: Db, user: Id, accounts: seq<Account>, now: int, row: Listed) returns (a: Account)
    requires row in Listing(db, user, accounts, now)
    ensures a in accounts && a.id == row.account && a.details == row.details && a.environments == row.environments && !a.deleted
    ensures row.permission == if row.canManagePermissions then Admin else Plain(AccountAccess(db, user, a, now))
    ensures row.hasAccess <==> AccountAccess(db, user, a, now) != NoAccess
    ensures row.vaultRef == if row.hasAccess then Some(a.vaultRef) else None
    ensures row.roleAccess ==> AccountAccess(db, user, a, now) == Write
  {
    ListingIff(db, user, accounts, now, row);
    a :| a in accounts && Shown(db, user, a, now) && row == RowFor(db, user, a, now);
    hide ScopeAllows, ActiveGrant, ActiveMembership, AssignmentOf, Bypasses, Has, ProfileOf, EffectiveEnvironments, Listing;
  }

  /** Someone whose only access is a grant: a member of the organisation outside the project. */
  predicate GuestOf(db: Db, user: Id, project: Id) {
    && CallerProfile(db, user, project).Some?
    && !Bypasses(CallerProfile(db, user, project).value)
    && AssignmentOf(db, project, user) == None
  }

  /** Of the accounts a caller may read, those that the filters of the list hold back. */
  lemma HeldBackIff(db: Db, user: Id, a: Account, now: int)
    requires !a.deleted && AccountAccess(db, user, a, now) != NoAccess
    ensures !Shown(db, user, a, now) <==> GuestOutside(db, user, a)
  {
    hide ScopeAllows, ActiveGrant, ActiveMembership, AssignmentOf, Bypasses, Has, ProfileOf, EffectiveEnvironments;
  }

  /** A guest whose role has default environments that do not cover the account. */
  predicate GuestOutside(db: Db, user: Id, a: Account) {
    && GuestOf(db, user, a.project)
    && !ScopeAllows(EffectiveEnvironments(CallerProfile(db, user, a.project).value, None), a.environments)
  }

  /** How many rows of a project come before place `k`, deleted ones included. */
  function Ahead(accounts: seq<Account>, project: Id, k: nat): nat
    requires k <= |accounts|
  {
    |Filter(accounts[..k], InProject(project))|
  }

  lemma {:induction false} FilterSplit<T>(a: seq<T>, b: seq<T>, p: T -> bool)
    ensures Filter(a + b, p) == Filter(a, p) + Filter(b, p)
  {
    if a == [] {
      assert a + b == b;
    } else {
      FilterSplit(a[1..], b, p);
      assert (a + b)[1..] == a[1..] + b;
    }
  }

  /** A scan returns the rows that fewer than `limit` others of the project come before. */
  lemma ScannedIff(accounts: seq<Account>, project: Id, limit: Option<nat>, k: nat)
    requires k < |accounts| && accounts[k].project == project && DistinctIds(accounts)
    ensures accounts[k] in Scanned(accounts, project, limit) <==>
              Ahead(accounts, project, k) < if limit.Some? then limit.value else DEFAULT_LIMIT
  {
    var (n, p) := (if limit.Some? then limit.value else DEFAULT_LIMIT, InProject(project));
    var (front, back) := (Filter(accounts[..k], p), Filter(accounts[k + 1..], p));
    assert accounts == accounts[..k] + ([accounts[k]] + accounts[k + 1..]);
    FilterSplit(accounts[..k], [accounts[k]] + accounts[k + 1..], p);
    FilterSplit([accounts[k]], accounts[k + 1..], p);
    assert Filter([accounts[k]], p) == [accounts[k]];
    var all := Filter(accounts, p);
    assert all == front + ([accounts[k]] + back);
    assert all[|front|] == accounts[k];
    FilterIff(accounts[..k], p);
    assert accounts[k] !in accounts[..k];
    hide Filter;
    if |front| < n {
      assert |all| > n ==> all[..n][|front|] == accounts[k];
    } else {
      assert Take(all, n) == front[..n];
    }
  }

  /** Ids are keys. */
  ghost predicate DistinctIds(accounts: seq<Account>) {
    forall i, j :: 0 <= i < j < |accounts| ==> accounts[i].id != accounts[j].id
  }

  lemma ScannedSubset(accounts: seq<Account>, project: Id, limit: Option<nat>)
    ensures forall a <- Scanned(accounts, project, limit) :: a in accounts
  {
    FilterIff(accounts, InProject(project));
    hide Filter;
    assert forall a <- Scanned(accounts, project, limit) :: a in Filter(accounts, InProject(project));
  }

  /**
    A live account that the caller may read is missing from the list exactly when so many rows of its
    project come before it that the scan stops short of it, or the caller is a guest whose role has
    default environments that do not cover the account.
  */
  lemma OmittedIff(db: Db, accounts: seq<Account>, user: Id, project: Id, limit: Option<nat>, now: int, k: nat)
    requires DistinctIds(accounts) && k < |accounts| && accounts[k].project == project
    requires !accounts[k].deleted && AccountAccess(db, user, accounts[k], now) != NoAccess
    ensures (forall row <- Listing(db, user, Scanned(accounts, project, limit), now) :: row.account != accounts[k].id) <==>
              || Ahead(accounts, project, k) >= (if limit.Some? then limit.value else DEFAULT_LIMIT)
              || GuestOutside(db, user, accounts[k])
  {
    var (a, scanned) := (accounts[k], Scanned(accounts, project, limit));
    HeldBackIff(db, user, a, now);
    ScannedIff(accounts, project, limit, k);
    ScannedSubset(accounts, project, limit);
    hide Scanned, Listing, Shown, Ahead, AccountAccess, GuestOutside;
    forall row | row in Listing(db, user, scanned, now) && row.account == a.id
      ensures a in scanned && Shown(db, user, a, now)
    {
      var b := ListedRow(db, user, scanned, now, row);
      ListingIff(db, user, scanned, now, row);
      ShownHere(db, user, scanned, now, row, a, accounts);
    }
    if a in scanned && Shown(db, user, a, now) {
      ShownProfile(db, user, a, now);
      ListingIff(db, user, scanned, now, RowFor(db, user, a, now));
    }
  }

  lemma ShownProfile(db: Db, user: Id, a: Account, now: int)
    requires Shown(db, user, a, now)
    ensures CallerProfile(db, user, a.project).Some? && RowFor(db, user, a, now).account == a.id
  {
    hide ScopeAllows, ActiveGrant, ActiveMembership, AssignmentOf, Bypasses, Has, ProfileOf, EffectiveEnvironments;
  }

  lemma ShownHere(db: Db, user: Id, scanned: seq<Account>, now: int, row: Listed, a: Account, accounts: seq<Account>)
    requires exists b <- scanned :: Shown(db, user, b, now) && row == RowFor(db, user, b, now)
    requires DistinctIds(accounts) && a in accounts && (forall b <- scanned :: b in accounts) && row.account == a.id
    ensures a in scanned && Shown(db, user, a, now)
  {
    hide AccountAccess, ScopeAllows, ActiveMembership, AssignmentOf, Bypasses, ProfileOf, ListScope;
    var b :| b in scanned && Shown(db, user, b, now) && row == RowFor(db, user, b, now);
    var i, j :| 0 <= i < |accounts| && 0 <= j < |accounts| && accounts[i] == a && accounts[j] == b;
    assert !(i < j) && !(j < i);
  }

  /** An account listed without access is one within the scope of an assigned member. */
  lemma ShownWithoutAccess(db: Db, user: Id, a: Account, now: int)
    requires AccountAccess(db, user, a, now) == NoAccess
    ensures Shown(db, user, a, now) <==>
              && CallerProfile(db, user, a.project).Some? && !a.deleted
              && AssignmentOf(db, a.project, user).Some?
              && ScopeAllows(ListScope(db, user, a.project, CallerProfile(db, user, a.project).value), a.environments)
  {
    hide ScopeAllows, ActiveGrant, ActiveMembership, AssignmentOf, Bypasses, Has, ProfileOf, EffectiveEnvironments;
  }

  /** A guest with a read grant on a production account may fetch it but does not see it listed. */
  lemma GuestMissesGrantedAccount(meta: Meta, details: Details) returns (db: Db, a: Account)
    ensures !a.deleted && AccountAccess(db, 1, a, 0) == Read && Listing(db, 1, [a], 0) == []
  {
    var release := [SeedRole("developer", meta, 40, true, {"access.env_scoped"}, Some(["development"]))];
    var grant := Grant(7, 1, "read", None, true);
    a := Account(7, 1, details, ["production"], false, 3);
    db := Db(release, map[], [Member(1, 1, "developer", false)], [], map[1 := Project(1, 1, false, false, [])], [], [], [grant]);
    assert ActiveGrant(db.accountGrants, 1, 7, 0) == Some(grant);
    assert SeedFor(release, "developer") == Some(release[0]);
    var profile := ProfileOf(db, "developer");
    assert profile == Profile("developer", 40, Caps({"access.env_scoped"}), Some(["development"]));
    assert ActiveMembership(db, 1, 1) == Some(db.members[0]);
    assert a.environments[0] == "production" && "production" in a.environments;
    assert "production" !in ["development"];
    assert !ScopeAllows(Some(["development"]), a.environments);
    assert !Has(profile, "org.manage");
    HeldBackIff(db, 1, a, 0);
  }

  /** With a limit of one, a deleted row in front hides the project's only live account from its owner. */
  lemma DeletedRowUsesTheLimit(meta: Meta, details: Details) returns (db: Db, accounts: seq<Account>)
    ensures |accounts| == 2 && !accounts[1].deleted && AccountAccess(db, 1, accounts[1], 0) == Write
    ensures Listing(db, 1, Scanned(accounts, 1, Some(1)), 0) == []
    ensures |Listing(db, 1, Scanned(accounts, 1, Some(2)), 0)| == 1
  {
    var release := [SeedRole(OWNER, meta, 100, true, {"org.manage"}, None)];
    accounts := [Account(1, 1, details, ["development"], true, 3), Account(2, 1, details, ["development"], false, 4)];
    db := Db(release, map[], [Member(1, 1, OWNER, false)], [], map[1 := Project(1, 1, false, false, [])], [], [], []);
    assert ActiveMembership(db, 1, 1) == Some(db.members[0]);
    assert ProfileOf(db, OWNER) == Profile(OWNER, 100, Caps({"org.manage"}), None);
    assert Filter(accounts, InProject(1)) == accounts by {
      assert Filter(accounts[1..], InProject(1)) == accounts[1..];
    }
    assert Scanned(accounts, 1, Some(1)) == [accounts[0]];
    assert Listing(db, 1, accounts, 0) == Listing(db, 1, accounts[1..], 0);
    assert accounts[1..][1..] == [];
  }
}
