/**
  The migration that turns role environment defaults on: page by page it writes an explicit list onto
  every scopeable project member that has none, and only then fills the defaults of the roles.
*/
module EnvironmentMigration {
  import opened Prelude
  import opened Roles
  import opened Access
  import AccountListing

  const ALL_ENVIRONMENTS: seq<string> := ["development", "staging", "production"]

  /** A member row of an existing project, without a list, whose holder's role can be scoped. */
  predicate NeedsScope(db: Db, a: Assignment) {
    && a.environments == None && a.project in db.projects
    && Membership(db, db.projects[a.project].org, a.user).Some?
    && EnvScoped(db, Membership(db, db.projects[a.project].org, a.user).value.role)
  }

  predicate EnvScoped(db: Db, role: string) {
    Has(ProfileOf(db, role), "access.env_scoped")
  }

  function Patched(db: Db, a: Assignment): Assignment {
    if NeedsScope(db, a) then a.(environments := Some(ALL_ENVIRONMENTS)) else a
  }

  /** The defaults of the code's role table reach the stored rows that have none. */
  function FillOne(roles: Registry, s: SeedRole): Registry {
    if s.environments.Some? && s.slug in roles && roles[s.slug].environments == None then
      roles[s.slug := roles[s.slug].(environments := s.environments)]
    else roles
  }

  function Fill(roles: Registry, seeds: seq<SeedRole>): Registry
    decreases |seeds|
  {
    if seeds == [] then roles else Fill(FillOne(roles, seeds[0]), seeds[1..])
  }

  // ----- one run

  /** Where a scan of `n` rows that starts at `start` ends. */
  function PageEnd(n: nat, start: nat, size: nat): nat {
    if start + size <= n then start + size else n
  }

  /** A short page is the last one; a full page that empties the table may or may not say so. */
  predicate IsDone(n: nat, start: nat, size: nat, eager: bool) {
    start + size > n || (start + size == n && eager)
  }

  function PatchRange(db: Db, start: nat, end: nat): seq<Assignment> {
    seq(|db.assignments|, k requires 0 <= k < |db.assignments| =>
      if start <= k < end then Patched(db, db.assignments[k]) else db.assignments[k])
  }

  function AfterPage(db: Db, start: nat, size: nat, eager: bool): Db {
    var n := |db.assignments|;
    db.(assignments := PatchRange(db, start, PageEnd(n, start, size)),
        roles := if IsDone(n, start, size, eager) then Fill(db.roles, db.release) else db.roles)
  }

  function Position(cursor: Option<nat>): nat {
    if cursor.Some? then cursor.value else 0
  }

  /** The tables the migration reads and writes, and its stored cursor. */
  class Store {
    var db: Db
    var cursor: Option<nat>

    constructor (db: Db)
      ensures this.db == db && cursor == None
    {
      this.db := db;
      cursor := None;
    }

    method EnableRoleEnvironmentDefaults(size: nat, eager: bool) returns (patched: nat, rolesFilled: nat, hadMore: bool)
      requires size >= 1
      modifies this
      ensures db == AfterPage(old(db), Position(old(cursor)), size, eager)
      ensures hadMore <==> !IsDone(|old(db).assignments|, Position(old(cursor)), size, eager)
      ensures cursor == if hadMore then Some(Position(old(cursor)) + size) else None
      ensures patched == 0 ==> db.assignments == old(db).assignments
      ensures rolesFilled == 0 ==> db.roles == old(db).roles
      ensures forall k :: Position(old(cursor)) <= k < PageEnd(|old(db).assignments|, Position(old(cursor)), size) ==>
                (NeedsScope(old(db), old(db).assignments[k]) ==> patched > 0)
    {
      var (n, start) := (|db.assignments|, Position(cursor));
      var end := PageEnd(n, start, size);
      patched, rolesFilled := 0, 0;
      hide ProfileOf, Membership, Fill;
      if start < end {
        patched := PatchPage(start, end);
      } else {
        assert PatchRange(db, start, end) == db.assignments;
      }
      if !IsDone(n, start, size, eager) {
        cursor := Some(end);
        return patched, 0, true;
      }
      cursor := None;
      rolesFilled := FillRoles();
      return patched, rolesFilled, false;
    }

    method PatchPage(start: nat, end: nat) returns (patched: nat)
      requires start < end <= |db.assignments|
      modifies this`db
      ensures db == old(db).(assignments := PatchRange(old(db), start, end))
      ensures patched == 0 ==> db == old(db)
      ensures forall k :: start <= k < end && NeedsScope(old(db), old(db).assignments[k]) ==> patched > 0
    {
      var profileCache: map<string, bool> := map[];
      patched := 0;
      assert PatchRange(db, start, start) == db.assignments;
      hide PatchRange, GetRoleProfile, Find, Has;
      for i := start to end
        invariant |db.assignments| == |old(db).assignments|
        invariant db == old(db).(assignments := PatchRange(old(db), start, i))
        invariant forall role :: role in profileCache ==> profileCache[role] == EnvScoped(old(db), role)
        invariant patched == 0 ==> db == old(db)
        invariant forall k :: start <= k < i && NeedsScope(old(db), old(db).assignments[k]) ==> patched > 0
      {
        PatchOne(old(db), start, i);
        var member := db.assignments[i];
        if member.environments.Some? {
          continue;
        }
        if member.project !in db.projects {
          continue;
        }
        var membership := Membership(db, db.projects[member.project].org, member.user);
        if membership == None {
          continue;
        }
        var role := membership.value.role;
        if role !in profileCache {
          profileCache := profileCache[role := EnvScoped(db, role)];
        }
        if !profileCache[role] {
          continue;
        }
        db := db.(assignments := db.assignments[i := member.(environments := Some(ALL_ENVIRONMENTS))]);
        patched := patched + 1;
      }
    }

    method FillRoles() returns (rolesFilled: nat)
      modifies this`db
      ensures db == old(db).(roles := Fill(old(db).roles, old(db).release))
      ensures rolesFilled == 0 ==> db == old(db)
    {
      rolesFilled := 0;
      var seeds := db.release;
      for i := 0 to |seeds|
        invariant db == old(db).(roles := db.roles)
        invariant Fill(db.roles, seeds[i..]) == Fill(old(db).roles, seeds)
        invariant rolesFilled == 0 ==> db == old(db)
      {
        var s := seeds[i];
        assert seeds[i..][0] == s && seeds[i..][1..] == seeds[i + 1..];
        ghost var before := db.roles;
        if s.environments == None {
          continue;
        }
        if s.slug in db.roles && db.roles[s.slug].environments == None {
          db := db.(roles := db.roles[s.slug := db.roles[s.slug].(environments := s.environments)]);
          rolesFilled := rolesFilled + 1;
        }
        assert db.roles == FillOne(before, s);
      }
      assert seeds[|seeds|..] == [];
    }

    /** Repeated until nothing is left, whatever a full last page answers. */
    method RunToCompletion(size: nat, eager: nat -> bool) returns (runs: nat)
      requires size >= 1 && cursor == None
      modifies this
      ensures cursor == None
      ensures db == old(db).(assignments := PatchRange(old(db), 0, |old(db).assignments|),
                             roles := Fill(old(db).roles, old(db).release))
    {
      var hadMore := true;
      runs := 0;
      ghost var (start, n) := (0, |db.assignments|);
      assert PatchRange(db, 0, 0) == db.assignments;
      hide NeedsScope, Fill;
      while hadMore
        invariant hadMore ==> start == Position(cursor) <= n && db == old(db).(assignments := PatchRange(old(db), 0, start))
        invariant !hadMore ==> && cursor == None
                               && db == old(db).(assignments := PatchRange(old(db), 0, n), roles := Fill(old(db).roles, old(db).release))
        decreases hadMore, n - start
      {
        ghost var end := PageEnd(n, start, size);
        PatchMore(old(db), start, end);
        var _, _, more := EnableRoleEnvironmentDefaults(size, eager(runs));
        hadMore, runs, start := more, runs + 1, end;
      }
    }
  }

  lemma PatchOne(db: Db, start: nat, i: nat)
    requires start <= i < |db.assignments|
    ensures |PatchRange(db, start, i)| == |PatchRange(db, start, i + 1)| == |db.assignments|
    ensures PatchRange(db, start, i)[i] == db.assignments[i]
    ensures PatchRange(db, start, i + 1) == PatchRange(db, start, i)[i := Patched(db, db.assignments[i])]
    ensures !NeedsScope(db, db.assignments[i]) ==> PatchRange(db, start, i + 1) == PatchRange(db, start, i)
  {
  }

  /** Only the role registry and the memberships decide whether a row needs a scope. */
  lemma NeedsScopeIgnoresAssignments(db: Db, assignments: seq<Assignment>, a: Assignment)
    ensures NeedsScope(db.(assignments := assignments), a) <==> NeedsScope(db, a)
  {
  }

  lemma PatchMore(db: Db, start: nat, end: nat)
    requires start <= end <= |db.assignments|
    ensures PatchRange(db.(assignments := PatchRange(db, 0, start)), start, end) == PatchRange(db, 0, end)
  {
    var partial := db.(assignments := PatchRange(db, 0, start));
    forall a
      ensures NeedsScope(partial, a) <==> NeedsScope(db, a)
    {
      NeedsScopeIgnoresAssignments(db, partial.assignments, a);
    }
    hide NeedsScope;
    assert forall k :: 0 <= k < |db.assignments| ==>
        PatchRange(partial, start, end)[k] == PatchRange(db, 0, end)[k];
  }

  // ----- sessions

  /**
    A session of the migration, with members joining between runs. `visited` lists the rows its pages
    have held, and `plain` is the database as it would be without the migration.
  */
  datatype Session = Session(db: Db, cursor: Option<nat>, finished: bool, visited: seq<nat>, plain: Db)

  datatype Event = Page(eager: bool) | Join(member: Assignment)

  function Start(db: Db): Session {
    Session(db, None, false, [], db)
  }

  /** Nothing follows the run that reports no more rows. */
  function Step(s: Session, size: nat, ev: Event): Session {
    if s.finished then s
    else
      match ev
      case Join(a) =>
        s.(db := s.db.(assignments := s.db.assignments + [a]), plain := s.plain.(assignments := s.plain.assignments + [a]))
      case Page(eager) =>
        var (n, start) := (|s.db.assignments|, Position(s.cursor));
        var (end, done) := (PageEnd(n, start, size), IsDone(n, start, size, eager));
        s.(db := AfterPage(s.db, start, size, eager), finished := done,
           cursor := if done then None else Some(end),
           visited := s.visited + if start <= end then seq(end - start, k => start + k) else [])
  }

  function Run(s: Session, size: nat, evs: seq<Event>): Session
    decreases |evs|
  {
    if evs == [] then s else Run(Step(s, size, evs[0]), size, evs[1..])
  }

  ghost predicate Progress(s: Session) {
    && |s.visited| <= |s.plain.assignments|
    && (forall k :: 0 <= k < |s.visited| ==> s.visited[k] == k)
    && (if s.finished then s.cursor == None && |s.visited| == |s.plain.assignments|
        else |s.visited| == Position(s.cursor))
    && s.db == s.plain.(assignments := PatchRange(s.plain, 0, |s.visited|),
                        roles := if s.finished then Fill(s.plain.roles, s.plain.release) else s.plain.roles)
  }

  lemma PatchRangeJoin(db: Db, a: Assignment, end: nat)
    requires end <= |db.assignments|
    ensures PatchRange(db.(assignments := db.assignments + [a]), 0, end) == PatchRange(db, 0, end) + [a]
  {
    var more := db.(assignments := db.assignments + [a]);
    forall x
      ensures NeedsScope(more, x) <==> NeedsScope(db, x)
    {
      NeedsScopeIgnoresAssignments(db, more.assignments, x);
    }
    hide NeedsScope;
  }

  lemma StepProgress(s: Session, size: nat, ev: Event)
    requires size >= 1 && Progress(s)
    ensures Progress(Step(s, size, ev))
  {
    hide NeedsScope, Fill;
    if !s.finished {
      match ev
      case Join(a) => PatchRangeJoin(s.plain, a, |s.visited|);
      case Page(eager) => PatchMore(s.plain, |s.visited|, PageEnd(|s.plain.assignments|, |s.visited|, size));
    }
  }

  lemma {:induction false} RunProgress(s: Session, size: nat, evs: seq<Event>)
    requires size >= 1 && Progress(s)
    ensures Progress(Run(s, size, evs))
    decreases |evs|
  {
    if evs != [] {
      StepProgress(s, size, evs[0]);
      RunProgress(Step(s, size, evs[0]), size, evs[1..]);
    }
  }

  lemma StartProgress(db: Db)
    ensures Progress(Start(db))
  {
    assert PatchRange(db, 0, 0) == db.assignments;
  }

  /** Rows are visited in order, none twice, and a finished session has visited every one. */
  lemma EveryRowOnce(db: Db, size: nat, evs: seq<Event>)
    requires size >= 1
    ensures var s := Run(Start(db), size, evs);
            && |s.db.assignments| == |s.plain.assignments|
            && (forall k :: 0 <= k < |s.visited| ==> s.visited[k] == k < |s.db.assignments|)
            && (s.finished ==> |s.visited| == |s.db.assignments|)
  {
    StartProgress(db);
    RunProgress(Start(db), size, evs);
  }

  /** Without members joining, a session is over once its pages could have held more rows than there are. */
  lemma {:induction false} SessionsEnd(s: Session, size: nat, evs: seq<Event>)
    requires size >= 1 && Progress(s) && (forall ev <- evs :: ev.Page?)
    requires |evs| * size > |s.plain.assignments| - |s.visited|
    ensures Run(s, size, evs).finished
    decreases |evs|
  {
    if evs != [] {
      var next := Step(s, size, evs[0]);
      StepProgress(s, size, evs[0]);
      if next.finished {
        StaysFinished(next, size, evs[1..]);
      } else {
        assert evs[0] in evs && |next.visited| == |s.visited| + size && next.plain == s.plain;
        assert |evs[1..]| * size == |evs| * size - size;
        SessionsEnd(next, size, evs[1..]);
      }
    }
  }

  lemma {:induction false} StaysFinished(s: Session, size: nat, evs: seq<Event>)
    requires s.finished
    ensures Run(s, size, evs) == s
    decreases |evs|
  {
    if evs != [] {
      StaysFinished(s, size, evs[1..]);
    }
  }

  // ----- what filling the role defaults changes

  lemma {:induction false} FillKeeps(roles: Registry, seeds: seq<SeedRole>, slug: string)
    ensures slug in Fill(roles, seeds) <==> slug in roles
    ensures slug in roles ==>
              && Fill(roles, seeds)[slug] == roles[slug].(environments := Fill(roles, seeds)[slug].environments)
              && (roles[slug].environments.Some? ==> Fill(roles, seeds)[slug] == roles[slug])
    decreases |seeds|
  {
    if seeds != [] {
      FillKeeps(FillOne(roles, seeds[0]), seeds[1..], slug);
    }
  }

  ghost predicate Settled(roles: Registry, s: SeedRole) {
    s.environments.Some? && s.slug in roles ==> roles[s.slug].environments.Some?
  }

  lemma {:induction false} FillSettles(roles: Registry, seeds: seq<SeedRole>)
    ensures forall s <- seeds :: Settled(Fill(roles, seeds), s)
    decreases |seeds|
  {
    if seeds != [] {
      var next := FillOne(roles, seeds[0]);
      FillSettles(next, seeds[1..]);
      FillKeeps(next, seeds[1..], seeds[0].slug);
    }
  }

  lemma {:induction false} SettledFill(roles: Registry, seeds: seq<SeedRole>)
    requires forall s <- seeds :: Settled(roles, s)
    ensures Fill(roles, seeds) == roles
    decreases |seeds|
  {
    if seeds != [] {
      assert Settled(roles, seeds[0]);
      SettledFill(roles, seeds[1..]);
    }
  }

  lemma ProfileAfterFill(db: Db, role: string)
    ensures ProfileOf(db.(roles := Fill(db.roles, db.release)), role).capabilities == ProfileOf(db, role).capabilities
  {
    FillKeeps(db.roles, db.release, NormalizeRole(role));
    hide Fill, SeedFor, NormalizeRole;
  }

  // ----- nobody loses access

  lemma {:induction false} PatchedAssignment(db: Db, s: seq<Assignment>, t: seq<Assignment>, project: Id, user: Id)
    requires |s| == |t| && forall k :: 0 <= k < |s| ==> t[k] == s[k] || t[k] == Patched(db, s[k])
    ensures var wanted := (a: Assignment) => a.project == project && a.user == user;
            var (before, after) := (Find(s, wanted), Find(t, wanted));
            && (before == None <==> after == None)
            && (before.Some? ==>
                  && before.value.project == project && before.value.user == user
                  && (after == before || after == Some(Patched(db, before.value)))
                  && ((forall k :: 0 <= k < |s| ==> t[k] == Patched(db, s[k])) ==> after == Some(Patched(db, before.value))))
  {
    hide NeedsScope;
    if s != [] {
      PatchedAssignment(db, s[1..], t[1..], project, user);
    }
  }

  predicate Known(environments: seq<string>) {
    forall e <- environments :: e in ALL_ENVIRONMENTS
  }

  /** Whether a role default, rather than a list of the member's own, keeps this caller from a resource. */
  predicate HeldByDefault(db: Db, user: Id, project: Id, environments: seq<string>)
    requires project in db.projects
  {
    var membership := ActiveMembership(db, db.projects[project].org, user);
    var assignment := AssignmentOf(db, project, user);
    && membership.Some? && assignment.Some? && assignment.value.environments == None
    && EnvScoped(db, membership.value.role)
    && !ScopeAllows(ProfileOf(db, membership.value.role).environments, environments)
  }

  /** The decision with the environment check left out. */
  function Unscoped(db: Db, user: Id, project: Id, blanketWrite: string, grant: Option<Grant>): Level
    requires project in db.projects
  {
    ResolveResourceAccess(db, user, project, db.projects[project].org, [], blanketWrite, grant)
  }

  /** How the profile, assignment and scope of a caller decide. */
  function Decide(p: Profile, assignment: Option<Assignment>, allowed: bool, blanketWrite: string, grant: Option<Grant>): Level {
    if Bypasses(p) then Write
    else if assignment.Some? && !allowed then NoAccess
    else if assignment.Some? && Has(p, blanketWrite) then Write
    else if assignment.Some? && Has(p, "access.blanket_read") then Read
    else if grant == None then NoAccess
    else if assignment == None then Read
    else if Has(p, "access.grant_fallback") then if grant.value.permission == "read" then Read else Write
    else Read
  }

  predicate AllowedIn(p: Profile, assignment: Option<Assignment>, environments: seq<string>) {
    assignment.Some? ==> ScopeAllows(EffectiveEnvironments(p, assignment.value.environments), environments)
  }

  lemma ResolvedBy(db: Db, user: Id, project: Id, org: Id, environments: seq<string>, blanketWrite: string, grant: Option<Grant>)
    ensures ResolveResourceAccess(db, user, project, org, environments, blanketWrite, grant) ==
              match ActiveMembership(db, org, user)
              case None => NoAccess
              case Some(m) =>
                var (p, a) := (ProfileOf(db, m.role), AssignmentOf(db, project, user));
                Decide(p, a, AllowedIn(p, a, environments), blanketWrite, grant)
  {
    hide ScopeAllows, EffectiveEnvironments, ProfileOf, ActiveMembership, AssignmentOf, Has;
  }

  /** What a session's database says of one caller's assignment and profile. */
  lemma CallerAfter(s: Session, user: Id, project: Id)
    requires Progress(s) && project in s.plain.projects
    requires ActiveMembership(s.plain, s.plain.projects[project].org, user).Some?
    ensures var role := ActiveMembership(s.plain, s.plain.projects[project].org, user).value.role;
            var (before, after) := (AssignmentOf(s.plain, project, user), AssignmentOf(s.db, project, user));
            && ActiveMembership(s.db, s.plain.projects[project].org, user) ==
                 ActiveMembership(s.plain, s.plain.projects[project].org, user)
            && ProfileOf(s.db, role).capabilities == ProfileOf(s.plain, role).capabilities
            && (before == None <==> after == None)
            && (before.Some? ==>
                  if before.value.environments == None && EnvScoped(s.plain, role)
                  then after == Some(before.value.(environments := Some(ALL_ENVIRONMENTS)))
                       || (!s.finished && after == before && s.db.roles == s.plain.roles)
                  else after == before)
  {
    var db := s.plain;
    var role := ActiveMembership(db, db.projects[project].org, user).value.role;
    PatchedAssignment(db, db.assignments, s.db.assignments, project, user);
    ProfileAfterFill(db, role);
    hide Fill, Find, GetRoleProfile;
    assert ProfileOf(s.db, role) == ProfileOf(db.(roles := s.db.roles), role);
  }

  /**
    After every run of a session, decisions about resources of known environments are what they would
    be without the migration, except for members that only a role default held back: those have, once
    their row is visited, the access that their role and grants give without an environment check.
  */
  lemma AccessKept(db: Db, size: nat, evs: seq<Event>, user: Id, project: Id, environments: seq<string>, blanketWrite: string, grant: Option<Grant>)
    requires size >= 1 && project in db.projects && Known(environments)
    ensures var s := Run(Start(db), size, evs);
            && project in s.plain.projects
            && var org := s.plain.projects[project].org;
               var before := ResolveResourceAccess(s.plain, user, project, org, environments, blanketWrite, grant);
               var after := ResolveResourceAccess(s.db, user, project, org, environments, blanketWrite, grant);
               if !HeldByDefault(s.plain, user, project, environments) then after == before
               else (!s.finished && after == before) || after == Unscoped(s.plain, user, project, blanketWrite, grant)
  {
    StartProgress(db);
    RunProgress(Start(db), size, evs);
    RunKeepsProjects(Start(db), size, evs);
    AccessOf(Run(Start(db), size, evs), user, project, environments, blanketWrite, grant);
  }

  lemma {:induction false} RunKeepsProjects(s: Session, size: nat, evs: seq<Event>)
    ensures Run(s, size, evs).plain.projects == s.plain.projects
    decreases |evs|
  {
    if evs != [] {
      RunKeepsProjects(Step(s, size, evs[0]), size, evs[1..]);
    }
  }

  lemma AccessOf(s: Session, user: Id, project: Id, environments: seq<string>, blanketWrite: string, grant: Option<Grant>)
    requires Progress(s) && project in s.plain.projects && Known(environments)
    ensures var org := s.plain.projects[project].org;
            var before := ResolveResourceAccess(s.plain, user, project, org, environments, blanketWrite, grant);
            var after := ResolveResourceAccess(s.db, user, project, org, environments, blanketWrite, grant);
            if !HeldByDefault(s.plain, user, project, environments) then after == before
            else (!s.finished && after == before) || after == Unscoped(s.plain, user, project, blanketWrite, grant)
  {
    var org := s.plain.projects[project].org;
    ResolvedBy(s.plain, user, project, org, environments, blanketWrite, grant);
    ResolvedBy(s.db, user, project, org, environments, blanketWrite, grant);
    ResolvedBy(s.plain, user, project, org, [], blanketWrite, grant);
    assert s.db.members == s.plain.members;
    if ActiveMembership(s.plain, org, user).Some? {
      CallerAfter(s, user, project);
      var role := ActiveMembership(s.plain, org, user).value.role;
      assert ScopeAllows(Some(ALL_ENVIRONMENTS), environments);
      hide Progress, ProfileOf, ActiveMembership, AssignmentOf, ResolveResourceAccess, Known;
      if s.db.roles == s.plain.roles && AssignmentOf(s.db, project, user) == AssignmentOf(s.plain, project, user) {
        assert ProfileOf(s.db, role) == ProfileOf(s.plain, role) by { SameRoles(s, role); }
      }
    }
  }

  lemma SameRoles(s: Session, role: string)
    requires Progress(s) && s.db.roles == s.plain.roles
    ensures ProfileOf(s.db, role) == ProfileOf(s.plain, role)
  {
    hide GetRoleProfile;
  }

  /** In particular nobody loses anything. */
  lemma NobodyLosesAccess(db: Db, size: nat, evs: seq<Event>, user: Id, project: Id, environments: seq<string>, blanketWrite: string, grant: Option<Grant>)
    requires size >= 1 && project in db.projects && Known(environments)
    ensures var s := Run(Start(db), size, evs);
            && project in s.plain.projects
            && var org := s.plain.projects[project].org;
               var before := ResolveResourceAccess(s.plain, user, project, org, environments, blanketWrite, grant);
               var after := ResolveResourceAccess(s.db, user, project, org, environments, blanketWrite, grant);
               before != NoAccess ==> after == before
  {
    AccessKept(db, size, evs, user, project, environments, blanketWrite, grant);
    var s := Run(Start(db), size, evs);
    var org := s.plain.projects[project].org;
    ResolvedBy(s.plain, user, project, org, environments, blanketWrite, grant);
    ResolvedBy(s.plain, user, project, org, [], blanketWrite, grant);
    hide Run, ResolveResourceAccess, ProfileOf, ActiveMembership, AssignmentOf, ScopeAllows;
  }

  // ----- what the account list shows

  /** The scope that the filled role defaults give somebody without an assignment. */
  function GuestScope(db: Db, user: Id, project: Id): Option<seq<string>>
    requires AccountListing.CallerProfile(db, user, project).Some?
  {
    EffectiveEnvironments(AccountListing.CallerProfile(db, user, project).value, None)
  }

  /**
    After every run of a session the list shows an account of known environments to whom it would without
    the migration, with two exceptions: a guest loses it when the role's defaults, now filled, do not
    cover it, and an assigned member that only a role default held back gets to see it.
  */
  lemma ListAfter(db: Db, size: nat, evs: seq<Event>, user: Id, a: AccountListing.Account, now: int)
    requires size >= 1 && a.project in db.projects && Known(a.environments)
    ensures var s := Run(Start(db), size, evs);
            var (before, after) := (AccountListing.Shown(s.plain, user, a, now), AccountListing.Shown(s.db, user, a, now));
            && a.project in s.plain.projects
            && (AccountListing.CallerProfile(s.db, user, a.project).Some? <==> AccountListing.CallerProfile(s.plain, user, a.project).Some?)
            && if AccountListing.GuestOf(s.plain, user, a.project) then
                 after <==> before && ScopeAllows(GuestScope(s.db, user, a.project), a.environments)
               else if !HeldByDefault(s.plain, user, a.project, a.environments) then after == before
               else (!s.finished && after == before)
                    || (after <==> AccountListing.CallerProfile(s.plain, user, a.project).Some? && !a.deleted)
  {
    StartProgress(db);
    RunProgress(Start(db), size, evs);
    RunKeepsProjects(Start(db), size, evs);
    ShownAfter(Run(Start(db), size, evs), user, a, now);
  }

  /** A row is lost exactly so: its guest had it listed and the filled defaults do not cover it. */
  lemma RowLostIff(db: Db, size: nat, evs: seq<Event>, user: Id, a: AccountListing.Account, now: int)
    requires size >= 1 && a.project in db.projects && Known(a.environments)
    ensures var s := Run(Start(db), size, evs);
            AccountListing.Shown(s.plain, user, a, now) && !AccountListing.Shown(s.db, user, a, now) <==>
              && AccountListing.Shown(s.plain, user, a, now) && AccountListing.GuestOf(s.plain, user, a.project)
              && AccountListing.CallerProfile(s.db, user, a.project).Some?
              && !ScopeAllows(GuestScope(s.db, user, a.project), a.environments)
  {
    ListAfter(db, size, evs, user, a, now);
    var s := Run(Start(db), size, evs);
    StartProgress(db);
    RunProgress(Start(db), size, evs);
    ShownNeeds(s.plain, user, a, now);
    hide Run, AccountListing.Shown, HeldByDefault, ScopeAllows;
  }

  lemma ShownNeeds(db: Db, user: Id, a: AccountListing.Account, now: int)
    ensures AccountListing.Shown(db, user, a, now) ==> AccountListing.CallerProfile(db, user, a.project).Some? && !a.deleted
    ensures AccountListing.GuestOf(db, user, a.project) ==> AccountListing.CallerProfile(db, user, a.project).Some?
  {
  }

  lemma ShownAfter(s: Session, user: Id, a: AccountListing.Account, now: int)
    requires Progress(s) && a.project in s.plain.projects && Known(a.environments)
    ensures var (before, after) := (AccountListing.Shown(s.plain, user, a, now), AccountListing.Shown(s.db, user, a, now));
            && (AccountListing.CallerProfile(s.db, user, a.project).Some? <==> AccountListing.CallerProfile(s.plain, user, a.project).Some?)
            && if AccountListing.GuestOf(s.plain, user, a.project) then
                 after <==> before && ScopeAllows(GuestScope(s.db, user, a.project), a.environments)
               else if !HeldByDefault(s.plain, user, a.project, a.environments) then after == before
               else (!s.finished && after == before)
                    || (after <==> AccountListing.CallerProfile(s.plain, user, a.project).Some? && !a.deleted)
  {
    var org := s.plain.projects[a.project].org;
    AccessOf(s, user, a.project, a.environments, "project.accounts.update", ActiveGrant(s.plain.accountGrants, user, a.id, now));
    assert s.db.members == s.plain.members && s.db.projects == s.plain.projects && s.db.accountGrants == s.plain.accountGrants;
    if ActiveMembership(s.plain, org, user).Some? {
      CallerAfter(s, user, a.project);
      assert ScopeAllows(Some(ALL_ENVIRONMENTS), a.environments);
      SameWhereUnfilled(s, ActiveMembership(s.plain, org, user).value.role);
    }
    hide Progress, ProfileOf, ActiveMembership, AssignmentOf, ResolveResourceAccess, Known, ScopeAllows, ActiveGrant;
  }

  /** Filling leaves defaults that are there. */
  lemma SameWhereUnfilled(s: Session, role: string)
    requires Progress(s)
    ensures s.db.roles == s.plain.roles || ProfileOf(s.plain, role).environments.Some? ==> ProfileOf(s.db, role) == ProfileOf(s.plain, role)
  {
    FillKeeps(s.plain.roles, s.plain.release, NormalizeRole(role));
    hide Fill, SeedFor, NormalizeRole;
  }

  // ----- a second session

  ghost predicate Complete(db: Db) {
    (forall a <- db.assignments :: !NeedsScope(db, a)) && Fill(db.roles, db.release) == db.roles
  }

  lemma FinishedIsComplete(s: Session)
    requires Progress(s) && s.finished
    ensures Complete(s.db)
  {
    FillSettles(s.plain.roles, s.plain.release);
    SettledFill(s.db.roles, s.plain.release);
    forall a | a in s.db.assignments
      ensures !NeedsScope(s.db, a)
    {
      var k :| 0 <= k < |s.db.assignments| && a == s.db.assignments[k];
      assert a == Patched(s.plain, s.plain.assignments[k]);
      if a.project in s.plain.projects && Membership(s.plain, s.plain.projects[a.project].org, a.user).Some? {
        var role := Membership(s.plain, s.plain.projects[a.project].org, a.user).value.role;
        ProfileAfterFill(s.plain, role);
        assert ProfileOf(s.db, role) == ProfileOf(s.plain.(roles := s.db.roles), role);
      }
    }
  }

  lemma {:induction false} CompleteRun(s: Session, size: nat, evs: seq<Event>)
    requires Complete(s.db) && forall ev <- evs :: ev.Page?
    ensures Run(s, size, evs).db == s.db
    decreases |evs|
  {
    if evs != [] {
      assert evs[0] in evs;
      if !s.finished {
        var (n, start) := (|s.db.assignments|, Position(s.cursor));
        assert forall k :: 0 <= k < n ==> Patched(s.db, s.db.assignments[k]) == s.db.assignments[k];
        assert PatchRange(s.db, start, PageEnd(n, start, size)) == s.db.assignments;
      }
      CompleteRun(Step(s, size, evs[0]), size, evs[1..]);
    }
  }

  /** Once a session has finished, running the migration again changes nothing. */
  lemma SecondSessionPatchesNothing(db: Db, size: nat, evs: seq<Event>, again: seq<Event>)
    requires size >= 1 && Run(Start(db), size, evs).finished && forall ev <- again :: ev.Page?
    ensures var s := Run(Start(db), size, evs); Run(Start(s.db), size, again).db == s.db
  {
    StartProgress(db);
    RunProgress(Start(db), size, evs);
    var s := Run(Start(db), size, evs);
    FinishedIsComplete(s);
    CompleteRun(Start(s.db), size, again);
  }

  // ----- the gap

  /** A developer with no list of their own, on a project, under a code default of development only. */
  function LateMember(meta: Meta): Db {
    Db([SeedRole("developer", meta, 40, true, {"access.env_scoped"}, Some(["development"]))], map[],
       [Member(1, 1, "developer", false)], [Assignment(1, 1, None)], map[1 := Project(1, 1, false, false, [])], [], [], [])
  }

  lemma LateMemberIsHeld(meta: Meta)
    ensures HeldByDefault(LateMember(meta), 1, 1, ["production"])
    ensures ActiveMembership(LateMember(meta), 1, 1) == Some(Member(1, 1, "developer", false))
    ensures AssignmentOf(LateMember(meta), 1, 1) == Some(Assignment(1, 1, None))
    ensures ProfileOf(LateMember(meta), "developer") == Profile("developer", 40, Caps({"access.env_scoped"}), Some(["development"]))
  {
    var db := LateMember(meta);
    assert db.members[0] == Member(1, 1, "developer", false) && db.assignments[0] == Assignment(1, 1, None);
    assert SeedFor(db.release, "developer") == Some(db.release[0]);
    assert ["production"][0] == "production" && "production" in ["production"] && "production" !in ["development"];
  }

  /**
    A member that joins after the defaults are on is widened by one more session: the default keeps the
    member from a production resource, and afterwards a read grant opens it.
  */
  lemma LateMemberIsWidened(meta: Meta, grant: Grant)
    requires grant.permission == "read"
    ensures var db := LateMember(meta);
            var after := Run(Start(db), 500, [Page(true)]).db;
            && Complete(db.(assignments := []))
            && ResolveResourceAccess(db, 1, 1, 1, ["production"], "project.accounts.update", Some(grant)) == NoAccess
            && ResolveResourceAccess(after, 1, 1, 1, ["production"], "project.accounts.update", Some(grant)) == Read
  {
    var db := LateMember(meta);
    LateMemberIsHeld(meta);
    ResolvedBy(db, 1, 1, 1, ["production"], "project.accounts.update", Some(grant));
    ResolvedBy(db, 1, 1, 1, [], "project.accounts.update", Some(grant));
    hide ResolveResourceAccess, ProfileOf, ActiveMembership, AssignmentOf, AfterPage, NeedsScope;
    assert Fill(db.roles, db.release) == map[];
    var s := Run(Start(db), 500, [Page(true)]);
    assert s == Step(Start(db), 500, Page(true)) && s.finished && s.plain == db;
    AccessKept(db, 500, [Page(true)], 1, 1, ["production"], "project.accounts.update", Some(grant));
  }

  /** A guest with a read grant on a production account, where developers have no stored default yet. */
  function BeforeDefaults(meta: Meta, row: Row): Db {
    Db([SeedRole("developer", meta, 40, true, {"access.env_scoped"}, Some(["development"]))],
       map["developer" := row.(slug := "developer", isActive := true, capabilities := Caps({"access.env_scoped"}), environments := None)],
       [Member(1, 1, "developer", false)], [], map[1 := Project(1, 1, false, false, [])], [], [], [Grant(7, 1, "read", None, true)])
  }

  function ProductionAccount(details: AccountListing.Details): AccountListing.Account {
    AccountListing.Account(7, 1, details, ["production"], false, 3)
  }

  lemma GuestBefore(meta: Meta, row: Row, details: AccountListing.Details)
    ensures var db := BeforeDefaults(meta, row);
            && AccountListing.Shown(db, 1, ProductionAccount(details), 0)
            && AccountListing.GuestOf(db, 1, 1)
            && ActiveMembership(db, 1, 1) == Some(Member(1, 1, "developer", false))
  {
    var db := BeforeDefaults(meta, row);
    assert db.members[0] == Member(1, 1, "developer", false) && db.accountGrants[0] == Grant(7, 1, "read", None, true);
    assert ActiveGrant(db.accountGrants, 1, 7, 0) == Some(db.accountGrants[0]);
    assert !Has(ProfileOf(db, "developer"), "org.manage");
  }

  /** After one run of the migration the account is gone from the guest's list. */
  lemma GuestLosesRow(meta: Meta, row: Row, details: AccountListing.Details)
    ensures var db := BeforeDefaults(meta, row);
            var s := Run(Start(db), 500, [Page(true)]);
            && s.finished && s.plain == db
            && AccountListing.Shown(db, 1, ProductionAccount(details), 0)
            && !AccountListing.Shown(s.db, 1, ProductionAccount(details), 0)
  {
    var db := BeforeDefaults(meta, row);
    GuestBefore(meta, row, details);
    var s := Run(Start(db), 500, [Page(true)]);
    assert s == Step(Start(db), 500, Page(true)) && s.finished && s.plain == db;
    FilledDefault(db, s, row);
    assert ["production"][0] == "production" && "production" in ["production"] && "production" !in ["development"];
    hide Run, Step, AccountListing.Shown, AccountListing.GuestOf, ActiveMembership, ProfileOf;
    ListAfter(db, 500, [Page(true)], 1, ProductionAccount(details), 0);
  }

  lemma FilledDefault(db: Db, s: Session, row: Row)
    requires exists meta :: db == BeforeDefaults(meta, row)
    requires s == Step(Start(db), 500, Page(true))
    ensures AccountListing.CallerProfile(s.db, 1, 1) ==
              Some(Profile("developer", row.level, Caps({"access.env_scoped"}), Some(["development"])))
  {
    var filled := map["developer" := db.roles["developer"].(environments := Some(["development"]))];
    assert Fill(db.roles, db.release) == filled by {
      assert db.release[1..] == [];
      assert FillOne(db.roles, db.release[0]) == filled;
    }
    assert s.db.roles == filled && s.db.members == db.members && s.db.projects == db.projects;
    assert s.db.members[0] == Member(1, 1, "developer", false);
  }
}
