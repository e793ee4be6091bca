/** Who may do what: access to one resource, to a shared one, and to a project or workspace. */
module Access {
  import opened Prelude
  import opened Roles

  type Id = nat

  /** A reference to a vault object. */
  type Ref = nat

  datatype Level = NoAccess | Read | Write

  datatype Member = Member(org: Id, user: Id, role: string, suspended: bool)

  datatype Assignment = Assignment(project: Id, user: Id, environments: Option<seq<string>>)

  datatype Project = Project(id: Id, org: Id, workspace: bool, deleted: bool, protection: seq<string>)

  datatype WorkspaceLink = WorkspaceLink(workspace: Id, project: Id, org: Id)

  datatype Grant = Grant(resource: Id, user: Id, permission: string, expiresAt: Option<int>, isActive: bool)

  datatype Variable = Variable(id: Id, project: Id, environments: seq<string>, appliesTo: Option<seq<Id>>)

  /** Tables in creation order, documents by id, and the deployed code's role table. */
  datatype Db = Db(
    release: Release,
    roles: Registry,
    members: seq<Member>,
    assignments: seq<Assignment>,
    projects: map<Id, Project>,
    links: seq<WorkspaceLink>,
    variableGrants: seq<Grant>,
    accountGrants: seq<Grant>)

  function Find<T>(s: seq<T>, p: T -> bool): Option<T> {
    if s == [] then None else if p(s[0]) then Some(s[0]) else Find(s[1..], p)
  }

  function ProfileOf(db: Db, role: string): Profile {
    GetRoleProfile(db.release, db.roles, role)
  }

  predicate Bypasses(p: Profile) {
    Has(p, "org.manage")
  }

  function Membership(db: Db, org: Id, user: Id): Option<Member> {
    Find(db.members, (m: Member) => m.org == org && m.user == user)
  }

  /** A suspended membership is no membership. */
  function ActiveMembership(db: Db, org: Id, user: Id): Option<Member> {
    var m := Membership(db, org, user);
    if m.Some? && m.value.suspended then None else m
  }

  function AssignmentOf(db: Db, project: Id, user: Id): Option<Assignment> {
    Find(db.assignments, (a: Assignment) => a.project == project && a.user == user)
  }

  /** An absent scope allows everything; a scope allows a resource whose every environment is in it. */
  predicate ScopeAllows(scope: Option<seq<string>>, environments: seq<string>) {
    scope == None || forall e <- environments :: e in scope.value
  }

  predicate Unexpired(g: Grant, now: int) {
    g.expiresAt == None || g.expiresAt.value == 0 || g.expiresAt.value > now
  }

  function ActiveGrant(grants: seq<Grant>, user: Id, resource: Id, now: int): Option<Grant> {
    Find(grants, (g: Grant) => g.resource == resource && g.user == user && g.isActive && Unexpired(g, now))
  }

  // ----- one resource

  function ResolveResourceAccess(db: Db, user: Id, project: Id, org: Id, environments: seq<string>,
                                 blanketWrite: string, grant: Option<Grant>): Level
  {
    match ActiveMembership(db, org, user)
    case None => NoAccess
    case Some(membership) =>
      var profile := ProfileOf(db, membership.role);
      var assignment := AssignmentOf(db, project, user);
      if Bypasses(profile) then Write
      else if assignment.Some? && !ScopeAllows(EffectiveEnvironments(profile, assignment.value.environments), environments) then
        NoAccess
      else if assignment.Some? && Has(profile, blanketWrite) then Write
      else if assignment.Some? && Has(profile, "access.blanket_read") then Read
      else if grant == None then NoAccess
      else if assignment == None then Read
      else if Has(profile, "access.grant_fallback") then if grant.value.permission == "read" then Read else Write
      else Read
  }

  // ----- a shared variable

  predicate Reaches(db: Db, link: WorkspaceLink, workspace: Id, appliesTo: Option<seq<Id>>) {
    && link.workspace == workspace
    && (appliesTo.Some? ==> link.project in appliesTo.value)
    && link.project in db.projects
    && !db.projects[link.project].deleted
    && db.projects[link.project].org == link.org
  }

  function ReachedFrom(db: Db, links: seq<WorkspaceLink>, workspace: Id, appliesTo: Option<seq<Id>>): seq<Id> {
    if links == [] then []
    else (if Reaches(db, links[0], workspace, appliesTo) then [links[0].project] else [])
         + ReachedFrom(db, links[1..], workspace, appliesTo)
  }

  function Reached(db: Db, workspace: Id, appliesTo: Option<seq<Id>>): seq<Id> {
    ReachedFrom(db, db.links, workspace, appliesTo)
  }

  method ReachedProjects(db: Db, workspace: Id, appliesTo: Option<seq<Id>>) returns (projects: seq<Id>)
    ensures projects == Reached(db, workspace, appliesTo)
  {
    projects := [];
    for i := 0 to |db.links|
      invariant projects + ReachedFrom(db, db.links[i..], workspace, appliesTo) == Reached(db, workspace, appliesTo)
    {
      var link := db.links[i];
      ghost var before := projects;
      var named := link.workspace == workspace && (appliesTo == None || link.project in appliesTo.value);
      if named && link.project in db.projects {
        var project := db.projects[link.project];
        if !project.deleted && project.org == link.org {
          projects := projects + [link.project];
        }
      }
      assert projects == before + if Reaches(db, link, workspace, appliesTo) then [link.project] else [];
      hide Reaches;
      ReachedStep(db, db.links, i, workspace, appliesTo, before);
    }
    assert db.links[|db.links|..] == [];
  }

  lemma ReachedStep(db: Db, links: seq<WorkspaceLink>, i: nat, workspace: Id, appliesTo: Option<seq<Id>>, before: seq<Id>)
    requires i < |links|
    ensures before + ReachedFrom(db, links[i..], workspace, appliesTo) ==
              (before + if Reaches(db, links[i], workspace, appliesTo) then [links[i].project] else [])
              + ReachedFrom(db, links[i + 1..], workspace, appliesTo)
  {
    assert links[i..][0] == links[i] && links[i..][1..] == links[i + 1..];
  }

  lemma {:induction false} ReachedIff(db: Db, links: seq<WorkspaceLink>, workspace: Id, appliesTo: Option<seq<Id>>, id: Id)
    ensures id in ReachedFrom(db, links, workspace, appliesTo)
       <==> exists l <- links :: Reaches(db, l, workspace, appliesTo) && l.project == id
  {
    if links != [] {
      ReachedIff(db, links[1..], workspace, appliesTo, id);
      assert forall l :: l in links <==> l == links[0] || l in links[1..];
    }
  }

  function ResolveIn(db: Db, user: Id, v: Variable, org: Id, project: Id, now: int): Level {
    ResolveResourceAccess(db, user, project, org, v.environments, "project.variables.update",
                          ActiveGrant(db.variableGrants, user, v.id, now))
  }

  function VariableAccess(db: Db, user: Id, v: Variable, now: int): Level {
    if v.project !in db.projects || db.projects[v.project].deleted then NoAccess
    else
      var project := db.projects[v.project];
      if !project.workspace then ResolveIn(db, user, v, project.org, v.project, now)
      else
        var members := Reached(db, v.project, v.appliesTo);
        if members == [] then
          if v.appliesTo.Some? then NoAccess else ResolveIn(db, user, v, project.org, v.project, now)
        else if forall m <- members :: ResolveIn(db, user, v, project.org, m, now) == Write then Write
        else if exists m <- members :: ResolveIn(db, user, v, project.org, m, now) != NoAccess then Read
        else NoAccess
  }

  /** A live workspace variable that some project reads. */
  predicate Shared(db: Db, v: Variable) {
    && v.project in db.projects && !db.projects[v.project].deleted && db.projects[v.project].workspace
    && Reached(db, v.project, v.appliesTo) != []
  }

  /** The level of one reader of a shared variable, stated over the links rather than the fold. */
  ghost predicate ReaderHas(db: Db, user: Id, v: Variable, now: int, link: WorkspaceLink, level: Level)
    requires v.project in db.projects
  {
    && Reaches(db, link, v.project, v.appliesTo)
    && ResolveIn(db, user, v, db.projects[v.project].org, link.project, now) == level
  }

  lemma SharedAccess(db: Db, user: Id, v: Variable, now: int)
    requires Shared(db, v)
    ensures VariableAccess(db, user, v, now) == Write <==>
              forall l <- db.links :: Reaches(db, l, v.project, v.appliesTo) ==> ReaderHas(db, user, v, now, l, Write)
    ensures VariableAccess(db, user, v, now) != NoAccess <==>
              exists l <- db.links :: ReaderHas(db, user, v, now, l, Read) || ReaderHas(db, user, v, now, l, Write)
  {
    var members := Reached(db, v.project, v.appliesTo);
    var org := db.projects[v.project].org;
    forall id
      ensures id in members <==> exists l <- db.links :: Reaches(db, l, v.project, v.appliesTo) && l.project == id
    {
      ReachedIff(db, db.links, v.project, v.appliesTo, id);
    }
    assert members[0] in members;
    if VariableAccess(db, user, v, now) == Write {
      forall l | l in db.links && Reaches(db, l, v.project, v.appliesTo)
        ensures ReaderHas(db, user, v, now, l, Write)
      {
        assert l.project in members;
      }
    }
    if exists l <- db.links :: ReaderHas(db, user, v, now, l, Read) || ReaderHas(db, user, v, now, l, Write) {
      var l :| l in db.links && (ReaderHas(db, user, v, now, l, Read) || ReaderHas(db, user, v, now, l, Write));
      assert l.project in members;
    }
    if VariableAccess(db, user, v, now) != NoAccess {
      var m :| m in members && ResolveIn(db, user, v, org, m, now) != NoAccess;
      var l :| l in db.links && Reaches(db, l, v.project, v.appliesTo) && l.project == m;
      assert ReaderHas(db, user, v, now, l, Read) || ReaderHas(db, user, v, now, l, Write);
    }
  }

  lemma ReaderIgnoresLinks(db: Db, links: seq<WorkspaceLink>, user: Id, v: Variable, now: int, l: WorkspaceLink, level: Level)
    requires v.project in db.projects
    ensures Reaches(db.(links := links), l, v.project, v.appliesTo) <==> Reaches(db, l, v.project, v.appliesTo)
    ensures ReaderHas(db.(links := links), user, v, now, l, level) <==> ReaderHas(db, user, v, now, l, level)
  {
  }

  lemma SharedWhen(db: Db, v: Variable, l: WorkspaceLink)
    requires v.project in db.projects && !db.projects[v.project].deleted && db.projects[v.project].workspace
    requires l in db.links && Reaches(db, l, v.project, v.appliesTo)
    ensures Shared(db, v)
  {
    ReachedIff(db, db.links, v.project, v.appliesTo, l.project);
  }

  lemma SomeReader(db: Db, v: Variable) returns (l: WorkspaceLink)
    requires Shared(db, v)
    ensures l in db.links && Reaches(db, l, v.project, v.appliesTo)
  {
    var id := Reached(db, v.project, v.appliesTo)[0];
    ReachedIff(db, db.links, v.project, v.appliesTo, id);
    l :| l in db.links && Reaches(db, l, v.project, v.appliesTo) && l.project == id;
  }

  /** Only which projects read the variable matters: neither the order of the links nor repeats. */
  lemma LinkOrderIrrelevant(db: Db, links: seq<WorkspaceLink>, user: Id, v: Variable, now: int)
    requires Shared(db, v) && forall l :: l in links <==> l in db.links
    ensures VariableAccess(db.(links := links), user, v, now) == VariableAccess(db, user, v, now)
  {
    var other := db.(links := links);
    var some := SomeReader(db, v);
    forall l, level
      ensures Reaches(other, l, v.project, v.appliesTo) <==> Reaches(db, l, v.project, v.appliesTo)
      ensures ReaderHas(other, user, v, now, l, level) <==> ReaderHas(db, user, v, now, l, level)
    {
      ReaderIgnoresLinks(db, links, user, v, now, l, level);
    }
    SharedWhen(other, v, some);
    SharedAccess(db, user, v, now);
    SharedAccess(other, user, v, now);
    hide VariableAccess, ReaderHas, Reaches, Reached, ReachedFrom;
  }

  /** One more reader never gives write to who lacked it, nor takes all access from who had some. */
  lemma AddingReader(db: Db, link: WorkspaceLink, user: Id, v: Variable, now: int)
    requires Shared(db, v)
    ensures var after := VariableAccess(db.(links := db.links + [link]), user, v, now);
            && (after == Write ==> VariableAccess(db, user, v, now) == Write)
            && (after == NoAccess ==> VariableAccess(db, user, v, now) == NoAccess)
  {
    var more := db.(links := db.links + [link]);
    var some := SomeReader(db, v);
    forall l, level
      ensures Reaches(more, l, v.project, v.appliesTo) <==> Reaches(db, l, v.project, v.appliesTo)
      ensures ReaderHas(more, user, v, now, l, level) <==> ReaderHas(db, user, v, now, l, level)
    {
      ReaderIgnoresLinks(db, more.links, user, v, now, l, level);
    }
    assert forall l :: l in db.links ==> l in more.links;
    SharedWhen(more, v, some);
    SharedAccess(db, user, v, now);
    SharedAccess(more, user, v, now);
    hide VariableAccess, ReaderHas, Reaches, Reached, ReachedFrom;
  }
}
