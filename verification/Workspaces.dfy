/**
  Projects, workspaces and the links between them, under every mutation that creates, links, moves,
  protects or deletes one. Ids are never used twice.
*/
module Workspaces {
  import opened Prelude
  import Roles
  import opened Access
  import opened ProjectAccess
  import opened Protection
  import AccountCores

  datatype State = State(db: Db, used: set<Id>)

  datatype Edit =
    | CreateProject(id: Id, org: Id, workspace: bool, allowed: bool)
    | LinkProject(workspaceId: Id, project: Id, actor: Id, sharingEnabled: bool, fits: bool)
    | RemoveProject(workspaceId: Id, project: Id, actor: Id)
    | UndoLinks(workspaceId: Id, linked: seq<Id>, created: bool)
    | SetProtection(project: Id, environments: seq<string>, actor: Id, tierAllows: bool)
    | MoveProject(project: Id, target: Id, allowed: bool)
    | DeleteProject(project: Id, allowed: bool)
    | DropMembership(place: nat)
    | DropReader(place: nat)
    | EraseProject(project: Id)
    | DeleteOrganization(org: Id, allowed: bool)
    | People(roles: Roles.Registry, members: seq<Member>, assignments: seq<Assignment>, variableGrants: seq<Grant>, accountGrants: seq<Grant>)

  datatype EditRefusal =
    | WorkspaceNotFound | NotAWorkspace | NoSuchProject | NestedWorkspace | OtherOrganization | NotAllowed | SharingDisabled
    | AlreadyLinked | OverLimit | NotLinked | BadEnvironment | FollowsReaders | SameOrganization | CannotMove | RowMissing | NotDeleting

  function Allows(db: Db, actor: Id, id: Id, capability: string): bool {
    var answer := Check(db, actor, id, capability, |db.links|);
    answer.Some? && answer.value.Ok?
  }

  /** Both ends of an edge: of one organisation, alive, and of the right kind. */
  function LoadEdge(db: Db, workspace: Id, project: Id): Option<EditRefusal> {
    if workspace !in db.projects || db.projects[workspace].deleted then Some(WorkspaceNotFound)
    else if !db.projects[workspace].workspace then Some(NotAWorkspace)
    else if project !in db.projects || db.projects[project].deleted then Some(NoSuchProject)
    else if db.projects[project].workspace then Some(NestedWorkspace)
    else if db.projects[project].org != db.projects[workspace].org then Some(OtherOrganization)
    else None
  }

  /** The first link of a workspace to a project. */
  function LinkAt(links: seq<WorkspaceLink>, workspace: Id, project: Id): (place: Option<nat>)
    ensures place.Some? ==>
              place.value < |links| && links[place.value].workspace == workspace && links[place.value].project == project
  {
    if links == [] then None
    else if links[0].workspace == workspace && links[0].project == project then Some(0)
    else
      var later := LinkAt(links[1..], workspace, project);
      if later == None then None else Some(later.value + 1)
  }

  function Without(links: seq<WorkspaceLink>, place: nat): seq<WorkspaceLink>
    requires place < |links|
  {
    links[..place] + links[place + 1..]
  }

  /** Removes one link and recomputes the protection of its workspace. */
  function Unlinked(db: Db, place: nat): Db
    requires place < |db.links| && db.links[place].workspace in db.projects
  {
    Synced(db.(links := Without(db.links, place)), db.links[place].workspace)
  }

  function SyncedEach(db: Db, workspaces: seq<Id>): Db
    requires forall w <- workspaces :: w in db.projects
    decreases |workspaces|
  {
    if workspaces == [] then db
    else
      assert workspaces[0] in workspaces && forall w <- workspaces[1..] :: w in workspaces;
      SyncedEach(Synced(db, workspaces[0]), workspaces[1..])
  }

  function WorkspacesOf(links: seq<WorkspaceLink>, project: Id): seq<Id> {
    if links == [] then []
    else (if links[0].project == project then [links[0].workspace] else []) + WorkspacesOf(links[1..], project)
  }

  /** Every membership of a project is removed, one after the other. */
  function Left(db: Db, project: Id): Option<Db>
    decreases |db.links|
  {
    match FirstOf(db.links, project)
    case None => Some(db)
    case Some(place) =>
      if db.links[place].workspace !in db.projects then None
      else
        assert |Unlinked(db, place).links| < |db.links|;
        Left(Unlinked(db, place), project)
  }

  function FirstOf(links: seq<WorkspaceLink>, project: Id): (place: Option<nat>)
    ensures place.Some? ==> place.value < |links| && links[place.value].project == project
    ensures place == None ==> forall l <- links :: l.project != project
  {
    if links == [] then None
    else if links[0].project == project then Some(0)
    else
      var later := FirstOf(links[1..], project);
      if later == None then None else Some(later.value + 1)
  }

  function LinksUndone(links: seq<WorkspaceLink>, workspace: Id, projects: seq<Id>): seq<WorkspaceLink>
    decreases |projects|
  {
    if projects == [] then links
    else
      var place := LinkAt(links, workspace, projects[0]);
      LinksUndone(if place == None then links else Without(links, place.value), workspace, projects[1..])
  }

  predicate ProtectionAllowed(environments: seq<string>) {
    && (forall e <- environments :: e in Roles.VALID_ENVIRONMENTS)
    && forall i, j :: 0 <= i < j < |environments| ==> environments[i] != environments[j]
  }

  function Try(s: State, edit: Edit): Result<State, EditRefusal> {
    var db := s.db;
    match edit
    case CreateProject(id, org, workspace, allowed) =>
      if !allowed then Err(NotAllowed)
      else if id in s.used then Err(RowMissing)
      else Ok(State(db.(projects := db.projects[id := Project(id, org, workspace, false, [])]), s.used + {id}))
    case LinkProject(w, p, actor, sharingEnabled, fits) =>
      var edge := LoadEdge(db, w, p);
      if edge.Some? then Err(edge.value)
      else if !sharingEnabled then Err(SharingDisabled)
      else if !Allows(db, actor, p, "project.workspaces.manage") || !Allows(db, actor, w, "project.read") then Err(NotAllowed)
      else if LinkAt(db.links, w, p).Some? then Err(AlreadyLinked)
      else if !fits then Err(OverLimit)
      else Ok(s.(db := Synced(db.(links := db.links + [WorkspaceLink(w, p, db.projects[w].org)]), w)))
    case RemoveProject(w, p, actor) =>
      var edge := LoadEdge(db, w, p);
      if edge.Some? then Err(edge.value)
      else if !Allows(db, actor, p, "project.workspaces.manage") then Err(NotAllowed)
      else
        var place := LinkAt(db.links, w, p);
        if place == None then Err(NotLinked) else Ok(s.(db := Unlinked(db, place.value)))
    case UndoLinks(w, linked, created) =>
      if w !in db.projects then Err(RowMissing)
      else if !db.projects[w].workspace then Err(NotAWorkspace)
      else
        var undone := db.(links := LinksUndone(db.links, w, linked));
        Ok(s.(db := if created then undone.(projects := undone.projects - {w}) else Synced(undone, w)))
    case SetProtection(p, environments, actor, tierAllows) =>
      if !ProtectionAllowed(environments) then Err(BadEnvironment)
      else if p !in db.projects || db.projects[p].deleted then Err(NoSuchProject)
      else if db.projects[p].workspace then Err(FollowsReaders)
      else if !Allows(db, actor, p, "project.protection.manage") then Err(NotAllowed)
      else if (exists e <- environments :: e !in db.projects[p].protection) && !tierAllows then Err(OverLimit)
      else
        var workspaces := WorkspacesOf(db.links, p);
        if exists w <- workspaces :: w !in db.projects then Err(RowMissing)
        else
          Ok(s.(db := SyncedEach(db.(projects := db.projects[p := db.projects[p].(protection := environments)]), workspaces)))
    case MoveProject(p, target, allowed) =>
      if p !in db.projects || db.projects[p].deleted then Err(NoSuchProject)
      else if db.projects[p].org == target then Err(SameOrganization)
      else if db.projects[p].workspace then Err(CannotMove)
      else
        var left := Left(db, p);
        if left == None then Err(RowMissing)
        else if !allowed then Err(NotAllowed)
        else if p !in left.value.projects then Err(RowMissing)
        else Ok(s.(db := left.value.(projects := left.value.projects[p := left.value.projects[p].(org := target)])))
    case DeleteProject(p, allowed) =>
      if p !in db.projects then Err(NoSuchProject)
      else if !allowed then Err(NotAllowed)
      else Ok(s.(db := db.(projects := db.projects[p := db.projects[p].(deleted := true)])))
    case DropMembership(place) =>
      if place >= |db.links| || db.links[place].workspace !in db.projects then Err(RowMissing)
      else if !Deleting(db, db.links[place].project) then Err(NotDeleting)
      else Ok(s.(db := Unlinked(db, place)))
    case DropReader(place) =>
      if place >= |db.links| then Err(RowMissing)
      else if !Deleting(db, db.links[place].workspace) then Err(NotDeleting)
      else Ok(s.(db := db.(links := Without(db.links, place))))
    case EraseProject(p) =>
      if !Deleting(db, p) || exists l <- db.links :: l.workspace == p || l.project == p then Err(NotDeleting)
      else Ok(s.(db := db.(projects := db.projects - {p})))
    case DeleteOrganization(org, allowed) =>
      if !allowed then Err(NotAllowed)
      else Ok(s.(db := db.(projects := map p | p in db.projects && db.projects[p].org != org :: db.projects[p])))
    case People(roles, members, assignments, variableGrants, accountGrants) =>
      Ok(s.(db := db.(roles := roles, members := members, assignments := assignments, variableGrants := variableGrants,
                      accountGrants := accountGrants)))
  }

  /** The cascade works on projects that are marked as deleted. */
  predicate Deleting(db: Db, p: Id) {
    p in db.projects && db.projects[p].deleted
  }

  function Next(s: State, edit: Edit): State {
    match Try(s, edit)
    case Ok(after) => after
    case Err(_) => s
  }

  function Run(s: State, edits: seq<Edit>): State
    decreases |edits|
  {
    if edits == [] then s else Run(Next(s, edits[0]), edits[1..])
  }

  /** A deployment without projects. */
  function Initial(release: Roles.Release): State {
    State(Db(release, map[], [], [], map[], [], [], []), {})
  }

  ghost predicate Reachable(s: State) {
    exists release, edits :: s == Run(Initial(release), edits)
  }

  // ----- what every edit keeps

  /** A link leads from a workspace to a project that is none, of the same organisation. */
  ghost predicate RightKinds(db: Db, l: WorkspaceLink) {
    && (l.workspace in db.projects ==> db.projects[l.workspace].workspace && db.projects[l.workspace].org == l.org)
    && (l.project in db.projects ==> !db.projects[l.project].workspace && db.projects[l.project].org == l.org)
  }

  /** The workspace protects what a reader protects, */
  ghost predicate Guards(db: Db, w: Id, l: WorkspaceLink)
    requires w in db.projects
  {
    Reaches(db, l, w, None) ==> forall e <- db.projects[l.project].protection :: e in db.projects[w].protection
  }

  /** and nothing else: some linked project protects each of its environments. */
  ghost predicate Backs(db: Db, w: Id, l: WorkspaceLink, e: string) {
    l.workspace == w && l.project in db.projects && e in db.projects[l.project].protection
  }

  ghost predicate InSync(db: Db, w: Id)
    requires w in db.projects
  {
    && (forall l <- db.links :: Guards(db, w, l))
    && (forall e <- db.projects[w].protection :: exists l <- db.links :: Backs(db, w, l, e))
  }

  ghost predicate WellLinked(db: Db) {
    forall l <- db.links :: RightKinds(db, l)
  }

  predicate LiveWorkspace(db: Db, w: Id) {
    w in db.projects && db.projects[w].workspace && !db.projects[w].deleted
  }

  ghost predicate SyncedBut(db: Db, pending: seq<Id>) {
    forall w :: LiveWorkspace(db, w) && w !in pending ==> InSync(db, w)
  }

  ghost predicate Known(s: State) {
    && (forall p <- s.db.projects :: p in s.used)
    && (forall l <- s.db.links :: l.workspace in s.used && l.project in s.used)
  }

  ghost predicate Inv(s: State) {
    Known(s) && WellLinked(s.db) && SyncedBut(s.db, [])
  }

  /** Nothing that the protection of `v` depends on has grown or gone. */
  ghost predicate Unmoved(db: Db, after: Db, v: Id) {
    && v in db.projects && v in after.projects && after.projects[v].protection == db.projects[v].protection
    && (forall l: WorkspaceLink | l.workspace == v :: l in db.links <==> l in after.links)
    && (forall l <- db.links | l.workspace == v ::
          && (l.project in db.projects <==> l.project in after.projects)
          && (l.project in db.projects ==> after.projects[l.project].protection == db.projects[l.project].protection)
          && (Reaches(after, l, v, None) ==> Reaches(db, l, v, None)))
  }

  lemma UnmovedInSync(db: Db, after: Db, v: Id)
    requires Unmoved(db, after, v) && InSync(db, v)
    ensures InSync(after, v)
  {
    forall l | l in after.links
      ensures Guards(after, v, l)
    {
      if l.workspace == v {
        assert l in db.links && Guards(db, v, l);
      } else {
        NotReached(after, l, v);
      }
    }
    forall e | e in after.projects[v].protection
      ensures exists l <- after.links :: Backs(after, v, l, e)
    {
      var l :| l in db.links && Backs(db, v, l, e);
      assert l in after.links && Backs(after, v, l, e);
    }
  }

  lemma NotReached(db: Db, l: WorkspaceLink, v: Id)
    requires l.workspace != v
    ensures !Reaches(db, l, v, None)
  {
  }

  // ----- recomputing protection

  lemma SyncedProtection(db: Db, w: Id, e: string)
    requires w in db.projects
    ensures e in Synced(db, w).projects[w].protection <==>
              exists l <- db.links :: Reaches(db, l, w, None) && e in db.projects[l.project].protection
  {
    var members := Reached(db, w, None);
    ProtectionUnionIff(db, members, e);
    forall m
      ensures m in members <==> exists l <- db.links :: Reaches(db, l, w, None) && l.project == m
    {
      ReachedIff(db, db.links, w, None, m);
    }
    hide Reached, ProtectionUnion;
    if m :| m in members && m in db.projects && e in db.projects[m].protection {
      var l :| l in db.links && Reaches(db, l, w, None) && l.project == m;
    }
    if l :| l in db.links && Reaches(db, l, w, None) && e in db.projects[l.project].protection {
      assert l.project in members;
    }
  }

  /** A sync changes one row's protection, and no link leads to that row. */
  lemma SyncFrame(db: Db, w: Id)
    requires w in db.projects && db.projects[w].workspace && WellLinked(db)
    ensures var after := Synced(db, w);
            && after.links == db.links && WellLinked(after) && after.projects.Keys == db.projects.Keys
            && (forall p <- db.projects :: after.projects[p] == db.projects[p].(protection := after.projects[p].protection))
            && (forall p <- db.projects :: p != w ==> after.projects[p] == db.projects[p])
            && (forall l <- db.links :: Reaches(after, l, l.workspace, None) <==> Reaches(db, l, l.workspace, None))
  {
    var after := Synced(db, w);
    hide ProtectionUnion, Reached;
    forall l | l in after.links
      ensures RightKinds(after, l)
    {
      assert RightKinds(db, l);
    }
  }

  lemma SyncSyncs(db: Db, w: Id)
    requires w in db.projects && db.projects[w].workspace && WellLinked(db)
    ensures InSync(Synced(db, w), w)
  {
    var after := Synced(db, w);
    SyncFrame(db, w);
    forall e
      ensures e in after.projects[w].protection <==>
                exists l <- db.links :: Reaches(db, l, w, None) && e in db.projects[l.project].protection
    {
      SyncedProtection(db, w, e);
    }
    hide Synced;
    forall l | l in after.links
      ensures Guards(after, w, l)
    {
      assert RightKinds(db, l);
      if l.workspace != w {
        NotReached(after, l, w);
      }
    }
    forall e | e in after.projects[w].protection
      ensures exists l <- after.links :: Backs(after, w, l, e)
    {
      var l :| l in db.links && Reaches(db, l, w, None) && e in db.projects[l.project].protection;
      assert RightKinds(db, l);
      assert Backs(after, w, l, e);
    }
  }

  lemma SyncLeavesOthers(db: Db, w: Id, v: Id)
    requires w in db.projects && db.projects[w].workspace && WellLinked(db) && v != w && v in db.projects && InSync(db, v)
    ensures v in Synced(db, w).projects && InSync(Synced(db, w), v)
  {
    var after := Synced(db, w);
    SyncFrame(db, w);
    hide Synced, InSync;
    forall l | l in db.links && l.workspace == v
      ensures (l.project in db.projects <==> l.project in after.projects)
              && (l.project in db.projects ==> after.projects[l.project].protection == db.projects[l.project].protection)
              && (Reaches(after, l, v, None) ==> Reaches(db, l, v, None))
    {
      assert RightKinds(db, l);
    }
    UnmovedInSync(db, after, v);
  }

  lemma {:induction false} SyncEachSyncs(db: Db, workspaces: seq<Id>)
    requires WellLinked(db) && SyncedBut(db, workspaces)
    requires forall w <- workspaces :: w in db.projects && db.projects[w].workspace
    ensures var after := SyncedEach(db, workspaces);
            && WellLinked(after) && SyncedBut(after, []) && after.links == db.links && after.projects.Keys == db.projects.Keys
    decreases |workspaces|
  {
    if workspaces != [] {
      var (w, rest) := (workspaces[0], workspaces[1..]);
      assert w in workspaces && forall v <- rest :: v in workspaces;
      var after := Synced(db, w);
      SyncFrame(db, w);
      SyncSyncs(db, w);
      hide Synced, InSync, WellLinked;
      forall v | LiveWorkspace(after, v) && v !in rest
        ensures InSync(after, v)
      {
        if v != w {
          assert v !in workspaces && LiveWorkspace(db, v);
          SyncLeavesOthers(db, w, v);
        }
      }
      SyncEachSyncs(after, rest);
    }
  }

  lemma OneSync(db: Db, w: Id)
    requires WellLinked(db) && SyncedBut(db, [w]) && w in db.projects && db.projects[w].workspace
    ensures var after := Synced(db, w);
            && WellLinked(after) && SyncedBut(after, []) && after.links == db.links && after.projects.Keys == db.projects.Keys
  {
    SyncEachSyncs(db, [w]);
    assert SyncedEach(db, [w]) == SyncedEach(Synced(db, w), [w][1..]) == Synced(db, w);
  }

  // ----- edit by edit

  lemma WithoutLink(links: seq<WorkspaceLink>, place: nat)
    requires place < |links|
    ensures |Without(links, place)| == |links| - 1
    ensures forall l <- Without(links, place) :: l in links
    ensures forall l <- links :: l == links[place] || l in Without(links, place)
  {
    forall l | l in links && l != links[place]
      ensures l in Without(links, place)
    {
      var i :| 0 <= i < |links| && links[i] == l;
      if i < place {
        assert Without(links, place)[i] == l;
      } else {
        assert Without(links, place)[i - 1] == l;
      }
    }
  }

  /** Removing links of one workspace leaves every other in sync. */
  lemma FewerLinks(db: Db, links: seq<WorkspaceLink>, w: Id)
    requires WellLinked(db) && SyncedBut(db, [])
    requires (forall l <- links :: l in db.links) && forall l <- db.links :: l.workspace == w || l in links
    ensures WellLinked(db.(links := links)) && SyncedBut(db.(links := links), [w])
  {
    var after := db.(links := links);
    forall l | l in links
      ensures RightKinds(after, l)
    {
      assert RightKinds(db, l);
    }
    hide InSync;
    forall v | LiveWorkspace(after, v) && v !in [w]
      ensures InSync(after, v)
    {
      assert LiveWorkspace(db, v) && v != w;
      UnmovedInSync(db, after, v);
    }
  }

  lemma UnlinkKeeps(db: Db, place: nat)
    requires WellLinked(db) && SyncedBut(db, []) && place < |db.links| && db.links[place].workspace in db.projects
    ensures var after := Unlinked(db, place);
            && WellLinked(after) && SyncedBut(after, []) && after.projects.Keys == db.projects.Keys
            && after.links == Without(db.links, place)
  {
    var w := db.links[place].workspace;
    WithoutLink(db.links, place);
    assert RightKinds(db, db.links[place]);
    FewerLinks(db, Without(db.links, place), w);
    OneSync(db.(links := Without(db.links, place)), w);
  }

  lemma {:induction false} LeavingKeeps(db: Db, project: Id)
    requires WellLinked(db) && SyncedBut(db, []) && Left(db, project).Some?
    ensures var after := Left(db, project).value;
            && WellLinked(after) && SyncedBut(after, []) && after.projects.Keys == db.projects.Keys
            && (forall l <- after.links :: l in db.links && l.project != project)
    ensures project in db.projects ==>
              var after := Left(db, project).value;
              after.projects[project] == db.projects[project].(protection := after.projects[project].protection)
    decreases |db.links|
  {
    var place := FirstOf(db.links, project);
    if place.Some? {
      UnlinkKeeps(db, place.value);
      UnlinkFrame(db, place.value);
      WithoutLink(db.links, place.value);
      hide WellLinked, SyncedBut, Unlinked;
      LeavingKeeps(Unlinked(db, place.value), project);
    }
  }

  lemma UnlinkFrame(db: Db, place: nat)
    requires WellLinked(db) && place < |db.links| && db.links[place].workspace in db.projects
    ensures var after := Unlinked(db, place);
            && |after.links| < |db.links| && after.projects.Keys == db.projects.Keys
            && forall p <- db.projects :: after.projects[p] == db.projects[p].(protection := after.projects[p].protection)
  {
    hide ProtectionUnion, Reached;
  }

  lemma {:induction false} UndoneLinks(links: seq<WorkspaceLink>, w: Id, projects: seq<Id>)
    ensures forall l <- LinksUndone(links, w, projects) :: l in links
    ensures forall l <- links :: l.workspace == w || l in LinksUndone(links, w, projects)
    decreases |projects|
  {
    if projects != [] {
      var place := LinkAt(links, w, projects[0]);
      var next := if place == None then links else Without(links, place.value);
      if place.Some? {
        WithoutLink(links, place.value);
      }
      hide Without, LinkAt;
      UndoneLinks(next, w, projects[1..]);
    }
  }

  lemma {:induction false} WorkspacesOfIff(links: seq<WorkspaceLink>, project: Id)
    ensures forall w :: w in WorkspacesOf(links, project) <==> exists l <- links :: l.project == project && l.workspace == w
  {
    if links != [] {
      WorkspacesOfIff(links[1..], project);
      assert forall l :: l in links <==> l == links[0] || l in links[1..];
    }
  }

  lemma CreateKeeps(s: State, id: Id, org: Id, workspace: bool)
    requires Inv(s) && id !in s.used
    ensures Inv(Next(s, CreateProject(id, org, workspace, true)))
  {
    var after := Next(s, CreateProject(id, org, workspace, true));
    forall l | l in after.db.links
      ensures RightKinds(after.db, l)
    {
      assert RightKinds(s.db, l) && l.workspace in s.used;
    }
    forall v | LiveWorkspace(after.db, v)
      ensures InSync(after.db, v)
    {
      if v == id {
        forall l | l in after.db.links
          ensures Guards(after.db, v, l)
        {
          assert l.workspace in s.used;
        }
      } else {
        assert LiveWorkspace(s.db, v);
        hide InSync;
        UnmovedInSync(s.db, after.db, v);
      }
    }
  }

  lemma LinkKeeps(s: State, edit: Edit)
    requires Inv(s) && edit.LinkProject? && Try(s, edit).Ok?
    ensures Inv(Next(s, edit))
  {
    var (w, p) := (edit.workspaceId, edit.project);
    hide Allows;
    var link := WorkspaceLink(w, p, s.db.projects[w].org);
    var more := s.db.(links := s.db.links + [link]);
    forall l | l in more.links
      ensures RightKinds(more, l)
    {
      assert l in s.db.links ==> RightKinds(s.db, l);
    }
    hide InSync;
    forall v | LiveWorkspace(more, v) && v !in [w]
      ensures InSync(more, v)
    {
      assert LiveWorkspace(s.db, v) && v != w;
      UnmovedInSync(s.db, more, v);
    }
    OneSync(more, w);
  }

  lemma ProtectKeeps(s: State, edit: Edit)
    requires Inv(s) && edit.SetProtection? && Try(s, edit).Ok?
    ensures Inv(Next(s, edit))
  {
    hide Allows, ProtectionAllowed;
    var (db, p) := (s.db, edit.project);
    var workspaces := WorkspacesOf(db.links, p);
    WorkspacesOfIff(db.links, p);
    var more := db.(projects := db.projects[p := db.projects[p].(protection := edit.environments)]);
    forall l | l in more.links
      ensures RightKinds(more, l)
    {
      assert RightKinds(db, l);
    }
    forall w | w in workspaces
      ensures w in more.projects && more.projects[w].workspace
    {
      var l :| l in db.links && l.project == p && l.workspace == w;
      assert RightKinds(db, l);
    }
    hide InSync, WorkspacesOf;
    forall v | LiveWorkspace(more, v) && v !in workspaces
      ensures InSync(more, v)
    {
      assert LiveWorkspace(db, v);
      UnmovedInSync(db, more, v);
    }
    SyncEachSyncs(more, workspaces);
  }

  /** Rows that no link names as a project may change anything but kind and protection. */
  lemma RowsKeep(s: State, after: Db)
    requires Inv(s) && after.links == s.db.links && (forall p <- after.projects :: p in s.db.projects)
    requires forall p <- after.projects ::
               after.projects[p] == s.db.projects[p].(org := after.projects[p].org, deleted := after.projects[p].deleted)
    requires forall p <- after.projects :: s.db.projects[p].deleted ==> after.projects[p].deleted
    requires forall l <- after.links | l.project in s.db.projects ::
               l.project in after.projects && after.projects[l.project].org == s.db.projects[l.project].org
    requires forall l <- after.links | l.workspace in after.projects :: after.projects[l.workspace].org == s.db.projects[l.workspace].org
    ensures Inv(s.(db := after))
  {
    forall l | l in after.links
      ensures RightKinds(after, l)
    {
      assert RightKinds(s.db, l);
    }
    hide InSync;
    forall v | LiveWorkspace(after, v)
      ensures InSync(after, v)
    {
      assert LiveWorkspace(s.db, v);
      UnmovedInSync(s.db, after, v);
    }
  }

  lemma UndoKeeps(s: State, edit: Edit)
    requires Inv(s) && edit.UndoLinks? && Try(s, edit).Ok?
    ensures Inv(Next(s, edit))
  {
    var (db, w) := (s.db, edit.workspaceId);
    var links := LinksUndone(db.links, w, edit.linked);
    UndoneLinks(db.links, w, edit.linked);
    FewerLinks(db, links, w);
    var undone := db.(links := links);
    hide LinksUndone, InSync;
    if edit.created {
      var after := undone.(projects := undone.projects - {w});
      forall l | l in after.links
        ensures RightKinds(after, l)
      {
        assert RightKinds(undone, l);
      }
      forall v | LiveWorkspace(after, v)
        ensures InSync(after, v)
      {
        assert LiveWorkspace(undone, v) && v !in [w];
        forall l | l in undone.links && l.workspace == v
          ensures l.project in undone.projects <==> l.project in after.projects
        {
          assert RightKinds(undone, l);
        }
        UnmovedInSync(undone, after, v);
      }
    } else {
      OneSync(undone, w);
    }
  }

  lemma MoveKeeps(s: State, edit: Edit)
    requires Inv(s) && edit.MoveProject? && Try(s, edit).Ok?
    ensures Inv(Next(s, edit))
  {
    var left := Left(s.db, edit.project).value;
    LeavingKeeps(s.db, edit.project);
    hide Left, WellLinked, SyncedBut;
    assert Inv(s.(db := left));
    RowsKeep(s.(db := left), Next(s, edit).db);
  }

  lemma NextKeeps(s: State, edit: Edit)
    requires Inv(s)
    ensures Inv(Next(s, edit))
  {
    if Try(s, edit).Ok? {
      match edit
      case CreateProject(id, org, workspace, _) => CreateKeeps(s, id, org, workspace);
      case LinkProject(_, _, _, _, _) => LinkKeeps(s, edit);
      case RemoveProject(w, p, _) =>
        hide Allows, Unlinked;
        var place := LinkAt(s.db.links, w, p).value;
        UnlinkKeeps(s.db, place);
        WithoutLink(s.db.links, place);
      case UndoLinks(_, _, _) => UndoKeeps(s, edit);
      case SetProtection(_, _, _, _) => ProtectKeeps(s, edit);
      case MoveProject(_, _, _) => MoveKeeps(s, edit);
      case DeleteProject(_, _) => RowsKeep(s, Next(s, edit).db);
      case DropMembership(place) =>
        hide Unlinked;
        UnlinkKeeps(s.db, place);
        WithoutLink(s.db.links, place);
      case DropReader(place) =>
        WithoutLink(s.db.links, place);
        FewerLinks(s.db, Without(s.db.links, place), s.db.links[place].workspace);
        hide Without, InSync;
        assert forall v :: LiveWorkspace(s.db, v) ==> v !in [s.db.links[place].workspace];
      case EraseProject(_) => RowsKeep(s, Next(s, edit).db);
      case DeleteOrganization(_, _) => OrganizationKeeps(s, edit);
      case People(_, _, _, _, _) => PeopleKeep(s, edit);
    }
  }

  /** Both ends of a link go with their organisation, and no link crosses to another. */
  lemma OrganizationKeeps(s: State, edit: Edit)
    requires Inv(s) && edit.DeleteOrganization? && edit.allowed
    ensures Inv(Next(s, edit))
  {
    var after := Next(s, edit).db;
    forall l | l in after.links
      ensures RightKinds(after, l)
    {
      assert RightKinds(s.db, l);
    }
    hide InSync;
    forall v | LiveWorkspace(after, v)
      ensures InSync(after, v)
    {
      assert LiveWorkspace(s.db, v);
      forall l | l in s.db.links && l.workspace == v
        ensures l.project in s.db.projects <==> l.project in after.projects
      {
        assert RightKinds(s.db, l);
      }
      UnmovedInSync(s.db, after, v);
    }
  }

  lemma PeopleKeep(s: State, edit: Edit)
    requires Inv(s) && edit.People?
    ensures Inv(Next(s, edit))
  {
    var after := Next(s, edit).db;
    forall l | l in after.links
      ensures RightKinds(after, l)
    {
      assert RightKinds(s.db, l);
    }
    hide InSync;
    forall v | LiveWorkspace(after, v)
      ensures InSync(after, v)
    {
      assert LiveWorkspace(s.db, v);
      UnmovedInSync(s.db, after, v);
    }
  }

  lemma {:induction false} EveryRun(s: State, edits: seq<Edit>)
    requires Inv(s)
    ensures Inv(Run(s, edits))
    decreases |edits|
  {
    if edits != [] {
      NextKeeps(s, edits[0]);
      hide Next, Inv;
      EveryRun(Next(s, edits[0]), edits[1..]);
    }
  }

  lemma ReachableInv(s: State)
    requires Reachable(s)
    ensures Inv(s)
  {
    var release, edits :| s == Run(Initial(release), edits);
    EveryRun(Initial(release), edits);
  }

  // ----- checks end

  /** No workspace reads another, in any reachable state. */
  lemma NoNesting(s: State, l: WorkspaceLink)
    requires Reachable(s) && l in s.db.links && l.project in s.db.projects
    ensures !s.db.projects[l.project].workspace && (l.workspace in s.db.projects ==> s.db.projects[l.workspace].workspace)
  {
    ReachableInv(s);
    assert RightKinds(s.db, l);
  }

  lemma RealProjectAnswers(db: Db, user: Id, id: Id, capability: string, depth: nat)
    requires id in db.projects ==> !db.projects[id].workspace
    ensures Check(db, user, id, capability, depth).Some?
  {
  }

  lemma {:induction false} AllAnswer(db: Db, user: Id, members: seq<Id>, capability: string)
    requires forall m <- members :: Check(db, user, m, capability, 0).Some?
    ensures CheckEach(db, user, members, capability, 0).Some? && CheckWhileGranted(db, user, members, capability, 0).Some?
    decreases |members|
  {
    if members != [] {
      assert members[0] in members && forall m <- members[1..] :: m in members;
      OneMoreGrant(db, user, members, capability, 0);
      hide Check;
      AllAnswer(db, user, members[1..], capability);
    }
  }

  /** Every check of every capability reaches its answer, at most one workspace deep. */
  lemma ChecksAlwaysEnd(s: State, user: Id, id: Id, capability: string)
    requires Reachable(s)
    ensures Check(s.db, user, id, capability, 1).Some?
    ensures Check(s.db, user, id, capability, |s.db.links|) == Check(s.db, user, id, capability, 1)
  {
    var db := s.db;
    var members := Reached(db, id, None);
    forall m | m in members
      ensures Check(db, user, m, capability, 0).Some?
    {
      ReachedIff(db, db.links, id, None, m);
      var l :| l in db.links && Reaches(db, l, id, None) && l.project == m;
      NoNesting(s, l);
      RealProjectAnswers(db, user, m, capability, 0);
    }
    AllAnswer(db, user, members, capability);
    AnswersOnceMembersDo(db, user, id, capability);
    hide Check, Reached, Reachable;
    AnswerWithinLinks(db, user, id, capability, 1);
  }

  lemma AnswersOnceMembersDo(db: Db, user: Id, id: Id, capability: string)
    requires var members := Reached(db, id, None);
             CheckEach(db, user, members, capability, 0).Some? && CheckWhileGranted(db, user, members, capability, 0).Some?
    ensures Check(db, user, id, capability, 1).Some?
  {
    var members := Reached(db, id, None);
    if members != [] {
      AcrossAnswers(db, user, members, capability, 0);
    }
    hide CheckEach, CheckWhileGranted, FoldRead, FoldWrite, CheckOwn, Reached;
  }

  /** So the account mutations always get one too. */
  lemma AuthorizationAlwaysAnswers(s: State, user: Id, id: Id, capability: string)
    requires Reachable(s)
    ensures AccountCores.Authorize(s.db, user, id, capability) != Err(AccountCores.NeverAnswers)
  {
    ChecksAlwaysEnd(s, user, id, capability);
    hide Check, Reachable;
  }

  // ----- protection never lags

  /**
    In every reachable state, a write to a live workspace is protected whenever a project that reads it
    protects it; and when it is protected, some linked project protects it, be it one being deleted.
  */
  lemma WorkspaceProtectionFollows(s: State, w: Id, environments: seq<string>)
    requires Reachable(s) && LiveWorkspace(s.db, w)
    ensures (exists l <- s.db.links ::
               Reaches(s.db, l, w, None) && IsProtectedWrite(s.db.projects[l.project].protection, environments))
            ==> IsProtectedWrite(s.db.projects[w].protection, environments)
    ensures IsProtectedWrite(s.db.projects[w].protection, environments) ==>
              exists l <- s.db.links :: l.workspace == w && l.project in s.db.projects
                && IsProtectedWrite(s.db.projects[l.project].protection, environments)
  {
    ReachableInv(s);
    var db := s.db;
    assert InSync(db, w);
    ProtectedWriteMeets(db.projects[w].protection, environments);
    forall p | p in db.projects
      ensures IsProtectedWrite(db.projects[p].protection, environments) <==>
                exists e <- environments :: e in db.projects[p].protection
    {
      ProtectedWriteMeets(db.projects[p].protection, environments);
    }
    hide IsProtectedWrite, Reachable;
    if l :| l in db.links && Reaches(db, l, w, None) && IsProtectedWrite(db.projects[l.project].protection, environments) {
      assert Guards(db, w, l);
      var e :| e in environments && e in db.projects[l.project].protection;
      assert e in db.projects[w].protection;
    }
    if IsProtectedWrite(db.projects[w].protection, environments) {
      var e :| e in environments && e in db.projects[w].protection;
      var l :| l in db.links && Backs(db, w, l, e);
      assert IsProtectedWrite(db.projects[l.project].protection, environments);
    }
  }
}
