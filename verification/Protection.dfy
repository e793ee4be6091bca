/** Protected environments: the one place that decides whether a write may go through directly. */
module Protection {
  import opened Prelude
  import opened Roles
  import opened Access
  import opened ProjectAccess

  datatype Resource = VariableResource | AccountResource | FileResource

  datatype Kind = CreateKind | UpdateKind | DeleteKind | RestoreKind | RollbackKind | ShareKind

  datatype Status = Pending | Applied | Rejected | Canceled | Expired

  datatype Target = Target(resource: Resource, id: Id)

  /** The non-secret fields of a proposal. */
  datatype Payload = Payload(name: Option<string>, websiteUrl: Option<string>, description: Option<string>,
                             environments: Option<seq<string>>)

  /** A change request; its id is its place in the table. */
  datatype Request = Request(
    project: Id, resource: Resource, kind: Kind, target: Option<Target>, expectedVersion: Option<nat>,
    environments: seq<string>, payload: Payload, vaultRef: Option<Ref>, title: string, requestedBy: Id,
    createdAt: int, status: Status)

  datatype WriteRefusal = RequestNotPending | RequestMismatch | NoBreakGlass | ProtectedEnvironment(environments: seq<string>)

  /** Environments a write touches: the union of before and after, without repeats. */
  function Touched(before: seq<string>, after: seq<string>): seq<string> {
    AddNew(AddNew([], before), after)
  }

  lemma TouchedIff(before: seq<string>, after: seq<string>)
    ensures forall e :: e in Touched(before, after) <==> e in before || e in after
  {
    AddNewIff([], before);
    AddNewIff(AddNew([], before), after);
  }

  function ProtectedIn(protection: seq<string>, environments: seq<string>): seq<string> {
    Keep(environments, protection)
  }

  predicate IsProtectedWrite(protection: seq<string>, environments: seq<string>) {
    |ProtectedIn(protection, environments)| > 0
  }

  lemma ProtectedWriteMeets(protection: seq<string>, environments: seq<string>)
    ensures IsProtectedWrite(protection, environments) <==> exists e <- environments :: e in protection
  {
    KeepIff(environments, protection);
    if IsProtectedWrite(protection, environments) {
      assert ProtectedIn(protection, environments)[0] in ProtectedIn(protection, environments);
    }
  }

  /** An active member of the project's organisation with the break-glass capability. */
  predicate CanOverride(db: Db, project: Id, actor: Id)
    requires project in db.projects
  {
    var membership := ActiveMembership(db, db.projects[project].org, actor);
    membership.Some? && Has(ProfileOf(db, membership.value.role), "project.protection.override")
  }

  /** What is written, by whom, and what the caller brings to get through. */
  datatype PlannedWrite = PlannedWrite(project: Id, environments: seq<string>, actor: Id, resource: Resource, target: Option<Target>,
                         via: Option<Id>, override: bool)

  /** The request is pending and proposes exactly this write. */
  predicate Authorises(requests: seq<Request>, id: Id, w: PlannedWrite) {
    && id < |requests| && requests[id].status == Pending && requests[id].project == w.project
    && requests[id].resource == w.resource && requests[id].target == w.target
  }

  function AssertProtectedWrite(db: Db, requests: seq<Request>, w: PlannedWrite): Option<WriteRefusal>
    requires w.project in db.projects
  {
    var protectedEnvs := ProtectedIn(db.projects[w.project].protection, w.environments);
    if |protectedEnvs| == 0 then None
    else if w.via.Some? then
      var id := w.via.value;
      if id >= |requests| || requests[id].project != w.project || requests[id].status != Pending then Some(RequestNotPending)
      else if requests[id].resource != w.resource || requests[id].target != w.target then Some(RequestMismatch)
      else None
    else if w.override then if CanOverride(db, w.project, w.actor) then None else Some(NoBreakGlass)
    else Some(ProtectedEnvironment(protectedEnvs))
  }

  /** A write goes through exactly when it is unprotected, applies its own request, or breaks the glass. */
  lemma WriteAllowedIff(db: Db, requests: seq<Request>, w: PlannedWrite)
    requires w.project in db.projects
    ensures AssertProtectedWrite(db, requests, w) == None <==>
              || (forall e <- w.environments :: e !in db.projects[w.project].protection)
              || (w.via.Some? && Authorises(requests, w.via.value, w))
              || (w.via == None && w.override && CanOverride(db, w.project, w.actor))
  {
    ProtectedWriteMeets(db.projects[w.project].protection, w.environments);
  }

  // ----- the protection of a workspace

  function ProtectionUnion(db: Db, members: seq<Id>): seq<string> {
    if members == [] then []
    else
      var (others, last) := (ProtectionUnion(db, members[..|members| - 1]), members[|members| - 1]);
      if last in db.projects then AddNew(others, db.projects[last].protection) else others
  }

  function Synced(db: Db, workspace: Id): Db
    requires workspace in db.projects
  {
    db.(projects := db.projects[workspace :=
          db.projects[workspace].(protection := ProtectionUnion(db, Reached(db, workspace, None)))])
  }

  /** Recomputes a workspace's protection from the projects that read it. */
  method SyncWorkspaceProtection(db: Db, workspace: Id) returns (after: Db)
    requires workspace in db.projects
    ensures after == Synced(db, workspace)
  {
    var members := ReachedProjects(db, workspace, None);
    var environments: seq<string> := [];
    for i := 0 to |members|
      invariant environments == ProtectionUnion(db, members[..i])
    {
      assert members[..i + 1][..i] == members[..i];
      if members[i] in db.projects {
        environments := AddNew(environments, db.projects[members[i]].protection);
      }
    }
    assert members[..|members|] == members;
    after := db.(projects := db.projects[workspace := db.projects[workspace].(protection := environments)]);
  }

  lemma {:induction false} ProtectionUnionIff(db: Db, members: seq<Id>, e: string)
    ensures e in ProtectionUnion(db, members) <==> exists m <- members :: m in db.projects && e in db.projects[m].protection
  {
    if members != [] {
      var (others, last) := (members[..|members| - 1], members[|members| - 1]);
      assert members == others + [last];
      ProtectionUnionIff(db, others, e);
      if last in db.projects {
        AddNewIff(ProtectionUnion(db, others), db.projects[last].protection);
      }
    }
  }

  /** After a sync, a write to the workspace is protected exactly when some project that reads it protects it. */
  lemma WorkspaceWriteIsProtected(db: Db, workspace: Id, environments: seq<string>)
    ensures IsProtectedWrite(ProtectionUnion(db, Reached(db, workspace, None)), environments) <==>
              exists l <- db.links :: Reaches(db, l, workspace, None)
                && IsProtectedWrite(db.projects[l.project].protection, environments)
  {
    var members := Reached(db, workspace, None);
    var union := ProtectionUnion(db, members);
    ProtectedWriteMeets(union, environments);
    forall e
      ensures e in union <==> exists m <- members :: m in db.projects && e in db.projects[m].protection
    {
      ProtectionUnionIff(db, members, e);
    }
    forall m
      ensures m in members <==> exists l <- db.links :: Reaches(db, l, workspace, None) && l.project == m
    {
      ReachedIff(db, db.links, workspace, None, m);
    }
    forall l | l in db.links && Reaches(db, l, workspace, None)
      ensures IsProtectedWrite(db.projects[l.project].protection, environments) <==>
                exists e <- environments :: e in db.projects[l.project].protection
    {
      ProtectedWriteMeets(db.projects[l.project].protection, environments);
    }
    hide IsProtectedWrite, ProtectionUnion, Reached;
    if e :| e in environments && e in union {
      var m :| m in members && m in db.projects && e in db.projects[m].protection;
      var l :| l in db.links && Reaches(db, l, workspace, None) && l.project == m;
      assert IsProtectedWrite(db.projects[l.project].protection, environments);
    }
    if l :| l in db.links && Reaches(db, l, workspace, None) && IsProtectedWrite(db.projects[l.project].protection, environments) {
      var e :| e in environments && e in db.projects[l.project].protection;
      assert l.project in members && e in union;
    }
  }
}
