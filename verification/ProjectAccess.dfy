/**
  Capability checks on projects and workspaces. A workspace is decided across the projects that read
  it, and those may be workspaces too; `depth` bounds how many workspaces deep a check may go, and
  running out of depth is the answer `None`.
*/
module ProjectAccess {
  import opened Prelude
  import opened Roles
  import opened Access

  datatype Denial = ProjectNotFound | NotAMember | Suspended | NotAssigned | Insufficient

  datatype ProjectAuth = ProjectAuth(orgRole: string, isAssigned: bool, profile: Profile, scope: Option<seq<string>>)

  type Answer = Result<ProjectAuth, Denial>

  /** The check on a project's own row. */
  function CheckOwn(db: Db, user: Id, project: Project, capability: string): Answer {
    match Membership(db, project.org, user)
    case None => Err(NotAMember)
    case Some(membership) =>
      var role := NormalizeRole(membership.role);
      var profile := ProfileOf(db, role);
      var assignment := AssignmentOf(db, project.id, user);
      if membership.suspended then Err(Suspended)
      else if Bypasses(profile) then
        if Has(profile, capability) then Ok(ProjectAuth(role, false, profile, None)) else Err(Insufficient)
      else if assignment == None then Err(NotAssigned)
      else if !Has(profile, capability) then Err(Insufficient)
      else Ok(ProjectAuth(role, true, profile, EffectiveEnvironments(profile, assignment.value.environments)))
  }

  /** On its own row a check passes active members that hold the capability and bypass or have an assignment. */
  lemma OwnCheckIff(db: Db, user: Id, project: Project, capability: string)
    ensures CheckOwn(db, user, project, capability).Ok? <==>
              && ActiveMembership(db, project.org, user).Some?
              && var profile := ProfileOf(db, ActiveMembership(db, project.org, user).value.role);
                 && Has(profile, capability) && (Bypasses(profile) || AssignmentOf(db, project.id, user).Some?)
    ensures CheckOwn(db, user, project, capability).Ok? ==>
              (CheckOwn(db, user, project, capability).value.isAssigned <==>
               !Bypasses(ProfileOf(db, ActiveMembership(db, project.org, user).value.role)))
  {
    NormalizedProfile(db, Membership(db, project.org, user));
    hide GetRoleProfile, Find, Has, Bypasses;
  }

  lemma NormalizedProfile(db: Db, m: Option<Member>)
    ensures m.Some? ==> ProfileOf(db, NormalizeRole(m.value.role)) == ProfileOf(db, m.value.role)
  {
    if m.Some? {
      var role := m.value.role;
      assert NormalizeRole(NormalizeRole(role)) == NormalizeRole(role);
    }
  }

  function Check(db: Db, user: Id, id: Id, capability: string, depth: nat): Option<Answer>
    decreases depth, 0
  {
    if id !in db.projects || db.projects[id].deleted then Some(Err(ProjectNotFound))
    else
      var members := if db.projects[id].workspace then Reached(db, id, None) else [];
      if members == [] then Some(CheckOwn(db, user, db.projects[id].(id := id), capability))
      else if depth == 0 then None
      else AcrossMembers(db, user, members, capability, depth - 1)
  }

  /** Reading needs any one member, anything else needs every member. */
  function AcrossMembers(db: Db, user: Id, members: seq<Id>, capability: string, depth: nat): Option<Answer>
    requires members != []
    decreases depth, |members| + 2
  {
    if capability == "project.read" then
      var answers := CheckEach(db, user, members, capability, depth);
      if answers == None then None else Some(FoldRead(answers.value))
    else
      var auths := CheckWhileGranted(db, user, members, capability, depth);
      if auths == None then None
      else if auths.value.Err? then Some(Err(auths.value.error))
      else Some(FoldWrite(auths.value.value))
  }

  function CheckEach(db: Db, user: Id, members: seq<Id>, capability: string, depth: nat): (r: Option<seq<Answer>>)
    ensures r.Some? ==> |r.value| == |members|
    decreases depth, |members| + 1
  {
    if members == [] then Some([])
    else
      var first := Check(db, user, members[0], capability, depth);
      var others := CheckEach(db, user, members[1..], capability, depth);
      if first == None || others == None then None else Some([first.value] + others.value)
  }

  /** The first denial ends the loop. */
  function CheckWhileGranted(db: Db, user: Id, members: seq<Id>, capability: string, depth: nat)
    : (r: Option<Result<seq<ProjectAuth>, Denial>>)
    ensures r.Some? && r.value.Ok? ==> |r.value.value| == |members|
    decreases depth, |members| + 1
  {
    if members == [] then Some(Ok([]))
    else
      match Check(db, user, members[0], capability, depth)
      case None => None
      case Some(Err(e)) => Some(Err(e))
      case Some(Ok(auth)) =>
        match CheckWhileGranted(db, user, members[1..], capability, depth)
        case None => None
        case Some(Err(e)) => Some(Err(e))
        case Some(Ok(auths)) => Some(Ok([auth] + auths))
  }

  function Prepend(results: seq<ProjectAuth>, r: Option<Result<seq<ProjectAuth>, Denial>>): Option<Result<seq<ProjectAuth>, Denial>> {
    match r
    case Some(Ok(auths)) => Some(Ok(results + auths))
    case _ => r
  }

  lemma OneMoreGrant(db: Db, user: Id, members: seq<Id>, capability: string, depth: nat)
    requires members != []
    ensures CheckWhileGranted(db, user, members, capability, depth) ==
              match Check(db, user, members[0], capability, depth)
              case None => None
              case Some(Err(e)) => Some(Err(e))
              case Some(Ok(auth)) => Prepend([auth], CheckWhileGranted(db, user, members[1..], capability, depth))
  {
    hide Check;
  }

  // ----- folding the members' answers

  function Passed(answers: seq<Answer>): seq<ProjectAuth> {
    if answers == [] then []
    else (if answers[0].Ok? then [answers[0].value] else []) + Passed(answers[1..])
  }

  function LastDenial(answers: seq<Answer>): Denial
    requires answers != [] && Passed(answers) == []
  {
    AllDenied(answers);
    answers[|answers| - 1].error
  }

  function Union(auths: seq<ProjectAuth>): seq<string> {
    if auths == [] then []
    else
      var others := Union(auths[..|auths| - 1]);
      var scope := auths[|auths| - 1].scope;
      if scope == None then others else AddNew(others, scope.value)
  }

  /** `[...new Set([...known, ...more])]` for a duplicate-free `known`. */
  function AddNew(known: seq<string>, more: seq<string>): seq<string>
    decreases |more|
  {
    if more == [] then known
    else AddNew(if more[0] in known then known else known + [more[0]], more[1..])
  }

  function Keep(known: seq<string>, scope: seq<string>): seq<string> {
    if known == [] then []
    else (if known[0] in scope then [known[0]] else []) + Keep(known[1..], scope)
  }

  function Narrow(scope: Option<seq<string>>, more: Option<seq<string>>): Option<seq<string>> {
    if more == None then scope
    else if scope == None then more
    else Some(Keep(scope.value, more.value))
  }

  function Intersection(auths: seq<ProjectAuth>): Option<seq<string>> {
    if auths == [] then None
    else Narrow(Intersection(auths[..|auths| - 1]), auths[|auths| - 1].scope)
  }

  function FoldRead(answers: seq<Answer>): Answer
    requires answers != []
  {
    var passed := Passed(answers);
    if passed == [] then Err(LastDenial(answers))
    else
      var unrestricted := exists a <- passed :: a.scope == None;
      Ok(ProjectAuth(passed[0].orgRole, exists a <- passed :: a.isAssigned, passed[0].profile,
                     if unrestricted then None else Some(Union(passed))))
  }

  function FoldWrite(auths: seq<ProjectAuth>): Answer
    requires auths != []
  {
    Ok(ProjectAuth(auths[0].orgRole, exists a <- auths :: a.isAssigned, auths[0].profile, Intersection(auths)))
  }

  // ----- what the folded scopes mean

  predicate InScope(scope: Option<seq<string>>, environment: string) {
    scope == None || environment in scope.value
  }

  lemma {:induction false} KeepIff(known: seq<string>, scope: seq<string>)
    ensures forall e :: e in Keep(known, scope) <==> e in known && e in scope
  {
    if known != [] {
      KeepIff(known[1..], scope);
    }
  }

  lemma {:induction false} AddNewIff(known: seq<string>, more: seq<string>)
    ensures forall e :: e in AddNew(known, more) <==> e in known || e in more
    decreases |more|
  {
    if more != [] {
      AddNewIff(if more[0] in known then known else known + [more[0]], more[1..]);
    }
  }

  lemma {:induction false} IntersectionIff(auths: seq<ProjectAuth>, e: string)
    ensures InScope(Intersection(auths), e) <==> forall a <- auths :: InScope(a.scope, e)
  {
    if auths != [] {
      var (others, last) := (auths[..|auths| - 1], auths[|auths| - 1]);
      assert auths == others + [last];
      IntersectionIff(others, e);
      if Intersection(others).Some? && last.scope.Some? {
        KeepIff(Intersection(others).value, last.scope.value);
      }
    }
  }

  lemma {:induction false} UnionIff(auths: seq<ProjectAuth>, e: string)
    ensures e in Union(auths) <==> exists a <- auths :: a.scope.Some? && e in a.scope.value
  {
    if auths != [] {
      var (others, last) := (auths[..|auths| - 1], auths[|auths| - 1]);
      assert auths == others + [last];
      UnionIff(others, e);
      if last.scope.Some? {
        AddNewIff(Union(others), last.scope.value);
      }
    }
  }

  lemma {:induction false} PassedIff(answers: seq<Answer>)
    ensures forall a :: a in Passed(answers) <==> Ok(a) in answers
  {
    if answers != [] {
      PassedIff(answers[1..]);
      assert forall x :: x in answers <==> x == answers[0] || x in answers[1..];
    }
  }

  lemma AllDenied(answers: seq<Answer>)
    requires Passed(answers) == []
    ensures forall i :: 0 <= i < |answers| ==> answers[i].Err?
  {
    PassedIff(answers);
    assert forall i :: 0 <= i < |answers| ==> answers[i] in answers;
  }

  lemma ScopeAllowsIff(scope: Option<seq<string>>, environments: seq<string>)
    ensures ScopeAllows(scope, environments) <==> forall e <- environments :: InScope(scope, e)
  {
  }

  /** The answer of one member, within the given depth. */
  ghost predicate MemberGrants(db: Db, user: Id, member: Id, capability: string, depth: nat, auth: ProjectAuth) {
    Check(db, user, member, capability, depth) == Some(Ok(auth))
  }

  lemma {:induction false} EachAnswer(db: Db, user: Id, members: seq<Id>, capability: string, depth: nat)
    requires CheckEach(db, user, members, capability, depth).Some?
    ensures forall i :: 0 <= i < |members| ==>
              Check(db, user, members[i], capability, depth) == Some(CheckEach(db, user, members, capability, depth).value[i])
  {
    if members != [] {
      EachAnswer(db, user, members[1..], capability, depth);
    }
  }

  ghost predicate MemberDenies(db: Db, user: Id, member: Id, capability: string, depth: nat, e: Denial) {
    Check(db, user, member, capability, depth) == Some(Err(e))
  }

  lemma {:induction false} WhileGranted(db: Db, user: Id, members: seq<Id>, capability: string, depth: nat)
    requires CheckWhileGranted(db, user, members, capability, depth).Some?
    ensures var r := CheckWhileGranted(db, user, members, capability, depth).value;
            && (r.Ok? ==> forall i :: 0 <= i < |members| ==> MemberGrants(db, user, members[i], capability, depth, r.value[i]))
            && (r.Err? ==> exists m <- members :: MemberDenies(db, user, m, capability, depth, r.error))
  {
    if members != [] {
      OneMoreGrant(db, user, members, capability, depth);
      hide Check, CheckWhileGranted;
      var first := Check(db, user, members[0], capability, depth);
      if first.value.Err? {
        assert MemberDenies(db, user, members[0], capability, depth, first.value.error);
      } else {
        WhileGranted(db, user, members[1..], capability, depth);
        var r := CheckWhileGranted(db, user, members[1..], capability, depth).value;
        if r.Err? {
          var m :| m in members[1..] && MemberDenies(db, user, m, capability, depth, r.error);
          assert m in members;
        }
      }
    }
  }

  /**
    Writing through a workspace: granted when every member grants it, and then the folded scope allows
    exactly the environment lists that every member's own scope allows.
  */
  lemma WriteAcrossMembers(db: Db, user: Id, members: seq<Id>, capability: string, depth: nat, environments: seq<string>)
    requires members != [] && capability != "project.read"
    requires AcrossMembers(db, user, members, capability, depth).Some?
    ensures var answer := AcrossMembers(db, user, members, capability, depth).value;
            && (answer.Ok? <==> forall m <- members :: exists a :: MemberGrants(db, user, m, capability, depth, a))
            && (answer.Ok? ==>
                  (ScopeAllows(answer.value.scope, environments) <==>
                   forall m, a :: m in members && MemberGrants(db, user, m, capability, depth, a) ==>
                     ScopeAllows(a.scope, environments)))
  {
    WhileGranted(db, user, members, capability, depth);
    var r := CheckWhileGranted(db, user, members, capability, depth).value;
    if r.Ok? {
      var auths := r.value;
      forall m | m in members
        ensures exists a :: a in auths && MemberGrants(db, user, m, capability, depth, a)
      {
        var i :| 0 <= i < |members| && members[i] == m;
        assert auths[i] in auths;
      }
      forall a | a in auths
        ensures exists m :: m in members && MemberGrants(db, user, m, capability, depth, a)
      {
        var i :| 0 <= i < |auths| && auths[i] == a;
        assert members[i] in members;
      }
      WriteScope(auths, environments);
    } else {
      var m :| m in members && MemberDenies(db, user, m, capability, depth, r.error);
      assert !exists a :: MemberGrants(db, user, m, capability, depth, a);
    }
  }

  lemma WriteScope(auths: seq<ProjectAuth>, environments: seq<string>)
    ensures ScopeAllows(Intersection(auths), environments) <==> forall a <- auths :: ScopeAllows(a.scope, environments)
  {
    forall e
      ensures InScope(Intersection(auths), e) <==> forall a <- auths :: InScope(a.scope, e)
    {
      IntersectionIff(auths, e);
    }
    ScopeAllowsIff(Intersection(auths), environments);
    forall a <- auths
      ensures ScopeAllows(a.scope, environments) <==> forall e <- environments :: InScope(a.scope, e)
    {
      ScopeAllowsIff(a.scope, environments);
    }
  }

  /**
    Reading through a workspace: granted when some member grants it, and then the folded scope holds
    exactly the environments in some granting member's scope.
  */
  lemma ReadAcrossMembers(db: Db, user: Id, members: seq<Id>, depth: nat, e: string)
    requires members != [] && AcrossMembers(db, user, members, "project.read", depth).Some?
    ensures var answer := AcrossMembers(db, user, members, "project.read", depth).value;
            && (answer.Ok? <==> exists m, a :: m in members && MemberGrants(db, user, m, "project.read", depth, a))
            && (answer.Ok? ==>
                  (InScope(answer.value.scope, e) <==>
                   exists m, a :: m in members && MemberGrants(db, user, m, "project.read", depth, a) && InScope(a.scope, e)))
  {
    var answers := CheckEach(db, user, members, "project.read", depth).value;
    EachAnswer(db, user, members, "project.read", depth);
    PassedIff(answers);
    var passed := Passed(answers);
    UnionIff(passed, e);
    forall a | a in passed
      ensures exists m :: m in members && MemberGrants(db, user, m, "project.read", depth, a)
    {
      var i :| 0 <= i < |answers| && answers[i] == Ok(a);
      assert MemberGrants(db, user, members[i], "project.read", depth, a) && members[i] in members;
    }
    forall m, a | m in members && MemberGrants(db, user, m, "project.read", depth, a)
      ensures a in passed
    {
      var i :| 0 <= i < |members| && members[i] == m;
      assert answers[i] == Ok(a) && answers[i] in answers;
    }
    if passed != [] {
      assert passed[0] in passed;
    }
  }

  // ----- when checks end

  ghost predicate Linked(db: Db, workspace: Id, project: Id) {
    exists l <- db.links :: l.workspace == workspace && l.project == project
  }

  /** A walk along workspace links. */
  ghost predicate Chain(db: Db, path: seq<Id>) {
    path != [] && forall i, j :: 0 <= i < |path| && j == i + 1 < |path| ==> Linked(db, path[i], path[j])
  }

  ghost predicate Acyclic(db: Db) {
    forall path :: Chain(db, path) && |path| > 1 ==> path[0] != path[|path| - 1]
  }

  /** A check that runs out of depth has walked a chain of that many links. */
  lemma {:induction false} DeepCheckHasChain(db: Db, user: Id, id: Id, capability: string, depth: nat) returns (path: seq<Id>)
    requires Check(db, user, id, capability, depth) == None
    ensures Chain(db, path) && path[0] == id && |path| == depth + 2
    decreases depth
  {
    var members := Reached(db, id, None);
    if depth == 0 {
      ReachedIff(db, db.links, id, None, members[0]);
      path := [id, members[0]];
    } else {
      var m := UndecidedMember(db, user, members, capability, depth - 1);
      ReachedIff(db, db.links, id, None, m);
      var rest := DeepCheckHasChain(db, user, m, capability, depth - 1);
      path := [id] + rest;
      assert forall i :: 1 <= i < |path| ==> path[i] == rest[i - 1];
      assert Linked(db, id, m);
    }
  }

  lemma UndecidedMember(db: Db, user: Id, members: seq<Id>, capability: string, depth: nat) returns (m: Id)
    requires members != [] && AcrossMembers(db, user, members, capability, depth) == None
    ensures m in members && Check(db, user, m, capability, depth) == None
  {
    if capability == "project.read" {
      m := UndecidedInEach(db, user, members, capability, depth);
    } else {
      m := UndecidedWhileGranted(db, user, members, capability, depth);
    }
  }

  lemma {:induction false} UndecidedInEach(db: Db, user: Id, members: seq<Id>, capability: string, depth: nat) returns (m: Id)
    requires CheckEach(db, user, members, capability, depth) == None
    ensures m in members && Check(db, user, m, capability, depth) == None
  {
    hide Check;
    if Check(db, user, members[0], capability, depth) == None {
      m := members[0];
    } else {
      m := UndecidedInEach(db, user, members[1..], capability, depth);
    }
  }

  lemma {:induction false} UndecidedWhileGranted(db: Db, user: Id, members: seq<Id>, capability: string, depth: nat) returns (m: Id)
    requires CheckWhileGranted(db, user, members, capability, depth) == None
    ensures m in members && Check(db, user, m, capability, depth) == None
  {
    hide Check;
    if Check(db, user, members[0], capability, depth) == None {
      m := members[0];
    } else {
      m := UndecidedWhileGranted(db, user, members[1..], capability, depth);
    }
  }

  lemma ChainSlice(db: Db, path: seq<Id>, i: nat, j: nat)
    requires Chain(db, path) && i < j < |path|
    ensures Chain(db, path[i..j + 1])
  {
    var part := path[i..j + 1];
    forall x, y | 0 <= x < |part| && y == x + 1 < |part|
      ensures Linked(db, part[x], part[y])
    {
      assert part[x] == path[i + x] && part[y] == path[i + y];
    }
  }

  function Workspaces(links: seq<WorkspaceLink>): set<Id> {
    set l | l in links :: l.workspace
  }

  lemma {:induction false} WorkspaceCount(links: seq<WorkspaceLink>)
    ensures |Workspaces(links)| <= |links|
  {
    if links != [] {
      WorkspaceCount(links[1..]);
      assert Workspaces(links) == Workspaces(links[1..]) + {links[0].workspace};
    }
  }

  /** Without a cycle no chain has more steps than there are links. */
  lemma AcyclicChain(db: Db, path: seq<Id>)
    requires Acyclic(db) && Chain(db, path)
    ensures |path| <= |db.links| + 1
  {
    var sources := path[..|path| - 1];
    forall i, j | 0 <= i < j < |sources|
      ensures sources[i] != sources[j]
    {
      ChainSlice(db, path, i, j);
      var part := path[i..j + 1];
      assert part[0] == path[i] && part[|part| - 1] == path[j];
    }
    assert Distinct(sources);
    DistinctCount(sources);
    WorkspaceCount(db.links);
    forall x | x in Elements(sources)
      ensures x in Workspaces(db.links)
    {
      var i :| 0 <= i < |sources| && sources[i] == x;
      var next := i + 1;
      assert Linked(db, path[i], path[next]);
    }
    SubsetCount(Elements(sources), Workspaces(db.links));
  }

  /** Where workspace links form no cycle, every check reaches an answer. */
  lemma ChecksEnd(db: Db, user: Id, id: Id, capability: string, depth: nat)
    requires Acyclic(db) && depth >= |db.links|
    ensures Check(db, user, id, capability, depth).Some?
  {
    if Check(db, user, id, capability, depth) == None {
      var path := DeepCheckHasChain(db, user, id, capability, depth);
      AcyclicChain(db, path);
    }
  }

  /** An answer does not depend on how much depth was left. */
  lemma {:induction false} DepthIrrelevant(db: Db, user: Id, id: Id, capability: string, depth: nat, more: nat)
    requires Check(db, user, id, capability, depth).Some?
    ensures Check(db, user, id, capability, depth + more) == Check(db, user, id, capability, depth)
    decreases depth, 0
  {
    if id in db.projects && !db.projects[id].deleted && db.projects[id].workspace && Reached(db, id, None) != [] {
      var members := Reached(db, id, None);
      if capability == "project.read" {
        DepthIrrelevantInEach(db, user, members, capability, depth - 1, more);
      } else {
        DepthIrrelevantWhileGranted(db, user, members, capability, depth - 1, more);
      }
    }
  }

  lemma {:induction false} DepthIrrelevantInEach(db: Db, user: Id, members: seq<Id>, capability: string, depth: nat, more: nat)
    requires CheckEach(db, user, members, capability, depth).Some?
    ensures CheckEach(db, user, members, capability, depth + more) == CheckEach(db, user, members, capability, depth)
    decreases depth, |members| + 1
  {
    if members != [] {
      DepthIrrelevant(db, user, members[0], capability, depth, more);
      DepthIrrelevantInEach(db, user, members[1..], capability, depth, more);
    }
  }

  lemma {:induction false} DepthIrrelevantWhileGranted(db: Db, user: Id, members: seq<Id>, capability: string, depth: nat, more: nat)
    requires CheckWhileGranted(db, user, members, capability, depth).Some?
    ensures CheckWhileGranted(db, user, members, capability, depth + more) == CheckWhileGranted(db, user, members, capability, depth)
    decreases depth, |members| + 1
  {
    if members != [] {
      DepthIrrelevant(db, user, members[0], capability, depth, more);
      if Check(db, user, members[0], capability, depth).value.Ok? {
        DepthIrrelevantWhileGranted(db, user, members[1..], capability, depth, more);
      }
    }
  }

  // ----- how deep an answer can lie

  /** The least depth at which a check has its answer. */
  ghost predicate AnswersAt(db: Db, user: Id, id: Id, capability: string, depth: nat) {
    Check(db, user, id, capability, depth).Some? && (depth > 0 ==> Check(db, user, id, capability, depth - 1) == None)
  }

  lemma LeastDepth(db: Db, user: Id, id: Id, capability: string, depth: nat) returns (least: nat)
    requires Check(db, user, id, capability, depth).Some?
    ensures least <= depth && AnswersAt(db, user, id, capability, least)
    decreases depth
  {
    hide Check;
    if depth == 0 || Check(db, user, id, capability, depth - 1) == None {
      least := depth;
    } else {
      least := LeastDepth(db, user, id, capability, depth - 1);
    }
  }

  lemma LeastDepthIsUnique(db: Db, user: Id, id: Id, capability: string, a: nat, b: nat)
    requires AnswersAt(db, user, id, capability, a) && AnswersAt(db, user, id, capability, b)
    ensures a == b
  {
    if a < b {
      DepthIrrelevant(db, user, id, capability, a, b - 1 - a);
    } else if b < a {
      DepthIrrelevant(db, user, id, capability, b, a - 1 - b);
    }
    hide Check;
  }

  /** A check without an answer is one of a workspace, decided across its members. */
  lemma OpenCheck(db: Db, user: Id, id: Id, capability: string, depth: nat, n: nat)
    requires Check(db, user, id, capability, depth) == None && n > 0
    ensures Reached(db, id, None) != []
    ensures Check(db, user, id, capability, n) == AcrossMembers(db, user, Reached(db, id, None), capability, n - 1)
  {
    hide CheckOwn, AcrossMembers;
  }

  lemma AcrossAnswers(db: Db, user: Id, members: seq<Id>, capability: string, depth: nat)
    requires members != []
    ensures AcrossMembers(db, user, members, capability, depth).Some? <==>
              if capability == "project.read" then CheckEach(db, user, members, capability, depth).Some?
              else CheckWhileGranted(db, user, members, capability, depth).Some?
  {
    hide Check, FoldRead, FoldWrite;
  }

  /** An answer that needs a depth needs a member that needs one less. */
  lemma DeepMember(db: Db, user: Id, id: Id, capability: string, depth: nat) returns (m: Id)
    requires depth > 0 && AnswersAt(db, user, id, capability, depth)
    ensures Linked(db, id, m) && AnswersAt(db, user, m, capability, depth - 1)
  {
    hide Check, CheckEach, CheckWhileGranted, AcrossMembers;
    var members := Reached(db, id, None);
    OpenCheck(db, user, id, capability, depth - 1, depth);
    AcrossAnswers(db, user, members, capability, depth - 1);
    if depth == 1 {
      m := members[0];
      FirstDecided(db, user, members, capability, 0);
    } else {
      OpenCheck(db, user, id, capability, depth - 1, depth - 1);
      AcrossAnswers(db, user, members, capability, depth - 2);
      if capability == "project.read" {
        m := UndecidedInEach(db, user, members, capability, depth - 2);
        DecidedInEach(db, user, members, capability, depth - 1, m);
      } else {
        m := DecidedLater(db, user, members, capability, depth - 2);
      }
    }
    ReachedIff(db, db.links, id, None, m);
  }

  lemma FirstDecided(db: Db, user: Id, members: seq<Id>, capability: string, depth: nat)
    requires members != []
    requires CheckEach(db, user, members, capability, depth).Some? || CheckWhileGranted(db, user, members, capability, depth).Some?
    ensures Check(db, user, members[0], capability, depth).Some?
  {
    hide Check;
  }

  lemma {:induction false} DecidedInEach(db: Db, user: Id, members: seq<Id>, capability: string, depth: nat, m: Id)
    requires CheckEach(db, user, members, capability, depth).Some? && m in members
    ensures Check(db, user, m, capability, depth).Some?
    decreases |members|
  {
    hide Check;
    if m != members[0] {
      DecidedInEach(db, user, members[1..], capability, depth, m);
    }
  }

  lemma {:induction false} DecidedLater(db: Db, user: Id, members: seq<Id>, capability: string, depth: nat) returns (m: Id)
    requires CheckWhileGranted(db, user, members, capability, depth) == None
    requires CheckWhileGranted(db, user, members, capability, depth + 1).Some?
    ensures m in members && Check(db, user, m, capability, depth) == None && Check(db, user, m, capability, depth + 1).Some?
    decreases |members|
  {
    OneMoreGrant(db, user, members, capability, depth);
    OneMoreGrant(db, user, members, capability, depth + 1);
    if Check(db, user, members[0], capability, depth) == None {
      m := members[0];
    } else {
      DepthIrrelevant(db, user, members[0], capability, depth, 1);
      hide Check, CheckWhileGranted;
      m := DecidedLater(db, user, members[1..], capability, depth);
    }
  }

  /** The members whose answers lie ever less deep form a walk without repeats. */
  lemma {:induction false} DeepWalk(db: Db, user: Id, id: Id, capability: string, depth: nat) returns (path: seq<Id>)
    requires AnswersAt(db, user, id, capability, depth)
    ensures |path| == depth + 1 && path[0] == id && Chain(db, path)
    ensures forall i :: 0 <= i <= depth ==> AnswersAt(db, user, path[i], capability, depth - i)
    decreases depth
  {
    if depth == 0 {
      path := [id];
    } else {
      var m := DeepMember(db, user, id, capability, depth);
      var rest := DeepWalk(db, user, m, capability, depth - 1);
      path := [id] + rest;
      hide AnswersAt, Linked;
      assert forall i :: 1 <= i < |path| ==> path[i] == rest[i - 1];
    }
  }

  /** With or without cycles, a check that has an answer at some depth has it within as many levels as there are links. */
  lemma AnswerWithinLinks(db: Db, user: Id, id: Id, capability: string, depth: nat)
    requires Check(db, user, id, capability, depth).Some?
    ensures Check(db, user, id, capability, |db.links|) == Check(db, user, id, capability, depth)
  {
    var least := LeastDepth(db, user, id, capability, depth);
    var path := DeepWalk(db, user, id, capability, least);
    var sources := path[..least];
    forall i, j | 0 <= i < j < |sources|
      ensures sources[i] != sources[j]
    {
      if sources[i] == sources[j] {
        LeastDepthIsUnique(db, user, path[i], capability, least - i, least - j);
      }
    }
    DistinctCount(sources);
    WorkspaceCount(db.links);
    forall x | x in Elements(sources)
      ensures x in Workspaces(db.links)
    {
      var i :| 0 <= i < |sources| && sources[i] == x;
      var next := i + 1;
      assert Linked(db, path[i], path[next]);
    }
    SubsetCount(Elements(sources), Workspaces(db.links));
    DepthIrrelevant(db, user, id, capability, least, |db.links| - least);
    DepthIrrelevant(db, user, id, capability, least, depth - least);
  }

  // ----- the checks as the code runs them

  method AssertProjectCapability(db: Db, user: Id, id: Id, capability: string, depth: nat) returns (r: Option<Answer>)
    ensures r == Check(db, user, id, capability, depth)
    decreases depth, 0
  {
    if id !in db.projects || db.projects[id].deleted {
      return Some(Err(ProjectNotFound));
    }
    if db.projects[id].workspace {
      var members := ReachedProjects(db, id, None);
      if |members| > 0 {
        if depth == 0 {
          return None;
        }
        r := AssertAcrossMembers(db, user, members, capability, depth - 1);
        return;
      }
    }
    return Some(CheckOwn(db, user, db.projects[id].(id := id), capability));
  }

  method AssertAcrossMembers(db: Db, user: Id, members: seq<Id>, capability: string, depth: nat) returns (r: Option<Answer>)
    requires members != []
    ensures r == AcrossMembers(db, user, members, capability, depth)
    decreases depth, 1
  {
    if capability == "project.read" {
      r := ReadAnyMember(db, user, members, depth);
    } else {
      r := WriteEveryMember(db, user, members, capability, depth);
    }
  }

  method ReadAnyMember(db: Db, user: Id, members: seq<Id>, depth: nat) returns (r: Option<Answer>)
    requires members != []
    ensures r == AcrossMembers(db, user, members, "project.read", depth)
    decreases depth, 1, 0
  {
    var answers: seq<Answer> := [];
    assert members[0..] == members;
    PrependNothing(CheckEach(db, user, members, "project.read", depth), None);
    for i := 0 to |members|
      invariant |answers| == i
      invariant CheckEach(db, user, members, "project.read", depth) ==
                  PrependAnswers(answers, CheckEach(db, user, members[i..], "project.read", depth))
    {
      assert members[i..][0] == members[i] && members[i..][1..] == members[i + 1..];
      var answer := AssertProjectCapability(db, user, members[i], "project.read", depth);
      if answer == None {
        return None;
      }
      PrependAnswer(answers, answer.value, CheckEach(db, user, members[i + 1..], "project.read", depth));
      answers := answers + [answer.value];
    }
    assert members[|members|..] == [] && answers + [] == answers;
    return Some(FoldRead(answers));
  }

  method WriteEveryMember(db: Db, user: Id, members: seq<Id>, capability: string, depth: nat) returns (r: Option<Answer>)
    requires members != [] && capability != "project.read"
    ensures r == AcrossMembers(db, user, members, capability, depth)
    decreases depth, 1, 0
  {
    var results: seq<ProjectAuth> := [];
    var scope: Option<seq<string>> := None;
    assert GrantedSoFar(db, user, members, capability, depth, results) by {
      assert members[0..] == members;
      PrependNothing(None, CheckWhileGranted(db, user, members, capability, depth));
    }
    hide Check, CheckWhileGranted, AcrossMembers, GrantedSoFar, Narrow, FoldWrite;
    for i := 0 to |members|
      invariant |results| == i && scope == Intersection(results)
      invariant GrantedSoFar(db, user, members, capability, depth, results)
    {
      var answer := AssertProjectCapability(db, user, members[i], capability, depth);
      GrantedStep(db, user, members, capability, depth, results);
      if answer == None {
        return None;
      }
      if answer.value.Err? {
        return answer;
      }
      scope := Narrow(scope, answer.value.value.scope);
      results := results + [answer.value.value];
    }
    GrantedEnd(db, user, members, capability, depth, results);
    var isAssigned := exists a <- results :: a.isAssigned;
    return Some(Ok(ProjectAuth(results[0].orgRole, isAssigned, results[0].profile, scope)));
  }

  /** The members before `|results|` have granted `results`. */
  ghost predicate GrantedSoFar(db: Db, user: Id, members: seq<Id>, capability: string, depth: nat, results: seq<ProjectAuth>)
    requires |results| <= |members|
  {
    CheckWhileGranted(db, user, members, capability, depth) ==
      Prepend(results, CheckWhileGranted(db, user, members[|results|..], capability, depth))
  }

  lemma GrantedStep(db: Db, user: Id, members: seq<Id>, capability: string, depth: nat, results: seq<ProjectAuth>)
    requires |results| < |members| && capability != "project.read"
    requires GrantedSoFar(db, user, members, capability, depth, results)
    ensures var answer := Check(db, user, members[|results|], capability, depth);
            if answer.Some? && answer.value.Ok? then
              var more := results + [answer.value.value];
              && GrantedSoFar(db, user, members, capability, depth, more)
              && Intersection(more) == Narrow(Intersection(results), answer.value.value.scope)
            else
              AcrossMembers(db, user, members, capability, depth) == answer
  {
    var (i, answer) := (|results|, Check(db, user, members[|results|], capability, depth));
    OneMoreGrant(db, user, members[i..], capability, depth);
    hide Check, CheckWhileGranted, Narrow;
    assert members[i..][0] == members[i] && members[i..][1..] == members[i + 1..];
    if answer.Some? && answer.value.Ok? {
      var a := answer.value.value;
      assert (results + [a])[..i] == results;
      PrependAuth(results, a, CheckWhileGranted(db, user, members[i + 1..], capability, depth));
    } else {
      assert CheckWhileGranted(db, user, members, capability, depth) ==
               if answer == None then None else Some(Err(answer.value.error));
    }
  }

  lemma GrantedEnd(db: Db, user: Id, members: seq<Id>, capability: string, depth: nat, results: seq<ProjectAuth>)
    requires |results| == |members| > 0 && capability != "project.read"
    requires GrantedSoFar(db, user, members, capability, depth, results)
    ensures AcrossMembers(db, user, members, capability, depth) ==
              Some(Ok(ProjectAuth(results[0].orgRole, exists a <- results :: a.isAssigned, results[0].profile, Intersection(results))))
  {
    assert members[|members|..] == [] && results + [] == results;
  }

  function PrependAnswers(answers: seq<Answer>, r: Option<seq<Answer>>): Option<seq<Answer>> {
    if r == None then None else Some(answers + r.value)
  }

  lemma PrependNothing(answers: Option<seq<Answer>>, auths: Option<Result<seq<ProjectAuth>, Denial>>)
    ensures PrependAnswers([], answers) == answers && Prepend([], auths) == auths
  {
    assert answers.Some? ==> [] + answers.value == answers.value;
    assert auths.Some? && auths.value.Ok? ==> [] + auths.value.value == auths.value.value;
  }

  lemma PrependAnswer(answers: seq<Answer>, a: Answer, r: Option<seq<Answer>>)
    ensures PrependAnswers(answers, PrependAnswers([a], r)) == PrependAnswers(answers + [a], r)
  {
    assert r.Some? ==> answers + ([a] + r.value) == (answers + [a]) + r.value;
  }

  lemma PrependAuth(results: seq<ProjectAuth>, a: ProjectAuth, r: Option<Result<seq<ProjectAuth>, Denial>>)
    ensures Prepend(results, Prepend([a], r)) == Prepend(results + [a], r)
  {
    assert r.Some? && r.value.Ok? ==> results + ([a] + r.value.value) == (results + [a]) + r.value.value;
  }

  // ----- the hierarchy filter

  function LevelOf(db: Db, role: string): int {
    ProfileOf(db, NormalizeRole(role)).level
  }

  function StrictlyBelow(db: Db, level: int, members: seq<Member>): seq<Member> {
    if members == [] then []
    else (if LevelOf(db, members[0].role) < level then [members[0]] else []) + StrictlyBelow(db, level, members[1..])
  }

  lemma {:induction false} StrictlyBelowIff(db: Db, level: int, members: seq<Member>, m: Member)
    ensures m in StrictlyBelow(db, level, members) <==> m in members && LevelOf(db, m.role) < level
    decreases |members|
  {
    if members != [] {
      StrictlyBelowIff(db, level, members[1..], m);
      hide LevelOf;
    }
  }

  /** Members of a level below the requester's, in order; the owner class sees everyone. */
  method FilterMembersStrictlyBelow(db: Db, requesterRole: string, members: seq<Member>) returns (kept: seq<Member>)
    ensures kept == if Bypasses(ProfileOf(db, requesterRole)) then members
                    else StrictlyBelow(db, ProfileOf(db, requesterRole).level, members)
  {
    var requester := ProfileOf(db, requesterRole);
    if Bypasses(requester) {
      return members;
    }
    var memo: map<string, int> := map[];
    hide ProfileOf;
    kept := [];
    for i := 0 to |members|
      invariant forall slug :: slug in memo ==> memo[slug] == ProfileOf(db, slug).level
      invariant kept + StrictlyBelow(db, requester.level, members[i..]) == StrictlyBelow(db, requester.level, members)
    {
      ghost var before := kept;
      var slug := NormalizeRole(members[i].role);
      if slug !in memo {
        memo := memo[slug := ProfileOf(db, slug).level];
      }
      if memo[slug] < requester.level {
        kept := kept + [members[i]];
      }
      assert kept == before + if LevelOf(db, members[i].role) < requester.level then [members[i]] else [];
      BelowStep(db, requester.level, members, i, before);
    }
    assert members[|members|..] == [];
  }

  lemma BelowStep(db: Db, level: int, members: seq<Member>, i: nat, before: seq<Member>)
    requires i < |members|
    ensures before + StrictlyBelow(db, level, members[i..]) ==
              (before + if LevelOf(db, members[i].role) < level then [members[i]] else [])
              + StrictlyBelow(db, level, members[i + 1..])
  {
    assert members[i..][0] == members[i] && members[i..][1..] == members[i + 1..];
  }
}
