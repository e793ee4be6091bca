/** Proposals for protected accounts: filing, review, cancelling and expiry, each as one transaction. */
module ChangeRequests {
  import opened Prelude
  import Roles
  import opened Access
  import opened ProjectAccess
  import opened Protection
  import opened AccountCores
  import AccountListing
  import opened TwoOwners

  const MAX_PENDING_PER_REQUESTER: nat := 50
  const STALE_MS: int := 30 * 24 * 60 * 60 * 1000

  datatype Filing = Filing(
    project: Id, actor: Id, kind: Kind, target: Option<Id>, payload: Payload, vaultRef: Option<Ref>, title: string,
    rateAllows: bool, now: int)

  datatype FilingRefusal =
    | Core(refusal: Refusal) | CreateNamesTarget | TargetNotFound | VariablesOnly | NothingTouched | UnknownEnvironment
    | BeyondScope | MakeItDirectly | AlreadyProposed | TooManyPending | RateLimited | NoRequest | NotPending | OwnRequest
    | Stale | NothingStaged | NotPermittedHere

  /** Where a proposal starts from, if its author could make the change on an unprotected project. */
  function CouldWriteDirectly(t: Tables, f: Filing): Result<Option<Account>, FilingRefusal>
    requires f.project in t.db.projects
  {
    match f.kind
    case RollbackKind => Err(VariablesOnly)
    case ShareKind => Err(VariablesOnly)
    case CreateKind =>
      var auth := Authorize(t.db, f.actor, f.project, "project.accounts.create");
      if auth.Err? then Err(Core(auth.error)) else Ok(None)
    case _ =>
      if f.target == None || f.target.value >= |t.accounts| || t.accounts[f.target.value].project != f.project then Err(TargetNotFound)
      else if f.kind == UpdateKind then
        if LevelOn(t, f.actor, f.target.value, f.now) == Level.Write then Ok(Some(t.accounts[f.target.value]))
        else Err(Core(NoWriteAccess))
      else
        var auth := Authorize(t.db, f.actor, f.project, "project.accounts.delete");
        if auth.Err? then Err(Core(auth.error)) else Ok(Some(t.accounts[f.target.value]))
  }

  function TargetOf(f: Filing): Option<Target> {
    if f.target == None then None else Some(Target(AccountResource, f.target.value))
  }

  /** The standing proposal a filing is compared with: the first for its target, or for its title. */
  predicate SameProposal(r: Request, f: Filing) {
    && r.status == Pending && r.kind == f.kind
    && if f.target.Some? then r.target == TargetOf(f) else r.project == f.project && r.title == f.title
  }

  function FirstSame(requests: seq<Request>, f: Filing, i: nat): (id: Option<Id>)
    ensures id.Some? ==> id.value < |requests| && SameProposal(requests[id.value], f)
    decreases |requests| - i
  {
    if i >= |requests| then None else if SameProposal(requests[i], f) then Some(i) else FirstSame(requests, f, i + 1)
  }

  function OpenFor(requests: seq<Request>, actor: Id, project: Id): nat {
    if requests == [] then 0
    else
      (if requests[0].requestedBy == actor && requests[0].status == Pending && requests[0].project == project then 1 else 0)
      + OpenFor(requests[1..], actor, project)
  }

  /** Hands a staged vault object to the scheduler. */
  function Purged(t: Tables, staged: Option<Ref>): Tables {
    t.(deletions := t.deletions + if staged.Some? then [staged.value] else [])
  }

  /** What a filing proposes, if its author may propose it at all. */
  datatype Proposal = Proposal(environments: seq<string>, version: Option<nat>)

  function Proposable(t: Tables, f: Filing): Result<Proposal, FilingRefusal> {
    if f.project !in t.db.projects || t.db.projects[f.project].deleted then Err(Core(NoProject))
    else
      match Authorize(t.db, f.actor, f.project, "project.read")
      case Err(e) => Err(Core(e))
      case Ok(auth) =>
        if f.kind == CreateKind && f.target.Some? then Err(CreateNamesTarget)
        else
          match CouldWriteDirectly(t, f)
          case Err(e) => Err(e)
          case Ok(start) =>
            var environments := TouchedBy(if start.Some? then start.value.environments else [], f.payload.environments);
            if environments == [] then Err(NothingTouched)
            else if exists e <- environments :: e !in Roles.VALID_ENVIRONMENTS then Err(UnknownEnvironment)
            else if !ScopeAllows(auth.scope, environments) then Err(BeyondScope)
            else if !IsProtectedWrite(t.db.projects[f.project].protection, environments) then Err(MakeItDirectly)
            else Ok(Proposal(environments, if start.Some? then Some(start.value.version) else None))
  }

  function TryFile(t: Tables, f: Filing): Result<Tables, FilingRefusal> {
    match Proposable(t, f)
    case Err(e) => Err(e)
    case Ok(proposal) =>
      var standing := FirstSame(t.requests, f, 0);
      if standing.Some? && t.requests[standing.value].project == f.project
         && t.requests[standing.value].resource == AccountResource
      then
        if t.requests[standing.value].requestedBy != f.actor then Err(AlreadyProposed) else Ok(Purged(t, f.vaultRef))
      else if OpenFor(t.requests, f.actor, f.project) >= MAX_PENDING_PER_REQUESTER then Err(TooManyPending)
      else if !f.rateAllows then Err(RateLimited)
      else Ok(Filed(t, f, proposal.environments, proposal.version))
  }

  function Filed(t: Tables, f: Filing, environments: seq<string>, version: Option<nat>): Tables {
    var id := |t.requests|;
    t.(requests := t.requests + [Request(f.project, AccountResource, f.kind, TargetOf(f), version, environments, f.payload,
                                         f.vaultRef, f.title, f.actor, f.now, Pending)],
       audit := t.audit + [AuditRow(f.actor, ChangeRequested(id))])
  }

  // ----- review

  datatype Review = Review(request: Id, actor: Id, approve: bool, urlAccepted: bool, tierAllows: bool, now: int)

  function TargetVersion(t: Tables, r: Request): Option<nat> {
    if r.target.Some? && r.target.value.resource == AccountResource && r.target.value.id < |t.accounts| then
      Some(t.accounts[r.target.value.id].version)
    else None
  }

  /** A request that names a target and a version no longer applies once the target has moved on. */
  predicate IsStale(t: Tables, r: Request) {
    r.target.Some? && r.expectedVersion.Some? && TargetVersion(t, r) != r.expectedVersion
  }

  predicate NamesAccount(r: Request) {
    r.target.Some? && r.target.value.resource == AccountResource
  }

  /** The account mutation that an approved request turns into. */
  function EventOf(r: Request, v: Review): Result<Event, FilingRefusal> {
    match r.kind
    case CreateKind =>
      if r.payload.name == None || r.vaultRef == None then Err(NothingStaged)
      else
        Ok(CreateEvent(CreateArgs(r.project, r.requestedBy, r.payload.name.value, r.payload.websiteUrl, v.urlAccepted,
                                  r.payload.description,
                                  if r.payload.environments.Some? then r.payload.environments.value else r.environments,
                                  r.vaultRef.value, Some(v.request), false, v.tierAllows)))
    case RollbackKind => Err(VariablesOnly)
    case ShareKind => Err(VariablesOnly)
    case _ =>
      if !NamesAccount(r) then Err(TargetNotFound)
      else if r.kind == UpdateKind then
        Ok(UpdateEvent(UpdateArgs(r.target.value.id, r.requestedBy, r.payload.name, r.payload.websiteUrl, v.urlAccepted,
                                  r.payload.description, r.payload.environments, r.vaultRef, Some(v.request), false), v.now))
      else
        var removal := RemovalArgs(r.target.value.id, r.requestedBy, Some(v.request), false);
        Ok(if r.kind == DeleteKind then RemoveEvent(removal, v.now) else RestoreEvent(removal, v.now))
  }

  /** What a decision checks before it looks at the change itself. */
  function ReviewRefusal(t: Tables, v: Review): Option<FilingRefusal> {
    if v.request >= |t.requests| then Some(NoRequest)
    else
      var r := t.requests[v.request];
      match Authorize(t.db, v.actor, r.project, "project.protection.approve")
      case Err(e) => Some(Core(e))
      case Ok(auth) =>
        if !ScopeAllows(auth.scope, r.environments) then Some(BeyondScope)
        else if r.status != Pending then Some(NotPending)
        else if r.requestedBy == v.actor then Some(OwnRequest)
        else if r.project !in t.db.projects then Some(Core(NoProject))
        else None
  }

  function TryReview(t: Tables, v: Review): Result<Tables, FilingRefusal> {
    var refusal := ReviewRefusal(t, v);
    if refusal.Some? then Err(refusal.value)
    else
      var r := t.requests[v.request];
      if !v.approve then Ok(Close(t, v.request, Rejected, AuditRow(v.actor, ChangeRejected(v.request))))
      else if r.resource != AccountResource then Err(VariablesOnly)
      else if IsStale(t, r) then Err(Stale)
      else
        match EventOf(r, v)
        case Err(e) => Err(e)
        case Ok(ev) =>
          match Attempt(t, ev)
          case Err(e) => Err(Core(e))
          case Ok(after) => if v.request < |after.requests| then Ok(MarkedApplied(after, v)) else Err(NoRequest)
  }

  /** Approving a proposal for a variable or a file. */
  datatype Foreigner = Foreigner(applies: bool, sweeps: bool)

  /**
    `applies` is the answer of the stale check and of the mutation that applies it; one that deletes its
    target or narrows it sweeps the other proposals aimed at it.
  */
  function TryReviewElsewhere(t: Tables, v: Review, how: Foreigner): Result<Tables, FilingRefusal> {
    var refusal := ReviewRefusal(t, v);
    if refusal.Some? then Err(refusal.value)
    else
      var r := t.requests[v.request];
      if !v.approve || r.resource == AccountResource then Err(NotPermittedHere)
      else if !how.applies then Err(Stale)
      else
        var swept := if how.sweeps && r.target.Some? then Swept(t, r.target.value, Some(v.request), r.requestedBy) else t;
        if v.request < |swept.requests| then Ok(MarkedApplied(swept, v)) else Err(NoRequest)
  }

  /** Cancels the first batch of the proposals aimed at a target, sparing the one being applied. */
  function Swept(t: Tables, target: Target, except: Option<Id>, actor: Id): Tables {
    CancelEach(t, AccountListing.Take(PendingFrom(t.requests, target, 0), SWEEP_BATCH), except, actor)
  }

  const MAX_PENDING_PER_MOVE: nat := 500

  /** The pending requests of a project, from place `i` of the table. */
  function PendingIn(requests: seq<Request>, project: Id, i: nat): seq<Id>
    decreases |requests| - i
  {
    if i >= |requests| then []
    else (if requests[i].project == project && requests[i].status == Pending then [i] else []) + PendingIn(requests, project, i + 1)
  }

  /** A project moves with its pending proposals cancelled; `db` is what the move leaves of the access tables. */
  function TryMove(t: Tables, project: Id, actor: Id, db: Db): Result<Tables, FilingRefusal> {
    var pending := PendingIn(t.requests, project, 0);
    if |pending| > MAX_PENDING_PER_MOVE then Err(TooManyPending)
    else Ok(CancelEach(t.(db := db.(accountGrants := t.db.accountGrants)), pending, None, actor))
  }

  function MarkedApplied(t: Tables, v: Review): Tables
    requires v.request < |t.requests|
  {
    t.(requests := t.requests[v.request := t.requests[v.request].(status := Applied)],
       audit := t.audit + [AuditRow(v.actor, ChangeApplied(v.request))])
  }

  function TryCancel(t: Tables, id: Id, actor: Id): Result<Tables, FilingRefusal> {
    if id >= |t.requests| then Err(NoRequest)
    else
      var auth := Authorize(t.db, actor, t.requests[id].project, "project.protection.approve");
      if t.requests[id].requestedBy != actor && auth.Err? then Err(Core(auth.error))
      else if t.requests[id].status != Pending then Err(NotPending)
      else Ok(Close(t, id, Canceled, AuditRow(actor, ChangeCanceled(id))))
  }

  /** One row of the expiry sweep. */
  function TryExpire(t: Tables, id: Id, now: int): Result<Tables, FilingRefusal> {
    if id >= |t.requests| || t.requests[id].status != Pending || t.requests[id].createdAt >= now - STALE_MS then Err(NotPending)
    else Ok(Close(t, id, Expired, AuditRow(t.requests[id].requestedBy, ChangeExpired(id))))
  }

  // ----- what proposing and approving give

  /** Nobody approves their own proposal, and a stale one is never applied. */
  lemma ApprovalNeedsSecondPerson(t: Tables, v: Review)
    requires TryReview(t, v).Ok?
    ensures v.request < |t.requests| && t.requests[v.request].status == Pending && v.actor != t.requests[v.request].requestedBy
    ensures v.approve ==> !IsStale(t, t.requests[v.request])
  {
    hide Authorize, ScopeAllows, EventOf, Attempt, IsStale, Close, MarkedApplied;
  }

  /**
    Protection never stands in the way of an approved proposal: the write it turns into is the one it
    authorises, as long as its account has not moved to another project.
  */
  lemma ApprovedWritePasses(t: Tables, v: Review)
    requires v.request < |t.requests|
    requires var r := t.requests[v.request];
             && r.status == Pending && r.resource == AccountResource && EventOf(r, v).Ok?
             && (r.kind == CreateKind ==> r.target == None)
             && r.project in t.db.projects && WriteOf(t, EventOf(r, v).value).project == r.project
    ensures var w := WriteOf(t, EventOf(t.requests[v.request], v).value);
            Authorises(t.requests, v.request, w) && AssertProtectedWrite(t.db, t.requests, w) == None
  {
    var w := WriteOf(t, EventOf(t.requests[v.request], v).value);
    hide TouchedBy;
    assert Authorises(t.requests, v.request, w) && w.via == Some(v.request);
    WriteAllowedIff(t.db, t.requests, w);
  }

  /** Filing writes no account: at most one pending request more, or the staged object goes to the scheduler. */
  lemma FilingLeavesAccounts(t: Tables, f: Filing)
    requires TryFile(t, f).Ok?
    ensures var after := TryFile(t, f).value;
            && after.accounts == t.accounts && after.db == t.db
            && (|| after == Purged(t, f.vaultRef)
                || exists environments, version :: after == Filed(t, f, environments, version))
  {
    hide Proposable, FirstSame, OpenFor, Filed, Purged;
    var after := TryFile(t, f).value;
    if after != Purged(t, f.vaultRef) {
      var proposal := Proposable(t, f).value;
      assert after == Filed(t, f, proposal.environments, proposal.version);
    }
    FiledFrame(t, f);
  }

  lemma FiledFrame(t: Tables, f: Filing)
    ensures Purged(t, f.vaultRef).accounts == t.accounts && Purged(t, f.vaultRef).db == t.db
    ensures forall environments, version ::
              Filed(t, f, environments, version).accounts == t.accounts && Filed(t, f, environments, version).db == t.db
  {
  }

  // ----- runs

  /** Mutations that come without a request; a direct update keeps the object of its account. */
  predicate Direct(ev: Event) {
    match ev
    case CreateEvent(a) => a.via == None
    case UpdateEvent(u, _) => u.via == None && u.vaultRef == None
    case RemoveEvent(r, _) => r.via == None
    case RestoreEvent(r, _) => r.via == None
    case AccessEvent(_) => true
    case DropOrganization(_, _, _, _) => true
    case Elsewhere(_, _) => false
  }

  /**
    `Propose` is a filing for a variable or a file and `DecideElsewhere` its approval; `Sweep` is any other
    change of such a resource that cancels the proposals aimed at it.
  */
  datatype Act =
    | Mutate(ev: Event)
    | File(filing: Filing)
    | Propose(foreign: Request)
    | Decide(review: Review)
    | DecideElsewhere(review: Review, how: Foreigner)
    | Sweep(target: Target, actor: Id)
    | Move(project: Id, actor: Id, db: Db)
    | Withdraw(id: Id, actor: Id)
    | Expire(id: Id, now: int)
    | World(db: Db)

  /** Ids belong to tables: a proposal for a variable or a file names one of those. */
  predicate Foreign(r: Request) {
    && r.resource != AccountResource && r.status == Pending && r.vaultRef == None
    && (r.target.Some? ==> r.target.value.resource == r.resource)
  }

  function OrElse(outcome: Result<Tables, FilingRefusal>, t: Tables): Tables {
    if outcome.Ok? then outcome.value else t
  }

  function Perform(t: Tables, act: Act): Tables {
    match act
    case Mutate(ev) => if Direct(ev) then Step(t, ev) else t
    case File(f) => OrElse(TryFile(t, f), t)
    case Propose(r) =>
      if Foreign(r) then
        t.(requests := t.requests + [r], audit := t.audit + [AuditRow(r.requestedBy, ChangeRequested(|t.requests|))])
      else t
    case Decide(v) => OrElse(TryReview(t, v), t)
    case DecideElsewhere(v, how) => OrElse(TryReviewElsewhere(t, v, how), t)
    case Sweep(target, actor) => if target.resource == AccountResource then t else Swept(t, target, None, actor)
    case Move(project, actor, db) => OrElse(TryMove(t, project, actor, db), t)
    case Withdraw(id, actor) => OrElse(TryCancel(t, id, actor), t)
    case Expire(id, now) => OrElse(TryExpire(t, id, now), t)
    case World(db) => t.(db := db.(accountGrants := t.db.accountGrants))
  }

  function RunActs(t: Tables, acts: seq<Act>): Tables
    decreases |acts|
  {
    if acts == [] then t else RunActs(Perform(t, acts[0]), acts[1..])
  }

  /** A deployment without accounts or requests. */
  function Empty(db: Db): Tables {
    Tables(db.(accountGrants := []), [], [], [], [], [])
  }

  ghost predicate Reachable(t: Tables) {
    exists db, acts :: t == RunActs(Empty(db), acts)
  }

  // ----- requests only ever close

  /** Nothing of a request changes but its status, and that only once. */
  ghost predicate RowKept(r: Request, s: Request) {
    s == r.(status := s.status) && (r.status != Pending ==> s == r)
  }

  ghost predicate Grown(t: Tables, after: Tables) {
    && |t.accounts| <= |after.accounts| && |t.requests| <= |after.requests|
    && (forall id :: 0 <= id < |t.accounts| ==> after.accounts[id].project == t.accounts[id].project)
    && (forall k :: 0 <= k < |t.requests| ==> RowKept(t.requests[k], after.requests[k]))
  }

  lemma GrownTransitive(a: Tables, b: Tables, c: Tables)
    requires Grown(a, b) && Grown(b, c)
    ensures Grown(a, c)
  {
  }

  lemma RemovalGrows(t: Tables, r: RemovalArgs, now: int)
    requires r.account < |t.accounts|
    ensures Grown(t, Removed(t, r, now)) && |Removed(t, r, now).requests| == |t.requests|
    ensures forall k :: 0 <= k < |t.requests| && r.via == Some(k) ==> Removed(t, r, now).requests[k] == t.requests[k]
  {
    var (gone, ids) := (Deleted(t, r, now), Aimed(t.requests, r.account));
    CancelEachFrame(gone, ids, r.via, r.actor);
    AimedPending(t.requests, r.account);
    hide CancelEach, Aimed, RevokedUpTo, SharesRevokedUpTo, ShareRows, OverrideRows;
    forall k | 0 <= k < |t.requests|
      ensures RowKept(t.requests[k], Removed(t, r, now).requests[k])
      ensures r.via == Some(k) ==> Removed(t, r, now).requests[k] == t.requests[k]
    {
      CancelEachStatus(gone, ids, r.via, r.actor, k);
    }
  }

  lemma AimedPending(requests: seq<Request>, id: Id)
    ensures Distinct(Aimed(requests, id))
    ensures forall k <- Aimed(requests, id) ::
              k < |requests| && requests[k].target == Some(Target(AccountResource, id)) && requests[k].status == Pending
  {
    SweptPending(requests, Target(AccountResource, id));
  }

  lemma SweptPending(requests: seq<Request>, target: Target)
    ensures var ids := AccountListing.Take(PendingFrom(requests, target, 0), SWEEP_BATCH);
            && Distinct(ids)
            && forall k <- ids :: k < |requests| && requests[k].target == Some(target) && requests[k].status == Pending
  {
    var all := PendingFrom(requests, target, 0);
    PendingInTable(requests, target, 0);
    PendingDistinct(requests, target, 0);
    assert forall k <- AccountListing.Take(all, SWEEP_BATCH) :: k in all;
  }

  lemma {:induction false} PendingInProject(requests: seq<Request>, project: Id, i: nat)
    ensures Distinct(PendingIn(requests, project, i))
    ensures forall k :: k in PendingIn(requests, project, i) <==>
              i <= k < |requests| && requests[k].project == project && requests[k].status == Pending
    decreases |requests| - i
  {
    if i < |requests| {
      PendingInProject(requests, project, i + 1);
    }
  }

  /** Cancelling pending requests adds none, and leaves the one being applied as it is. */
  lemma CancelGrows(t: Tables, ids: seq<Id>, except: Option<Id>, actor: Id)
    requires forall id <- ids :: id < |t.requests| && t.requests[id].status == Pending
    ensures var after := CancelEach(t, ids, except, actor);
            && Grown(t, after) && |after.requests| == |t.requests| && after.accounts == t.accounts
            && forall k :: 0 <= k < |t.requests| && except == Some(k) ==> after.requests[k] == t.requests[k]
  {
    CancelEachFrame(t, ids, except, actor);
    hide CancelEach;
    forall k | 0 <= k < |t.requests|
      ensures RowKept(t.requests[k], CancelEach(t, ids, except, actor).requests[k])
      ensures except == Some(k) ==> CancelEach(t, ids, except, actor).requests[k] == t.requests[k]
    {
      CancelEachStatus(t, ids, except, actor, k);
    }
  }

  /** An approval elsewhere cancels at most other requests before it marks its own. */
  lemma ElsewhereMarks(t: Tables, v: Review, how: Foreigner) returns (mid: Tables)
    requires TryReviewElsewhere(t, v, how).Ok?
    ensures v.request < |t.requests| && t.requests[v.request].status == Pending && t.requests[v.request].requestedBy != v.actor
    ensures t.requests[v.request].resource != AccountResource
    ensures Grown(t, mid) && |mid.requests| == |t.requests| && mid.requests[v.request] == t.requests[v.request]
    ensures TryReviewElsewhere(t, v, how) == Ok(MarkedApplied(mid, v))
    ensures var target := t.requests[v.request].target;
            mid == if how.sweeps && target.Some? then Swept(t, target.value, Some(v.request), t.requests[v.request].requestedBy) else t
  {
    var target := t.requests[v.request].target;
    mid := t;
    if how.sweeps && target.Some? {
      mid := Swept(t, target.value, Some(v.request), t.requests[v.request].requestedBy);
      SweptPending(t.requests, target.value);
      CancelGrows(t, AccountListing.Take(PendingFrom(t.requests, target.value, 0), SWEEP_BATCH), Some(v.request), t.requests[v.request].requestedBy);
    } else {
      GrownSame(t);
    }
    hide Authorize, ScopeAllows, CancelEach, PendingFrom, MarkedApplied, Grown;
  }

  lemma {:induction false} PendingDistinct(requests: seq<Request>, target: Target, i: nat)
    ensures Distinct(PendingFrom(requests, target, i))
    decreases |requests| - i
  {
    if i < |requests| {
      PendingDistinct(requests, target, i + 1);
      PendingInTable(requests, target, i + 1);
    }
  }

  /** A mutation adds no request; the one it applies stays as it is until it is marked. */
  lemma MutationGrows(t: Tables, ev: Event)
    requires Attempt(t, ev).Ok? && !ev.Elsewhere?
    ensures var after := Attempt(t, ev).value;
            && Grown(t, after) && |after.requests| == |t.requests|
            && (forall k :: 0 <= k < |t.requests| && WriteOf(t, ev).via == Some(k) ==> after.requests[k] == t.requests[k])
  {
    StepEffect(t, ev);
    if ev.RemoveEvent? && ev.removal.account < |t.accounts| {
      RemovalGrows(t, ev.removal, ev.now);
    }
    hide Attempt, CancelEach, Removed, OverrideRows, TouchedBy, Edited, RevokedUpTo, Grown;
    if ev.RemoveEvent? {
      GrownSame(t);
    } else {
      SameRequestsGrow(t, Attempt(t, ev).value);
    }
  }

  lemma GrownSame(t: Tables)
    ensures Grown(t, t)
  {
  }

  lemma SameRequestsGrow(t: Tables, after: Tables)
    requires after.requests == t.requests && |t.accounts| <= |after.accounts|
    requires forall id :: 0 <= id < |t.accounts| ==> after.accounts[id].project == t.accounts[id].project
    ensures Grown(t, after)
  {
  }

  lemma CloseGrows(t: Tables, id: Id, status: Status, row: AuditRow)
    requires id < |t.requests| && t.requests[id].status == Pending
    ensures Grown(t, Close(t, id, status, row))
  {
  }

  lemma MarkGrows(t: Tables, v: Review)
    requires v.request < |t.requests| && t.requests[v.request].status == Pending
    ensures Grown(t, MarkedApplied(t, v))
  {
  }

  /** An accepted approval is the mutation its request describes, on a pending request. */
  lemma ApprovalIsEvent(t: Tables, v: Review)
    requires TryReview(t, v).Ok? && v.approve
    ensures v.request < |t.requests| && t.requests[v.request].status == Pending
    ensures EventOf(t.requests[v.request], v).Ok?
    ensures var ev := EventOf(t.requests[v.request], v).value;
            && IsCore(ev) && WriteOf(t, ev).via == Some(v.request)
            && Attempt(t, ev).Ok? && v.request < |Attempt(t, ev).value.requests|
            && TryReview(t, v) == Ok(MarkedApplied(Attempt(t, ev).value, v))
  {
    ApprovedEvent(t, v);
    hide Authorize, ScopeAllows, EventOf, Attempt, IsStale, Close, MarkedApplied, WriteOf;
  }

  lemma ApprovedEvent(t: Tables, v: Review)
    ensures v.request < |t.requests| && EventOf(t.requests[v.request], v).Ok? ==>
              var ev := EventOf(t.requests[v.request], v).value; IsCore(ev) && WriteOf(t, ev).via == Some(v.request)
  {
  }

  lemma RejectionCloses(t: Tables, v: Review)
    requires TryReview(t, v).Ok? && !v.approve
    ensures v.request < |t.requests| && t.requests[v.request].status == Pending
    ensures TryReview(t, v) == Ok(Close(t, v.request, Rejected, AuditRow(v.actor, ChangeRejected(v.request))))
  {
    hide Authorize, ScopeAllows, EventOf, Attempt, IsStale, Close, MarkedApplied;
  }

  /** The acts that file nothing. */
  lemma OldRequests(t: Tables, act: Act)
    requires !act.File? && !act.Propose?
    ensures Grown(t, Perform(t, act)) && |Perform(t, act).requests| == |t.requests|
  {
    GrownSame(t);
    hide Attempt, Grown, EventOf, WriteOf, Authorize;
    match act
    case Mutate(ev) =>
      if Direct(ev) && Attempt(t, ev).Ok? {
        MutationGrows(t, ev);
      }
    case Decide(v) =>
      if TryReview(t, v).Ok? {
        if v.approve {
          ApprovalIsEvent(t, v);
          var ev := EventOf(t.requests[v.request], v).value;
          MutationGrows(t, ev);
          MarkGrows(Attempt(t, ev).value, v);
          GrownTransitive(t, Attempt(t, ev).value, TryReview(t, v).value);
        } else {
          RejectionCloses(t, v);
          CloseGrows(t, v.request, Rejected, AuditRow(v.actor, ChangeRejected(v.request)));
        }
      }
    case DecideElsewhere(v, how) =>
      if TryReviewElsewhere(t, v, how).Ok? {
        var mid := ElsewhereMarks(t, v, how);
        hide TryReviewElsewhere;
        MarkGrows(mid, v);
        GrownTransitive(t, mid, MarkedApplied(mid, v));
      }
    case Sweep(target, actor) =>
      SweptPending(t.requests, target);
      CancelGrows(t, AccountListing.Take(PendingFrom(t.requests, target, 0), SWEEP_BATCH), None, actor);
    case Move(project, actor, db) =>
      var moved := t.(db := db.(accountGrants := t.db.accountGrants));
      PendingInProject(t.requests, project, 0);
      SameRequestsGrow(t, moved);
      CancelGrows(moved, PendingIn(t.requests, project, 0), None, actor);
      hide CancelEach;
      GrownTransitive(t, moved, CancelEach(moved, PendingIn(t.requests, project, 0), None, actor));
    case Withdraw(id, actor) =>
      if TryCancel(t, id, actor).Ok? {
        CloseGrows(t, id, Canceled, AuditRow(actor, ChangeCanceled(id)));
      }
    case Expire(id, now) =>
      if TryExpire(t, id, now).Ok? {
        CloseGrows(t, id, Expired, AuditRow(t.requests[id].requestedBy, ChangeExpired(id)));
      }
    case World(db) => SameRequestsGrow(t, Perform(t, act));
    case _ =>
  }

  lemma NextGrows(t: Tables, act: Act)
    ensures Grown(t, Perform(t, act))
  {
    if act.File? && TryFile(t, act.filing).Ok? {
      FilingLeavesAccounts(t, act.filing);
      hide TryFile;
    } else if !act.File? && !act.Propose? {
      OldRequests(t, act);
      hide Perform;
    }
  }

  /**
    Whatever happens, what was proposed stays what is decided: a request keeps every field but its
    status, and once it has left `Pending` it never changes again.
  */
  lemma {:induction false} ProposalsAreFinal(t: Tables, acts: seq<Act>, k: Id)
    requires k < |t.requests|
    ensures k < |RunActs(t, acts).requests| && RowKept(t.requests[k], RunActs(t, acts).requests[k])
    decreases |acts|
  {
    if acts != [] {
      NextGrows(t, acts[0]);
      hide Perform;
      ProposalsAreFinal(Perform(t, acts[0]), acts[1..], k);
    }
  }

  // ----- one pending proposal per account and kind

  /** A proposal names a row of its own table; one for an account is on the account's project. */
  ghost predicate Proper(t: Tables, r: Request) {
    && (r.target.Some? ==> r.target.value.resource == r.resource)
    && (r.resource == AccountResource ==>
          match r.target
          case None => r.kind == CreateKind
          case Some(x) =>
            x.id < |t.accounts| && t.accounts[x.id].project == r.project && r.kind in {UpdateKind, DeleteKind, RestoreKind})
  }

  ghost predicate Clash(r: Request, s: Request) {
    && r.status == Pending && s.status == Pending && r.kind == s.kind
    && r.resource == AccountResource && r.target.Some? && r.target == s.target
  }

  ghost predicate Orderly(t: Tables) {
    && (forall k :: 0 <= k < |t.requests| ==> Proper(t, t.requests[k]))
    && (forall i, j :: 0 <= i < j < |t.requests| ==> !Clash(t.requests[i], t.requests[j]))
  }

  lemma GrownKeepsOrder(t: Tables, after: Tables)
    requires Orderly(t) && Grown(t, after) && |after.requests| == |t.requests|
    ensures Orderly(after)
  {
    forall k | 0 <= k < |after.requests|
      ensures Proper(after, after.requests[k])
    {
      assert Proper(t, t.requests[k]) && RowKept(t.requests[k], after.requests[k]);
    }
    forall i, j | 0 <= i < j < |after.requests|
      ensures !Clash(after.requests[i], after.requests[j])
    {
      assert RowKept(t.requests[i], after.requests[i]) && RowKept(t.requests[j], after.requests[j]);
      assert !Clash(t.requests[i], t.requests[j]);
    }
  }

  lemma {:induction false} FirstSameNone(requests: seq<Request>, f: Filing, i: nat)
    requires FirstSame(requests, f, i) == None
    ensures forall k :: i <= k < |requests| ==> !SameProposal(requests[k], f)
    decreases |requests| - i
  {
    if i < |requests| {
      FirstSameNone(requests, f, i + 1);
    }
  }

  /** What the filing checks: the row it inserts is proper and clashes with no other. */
  lemma FilingIsOrderly(t: Tables, f: Filing)
    requires Orderly(t) && TryFile(t, f).Ok? && |TryFile(t, f).value.requests| > |t.requests|
    ensures |TryFile(t, f).value.requests| == |t.requests| + 1
    ensures var filed := TryFile(t, f).value.requests[|t.requests|];
            && TryFile(t, f).value.requests == t.requests + [filed] && TryFile(t, f).value.accounts == t.accounts
            && Proper(t, filed) && forall k :: 0 <= k < |t.requests| ==> !Clash(t.requests[k], filed)
  {
    FilingInserts(t, f);
    var filed := TryFile(t, f).value.requests[|t.requests|];
    hide TryFile, Authorize;
    if f.target.Some? {
      NothingStanding(t, f);
      FirstSameNone(t.requests, f, 0);
    }
  }

  /** A proposal that the filing takes for the same one is for the same account, hence on its project. */
  lemma StandingIsOfAccount(t: Tables, f: Filing, id: Id)
    requires Orderly(t) && id < |t.requests| && SameProposal(t.requests[id], f)
    requires f.target.Some? && f.target.value < |t.accounts| && t.accounts[f.target.value].project == f.project
    ensures t.requests[id].resource == AccountResource && t.requests[id].project == f.project
  {
    assert Proper(t, t.requests[id]);
  }

  lemma NothingStanding(t: Tables, f: Filing)
    requires Orderly(t) && f.target.Some? && f.target.value < |t.accounts| && t.accounts[f.target.value].project == f.project
    requires var standing := FirstSame(t.requests, f, 0);
             standing.Some? ==> t.requests[standing.value].project != f.project || t.requests[standing.value].resource != AccountResource
    ensures FirstSame(t.requests, f, 0) == None
  {
    hide Orderly, Proper, SameProposal;
    var standing := FirstSame(t.requests, f, 0);
    if standing.Some? {
      StandingIsOfAccount(t, f, standing.value);
    }
  }

  /** Where the filing comes to an insert: the target is an account of the project and nothing stands in its way. */
  lemma FilingInserts(t: Tables, f: Filing)
    requires TryFile(t, f).Ok? && |TryFile(t, f).value.requests| > |t.requests|
    ensures var after := TryFile(t, f).value;
            && after.accounts == t.accounts && |after.requests| == |t.requests| + 1
            && var filed := after.requests[|t.requests|];
               && after.requests == t.requests + [filed]
               && filed.title == f.title && filed.requestedBy == f.actor
               && filed.status == Pending && filed.resource == AccountResource && filed.kind == f.kind
               && filed.target == TargetOf(f) && filed.project == f.project
               && f.kind != RollbackKind && f.kind != ShareKind
               && (f.kind == CreateKind <==> f.target == None)
               && (f.target.Some? ==> f.target.value < |t.accounts| && t.accounts[f.target.value].project == f.project)
    ensures var standing := FirstSame(t.requests, f, 0);
            standing.Some? ==> t.requests[standing.value].project != f.project || t.requests[standing.value].resource != AccountResource
  {
    CouldWriteTarget(t, f);
    hide Authorize, ScopeAllows, CouldWriteDirectly, TouchedBy, IsProtectedWrite, FirstSame, OpenFor;
  }

  lemma CouldWriteTarget(t: Tables, f: Filing)
    requires f.project in t.db.projects && CouldWriteDirectly(t, f).Ok?
    ensures f.kind != RollbackKind && f.kind != ShareKind
    ensures f.kind != CreateKind ==>
              f.target.Some? && f.target.value < |t.accounts| && t.accounts[f.target.value].project == f.project
  {
    hide Authorize, LevelOn;
  }

  lemma AppendKeepsOrder(t: Tables, after: Tables, r: Request)
    requires Orderly(t) && after.requests == t.requests + [r] && after.accounts == t.accounts
    requires Proper(t, r) && forall k :: 0 <= k < |t.requests| ==> !Clash(t.requests[k], r)
    ensures Orderly(after)
  {
    forall k | 0 <= k < |after.requests|
      ensures Proper(after, after.requests[k])
    {
      assert k < |t.requests| ==> Proper(t, t.requests[k]);
    }
  }

  lemma NextOrderly(t: Tables, act: Act)
    requires Orderly(t)
    ensures Orderly(Perform(t, act))
  {
    if act.File? {
      if TryFile(t, act.filing).Ok? {
        FilingLeavesAccounts(t, act.filing);
        hide TryFile, Orderly;
        if |TryFile(t, act.filing).value.requests| > |t.requests| {
          FilingIsOrderly(t, act.filing);
          AppendKeepsOrder(t, Perform(t, act), TryFile(t, act.filing).value.requests[|t.requests|]);
        } else {
          SameRequestsGrow(t, Perform(t, act));
          GrownKeepsOrder(t, Perform(t, act));
        }
      }
    } else if act.Propose? {
      if Foreign(act.foreign) {
        forall k | 0 <= k < |t.requests|
          ensures !Clash(t.requests[k], act.foreign)
        {
          assert Proper(t, t.requests[k]);
        }
        AppendKeepsOrder(t, Perform(t, act), act.foreign);
      }
    } else {
      OldRequests(t, act);
      hide Perform;
      GrownKeepsOrder(t, Perform(t, act));
    }
  }

  lemma {:induction false} RunOrderly(t: Tables, acts: seq<Act>)
    requires Orderly(t)
    ensures Orderly(RunActs(t, acts))
    decreases |acts|
  {
    if acts != [] {
      NextOrderly(t, acts[0]);
      hide Perform, Orderly;
      RunOrderly(Perform(t, acts[0]), acts[1..]);
    }
  }

  lemma {:induction false} RunAppend(t: Tables, acts: seq<Act>, act: Act)
    ensures RunActs(t, acts + [act]) == Perform(RunActs(t, acts), act)
    decreases |acts|
  {
    hide Perform;
    if acts == [] {
      assert [] + [act] == [act] && [act][1..] == [];
      assert RunActs(t, [act]) == RunActs(Perform(t, act), []);
    } else {
      RunAppend(Perform(t, acts[0]), acts[1..], act);
      assert (acts + [act])[1..] == acts[1..] + [act];
    }
  }

  lemma StillReachable(t: Tables, act: Act)
    requires Reachable(t)
    ensures Reachable(Perform(t, act))
  {
    hide Perform, RunActs;
    var db, acts :| t == RunActs(Empty(db), acts);
    RunAppend(Empty(db), acts, act);
  }

  lemma ReachableOrderly(t: Tables)
    requires Reachable(t)
    ensures Orderly(t)
  {
    var db, acts :| t == RunActs(Empty(db), acts);
    RunOrderly(Empty(db), acts);
  }

  /** In every reachable state an account has at most one pending proposal of each kind. */
  lemma OnePendingProposal(t: Tables, i: Id, j: Id)
    requires Reachable(t) && i < |t.requests| && j < |t.requests| && i != j
    requires t.requests[i].status == Pending && t.requests[j].status == Pending
    requires t.requests[i].target.Some? && t.requests[i].target.value.resource == AccountResource
    requires t.requests[i].target == t.requests[j].target
    ensures t.requests[i].kind != t.requests[j].kind
  {
    ReachableOrderly(t);
    assert Proper(t, t.requests[i]) && Proper(t, t.requests[j]);
    assert !Clash(t.requests[if i < j then i else j], t.requests[if i < j then j else i]);
    hide RunActs;
  }

  /** And so at most three. */
  lemma AtMostThreePending(t: Tables, id: Id)
    requires Reachable(t)
    ensures |PendingFrom(t.requests, Target(AccountResource, id), 0)| <= 3
  {
    var all := PendingFrom(t.requests, Target(AccountResource, id), 0);
    PendingInTable(t.requests, Target(AccountResource, id), 0);
    PendingDistinct(t.requests, Target(AccountResource, id), 0);
    assert forall i :: 0 <= i < |all| ==> all[i] in all;
    var kinds := seq(|all|, i requires 0 <= i < |all| => t.requests[all[i]].kind);
    ReachableOrderly(t);
    forall i | 0 <= i < |all|
      ensures kinds[i] in {UpdateKind, DeleteKind, RestoreKind}
    {
      assert all[i] in all && Proper(t, t.requests[all[i]]);
    }
    forall i, j | 0 <= i < j < |all|
      ensures kinds[i] != kinds[j]
    {
      assert all[i] in all && all[j] in all;
      OnePendingProposal(t, all[i], all[j]);
    }
    DistinctCount(kinds);
    SubsetCount(Elements(kinds), {UpdateKind, DeleteKind, RestoreKind});
  }

  /** Deleting an account closes every proposal aimed at it but the one being applied. */
  lemma DeletionClosesEveryProposal(t: Tables, r: RemovalArgs, now: int, k: Id)
    requires Reachable(t) && r.account < |t.accounts|
    requires k < |t.requests| && t.requests[k].target == Some(Target(AccountResource, r.account))
    ensures k < |Removed(t, r, now).requests|
    ensures Removed(t, r, now).requests[k].status == Pending <==> t.requests[k].status == Pending && r.via == Some(k)
  {
    AtMostThreePending(t, r.account);
    DeletionClosesProposals(t, r, now, k);
    hide Removed, Reachable, PendingFrom;
  }

  /**
    In every reachable state, approving a pending proposal for an account asks for exactly the write that
    the proposal authorises, so protection never refuses it.
  */
  lemma ApprovalPassesProtection(t: Tables, v: Review)
    requires Reachable(t) && v.request < |t.requests|
    requires var r := t.requests[v.request];
             r.status == Pending && r.resource == AccountResource && r.project in t.db.projects && EventOf(r, v).Ok?
    ensures var w := WriteOf(t, EventOf(t.requests[v.request], v).value);
            && w.project == t.requests[v.request].project
            && Authorises(t.requests, v.request, w) && AssertProtectedWrite(t.db, t.requests, w) == None
  {
    ReachableOrderly(t);
    var r := t.requests[v.request];
    assert Proper(t, r);
    ProperWrite(t, v);
    hide Reachable, Orderly, EventOf, WriteOf, AssertProtectedWrite;
    ApprovedWritePasses(t, v);
  }

  lemma ProperWrite(t: Tables, v: Review)
    requires v.request < |t.requests| && EventOf(t.requests[v.request], v).Ok?
    requires t.requests[v.request].resource == AccountResource && Proper(t, t.requests[v.request])
    ensures WriteOf(t, EventOf(t.requests[v.request], v).value).project == t.requests[v.request].project
    ensures t.requests[v.request].kind == CreateKind ==> t.requests[v.request].target == None
  {
    hide TouchedBy;
  }

  /** A moved project takes no pending proposal along. */
  lemma MoveClosesEveryProposal(t: Tables, project: Id, actor: Id, db: Db, k: Id)
    requires k < |t.requests|
    ensures TryMove(t, project, actor, db).Ok? <==> |PendingIn(t.requests, project, 0)| <= MAX_PENDING_PER_MOVE
    ensures TryMove(t, project, actor, db).Ok? ==>
              && k < |TryMove(t, project, actor, db).value.requests|
              && TryMove(t, project, actor, db).value.requests[k] ==
                   if t.requests[k].project == project && t.requests[k].status == Pending then t.requests[k].(status := Canceled)
                   else t.requests[k]
  {
    PendingInProject(t.requests, project, 0);
    var moved := t.(db := db.(accountGrants := t.db.accountGrants));
    CancelEachStatus(moved, PendingIn(t.requests, project, 0), None, actor, k);
    hide CancelEach, PendingIn;
  }

  // ----- filing the same proposal again

  /** The same change by the same person; what it stages, and when, may differ. */
  predicate Refiles(f: Filing, again: Filing) {
    again.project == f.project && again.actor == f.actor && again.kind == f.kind && again.target == f.target && again.title == f.title
  }

  lemma {:induction false} FirstSameIs(requests: seq<Request>, f: Filing, i: nat, k: nat)
    requires i <= k < |requests| && SameProposal(requests[k], f) && forall j :: i <= j < k ==> !SameProposal(requests[j], f)
    ensures FirstSame(requests, f, i) == Some(k)
    decreases k - i
  {
    if i < k {
      FirstSameIs(requests, f, i + 1, k);
    }
  }

  lemma {:induction false} FirstSameIsFirst(requests: seq<Request>, f: Filing, i: nat)
    requires FirstSame(requests, f, i).Some?
    ensures var k := FirstSame(requests, f, i).value;
            i <= k < |requests| && SameProposal(requests[k], f) && forall j :: i <= j < k ==> !SameProposal(requests[j], f)
    decreases |requests| - i
  {
    if !SameProposal(requests[i], f) {
      FirstSameIsFirst(requests, f, i + 1);
    }
  }

  /** A request that is the same proposal later was the same before. */
  lemma SameBefore(r: Request, s: Request, f: Filing, again: Filing)
    requires RowKept(r, s) && Refiles(f, again) && SameProposal(s, again)
    ensures SameProposal(r, f) && s == r
  {
  }

  /** The proposal that stood when one was filed, or the filed one, still stands first while it is pending. */
  lemma StandsFirst(t: Tables, f: Filing, acts: seq<Act>, again: Filing)
    requires TryFile(t, f).Ok? && |TryFile(t, f).value.requests| > |t.requests| && Refiles(f, again)
    requires var later := RunActs(TryFile(t, f).value, acts);
             && |t.requests| < |later.requests| && later.requests[|t.requests|].status == Pending
             && var standing := FirstSame(t.requests, f, 0); standing.Some? ==> later.requests[standing.value].status == Pending
    ensures var (standing, later) := (FirstSame(t.requests, f, 0), RunActs(TryFile(t, f).value, acts));
            var k := if standing.Some? then standing.value else |t.requests|;
            && FirstSame(later.requests, again, 0) == Some(k)
            && later.requests[k] == TryFile(t, f).value.requests[k]
  {
    FilingInserts(t, f);
    var (standing, filed) := (FirstSame(t.requests, f, 0), TryFile(t, f).value);
    var later := RunActs(filed, acts);
    var k := if standing.Some? then standing.value else |t.requests|;
    if standing.Some? {
      FirstSameIsFirst(t.requests, f, 0);
    } else {
      FirstSameNone(t.requests, f, 0);
    }
    hide TryFile, RunActs, FirstSame;
    ProposalsAreFinal(filed, acts, k);
    forall j | 0 <= j < k
      ensures !SameProposal(later.requests[j], again)
    {
      ProposalsAreFinal(filed, acts, j);
      if SameProposal(later.requests[j], again) {
        SameBefore(filed.requests[j], later.requests[j], f, again);
      }
    }
    FirstSameIs(later.requests, again, 0, k);
  }

  /**
    Filing a change again while the first proposal is pending, whatever happened in between, adds no
    request and hands the newly staged object to the scheduler, exactly when nothing stood in the way of
    the first: that is always so for a change of an account, and for a create unless the pending create of
    a variable or a file with its title was found and passed over.
  */
  lemma RefileIsIdempotentIff(t: Tables, f: Filing, acts: seq<Act>, again: Filing)
    requires Reachable(t) && TryFile(t, f).Ok? && |TryFile(t, f).value.requests| > |t.requests| && Refiles(f, again)
    requires var later := RunActs(TryFile(t, f).value, acts);
             && Proposable(later, again).Ok?
             && |t.requests| < |later.requests| && later.requests[|t.requests|].status == Pending
             && var standing := FirstSame(t.requests, f, 0); standing.Some? ==> later.requests[standing.value].status == Pending
    ensures var (standing, later) := (FirstSame(t.requests, f, 0), RunActs(TryFile(t, f).value, acts));
            && (TryFile(later, again) == Ok(Purged(later, again.vaultRef)) <==> standing == None)
            && (standing.Some? ==> f.kind == CreateKind && t.requests[standing.value].resource != AccountResource)
  {
    StandsFirst(t, f, acts, again);
    FilingInserts(t, f);
    var (standing, later) := (FirstSame(t.requests, f, 0), RunActs(TryFile(t, f).value, acts));
    ReachableOrderly(t);
    hide RunActs, Reachable, Orderly;
    if f.target.Some? {
      NothingStanding(t, f);
    }
    var filed := TryFile(t, f).value;
    hide TryFile;
    RefileOutcome(later, again, filed.requests[if standing.Some? then standing.value else |t.requests|]);
  }

  /** What a filing does once it is known which request stands first. */
  lemma RefileOutcome(t: Tables, f: Filing, first: Request)
    requires Proposable(t, f).Ok? && FirstSame(t.requests, f, 0).Some? && t.requests[FirstSame(t.requests, f, 0).value] == first
    requires first.requestedBy == f.actor || first.resource != AccountResource
    ensures TryFile(t, f) == Ok(Purged(t, f.vaultRef)) <==> first.project == f.project && first.resource == AccountResource
  {
    hide Proposable, FirstSame, OpenFor;
    assert TryFile(t, f).Ok? && TryFile(t, f) != Ok(Purged(t, f.vaultRef)) ==> |TryFile(t, f).value.requests| == |t.requests| + 1;
    assert |Purged(t, f.vaultRef).requests| == |t.requests|;
  }

  /** A create for the project of two owners, whose production is protected. */
  function SmallFiling(staged: Option<Ref>): Filing {
    Filing(1, 1, CreateKind, None, Payload(Some("mail"), None, None, Some(["production"])), staged, "mail", true, 0)
  }

  lemma ProductionTouched()
    ensures Touched([], ["production"]) == ["production"] && IsProtectedWrite(["production"], ["production"])
  {
    ProtectedWriteMeets(["production"], ["production"]);
    assert "production" in ["production"];
    assert AddNew([], []) == [];
    assert AddNew([], ["production"]) == ["production"];
  }

  lemma SmallProposable(t: Tables, meta: Roles.Meta, staged: Option<Ref>)
    requires t.db == OwnersDb(meta, ["production"])
    ensures Proposable(t, SmallFiling(staged)) == Ok(Proposal(["production"], None))
  {
    OwnersAuthorized(meta, ["production"], 1, "project.read");
    OwnersAuthorized(meta, ["production"], 1, "project.accounts.create");
    ProductionTouched();
    hide Authorize, Touched, IsProtectedWrite;
    assert forall e <- ["production"] :: e == "production";
  }

  function SmallForeign(): Request {
    Request(1, VariableResource, CreateKind, None, None, ["production"], Payload(None, None, None, None), None, "mail", 2, 0, Pending)
  }

  /** With a variable of the same title proposed first, filing one create twice leaves two pending. */
  lemma RefileIsRepeated(meta: Roles.Meta)
    ensures var t := RunActs(Empty(OwnersDb(meta, ["production"])), [Propose(SmallForeign()), File(SmallFiling(Some(0))), File(SmallFiling(Some(1)))]);
            && |t.requests| == 3 && t.requests[1].status == t.requests[2].status == Pending
            && t.requests[1].(vaultRef := None) == t.requests[2].(vaultRef := None)
  {
    var acts := [Propose(SmallForeign()), File(SmallFiling(Some(0))), File(SmallFiling(Some(1)))];
    var t0 := Empty(OwnersDb(meta, ["production"]));
    var t1 := Perform(t0, acts[0]);
    assert t1.requests == [SmallForeign()];
    SmallFiles(t1, meta, Some(0));
    var t2 := Perform(t1, acts[1]);
    SmallFiles(t2, meta, Some(1));
    var t3 := Perform(t2, acts[2]);
    hide Perform;
    assert acts[1..][1..][1..] == [];
    assert RunActs(t2, acts[1..][1..]) == t3;
    assert RunActs(t1, acts[1..]) == RunActs(t2, acts[1..][1..]);
  }

  lemma SmallFiles(t: Tables, meta: Roles.Meta, staged: Option<Ref>)
    requires t.db == OwnersDb(meta, ["production"]) && 1 <= |t.requests| <= 2 && t.requests[0] == SmallForeign()
    ensures TryFile(t, SmallFiling(staged)) == Ok(Filed(t, SmallFiling(staged), ["production"], None))
  {
    var f := SmallFiling(staged);
    SmallProposable(t, meta, staged);
    FirstSameIs(t.requests, f, 0, 0);
    FewOpen(t.requests, 1, 1);
    hide Proposable, OpenFor, FirstSame;
  }

  lemma {:induction false} FewOpen(requests: seq<Request>, actor: Id, project: Id)
    ensures OpenFor(requests, actor, project) <= |requests|
  {
    if requests != [] {
      FewOpen(requests[1..], actor, project);
    }
  }

  // ----- who decided what

  /** Whether a row of the log records that a request left `Pending`. */
  predicate Closes(row: AuditRow, k: Id) {
    row.action in {ChangeApplied(k), ChangeRejected(k), ChangeCanceled(k), ChangeExpired(k)}
  }

  predicate ClosesAny(row: AuditRow) {
    row.action.ChangeApplied? || row.action.ChangeRejected? || row.action.ChangeCanceled? || row.action.ChangeExpired?
  }

  function Closings(audit: seq<AuditRow>, k: Id): nat {
    if audit == [] then 0
    else Closings(audit[..|audit| - 1], k) + if Closes(audit[|audit| - 1], k) then 1 else 0
  }

  lemma ClosingsSnoc(audit: seq<AuditRow>, row: AuditRow, k: Id)
    ensures Closings(audit + [row], k) == Closings(audit, k) + if Closes(row, k) then 1 else 0
  {
    assert (audit + [row])[..|audit|] == audit;
  }

  lemma {:induction false} NothingCloses(audit: seq<AuditRow>, rows: seq<AuditRow>, k: Id)
    requires forall row <- rows :: !ClosesAny(row)
    ensures Closings(audit + rows, k) == Closings(audit, k)
  {
    if rows == [] {
      assert audit + rows == audit;
    } else {
      var (init, last) := (rows[..|rows| - 1], rows[|rows| - 1]);
      assert rows == init + [last] && last in rows && !Closes(last, k);
      NothingCloses(audit, init, k);
      ClosingsSnoc(audit + init, last, k);
      assert audit + rows == (audit + init) + [last];
    }
  }

  /** A request was applied or rejected by somebody other than its author. */
  ghost predicate ByAnother(t: Tables, row: AuditRow) {
    row.action.ChangeApplied? || row.action.ChangeRejected? ==>
      row.action.request < |t.requests| && row.user != t.requests[row.action.request].requestedBy
  }

  ghost predicate ClosedOnce(t: Tables, k: Id) {
    Closings(t.audit, k) == if k < |t.requests| && t.requests[k].status != Pending then 1 else 0
  }

  /** The log agrees with the requests: one closing row for each that is not pending, by the right person. */
  ghost predicate Logged(t: Tables) {
    (forall row <- t.audit :: ByAnother(t, row)) && forall k: Id :: ClosedOnce(t, k)
  }

  /** New rows close nothing and no request changes. */
  lemma LogQuietly(t: Tables, after: Tables, rows: seq<AuditRow>)
    requires Logged(t) && after.audit == t.audit + rows && (forall row <- rows :: !ClosesAny(row))
    requires Grown(t, after) && forall k :: 0 <= k < |after.requests| ==>
               if k < |t.requests| then after.requests[k].status == t.requests[k].status else after.requests[k].status == Pending
    ensures Logged(after)
  {
    forall row | row in after.audit
      ensures ByAnother(after, row)
    {
      if row in t.audit {
        StillByAnother(t, after, row);
      }
    }
    forall k: Id
      ensures ClosedOnce(after, k)
    {
      NothingCloses(t.audit, rows, k);
      assert ClosedOnce(t, k);
    }
  }

  lemma StillByAnother(t: Tables, after: Tables, row: AuditRow)
    requires ByAnother(t, row) && Grown(t, after)
    ensures ByAnother(after, row)
  {
    if (row.action.ChangeApplied? || row.action.ChangeRejected?) && row.action.request < |t.requests| {
      assert RowKept(t.requests[row.action.request], after.requests[row.action.request]);
    }
  }

  /** One request leaves `Pending` and one row says so. */
  lemma LogOne(t: Tables, after: Tables, id: Id, status: Status, row: AuditRow)
    requires Logged(t) && id < |t.requests| && t.requests[id].status == Pending && status != Pending
    requires after.requests == t.requests[id := t.requests[id].(status := status)] && after.audit == t.audit + [row]
    requires Closes(row, id) && ByAnother(t, row) && |t.accounts| == |after.accounts|
    ensures Logged(after)
  {
    forall r | r in after.audit
      ensures ByAnother(after, r)
    {
      assert r in t.audit ==> ByAnother(t, r);
    }
    forall k: Id
      ensures ClosedOnce(after, k)
    {
      ClosingsSnoc(t.audit, row, k);
      assert ClosedOnce(t, k);
    }
  }

  lemma {:induction false} CancelLogged(t: Tables, ids: seq<Id>, except: Option<Id>, actor: Id)
    requires Logged(t) && Distinct(ids)
    requires forall id <- ids :: id < |t.requests| && t.requests[id].status == Pending
    ensures Logged(CancelEach(t, ids, except, actor))
    decreases |ids|
  {
    if ids != [] {
      assert ids[0] in ids && forall id <- ids[1..] :: id in ids && id != ids[0];
      if except == Some(ids[0]) {
        CancelLogged(t, ids[1..], except, actor);
      } else {
        var row := AuditRow(actor, ChangeCanceled(ids[0]));
        var after := Close(t, ids[0], Canceled, row);
        LogOne(t, after, ids[0], Canceled, row);
        hide Logged;
        CancelLogged(after, ids[1..], except, actor);
      }
    }
  }

  /** The rows that a mutation adds before it cancels anything. */
  function MainRows(t: Tables, ev: Event): seq<AuditRow> {
    match ev
    case CreateEvent(a) =>
      [AuditRow(a.actor, AccountCreated(|t.accounts|))]
      + OverrideRows(Protects(t.db, a.project), a.environments, a.override, a.actor, |t.accounts|, CreateKind)
    case UpdateEvent(u, _) =>
      var a := AccountAt(t, u.account);
      [AuditRow(u.actor, AccountUpdated(u.account))]
      + OverrideRows(Protects(t.db, a.project), TouchedBy(a.environments, u.environments), u.override, u.actor, u.account, UpdateKind)
    case RemoveEvent(r, _) =>
      var a := AccountAt(t, r.account);
      ShareRows(t.shares, r.account, r.actor) + [AuditRow(r.actor, AccountDeleted(r.account))]
      + OverrideRows(Protects(t.db, a.project), a.environments, r.override, r.actor, r.account, DeleteKind)
    case RestoreEvent(r, _) =>
      var a := AccountAt(t, r.account);
      [AuditRow(r.actor, AccountUpdated(r.account))]
      + OverrideRows(Protects(t.db, a.project), a.environments, r.override, r.actor, r.account, RestoreKind)
    case DropOrganization(org, actor, _, _) => [AuditRow(actor, OrganizationDeleted(org))]
    case _ => []
  }

  lemma MainRowsCloseNothing(t: Tables, ev: Event)
    ensures forall row <- MainRows(t, ev) :: !ClosesAny(row)
  {
    if ev.RemoveEvent? {
      ShareRowsAre(t.shares, ev.removal.account, ev.removal.actor);
    }
    hide IsProtectedWrite, TouchedBy, ShareRows;
  }

  lemma RemovalLogged(t: Tables, r: RemovalArgs, now: int)
    requires Logged(t) && r.account < |t.accounts|
    ensures Logged(Removed(t, r, now))
  {
    var gone := Deleted(t, r, now);
    MainRowsCloseNothing(t, RemoveEvent(r, now));
    SameRequestsGrow(t, gone);
    assert gone.audit == t.audit + MainRows(t, RemoveEvent(r, now)) by {
      hide OverrideRows, ShareRows;
    }
    hide OverrideRows, ShareRows, Aimed, CancelEach, RevokedUpTo, SharesRevokedUpTo, Logged, Grown;
    LogQuietly(t, gone, MainRows(t, RemoveEvent(r, now)));
    AimedPending(t.requests, r.account);
    CancelLogged(gone, Aimed(t.requests, r.account), r.via, r.actor);
  }

  lemma MutationLogged(t: Tables, ev: Event)
    requires Logged(t) && Attempt(t, ev).Ok? && !ev.Elsewhere?
    ensures Logged(Attempt(t, ev).value)
  {
    StepEffect(t, ev);
    MutationGrows(t, ev);
    MainRowsCloseNothing(t, ev);
    var after := Attempt(t, ev).value;
    hide Attempt, OverrideRows, TouchedBy, Edited, Logged, Grown, Removed, ShareRows;
    if ev.RemoveEvent? {
      if after != t {
        RemovalLogged(t, ev.removal, ev.now);
      }
    } else {
      assert t.audit + [] == t.audit;
      assert after.audit == t.audit + MainRows(t, ev);
      LogQuietly(t, after, MainRows(t, ev));
    }
  }

  lemma ReviewLogged(t: Tables, v: Review)
    requires Logged(t) && TryReview(t, v).Ok?
    ensures Logged(TryReview(t, v).value)
  {
    ApprovalNeedsSecondPerson(t, v);
    if v.approve {
      ApprovalIsEvent(t, v);
      var ev := EventOf(t.requests[v.request], v).value;
      MutationLogged(t, ev);
      MutationGrows(t, ev);
      var mid := Attempt(t, ev).value;
      hide TryReview, Attempt, EventOf, WriteOf, Logged, Grown;
      LogOne(mid, MarkedApplied(mid, v), v.request, Applied, AuditRow(v.actor, ChangeApplied(v.request)));
    } else {
      RejectionCloses(t, v);
      var row := AuditRow(v.actor, ChangeRejected(v.request));
      hide TryReview, Logged;
      LogOne(t, Close(t, v.request, Rejected, row), v.request, Rejected, row);
    }
  }

  lemma FilingLogged(t: Tables, f: Filing)
    requires Logged(t) && TryFile(t, f).Ok?
    ensures Logged(TryFile(t, f).value)
  {
    FilingLeavesAccounts(t, f);
    var after := TryFile(t, f).value;
    var rows := if after == Purged(t, f.vaultRef) then [] else [AuditRow(f.actor, ChangeRequested(|t.requests|))];
    assert t.audit + [] == t.audit;
    hide TryFile, Logged;
    LogQuietly(t, after, rows);
  }

  lemma ElsewhereLogged(t: Tables, v: Review, how: Foreigner)
    requires Logged(t) && TryReviewElsewhere(t, v, how).Ok?
    ensures Logged(TryReviewElsewhere(t, v, how).value)
  {
    var mid := ElsewhereMarks(t, v, how);
    hide TryReviewElsewhere, Logged, Grown, CancelEach;
    if mid != t {
      var target := t.requests[v.request].target.value;
      SweptPending(t.requests, target);
      CancelLogged(t, AccountListing.Take(PendingFrom(t.requests, target, 0), SWEEP_BATCH), Some(v.request), t.requests[v.request].requestedBy);
    }
    var row := AuditRow(v.actor, ChangeApplied(v.request));
    assert ByAnother(mid, row);
    LogOne(mid, MarkedApplied(mid, v), v.request, Applied, row);
  }

  lemma PerformLogged(t: Tables, act: Act)
    requires Logged(t)
    ensures Logged(Perform(t, act))
  {
    hide Logged, Attempt, TryFile, TryReview, Authorize;
    match act
    case Mutate(ev) =>
      if Direct(ev) && Attempt(t, ev).Ok? {
        MutationLogged(t, ev);
      }
    case File(f) =>
      if TryFile(t, f).Ok? {
        FilingLogged(t, f);
      }
    case Propose(r) =>
      if Foreign(r) {
        LogQuietly(t, Perform(t, act), [AuditRow(r.requestedBy, ChangeRequested(|t.requests|))]);
      }
    case Decide(v) =>
      if TryReview(t, v).Ok? {
        ReviewLogged(t, v);
      }
    case DecideElsewhere(v, how) =>
      if TryReviewElsewhere(t, v, how).Ok? {
        ElsewhereLogged(t, v, how);
      }
    case Sweep(target, actor) =>
      SweptPending(t.requests, target);
      CancelLogged(t, AccountListing.Take(PendingFrom(t.requests, target, 0), SWEEP_BATCH), None, actor);
    case Move(project, actor, db) =>
      var moved := t.(db := db.(accountGrants := t.db.accountGrants));
      assert t.audit + [] == t.audit;
      SameRequestsGrow(t, moved);
      LogQuietly(t, moved, []);
      PendingInProject(t.requests, project, 0);
      CancelLogged(moved, PendingIn(t.requests, project, 0), None, actor);
    case Withdraw(id, actor) =>
      if TryCancel(t, id, actor).Ok? {
        var row := AuditRow(actor, ChangeCanceled(id));
        LogOne(t, Close(t, id, Canceled, row), id, Canceled, row);
      }
    case Expire(id, now) =>
      if TryExpire(t, id, now).Ok? {
        var row := AuditRow(t.requests[id].requestedBy, ChangeExpired(id));
        LogOne(t, Close(t, id, Expired, row), id, Expired, row);
      }
    case World(db) =>
      assert t.audit + [] == t.audit;
      LogQuietly(t, Perform(t, act), []);
  }

  lemma {:induction false} RunLogged(t: Tables, acts: seq<Act>)
    requires Logged(t)
    ensures Logged(RunActs(t, acts))
    decreases |acts|
  {
    if acts != [] {
      PerformLogged(t, acts[0]);
      hide Perform, Logged;
      RunLogged(Perform(t, acts[0]), acts[1..]);
    }
  }

  /**
    In every reachable state the log holds exactly one closing row for each request that is not pending
    and none for a pending one, and nobody ever applied or rejected a proposal of their own.
  */
  lemma EachRequestClosesOnce(t: Tables, k: Id)
    requires Reachable(t)
    ensures Closings(t.audit, k) == if k < |t.requests| && t.requests[k].status != Pending then 1 else 0
    ensures forall row <- t.audit :: row.action == ChangeApplied(k) || row.action == ChangeRejected(k) ==>
              k < |t.requests| && row.user != t.requests[k].requestedBy
  {
    var db, acts :| t == RunActs(Empty(db), acts);
    assert forall i: Id :: Closings([], i) == 0;
    RunLogged(Empty(db), acts);
    hide RunActs, Closings;
    assert ClosedOnce(t, k);
    forall row | row in t.audit && (row.action == ChangeApplied(k) || row.action == ChangeRejected(k))
      ensures k < |t.requests| && row.user != t.requests[k].requestedBy
    {
      assert ByAnother(t, row);
    }
  }
}
