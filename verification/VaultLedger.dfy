/**
  Who holds each vault object. Actions mint objects and hand them to an account or a proposal; a swap, a
  rejection or a repeated proposal hands them to the scheduler, which deletes them. The ledger follows
  every object from the moment it is minted.
*/
module VaultLedger {
  import opened Prelude
  import Roles
  import opened Access
  import opened Protection
  import opened AccountCores
  import opened ChangeRequests
  import AccountListing
  import opened ProjectAccess
  import opened TwoOwners

  datatype Slot = OfAccount(account: Id) | OfRequest(request: Id) | OfAction | OfScheduler(place: nat)

  /** What holds an object, read off the tables and the actions in progress. */
  predicate Holds(t: Tables, inFlight: set<Ref>, slot: Slot, ref: Ref) {
    match slot
    case OfAccount(id) => id < |t.accounts| && t.accounts[id].vaultRef == ref
    case OfRequest(id) => id < |t.requests| && t.requests[id].status == Pending && t.requests[id].vaultRef == Some(ref)
    case OfAction => ref in inFlight
    case OfScheduler(k) => k < |t.deletions| && t.deletions[k] == ref
  }

  type Owners = map<Ref, Slot>

  /** `owners` is exactly what the tables say. */
  ghost predicate Agrees(t: Tables, inFlight: set<Ref>, owners: Owners) {
    forall slot, ref :: Holds(t, inFlight, slot, ref) <==> ref in owners && owners[ref] == slot
  }

  /**
    `vault` maps the live objects to their values and `minted` every object to its first value; `next`
    is fresh. `abandoned` holds the objects that a failed action deleted, or failed to.
  */
  datatype State = State(
    t: Tables, vault: map<Ref, string>, minted: map<Ref, string>, next: Ref, inFlight: set<Ref>, abandoned: set<Ref>, owners: Owners)

  datatype Step =
    | Mint(value: string)
    | Abandon(ref: Ref, deleted: bool)
    | CommitCreate(ref: Ref, create: CreateArgs)
    | CommitFiling(staged: Option<Ref>, filing: Filing)
    | CommitUpdate(update: UpdateArgs, now: int)
    | CommitRemove(removal: RemovalArgs, now: int)
    | CommitRestore(removal: RemovalArgs, now: int)
    | CommitAccess(change: AccessChange)
    | DeleteOrganization(org: Id, deleter: Id, permitted: bool, at: int)
    | ProposeElsewhere(foreign: Request)
    | DecideElsewhere(verdict: Review, how: Foreigner)
    | SweepElsewhere(target: Target, sweeper: Id)
    | MoveProject(project: Id, mover: Id, into: Db)
    | WriteInPlace(ref: Ref, value: string)
    | Decide(review: Review)
    | CancelRequest(request: Id, actor: Id)
    | ExpireRequest(request: Id, now: int)
    | Deliver(place: nat)
    | World(db: Db)

  // ----- who holds what after each kind of write

  /** The objects whose holder a removal changes: those staged by the proposals it cancels. */
  function OwnersAfterCancel(owners: Owners, t: Tables, ids: seq<Id>, except: Option<Id>, actor: Id): Owners
    decreases |ids|
  {
    if ids == [] then owners
    else if except == Some(ids[0]) || ids[0] >= |t.requests| then OwnersAfterCancel(owners, t, ids[1..], except, actor)
    else
      OwnersAfterCancel(OwnersAfterClose(owners, t, ids[0]),
                        Close(t, ids[0], Canceled, AuditRow(actor, ChangeCanceled(ids[0]))), ids[1..], except, actor)
  }

  function OwnersAfterClose(owners: Owners, t: Tables, id: Id): Owners
    requires id < |t.requests|
  {
    if t.requests[id].vaultRef == None then owners else owners[t.requests[id].vaultRef.value := OfScheduler(|t.deletions|)]
  }

  function OwnersAfterUpdate(owners: Owners, t: Tables, u: UpdateArgs): Owners
    requires u.account < |t.accounts|
  {
    var a := t.accounts[u.account];
    if u.vaultRef == None || u.vaultRef.value == a.vaultRef then owners
    else owners[a.vaultRef := OfScheduler(|t.deletions|)][u.vaultRef.value := OfAccount(u.account)]
  }

  function OwnersAfterRemove(owners: Owners, t: Tables, r: RemovalArgs, now: int): Owners
    requires r.account < |t.accounts|
  {
    if t.accounts[r.account].deletedAt.Some? then owners
    else OwnersAfterCancel(owners, Deleted(t, r, now), Aimed(t.requests, r.account), r.via, r.actor)
  }

  function OwnersAfterEvent(owners: Owners, t: Tables, ev: Event): Owners {
    match ev
    case CreateEvent(a) => owners[a.vaultRef := OfAccount(|t.accounts|)]
    case UpdateEvent(u, _) => if u.account < |t.accounts| then OwnersAfterUpdate(owners, t, u) else owners
    case RemoveEvent(r, now) => if r.account < |t.accounts| then OwnersAfterRemove(owners, t, r, now) else owners
    case _ => owners
  }

  function OwnersAfterFiling(owners: Owners, t: Tables, f: Filing, after: Tables): Owners {
    if f.vaultRef == None then owners
    else if |after.requests| > |t.requests| then owners[f.vaultRef.value := OfRequest(|t.requests|)]
    else owners[f.vaultRef.value := OfScheduler(|t.deletions|)]
  }

  // ----- the steps

  function AfterDirect(s: State, ev: Event): State {
    if !Direct(ev) then s
    else
      match Attempt(s.t, ev)
      case Err(_) => s
      case Ok(after) => s.(t := after, owners := OwnersAfterEvent(s.owners, s.t, ev))
  }

  function AfterClose(s: State, id: Id, outcome: Result<Tables, FilingRefusal>): State {
    match outcome
    case Err(_) => s
    case Ok(after) => if id < |s.t.requests| then s.(t := after, owners := OwnersAfterClose(s.owners, s.t, id)) else s
  }

  function AfterDecision(s: State, v: Review): State {
    if !v.approve then AfterClose(s, v.request, TryReview(s.t, v))
    else
      match TryReview(s.t, v)
      case Err(_) => s
      case Ok(after) =>
        if v.request < |s.t.requests| && EventOf(s.t.requests[v.request], v).Ok? then
          s.(t := after, owners := OwnersAfterEvent(s.owners, s.t, EventOf(s.t.requests[v.request], v).value))
        else s
  }

  /** A staged object goes with a create or an update; other proposals carry none. */
  function AfterFiling(s: State, staged: Option<Ref>, f: Filing): State {
    var filing := f.(vaultRef := staged);
    if staged.Some? && (staged.value !in s.inFlight || f.kind !in {CreateKind, UpdateKind}) then s
    else
      match TryFile(s.t, filing)
      case Err(_) => s
      case Ok(after) =>
        s.(t := after, inFlight := s.inFlight - (if staged.Some? then {staged.value} else {}),
           owners := OwnersAfterFiling(s.owners, s.t, filing, after))
  }

  /** Every action that writes in place read its reference from an account, now or before a swap. */
  predicate Served(s: State, ref: Ref) {
    ref in s.vault && ref in s.owners && (s.owners[ref].OfAccount? || s.owners[ref].OfScheduler?)
  }

  /** Cancels requests, on tables `t` that hold the objects as those of `s` do. */
  function AfterCancel(s: State, t: Tables, ids: seq<Id>, except: Option<Id>, actor: Id): State {
    s.(t := CancelEach(t, ids, except, actor), owners := OwnersAfterCancel(s.owners, t, ids, except, actor))
  }

  function SweptBy(t: Tables, target: Target): seq<Id> {
    AccountListing.Take(PendingFrom(t.requests, target, 0), SWEEP_BATCH)
  }

  /** An approval of a variable or a file marks its request, which holds no object of the ledger. */
  function AfterElsewhere(s: State, v: Review, how: Foreigner): State {
    match TryReviewElsewhere(s.t, v, how)
    case Err(_) => s
    case Ok(after) =>
      if v.request >= |s.t.requests| then s
      else
        var r := s.t.requests[v.request];
        if how.sweeps && r.target.Some? then
          AfterCancel(s, s.t, SweptBy(s.t, r.target.value), Some(v.request), r.requestedBy).(t := after)
        else s.(t := after)
  }

  /** The steps of the vault, of unfinished actions and of the rest of the product. */
  function AfterOutside(s: State, step: Step): State {
    match step
    case Mint(value) =>
      s.(vault := s.vault[s.next := value], minted := s.minted[s.next := value], next := s.next + 1,
         inFlight := s.inFlight + {s.next}, owners := s.owners[s.next := OfAction])
    case Abandon(ref, deleted) =>
      if ref !in s.inFlight then s
      else
        s.(vault := if deleted then s.vault - {ref} else s.vault, inFlight := s.inFlight - {ref},
           abandoned := s.abandoned + {ref}, owners := s.owners - {ref})
    case WriteInPlace(ref, value) => if Served(s, ref) then s.(vault := s.vault[ref := value]) else s
    case Deliver(k) => if k < |s.t.deletions| then s.(vault := s.vault - {s.t.deletions[k]}) else s
    case World(db) => s.(t := s.t.(db := db.(accountGrants := s.t.db.accountGrants)))
    case _ => s
  }

  function AfterCreate(s: State, ref: Ref, a: CreateArgs): State {
    var ev := CreateEvent(a.(vaultRef := ref));
    if ref !in s.inFlight || !Direct(ev) || Attempt(s.t, ev).Err? then s
    else AfterDirect(s, ev).(inFlight := s.inFlight - {ref})
  }

  function Next(s: State, step: Step): State {
    match step
    case CommitCreate(ref, a) => AfterCreate(s, ref, a)
    case CommitFiling(staged, f) => AfterFiling(s, staged, f)
    case CommitUpdate(u, now) => AfterDirect(s, UpdateEvent(u, now))
    case CommitRemove(r, now) => AfterDirect(s, RemoveEvent(r, now))
    case CommitRestore(r, now) => AfterDirect(s, RestoreEvent(r, now))
    case CommitAccess(c) => AfterDirect(s, AccessEvent(c))
    case DeleteOrganization(org, actor, permitted, now) => AfterDirect(s, DropOrganization(org, actor, permitted, now))
    case ProposeElsewhere(r) => s.(t := Perform(s.t, Propose(r)))
    case DecideElsewhere(v, how) => AfterElsewhere(s, v, how)
    case SweepElsewhere(target, actor) =>
      if target.resource == AccountResource then s else AfterCancel(s, s.t, SweptBy(s.t, target), None, actor)
    case MoveProject(project, actor, db) =>
      if TryMove(s.t, project, actor, db).Err? then s
      else AfterCancel(s, s.t.(db := db.(accountGrants := s.t.db.accountGrants)), PendingIn(s.t.requests, project, 0), None, actor)
    case Decide(v) => AfterDecision(s, v)
    case CancelRequest(id, actor) => AfterClose(s, id, TryCancel(s.t, id, actor))
    case ExpireRequest(id, now) => AfterClose(s, id, TryExpire(s.t, id, now))
    case _ => AfterOutside(s, step)
  }

  function Run(s: State, steps: seq<Step>): State
    decreases |steps|
  {
    if steps == [] then s else Run(Next(s, steps[0]), steps[1..])
  }

  // ----- what every step keeps

  /** Objects waiting to be used hold the value they were minted with. */
  ghost predicate Sealed(s: State, ref: Ref) {
    ref in s.vault && ref in s.minted && s.vault[ref] == s.minted[ref]
  }

  ghost predicate Kept(s: State, ref: Ref)
    requires ref in s.owners
  {
    && ref < s.next
    && (s.owners[ref].OfAccount? ==> ref in s.vault)
    && (s.owners[ref].OfRequest? || s.owners[ref].OfAction? ==> Sealed(s, ref))
  }

  /** A proposal that carries an object is for an account; a pending one is a create or an update. */
  ghost predicate Staging(r: Request) {
    r.vaultRef.Some? ==> r.resource == AccountResource && (r.status == Pending ==> r.kind in {CreateKind, UpdateKind})
  }

  ghost predicate Inv(s: State) {
    && Agrees(s.t, s.inFlight, s.owners)
    && (forall ref <- s.owners :: Kept(s, ref))
    && (forall ref: Ref | ref < s.next :: ref in s.owners || ref in s.abandoned)
    && (forall ref <- s.vault :: ref < s.next)
    && (forall r <- s.t.requests :: Staging(r))
  }

  function Rank(slot: Slot): nat {
    match slot
    case OfAction => 0
    case OfRequest(_) => 1
    case OfAccount(_) => 2
    case OfScheduler(_) => 3
  }

  /** Objects change holders only in one direction: action, proposal, account, scheduler. */
  ghost predicate Forward(owners: Owners, owners': Owners) {
    && owners'.Keys == owners.Keys
    && forall ref <- owners :: owners'[ref] == owners[ref] || Rank(owners[ref]) < Rank(owners'[ref])
  }

  lemma ForwardTransitive(a: Owners, b: Owners, c: Owners)
    requires Forward(a, b) && Forward(b, c)
    ensures Forward(a, c)
  {
    assert forall ref :: ref in a <==> ref in b;
  }

  lemma CloseAgrees(t: Tables, inFlight: set<Ref>, owners: Owners, id: Id, status: Status, row: AuditRow)
    requires Agrees(t, inFlight, owners) && id < |t.requests| && t.requests[id].status == Pending && status != Pending
    ensures Agrees(Close(t, id, status, row), inFlight, OwnersAfterClose(owners, t, id))
    ensures Forward(owners, OwnersAfterClose(owners, t, id))
  {
    var after := Close(t, id, status, row);
    var owners' := OwnersAfterClose(owners, t, id);
    assert t.requests[id].vaultRef.Some? ==> Holds(t, inFlight, OfRequest(id), t.requests[id].vaultRef.value);
    forall slot, ref
      ensures Holds(after, inFlight, slot, ref) <==> ref in owners' && owners'[ref] == slot
    {
      assert Holds(t, inFlight, slot, ref) <==> ref in owners && owners[ref] == slot;
    }
  }

  lemma {:induction false} CancelAgrees(t: Tables, inFlight: set<Ref>, owners: Owners, ids: seq<Id>, except: Option<Id>, actor: Id)
    requires Agrees(t, inFlight, owners) && Distinct(ids)
    requires forall id <- ids :: id < |t.requests| && t.requests[id].status == Pending
    ensures Agrees(CancelEach(t, ids, except, actor), inFlight, OwnersAfterCancel(owners, t, ids, except, actor))
    ensures Forward(owners, OwnersAfterCancel(owners, t, ids, except, actor))
    decreases |ids|
  {
    if ids != [] {
      assert ids[0] in ids && forall id <- ids[1..] :: id in ids && id != ids[0];
      if except == Some(ids[0]) {
        CancelAgrees(t, inFlight, owners, ids[1..], except, actor);
      } else {
        var row := AuditRow(actor, ChangeCanceled(ids[0]));
        CloseAgrees(t, inFlight, owners, ids[0], Canceled, row);
        var (after, next) := (Close(t, ids[0], Canceled, row), OwnersAfterClose(owners, t, ids[0]));
        assert forall id <- ids[1..] :: id < |after.requests| && after.requests[id].status == Pending;
        hide Agrees;
        CancelAgrees(after, inFlight, next, ids[1..], except, actor);
        ForwardTransitive(owners, next, OwnersAfterCancel(owners, t, ids, except, actor));
      }
    }
  }

  lemma RemoveAgrees(t: Tables, inFlight: set<Ref>, owners: Owners, r: RemovalArgs, now: int)
    requires Agrees(t, inFlight, owners) && r.account < |t.accounts|
    ensures Agrees(if t.accounts[r.account].deletedAt.Some? then t else Removed(t, r, now), inFlight, OwnersAfterRemove(owners, t, r, now))
    ensures Forward(owners, OwnersAfterRemove(owners, t, r, now))
  {
    var gone := Deleted(t, r, now);
    SameHolders(t, gone, inFlight, owners);
    var all := PendingFrom(t.requests, Target(AccountResource, r.account), 0);
    PendingInTable(t.requests, Target(AccountResource, r.account), 0);
    PendingDistinct(t.requests, Target(AccountResource, r.account), 0);
    var ids := Aimed(t.requests, r.account);
    assert forall id <- ids :: id in all;
    hide Agrees, PendingFrom, CancelEach, OwnersAfterCancel;
    CancelAgrees(gone, inFlight, owners, ids, r.via, r.actor);
  }

  /** Tables that differ in nothing that holds an object. */
  lemma SameHolders(t: Tables, after: Tables, inFlight: set<Ref>, owners: Owners)
    requires Agrees(t, inFlight, owners)
    requires after.requests == t.requests && after.deletions == t.deletions && |after.accounts| == |t.accounts|
    requires forall id :: 0 <= id < |t.accounts| ==> after.accounts[id].vaultRef == t.accounts[id].vaultRef
    ensures Agrees(after, inFlight, owners)
  {
    forall slot, ref
      ensures Holds(after, inFlight, slot, ref) <==> ref in owners && owners[ref] == slot
    {
      assert Holds(t, inFlight, slot, ref) <==> ref in owners && owners[ref] == slot;
    }
  }

  /** A direct update keeps its object; nobody else's holder changes. */
  lemma KeepObject(t: Tables, inFlight: set<Ref>, owners: Owners, u: UpdateArgs)
    requires Agrees(t, inFlight, owners) && u.account < |t.accounts| && u.vaultRef == None
    ensures Agrees(Updated(t, u), inFlight, OwnersAfterUpdate(owners, t, u))
    ensures Forward(owners, OwnersAfterUpdate(owners, t, u))
  {
    hide Agrees, OverrideRows, TouchedBy, Edited;
    SameHolders(t, Updated(t, u), inFlight, owners);
  }

  /** Swapping an account onto the object its proposal staged. */
  lemma SwapAgrees(t: Tables, inFlight: set<Ref>, owners: Owners, u: UpdateArgs, v: Review)
    requires Agrees(t, inFlight, owners) && u.account < |t.accounts| && v.request < |t.requests|
    requires t.requests[v.request].status == Pending && t.requests[v.request].vaultRef == u.vaultRef
    ensures v.request < |Updated(t, u).requests|
    ensures Agrees(MarkedApplied(Updated(t, u), v), inFlight, OwnersAfterUpdate(owners, t, u))
    ensures Forward(owners, OwnersAfterUpdate(owners, t, u))
  {
    var after := MarkedApplied(Updated(t, u), v);
    var owners' := OwnersAfterUpdate(owners, t, u);
    var a := t.accounts[u.account];
    assert Holds(t, inFlight, OfAccount(u.account), a.vaultRef);
    assert u.vaultRef.Some? ==> Holds(t, inFlight, OfRequest(v.request), u.vaultRef.value);
    hide OverrideRows, TouchedBy, Edited;
    forall slot, ref
      ensures Holds(after, inFlight, slot, ref) <==> ref in owners' && owners'[ref] == slot
    {
      assert Holds(t, inFlight, slot, ref) <==> ref in owners && owners[ref] == slot;
    }
  }

  lemma AppliedCreateAgrees(t: Tables, inFlight: set<Ref>, owners: Owners, a: CreateArgs, creator: Roles.Profile, v: Review)
    requires Agrees(t, inFlight, owners) && v.request < |t.requests|
    requires t.requests[v.request].status == Pending && t.requests[v.request].vaultRef == Some(a.vaultRef)
    ensures v.request < |Created(t, a, creator).requests|
    ensures Agrees(MarkedApplied(Created(t, a, creator), v), inFlight, owners[a.vaultRef := OfAccount(|t.accounts|)])
    ensures Forward(owners, owners[a.vaultRef := OfAccount(|t.accounts|)])
  {
    var after := MarkedApplied(Created(t, a, creator), v);
    assert Holds(t, inFlight, OfRequest(v.request), a.vaultRef);
    hide OverrideRows;
    forall slot, ref
      ensures Holds(after, inFlight, slot, ref) <==>
                ref in owners[a.vaultRef := OfAccount(|t.accounts|)] && owners[a.vaultRef := OfAccount(|t.accounts|)][ref] == slot
    {
      assert Holds(t, inFlight, slot, ref) <==> ref in owners && owners[ref] == slot;
    }
  }

  lemma DirectCreateAgrees(t: Tables, inFlight: set<Ref>, owners: Owners, a: CreateArgs, creator: Roles.Profile)
    requires Agrees(t, inFlight, owners) && a.vaultRef in inFlight
    ensures Agrees(Created(t, a, creator), inFlight - {a.vaultRef}, owners[a.vaultRef := OfAccount(|t.accounts|)])
    ensures Forward(owners, owners[a.vaultRef := OfAccount(|t.accounts|)])
  {
    var after := Created(t, a, creator);
    assert Holds(t, inFlight, OfAction, a.vaultRef);
    hide OverrideRows;
    forall slot, ref
      ensures Holds(after, inFlight - {a.vaultRef}, slot, ref) <==>
                ref in owners[a.vaultRef := OfAccount(|t.accounts|)] && owners[a.vaultRef := OfAccount(|t.accounts|)][ref] == slot
    {
      assert Holds(t, inFlight, slot, ref) <==> ref in owners && owners[ref] == slot;
    }
  }

  /** A request that holds no object may change its status freely. */
  lemma ReleaseAgrees(t: Tables, inFlight: set<Ref>, owners: Owners, v: Review)
    requires Agrees(t, inFlight, owners) && v.request < |t.requests| && t.requests[v.request].vaultRef == None
    ensures Agrees(MarkedApplied(t, v), inFlight, owners)
  {
    var after := MarkedApplied(t, v);
    forall slot, ref
      ensures Holds(after, inFlight, slot, ref) <==> ref in owners && owners[ref] == slot
    {
      assert Holds(t, inFlight, slot, ref) <==> ref in owners && owners[ref] == slot;
    }
  }

  lemma FiledAgrees(t: Tables, inFlight: set<Ref>, owners: Owners, f: Filing, environments: seq<string>, version: Option<nat>)
    requires Agrees(t, inFlight, owners) && (f.vaultRef.Some? ==> f.vaultRef.value in inFlight)
    ensures Agrees(Filed(t, f, environments, version), inFlight - (if f.vaultRef.Some? then {f.vaultRef.value} else {}),
                   if f.vaultRef.Some? then owners[f.vaultRef.value := OfRequest(|t.requests|)] else owners)
    ensures Forward(owners, if f.vaultRef.Some? then owners[f.vaultRef.value := OfRequest(|t.requests|)] else owners)
  {
    var after := Filed(t, f, environments, version);
    var inFlight' := inFlight - (if f.vaultRef.Some? then {f.vaultRef.value} else {});
    var owners' := if f.vaultRef.Some? then owners[f.vaultRef.value := OfRequest(|t.requests|)] else owners;
    assert f.vaultRef.Some? ==> Holds(t, inFlight, OfAction, f.vaultRef.value);
    forall slot, ref
      ensures Holds(after, inFlight', slot, ref) <==> ref in owners' && owners'[ref] == slot
    {
      assert Holds(t, inFlight, slot, ref) <==> ref in owners && owners[ref] == slot;
    }
  }

  lemma PurgedAgrees(t: Tables, inFlight: set<Ref>, owners: Owners, staged: Option<Ref>)
    requires Agrees(t, inFlight, owners) && (staged.Some? ==> staged.value in inFlight)
    ensures Agrees(Purged(t, staged), inFlight - (if staged.Some? then {staged.value} else {}),
                   if staged.Some? then owners[staged.value := OfScheduler(|t.deletions|)] else owners)
    ensures Forward(owners, if staged.Some? then owners[staged.value := OfScheduler(|t.deletions|)] else owners)
  {
    var after := Purged(t, staged);
    var inFlight' := inFlight - (if staged.Some? then {staged.value} else {});
    var owners' := if staged.Some? then owners[staged.value := OfScheduler(|t.deletions|)] else owners;
    assert staged.Some? ==> Holds(t, inFlight, OfAction, staged.value);
    forall slot, ref
      ensures Holds(after, inFlight', slot, ref) <==> ref in owners' && owners'[ref] == slot
    {
      assert Holds(t, inFlight, slot, ref) <==> ref in owners && owners[ref] == slot;
    }
  }

  // ----- every step

  /** What an account holds stays with it until the scheduler gets it, at one place for good. */
  ghost predicate Onward(s: State, after: State) {
    forall ref <- s.owners | Rank(s.owners[ref]) >= 2 ::
      ref in after.owners && (after.owners[ref] == s.owners[ref] || Rank(s.owners[ref]) < Rank(after.owners[ref]))
  }

  /** Moving objects forward, without touching the vault, keeps what each holder needs. */
  lemma ForwardKeeps(s: State, after: State)
    requires Inv(s) && Forward(s.owners, after.owners)
    requires after.vault == s.vault && after.minted == s.minted && after.next == s.next && after.abandoned == s.abandoned
    requires Agrees(after.t, after.inFlight, after.owners) && forall r <- after.t.requests :: Staging(r)
    ensures Inv(after) && Onward(s, after)
  {
    forall ref | ref in after.owners
      ensures Kept(after, ref)
    {
      assert Kept(s, ref);
    }
  }

  lemma ClosedStaging(requests: seq<Request>, id: Id, status: Status)
    requires id < |requests| && status != Pending && forall r <- requests :: Staging(r)
    ensures forall r <- requests[id := requests[id].(status := status)] :: Staging(r)
  {
    assert Staging(requests[id]);
  }

  lemma {:induction false} CancelStaging(t: Tables, ids: seq<Id>, except: Option<Id>, actor: Id)
    requires forall r <- t.requests :: Staging(r)
    ensures forall r <- CancelEach(t, ids, except, actor).requests :: Staging(r)
    decreases |ids|
  {
    if ids != [] {
      if ids[0] < |t.requests| {
        ClosedStaging(t.requests, ids[0], Canceled);
      }
      CancelStaging(if except == Some(ids[0]) || ids[0] >= |t.requests| then t
                    else Close(t, ids[0], Canceled, AuditRow(actor, ChangeCanceled(ids[0]))), ids[1..], except, actor);
    }
  }

  /** What an account mutation does to the holders, when it leaves the object of its account alone. */
  lemma EventAgrees(t: Tables, inFlight: set<Ref>, owners: Owners, ev: Event)
    requires Agrees(t, inFlight, owners) && Attempt(t, ev).Ok? && !ev.Elsewhere? && !ev.CreateEvent?
    requires ev.UpdateEvent? ==> ev.update.vaultRef == None
    requires forall r <- t.requests :: Staging(r)
    ensures var after := Attempt(t, ev).value;
            && Agrees(after, inFlight, OwnersAfterEvent(owners, t, ev)) && Forward(owners, OwnersAfterEvent(owners, t, ev))
            && (forall r <- after.requests :: Staging(r)) && |after.requests| == |t.requests|
  {
    StepEffect(t, ev);
    hide Attempt, Agrees, Forward, Staging, OwnersAfterUpdate, OwnersAfterRemove, OverrideRows;
    match ev
    case UpdateEvent(u, _) => KeepObject(t, inFlight, owners, u);
    case RemoveEvent(r, now) =>
      RemoveAgrees(t, inFlight, owners, r, now);
      var ids := Aimed(t.requests, r.account);
      CancelStaging(Deleted(t, r, now), ids, r.via, r.actor);
      CancelEachFrame(Deleted(t, r, now), ids, r.via, r.actor);
      hide CancelEach;
    case RestoreEvent(r, _) =>
      SameHolders(t, Restored(t, r), inFlight, owners);
      ForwardSame(owners);
    case AccessEvent(c) =>
      SameHolders(t, Attempt(t, ev).value, inFlight, owners);
      ForwardSame(owners);
    case DropOrganization(org, actor, _, now) =>
      SameHolders(t, Dropped(t, org, actor, now), inFlight, owners);
      ForwardSame(owners);
  }

  lemma ForwardSame(owners: Owners)
    ensures Forward(owners, owners)
  {
  }

  lemma DirectKeeps(s: State, ev: Event)
    requires Inv(s) && !ev.CreateEvent?
    ensures Inv(AfterDirect(s, ev)) && Onward(s, AfterDirect(s, ev))
  {
    hide Attempt, Agrees, Kept, Staging, OwnersAfterEvent;
    if Direct(ev) && Attempt(s.t, ev).Ok? {
      EventAgrees(s.t, s.inFlight, s.owners, ev);
      ForwardKeeps(s, AfterDirect(s, ev));
    }
  }

  lemma CommitCreateKeeps(s: State, ref: Ref, a: CreateArgs)
    requires Inv(s)
    ensures Inv(AfterCreate(s, ref, a)) && Onward(s, AfterCreate(s, ref, a))
  {
    var args := a.(vaultRef := ref);
    var after := AfterCreate(s, ref, a);
    if ref in s.inFlight && Direct(CreateEvent(args)) && Attempt(s.t, CreateEvent(args)).Ok? {
      StepEffect(s.t, CreateEvent(args));
      hide Attempt, Agrees, Kept, Staging, Forward;
      var creator :| after.t == Created(s.t, args, creator);
      DirectCreateAgrees(s.t, s.inFlight, s.owners, args, creator);
      ForwardKeeps(s, after);
    }
  }

  lemma FilingKeeps(s: State, staged: Option<Ref>, f: Filing)
    requires Inv(s)
    ensures Inv(AfterFiling(s, staged, f)) && Onward(s, AfterFiling(s, staged, f))
  {
    var filing := f.(vaultRef := staged);
    var after := AfterFiling(s, staged, f);
    if (staged.Some? ==> staged.value in s.inFlight && f.kind in {CreateKind, UpdateKind}) && TryFile(s.t, filing).Ok? {
      FilingLeavesAccounts(s.t, filing);
      hide TryFile, Agrees, Kept, Forward;
      if after.t == Purged(s.t, staged) {
        PurgedAgrees(s.t, s.inFlight, s.owners, staged);
      } else {
        var environments, version :| after.t == Filed(s.t, filing, environments, version);
        FiledAgrees(s.t, s.inFlight, s.owners, filing, environments, version);
      }
      ForwardSame(s.owners);
      ForwardKeeps(s, after);
    }
  }

  /** A proposal for something else holds no object. */
  lemma ProposalKeeps(s: State, r: Request)
    requires Inv(s)
    ensures Inv(Next(s, ProposeElsewhere(r))) && Onward(s, Next(s, ProposeElsewhere(r)))
  {
    var after := Next(s, ProposeElsewhere(r));
    hide Kept, Forward, Staging;
    if Foreign(r) {
      forall slot, ref
        ensures Holds(after.t, after.inFlight, slot, ref) <==> ref in after.owners && after.owners[ref] == slot
      {
        assert Holds(s.t, s.inFlight, slot, ref) <==> ref in s.owners && s.owners[ref] == slot;
      }
      NoStaging(r);
      ForwardSame(s.owners);
      ForwardKeeps(s, after);
    }
  }

  /** Cancelling pending requests moves what they staged to the scheduler. */
  lemma CancelKeepsAll(s: State, t: Tables, ids: seq<Id>, except: Option<Id>, actor: Id)
    requires Inv(s) && t == s.t.(db := t.db) && Distinct(ids)
    requires forall id <- ids :: id < |t.requests| && t.requests[id].status == Pending
    ensures Inv(AfterCancel(s, t, ids, except, actor)) && Onward(s, AfterCancel(s, t, ids, except, actor))
    ensures Forward(s.owners, AfterCancel(s, t, ids, except, actor).owners)
  {
    SameHolders(s.t, t, s.inFlight, s.owners);
    CancelAgrees(t, s.inFlight, s.owners, ids, except, actor);
    CancelStaging(t, ids, except, actor);
    hide Agrees, Kept, Forward, Staging, CancelEach, OwnersAfterCancel;
    ForwardKeeps(s, AfterCancel(s, t, ids, except, actor));
  }

  lemma ElsewhereKeeps(s: State, v: Review, how: Foreigner)
    requires Inv(s)
    ensures Inv(AfterElsewhere(s, v, how)) && Onward(s, AfterElsewhere(s, v, how))
  {
    if TryReviewElsewhere(s.t, v, how).Ok? {
      var mid := ElsewhereMarks(s.t, v, how);
      var r := s.t.requests[v.request];
      assert Staging(r) && r.vaultRef == None;
      var swept := s;
      if how.sweeps && r.target.Some? {
        SweptPending(s.t.requests, r.target.value);
        CancelKeepsAll(s, s.t, SweptBy(s.t, r.target.value), Some(v.request), r.requestedBy);
        swept := AfterCancel(s, s.t, SweptBy(s.t, r.target.value), Some(v.request), r.requestedBy);
      } else {
        ForwardSame(s.owners);
      }
      assert swept.t == mid;
      hide TryReviewElsewhere, CancelEach, OwnersAfterCancel, Kept, Forward, Grown;
      ReleaseAgrees(mid, s.inFlight, swept.owners, v);
      MarkStaging(mid, v);
      hide Agrees, Staging, MarkedApplied;
      ForwardKeeps(s, AfterElsewhere(s, v, how));
    }
  }

  lemma SweepKeeps(s: State, target: Target, actor: Id)
    requires Inv(s)
    ensures Inv(Next(s, SweepElsewhere(target, actor))) && Onward(s, Next(s, SweepElsewhere(target, actor)))
  {
    SweptPending(s.t.requests, target);
    CancelKeepsAll(s, s.t, SweptBy(s.t, target), None, actor);
    hide Inv, CancelEach, OwnersAfterCancel, SweptBy;
    SameOnward(s);
  }

  lemma SameOnward(s: State)
    ensures Onward(s, s)
  {
  }

  lemma MoveKeeps(s: State, project: Id, actor: Id, db: Db)
    requires Inv(s)
    ensures Inv(Next(s, MoveProject(project, actor, db))) && Onward(s, Next(s, MoveProject(project, actor, db)))
  {
    PendingInProject(s.t.requests, project, 0);
    CancelKeepsAll(s, s.t.(db := db.(accountGrants := s.t.db.accountGrants)), PendingIn(s.t.requests, project, 0), None, actor);
    SameOnward(s);
    hide Inv, CancelEach, OwnersAfterCancel, PendingIn;
  }

  lemma NoStaging(r: Request)
    requires r.vaultRef == None
    ensures Staging(r)
  {
  }

  lemma CloseKeeps(s: State, id: Id, status: Status, row: AuditRow)
    requires Inv(s) && id < |s.t.requests| && s.t.requests[id].status == Pending && status != Pending
    ensures Inv(AfterClose(s, id, Ok(Close(s.t, id, status, row)))) && Onward(s, AfterClose(s, id, Ok(Close(s.t, id, status, row))))
  {
    CloseAgrees(s.t, s.inFlight, s.owners, id, status, row);
    ClosedStaging(s.t.requests, id, status);
    hide Agrees, Kept, Forward, Staging;
    ForwardKeeps(s, AfterClose(s, id, Ok(Close(s.t, id, status, row))));
  }

  /** The request being applied holds no object and the removal of its target skips it. */
  lemma EventKeepsRequest(t: Tables, v: Review, ev: Event)
    requires v.request < |t.requests| && EventOf(t.requests[v.request], v) == Ok(ev) && Attempt(t, ev).Ok?
    requires !ev.CreateEvent?
    ensures v.request < |Attempt(t, ev).value.requests|
    ensures Attempt(t, ev).value.requests[v.request] == t.requests[v.request]
  {
    StepEffect(t, ev);
    hide Attempt;
    if ev.RemoveEvent? && ev.removal.account < |t.accounts| {
      var r := ev.removal;
      CancelEachStatus(Deleted(t, r, ev.now), Aimed(t.requests, r.account), r.via, r.actor, v.request);
      hide CancelEach, Aimed;
    }
  }

  lemma MarkStaging(t: Tables, v: Review)
    requires v.request < |t.requests| && forall r <- t.requests :: Staging(r)
    ensures forall r <- MarkedApplied(t, v).requests :: Staging(r)
  {
    ClosedStaging(t.requests, v.request, Applied);
  }

  /** What applying `ev` for a pending request leaves of the holders. */
  ghost predicate Settles(t: Tables, inFlight: set<Ref>, owners: Owners, ev: Event, v: Review) {
    && Attempt(t, ev).Ok? && v.request < |Attempt(t, ev).value.requests|
    && var after := MarkedApplied(Attempt(t, ev).value, v);
       && Agrees(after, inFlight, OwnersAfterEvent(owners, t, ev)) && Forward(owners, OwnersAfterEvent(owners, t, ev))
       && forall r <- after.requests :: Staging(r)
  }

  lemma ApprovedCreateSettles(t: Tables, inFlight: set<Ref>, owners: Owners, a: CreateArgs, v: Review)
    requires Agrees(t, inFlight, owners) && v.request < |t.requests| && (forall r <- t.requests :: Staging(r))
    requires t.requests[v.request].status == Pending && t.requests[v.request].vaultRef == Some(a.vaultRef)
    requires Attempt(t, CreateEvent(a)).Ok?
    ensures Settles(t, inFlight, owners, CreateEvent(a), v)
  {
    StepEffect(t, CreateEvent(a));
    hide Attempt, Agrees, Forward, Staging;
    var creator :| Attempt(t, CreateEvent(a)).value == Created(t, a, creator);
    AppliedCreateAgrees(t, inFlight, owners, a, creator, v);
    MarkStaging(Created(t, a, creator), v);
  }

  lemma ApprovedSwapSettles(t: Tables, inFlight: set<Ref>, owners: Owners, u: UpdateArgs, now: int, v: Review)
    requires Agrees(t, inFlight, owners) && v.request < |t.requests| && (forall r <- t.requests :: Staging(r))
    requires t.requests[v.request].status == Pending && t.requests[v.request].vaultRef == u.vaultRef
    requires Attempt(t, UpdateEvent(u, now)).Ok?
    ensures Settles(t, inFlight, owners, UpdateEvent(u, now), v)
  {
    StepEffect(t, UpdateEvent(u, now));
    hide Attempt, Agrees, Forward, Staging, OwnersAfterUpdate;
    SwapAgrees(t, inFlight, owners, u, v);
    MarkStaging(Updated(t, u), v);
  }

  lemma ApprovedOtherSettles(t: Tables, inFlight: set<Ref>, owners: Owners, ev: Event, v: Review)
    requires Agrees(t, inFlight, owners) && v.request < |t.requests| && (forall r <- t.requests :: Staging(r))
    requires t.requests[v.request].vaultRef == None && EventOf(t.requests[v.request], v) == Ok(ev) && Attempt(t, ev).Ok?
    ensures Settles(t, inFlight, owners, ev, v)
  {
    EventAgrees(t, inFlight, owners, ev);
    EventKeepsRequest(t, v, ev);
    hide Attempt, Agrees, Forward, OwnersAfterEvent, EventOf;
    var mid := Attempt(t, ev).value;
    MarkStaging(mid, v);
    ReleaseAgrees(mid, inFlight, OwnersAfterEvent(owners, t, ev), v);
  }

  lemma ApprovalAgrees(s: State, v: Review)
    requires Inv(s) && TryReview(s.t, v).Ok? && v.approve
    ensures var after := AfterDecision(s, v);
            Agrees(after.t, after.inFlight, after.owners) && Forward(s.owners, after.owners) && forall r <- after.t.requests :: Staging(r)
  {
    ApprovalIsEvent(s.t, v);
    var request := s.t.requests[v.request];
    var ev := EventOf(request, v).value;
    assert Staging(request);
    hide Attempt, Agrees, Forward, TryReview, OwnersAfterEvent;
    if ev.CreateEvent? {
      ApprovedCreateSettles(s.t, s.inFlight, s.owners, ev.create, v);
    } else if request.vaultRef.Some? {
      ApprovedSwapSettles(s.t, s.inFlight, s.owners, ev.update, ev.now, v);
    } else {
      ApprovedOtherSettles(s.t, s.inFlight, s.owners, ev, v);
    }
  }

  lemma DecisionKeeps(s: State, v: Review)
    requires Inv(s)
    ensures Inv(AfterDecision(s, v)) && Onward(s, AfterDecision(s, v))
  {
    if TryReview(s.t, v).Ok? {
      if v.approve {
        ApprovalAgrees(s, v);
        hide Agrees, Kept, Forward, TryReview, OwnersAfterEvent, EventOf, Staging;
        ForwardKeeps(s, AfterDecision(s, v));
      } else {
        RejectionCloses(s.t, v);
        hide TryReview, Inv;
        CloseKeeps(s, v.request, Rejected, AuditRow(v.actor, ChangeRejected(v.request)));
      }
    }
  }

  lemma OutsideAgrees(s: State, step: Step)
    requires Inv(s)
    ensures Agrees(AfterOutside(s, step).t, AfterOutside(s, step).inFlight, AfterOutside(s, step).owners) && Onward(s, AfterOutside(s, step))
  {
    var after := AfterOutside(s, step);
    if step.Mint? {
      assert s.next in s.owners ==> Kept(s, s.next);
    } else if step.Abandon? {
      assert step.ref in s.inFlight ==> Holds(s.t, s.inFlight, OfAction, step.ref);
    }
    hide Kept, Staging, Served;
    forall slot, ref
      ensures Holds(after.t, after.inFlight, slot, ref) <==> ref in after.owners && after.owners[ref] == slot
    {
      assert Holds(s.t, s.inFlight, slot, ref) <==> ref in s.owners && s.owners[ref] == slot;
    }
  }

  lemma OutsideKeeps(s: State, step: Step)
    requires Inv(s)
    ensures Inv(AfterOutside(s, step)) && Onward(s, AfterOutside(s, step))
  {
    var after := AfterOutside(s, step);
    OutsideAgrees(s, step);
    if step.Deliver? && step.place < |s.t.deletions| {
      assert Holds(s.t, s.inFlight, OfScheduler(step.place), s.t.deletions[step.place]);
    }
    hide Agrees, Onward, Staging;
    forall ref | ref in after.owners
      ensures Kept(after, ref)
    {
      assert ref in s.owners ==> Kept(s, ref);
    }
  }

  lemma CancelKeeps(s: State, id: Id, actor: Id)
    requires Inv(s)
    ensures Inv(AfterClose(s, id, TryCancel(s.t, id, actor))) && Onward(s, AfterClose(s, id, TryCancel(s.t, id, actor)))
  {
    hide Inv;
    if TryCancel(s.t, id, actor).Ok? {
      CloseKeeps(s, id, Canceled, AuditRow(actor, ChangeCanceled(id)));
    }
  }

  lemma ExpireKeeps(s: State, id: Id, now: int)
    requires Inv(s)
    ensures Inv(AfterClose(s, id, TryExpire(s.t, id, now))) && Onward(s, AfterClose(s, id, TryExpire(s.t, id, now)))
  {
    hide Inv;
    if TryExpire(s.t, id, now).Ok? {
      CloseKeeps(s, id, Expired, AuditRow(s.t.requests[id].requestedBy, ChangeExpired(id)));
    }
  }

  lemma StepKeeps(s: State, step: Step)
    requires Inv(s)
    ensures Inv(Next(s, step)) && Onward(s, Next(s, step))
  {
    hide Inv, Onward, AfterCreate, AfterFiling, AfterDirect, AfterDecision, AfterClose, AfterOutside, TryCancel, TryExpire, Perform;
    match step
    case CommitCreate(ref, a) => CommitCreateKeeps(s, ref, a);
    case CommitFiling(staged, f) => FilingKeeps(s, staged, f);
    case CommitUpdate(u, now) => DirectKeeps(s, UpdateEvent(u, now));
    case CommitRemove(r, now) => DirectKeeps(s, RemoveEvent(r, now));
    case CommitRestore(r, now) => DirectKeeps(s, RestoreEvent(r, now));
    case CommitAccess(c) => DirectKeeps(s, AccessEvent(c));
    case DeleteOrganization(org, actor, permitted, now) => DirectKeeps(s, DropOrganization(org, actor, permitted, now));
    case ProposeElsewhere(r) => ProposalKeeps(s, r);
    case DecideElsewhere(v, how) => ElsewhereKeeps(s, v, how);
    case SweepElsewhere(target, actor) => SweepKeeps(s, target, actor);
    case MoveProject(project, actor, db) => MoveKeeps(s, project, actor, db);
    case Decide(v) => DecisionKeeps(s, v);
    case CancelRequest(id, actor) => CancelKeeps(s, id, actor);
    case ExpireRequest(id, now) => ExpireKeeps(s, id, now);
    case _ => OutsideKeeps(s, step);
  }

  lemma {:induction false} EveryRun(s: State, steps: seq<Step>)
    requires Inv(s)
    ensures Inv(Run(s, steps)) && Onward(s, Run(s, steps))
    decreases |steps|
  {
    if steps != [] {
      StepKeeps(s, steps[0]);
      var next := Next(s, steps[0]);
      hide Inv, Next;
      EveryRun(next, steps[1..]);
    }
  }

  // ----- what holds in every reachable state

  lemma DecisionIsAct(s: State, step: Step)
    ensures step.Decide? ==> Next(s, step).t == s.t || Next(s, step).t == Perform(s.t, Act.Decide(step.review))
    ensures step.DecideElsewhere? ==>
              Next(s, step).t == s.t || Next(s, step).t == Perform(s.t, Act.DecideElsewhere(step.verdict, step.how))
    ensures step.MoveProject? ==>
              Next(s, step).t == s.t || Next(s, step).t == Perform(s.t, Move(step.project, step.mover, step.into))
  {
    hide Attempt, TryReview, TryReviewElsewhere, OwnersAfterEvent, OwnersAfterClose, EventOf, CancelEach, OwnersAfterCancel;
  }

  /** Seen from the tables, a step is one of their acts or nothing. */
  lemma StepIsAct(s: State, step: Step) returns (act: Act)
    ensures Next(s, step).t == s.t || Next(s, step).t == Perform(s.t, act)
    ensures act.Decide? ==> step == Step.Decide(act.review)
  {
    DecisionIsAct(s, step);
    hide Attempt, TryReview, TryFile, TryCancel, TryExpire, OwnersAfterEvent, OwnersAfterFiling, OwnersAfterClose, EventOf,
         TryReviewElsewhere, TryMove, AfterDecision, AfterElsewhere, CancelEach, OwnersAfterCancel, Direct;
    act := match step
           case CommitCreate(ref, a) => Mutate(CreateEvent(a.(vaultRef := ref)))
           case CommitFiling(staged, f) => File(f.(vaultRef := staged))
           case CommitUpdate(u, now) => Mutate(UpdateEvent(u, now))
           case CommitRemove(r, now) => Mutate(RemoveEvent(r, now))
           case CommitRestore(r, now) => Mutate(RestoreEvent(r, now))
           case CommitAccess(c) => Mutate(AccessEvent(c))
           case DeleteOrganization(org, actor, permitted, now) => Mutate(DropOrganization(org, actor, permitted, now))
           case ProposeElsewhere(r) => Propose(r)
           case DecideElsewhere(v, how) => Act.DecideElsewhere(v, how)
           case SweepElsewhere(target, actor) => Sweep(target, actor)
           case MoveProject(project, actor, db) => Move(project, actor, db)
           case Decide(v) => Act.Decide(v)
           case CancelRequest(id, actor) => Withdraw(id, actor)
           case ExpireRequest(id, now) => Expire(id, now)
           case World(db) => Act.World(db)
           case _ => Withdraw(0, 0);
  }

  lemma {:induction false} RunReachesTables(s: State, steps: seq<Step>)
    requires ChangeRequests.Reachable(s.t)
    ensures ChangeRequests.Reachable(Run(s, steps).t)
    decreases |steps|
  {
    if steps != [] {
      var act := StepIsAct(s, steps[0]);
      StillReachable(s.t, act);
      hide Next, ChangeRequests.Reachable, Perform;
      RunReachesTables(Next(s, steps[0]), steps[1..]);
    }
  }

  /** A fresh deployment: no accounts, requests or objects. */
  function Initial(db: Db): State {
    State(Empty(db), map[], map[], 0, {}, {}, map[])
  }

  ghost predicate Reachable(s: State) {
    exists db, steps :: s == Run(Initial(db), steps)
  }

  lemma InitialInv(db: Db)
    ensures Inv(Initial(db))
  {
    var s := Initial(db);
    forall slot, ref
      ensures Holds(s.t, s.inFlight, slot, ref) <==> ref in s.owners && s.owners[ref] == slot
    {
    }
  }

  lemma ReachableInv(s: State)
    requires Reachable(s)
    ensures Inv(s)
  {
    var db, steps :| s == Run(Initial(db), steps);
    InitialInv(db);
    EveryRun(Initial(db), steps);
  }

  /** What is proved of every run of the tables holds in every state of the ledger. */
  lemma LedgerTablesAreReachable(s: State)
    requires Reachable(s)
    ensures ChangeRequests.Reachable(s.t)
  {
    var db, steps :| s == Run(Initial(db), steps);
    assert Initial(db).t == RunActs(Empty(db), []);
    hide Run, RunActs;
    RunReachesTables(Initial(db), steps);
  }

  /** Every object ever minted is held by exactly one holder, unless a failed action abandoned it. */
  lemma ExactlyOneHolder(s: State, ref: Ref)
    requires Reachable(s) && ref < s.next
    ensures ref in s.abandoned || exists slot :: Holds(s.t, s.inFlight, slot, ref)
    ensures forall a, b :: Holds(s.t, s.inFlight, a, ref) && Holds(s.t, s.inFlight, b, ref) ==> a == b
  {
    ReachableInv(s);
    if ref !in s.abandoned {
      assert Holds(s.t, s.inFlight, s.owners[ref], ref);
    }
  }

  /** The account points to a live object that nobody else holds and that is not up for deletion. */
  ghost predicate PointsAlone(t: Tables, vault: map<Ref, string>, id: Id)
    requires id < |t.accounts|
  {
    var ref := t.accounts[id].vaultRef;
    && ref in vault && ref !in t.deletions
    && (forall other :: 0 <= other < |t.accounts| && t.accounts[other].vaultRef == ref ==> other == id)
    && (forall r <- t.requests :: r.status == Pending ==> r.vaultRef != Some(ref))
  }

  /** In every reachable state every account does. */
  lemma NoDanglingPointer(s: State, id: Id)
    requires Reachable(s) && id < |s.t.accounts|
    ensures PointsAlone(s.t, s.vault, id)
  {
    ReachableInv(s);
    var ref := s.t.accounts[id].vaultRef;
    assert Holds(s.t, s.inFlight, OfAccount(id), ref);
    assert Kept(s, ref);
    forall other | 0 <= other < |s.t.accounts| && s.t.accounts[other].vaultRef == ref
      ensures other == id
    {
      assert Holds(s.t, s.inFlight, OfAccount(other), ref);
    }
    forall r | r in s.t.requests && r.status == Pending
      ensures r.vaultRef != Some(ref)
    {
      var k :| 0 <= k < |s.t.requests| && s.t.requests[k] == r;
      assert !Holds(s.t, s.inFlight, OfRequest(k), ref);
    }
    if ref in s.t.deletions {
      var k :| 0 <= k < |s.t.deletions| && s.t.deletions[k] == ref;
      assert Holds(s.t, s.inFlight, OfScheduler(k), ref);
    }
  }

  /** An object that is there and that no account, pending proposal or deletion job holds. */
  predicate Free(s: State, ref: Ref) {
    ref in s.vault && (ref in s.owners ==> s.owners[ref] == OfAction)
  }

  /**
    A create may also come straight from a client, which then names the object itself. Every account still
    points alone to a live object exactly when the one named is free.
  */
  lemma SuppliedReferenceIff(s: State, a: CreateArgs)
    requires Reachable(s) && Attempt(s.t, CreateEvent(a)).Ok?
    ensures var after := Attempt(s.t, CreateEvent(a)).value;
            (forall id | 0 <= id < |after.accounts| :: PointsAlone(after, s.vault, id)) <==> Free(s, a.vaultRef)
  {
    ReachableInv(s);
    StepEffect(s.t, CreateEvent(a));
    var after := Attempt(s.t, CreateEvent(a)).value;
    var creator :| after == Created(s.t, a, creator);
    hide Attempt, OverrideRows, Reachable, Inv, PointsAlone, Free;
    if Free(s, a.vaultRef) {
      forall id | 0 <= id < |after.accounts|
        ensures PointsAlone(after, s.vault, id)
      {
        FreeStaysAlone(s, a, creator, id);
      }
    } else {
      TakenIsShared(s, a, creator);
    }
  }

  /** What the tables say of an object, its owner says. */
  lemma HeldSlots(s: State, ref: Ref)
    requires Inv(s)
    ensures forall id :: 0 <= id < |s.t.accounts| && s.t.accounts[id].vaultRef == ref ==>
              ref in s.owners && s.owners[ref] == OfAccount(id) && ref in s.vault
    ensures forall r <- s.t.requests :: r.status == Pending && r.vaultRef == Some(ref) ==> ref in s.owners && s.owners[ref].OfRequest?
    ensures ref in s.t.deletions ==> ref in s.owners && s.owners[ref].OfScheduler?
  {
    forall id | 0 <= id < |s.t.accounts| && s.t.accounts[id].vaultRef == ref
      ensures ref in s.owners && s.owners[ref] == OfAccount(id) && ref in s.vault
    {
      assert Holds(s.t, s.inFlight, OfAccount(id), ref) && Kept(s, ref);
    }
    forall r | r in s.t.requests && r.status == Pending && r.vaultRef == Some(ref)
      ensures ref in s.owners && s.owners[ref].OfRequest?
    {
      var k :| 0 <= k < |s.t.requests| && s.t.requests[k] == r;
      assert Holds(s.t, s.inFlight, OfRequest(k), ref);
    }
    if ref in s.t.deletions {
      var k :| 0 <= k < |s.t.deletions| && s.t.deletions[k] == ref;
      assert Holds(s.t, s.inFlight, OfScheduler(k), ref);
    }
  }

  lemma FreeStaysAlone(s: State, a: CreateArgs, creator: Roles.Profile, id: Id)
    requires Inv(s) && Free(s, a.vaultRef) && id <= |s.t.accounts|
    ensures PointsAlone(Created(s.t, a, creator), s.vault, id)
  {
    HeldSlots(s, Created(s.t, a, creator).accounts[id].vaultRef);
    hide Inv, OverrideRows;
  }

  lemma TakenIsShared(s: State, a: CreateArgs, creator: Roles.Profile)
    requires Inv(s) && !Free(s, a.vaultRef)
    ensures !PointsAlone(Created(s.t, a, creator), s.vault, |s.t.accounts|)
  {
    var (ref, after) := (a.vaultRef, Created(s.t, a, creator));
    hide OverrideRows;
    if ref in s.vault {
      assert Holds(s.t, s.inFlight, s.owners[ref], ref);
      match s.owners[ref]
      case OfAccount(k) => assert after.accounts[k].vaultRef == ref;
      case OfRequest(k) => assert s.t.requests[k] in after.requests;
      case OfScheduler(k) => assert after.deletions[k] in after.deletions;
    }
  }

  /** Whatever follows, an account's object stays with it or is queued for deletion exactly once. */
  lemma ReplacedObjectIsQueuedOnce(s: State, steps: seq<Step>, id: Id)
    requires Reachable(s) && id < |s.t.accounts|
    ensures var (ref, after) := (s.t.accounts[id].vaultRef, Run(s, steps));
            || (id < |after.t.accounts| && after.t.accounts[id].vaultRef == ref && ref !in after.t.deletions)
            || exists k :: 0 <= k < |after.t.deletions| && after.t.deletions[k] == ref
                 && forall j :: 0 <= j < |after.t.deletions| && after.t.deletions[j] == ref ==> j == k
  {
    ReachableInv(s);
    EveryRun(s, steps);
    var (ref, after) := (s.t.accounts[id].vaultRef, Run(s, steps));
    assert Holds(s.t, s.inFlight, OfAccount(id), ref);
    var slot := after.owners[ref];
    assert Holds(after.t, after.inFlight, slot, ref);
    forall j | 0 <= j < |after.t.deletions| && after.t.deletions[j] == ref
      ensures slot == OfScheduler(j)
    {
      assert Holds(after.t, after.inFlight, OfScheduler(j), ref);
    }
  }

  lemma VaultMovesOutside(s: State, step: Step)
    ensures Next(s, step).vault == s.vault || Next(s, step) == AfterOutside(s, step)
  {
    hide Attempt, TryReview, TryFile, TryCancel, TryExpire, OwnersAfterEvent, OwnersAfterFiling, OwnersAfterClose, EventOf,
         AfterOutside, Perform;
  }

  /** Only a write in place changes the value an account points to: proposing never does. */
  lemma LiveValueChanges(s: State, step: Step, id: Id)
    requires Reachable(s) && id < |s.t.accounts| && id < |Next(s, step).t.accounts|
    requires Next(s, step).t.accounts[id].vaultRef == s.t.accounts[id].vaultRef
    ensures var ref := s.t.accounts[id].vaultRef;
            && ref in s.vault && ref in Next(s, step).vault
            && (Next(s, step).vault[ref] != s.vault[ref] ==> step == WriteInPlace(ref, Next(s, step).vault[ref]))
  {
    NoDanglingPointer(s, id);
    ReachableInv(s);
    var ref := s.t.accounts[id].vaultRef;
    assert Holds(s.t, s.inFlight, OfAccount(id), ref);
    assert !Holds(s.t, s.inFlight, OfAction, ref) && Kept(s, ref);
    VaultMovesOutside(s, step);
    hide Next, Holds, Agrees, Kept, Staging, Reachable;
  }

  /** Filing a proposal touches no account and no value. */
  lemma FilingIsInvisible(s: State, staged: Option<Ref>, f: Filing)
    ensures var after := Next(s, CommitFiling(staged, f));
            after.vault == s.vault && after.t.accounts == s.t.accounts && after.t.db == s.t.db
  {
    var filing := f.(vaultRef := staged);
    if TryFile(s.t, filing).Ok? {
      FilingLeavesAccounts(s.t, filing);
    }
    hide TryFile, OwnersAfterFiling;
  }

  lemma ApprovalMovesPointer(t: Tables, v: Review, ref: Ref) returns (id: Id)
    requires TryReview(t, v).Ok? && v.approve
    requires v.request < |t.requests| && t.requests[v.request].vaultRef == Some(ref) && Staging(t.requests[v.request])
    ensures id < |TryReview(t, v).value.accounts| && TryReview(t, v).value.accounts[id].vaultRef == ref
  {
    ApprovalIsEvent(t, v);
    var ev := EventOf(t.requests[v.request], v).value;
    StepEffect(t, ev);
    hide Attempt, TryReview, OverrideRows, TouchedBy, Edited;
    id := if ev.CreateEvent? then |t.accounts| else ev.update.account;
  }

  lemma StagedIsSealed(s: State, id: Id, ref: Ref)
    requires Inv(s) && id < |s.t.requests| && s.t.requests[id].status == Pending && s.t.requests[id].vaultRef == Some(ref)
    ensures Sealed(s, ref) && Staging(s.t.requests[id])
  {
    assert Holds(s.t, s.inFlight, OfRequest(id), ref) && Kept(s, ref);
  }

  lemma DecisionApplied(s: State, v: Review)
    requires v.approve && TryReview(s.t, v).Ok?
    ensures var after := AfterDecision(s, v);
            after.t == TryReview(s.t, v).value && after.vault == s.vault && after.minted == s.minted
  {
    ApprovalIsEvent(s.t, v);
    hide TryReview, Attempt, EventOf, OwnersAfterEvent;
  }

  /** An approved proposal gives its account the very object, and the very value, that was staged. */
  lemma ApprovedValueIsTheProposedOne(s: State, v: Review, ref: Ref) returns (id: Id)
    requires Reachable(s) && v.approve
    requires v.request < |s.t.requests| && s.t.requests[v.request].vaultRef == Some(ref)
    ensures TryReview(s.t, v).Ok? ==>
            var after := AfterDecision(s, v);
            && id < |after.t.accounts| && after.t.accounts[id].vaultRef == ref
            && ref in after.vault && ref in s.minted && after.vault[ref] == s.minted[ref]
  {
    id := 0;
    if TryReview(s.t, v).Ok? {
      ReachableInv(s);
      ApprovalIsEvent(s.t, v);
      DecisionApplied(s, v);
      StagedIsSealed(s, v.request, ref);
      hide TryReview, Attempt, EventOf, AfterDecision, Reachable, Inv;
      id := ApprovalMovesPointer(s.t, v, ref);
    }
  }

  // ----- updates in place against approved proposals

  /** The value an account stands for. */
  function LiveValue(s: State, id: Id): string {
    if id < |s.t.accounts| && s.t.accounts[id].vaultRef in s.vault then s.vault[s.t.accounts[id].vaultRef] else ""
  }

  /** The object that an act swaps an account onto: the one staged by the proposal it approves. */
  function Swap(t: Tables, step: Step, id: Id): Option<Ref> {
    if step.Decide? && step.review.approve && TryReview(t, step.review).Ok? && step.review.request < |t.requests|
       && t.requests[step.review.request].kind == UpdateKind
       && t.requests[step.review.request].target == Some(Target(AccountResource, id))
    then t.requests[step.review.request].vaultRef
    else None
  }

  /** The value that a step gives an account: written in place, or staged by the proposal it approves. */
  function Change(s: State, step: Step, id: Id): Option<string> {
    if step.WriteInPlace? then
      if Served(s, step.ref) && id < |s.t.accounts| && s.t.accounts[id].vaultRef == step.ref then Some(step.value) else None
    else
      var swapped := Swap(s.t, step, id);
      if swapped.Some? && swapped.value in s.minted then Some(s.minted[swapped.value]) else None
  }

  /** The last such value in a run. */
  function LastChange(s: State, steps: seq<Step>, id: Id): Option<string>
    decreases |steps|
  {
    if steps == [] then None
    else
      var later := LastChange(Next(s, steps[0]), steps[1..], id);
      if later.Some? then later else Change(s, steps[0], id)
  }

  lemma EventPointer(t: Tables, ev: Event, id: Id)
    requires Attempt(t, ev).Ok? && id < |t.accounts|
    ensures id < |Attempt(t, ev).value.accounts|
    ensures Attempt(t, ev).value.accounts[id].vaultRef ==
              if ev.UpdateEvent? && ev.update.account == id && ev.update.vaultRef.Some? then ev.update.vaultRef.value
              else t.accounts[id].vaultRef
  {
    StepEffect(t, ev);
    if ev.RemoveEvent? && ev.removal.account < |t.accounts| {
      CancelEachFrame(Deleted(t, ev.removal, ev.now), Aimed(t.requests, ev.removal.account), ev.removal.via, ev.removal.actor);
    }
    hide Attempt, CancelEach, Aimed, RevokedUpTo, SharesRevokedUpTo, ShareRows, OverrideRows, TouchedBy, Edited;
  }

  lemma ApprovalPointer(t: Tables, v: Review, id: Id)
    requires TryReview(t, v).Ok? && v.approve && id < |t.accounts|
    ensures id < |TryReview(t, v).value.accounts|
    ensures TryReview(t, v).value.accounts[id].vaultRef ==
              if Swap(t, Step.Decide(v), id).Some? then Swap(t, Step.Decide(v), id).value else t.accounts[id].vaultRef
  {
    ApprovalIsEvent(t, v);
    EventPointer(t, EventOf(t.requests[v.request], v).value, id);
    hide Attempt, TryReview;
  }

  /** The acts that approve nothing for an account. */
  lemma OtherPointer(t: Tables, act: Act, id: Id)
    requires id < |t.accounts| && !(act.Decide? && act.review.approve)
    ensures id < |Perform(t, act).accounts| && Perform(t, act).accounts[id].vaultRef == t.accounts[id].vaultRef
  {
    hide Attempt, TryFile, TryReview, Authorize, CancelEach, PendingFrom, PendingIn, TryReviewElsewhere;
    match act
    case Mutate(ev) =>
      if Direct(ev) && Attempt(t, ev).Ok? {
        EventPointer(t, ev, id);
      }
    case File(f) =>
      if TryFile(t, f).Ok? {
        FilingLeavesAccounts(t, f);
      }
    case Decide(v) =>
      if TryReview(t, v).Ok? {
        RejectionCloses(t, v);
      }
    case DecideElsewhere(v, how) =>
      if TryReviewElsewhere(t, v, how).Ok? {
        var mid := ElsewhereMarks(t, v, how);
        ElsewhereAccounts(t, v, how, mid);
      }
    case Sweep(target, actor) =>
      CancelEachFrame(t, AccountListing.Take(PendingFrom(t.requests, target, 0), SWEEP_BATCH), None, actor);
    case Move(project, actor, db) =>
      CancelEachFrame(t.(db := db.(accountGrants := t.db.accountGrants)), PendingIn(t.requests, project, 0), None, actor);
    case _ =>
  }

  lemma ElsewhereAccounts(t: Tables, v: Review, how: Foreigner, mid: Tables)
    requires v.request < |t.requests|
    requires var target := t.requests[v.request].target;
             mid == if how.sweeps && target.Some? then Swept(t, target.value, Some(v.request), t.requests[v.request].requestedBy) else t
    ensures mid.accounts == t.accounts
  {
    var r := t.requests[v.request];
    if how.sweeps && r.target.Some? {
      CancelEachFrame(t, AccountListing.Take(PendingFrom(t.requests, r.target.value, 0), SWEEP_BATCH), Some(v.request), r.requestedBy);
    }
    hide CancelEach, PendingFrom;
  }

  /** Only an approved proposal that carries an object moves an account's pointer. */
  lemma StepPointer(s: State, step: Step, id: Id)
    requires id < |s.t.accounts|
    ensures id < |Next(s, step).t.accounts|
    ensures Next(s, step).t.accounts[id].vaultRef ==
              if Swap(s.t, step, id).Some? then Swap(s.t, step, id).value else s.t.accounts[id].vaultRef
  {
    if step.Decide? && step.review.approve {
      if TryReview(s.t, step.review).Ok? {
        DecisionApplied(s, step.review);
        ApprovalPointer(s.t, step.review, id);
      }
      hide TryReview, EventOf, OwnersAfterEvent;
    } else {
      var act := StepIsAct(s, step);
      OtherPointer(s.t, act, id);
      hide Next, Perform, TryReview;
    }
  }

  lemma StepLiveValue(s: State, step: Step, id: Id)
    requires Inv(s) && Inv(Next(s, step)) && id < |s.t.accounts|
    ensures id < |Next(s, step).t.accounts|
    ensures LiveValue(Next(s, step), id) == if Change(s, step, id).Some? then Change(s, step, id).value else LiveValue(s, id)
  {
    StepPointer(s, step, id);
    VaultMovesOutside(s, step);
    PointsToLive(s, id);
    PointsToLive(Next(s, step), id);
    var swapped := Swap(s.t, step, id);
    if swapped.Some? {
      SwapIsSealed(s, step, id);
    }
    hide Next, Inv, Swap, TryReview, AfterOutside, Served;
    OutsideVault(s, step);
  }

  lemma OutsideVault(s: State, step: Step)
    ensures var after := AfterOutside(s, step);
            forall ref <- s.vault :: ref !in s.t.deletions && ref !in s.inFlight && ref < s.next ==>
              && ref in after.vault
              && after.vault[ref] == if step.WriteInPlace? && step.ref == ref && Served(s, ref) then step.value else s.vault[ref]
  {
  }

  lemma PointsToLive(s: State, id: Id)
    requires Inv(s) && id < |s.t.accounts|
    ensures var ref := s.t.accounts[id].vaultRef;
            ref in s.vault && Served(s, ref) && ref !in s.t.deletions && ref !in s.inFlight && ref < s.next
  {
    var ref := s.t.accounts[id].vaultRef;
    assert Holds(s.t, s.inFlight, OfAccount(id), ref) && Kept(s, ref);
    if ref in s.t.deletions {
      var k :| 0 <= k < |s.t.deletions| && s.t.deletions[k] == ref;
      assert Holds(s.t, s.inFlight, OfScheduler(k), ref);
    }
    assert ref in s.inFlight ==> Holds(s.t, s.inFlight, OfAction, ref);
  }

  lemma SwapIsSealed(s: State, step: Step, id: Id)
    requires Inv(s) && Swap(s.t, step, id).Some?
    ensures Sealed(s, Swap(s.t, step, id).value)
    ensures Next(s, step).vault == s.vault
  {
    ApprovalIsEvent(s.t, step.review);
    StagedIsSealed(s, step.review.request, Swap(s.t, step, id).value);
    DecisionApplied(s, step.review);
    hide TryReview, Attempt, EventOf, Inv, AfterDecision;
  }

  /** What an account stands for is the last value written to it in place or approved for it, whichever came later. */
  lemma {:induction false} LiveValueIsLastChange(s: State, steps: seq<Step>, id: Id)
    requires Inv(s) && id < |s.t.accounts|
    ensures id < |Run(s, steps).t.accounts|
    ensures var last := LastChange(s, steps, id);
            LiveValue(Run(s, steps), id) == if last.Some? then last.value else LiveValue(s, id)
    decreases |steps|
  {
    if steps != [] {
      StepKeeps(s, steps[0]);
      StepLiveValue(s, steps[0], id);
      hide Next, Inv, Change, LiveValue;
      LiveValueIsLastChange(Next(s, steps[0]), steps[1..], id);
    }
  }

  /**
    An action writes new credentials in place and later its update is accepted, whatever happened in
    between. Then the account stands for those credentials exactly when nothing in between wrote other
    ones in place or swapped the account onto a proposal's object with other ones: the update does not
    look at the pointer again.
  */
  lemma AcceptedUpdateIsLiveIff(s: State, value: string, steps: seq<Step>, u: UpdateArgs, now: int)
    requires Reachable(s) && u.account < |s.t.accounts| && Direct(UpdateEvent(u, now))
    requires Attempt(Run(Next(s, WriteInPlace(s.t.accounts[u.account].vaultRef, value)), steps).t, UpdateEvent(u, now)).Ok?
    ensures var written := Next(s, WriteInPlace(s.t.accounts[u.account].vaultRef, value));
            var after := Next(Run(written, steps), CommitUpdate(u, now));
            LiveValue(after, u.account) == value <==> LastChange(written, steps, u.account) in {None, Some(value)}
  {
    var id := u.account;
    var write := WriteInPlace(s.t.accounts[id].vaultRef, value);
    ReachableInv(s);
    PointsToLive(s, id);
    assert Change(s, write, id) == Some(value);
    hide Inv, Next, Run, Reachable, Served, LiveValue, Attempt, Change, Direct, Onward;
    var written := Next(s, write);
    var before := Run(written, steps);
    StepKeeps(s, write);
    StepLiveValue(s, write, id);
    EveryRun(written, steps);
    LiveValueIsLastChange(written, steps, id);
    StepKeeps(before, CommitUpdate(u, now));
    StepLiveValue(before, CommitUpdate(u, now), id);
    NoChange(before, u, now);
  }

  /** A committed update moves neither pointer nor value. */
  lemma NoChange(s: State, u: UpdateArgs, now: int)
    ensures forall id :: Change(s, CommitUpdate(u, now), id) == None
  {
  }

  const UNCHANGED := Payload(None, None, None, None)

  /** New credentials for the small account of the two owners, proposed by the first. */
  function SmallChange(staged: Option<Ref>): Filing {
    Filing(1, 1, UpdateKind, Some(0), UNCHANGED, staged, "mail", true, 0)
  }

  function SmallRequest(): Request {
    Request(1, AccountResource, UpdateKind, Some(Target(AccountResource, 0)), Some(1), ["development"], UNCHANGED, Some(1), "mail", 1, 0, Pending)
  }

  lemma SmallLevel(t: Tables, meta: Roles.Meta, user: Id)
    requires t.db == OwnersDb(meta, ["development"]) && |t.accounts| == 1 && t.accounts[0].project == 1 && (user == 1 || user == 2)
    ensures LevelOn(t, user, 0, 0) == Level.Write
  {
    OwnerMay(meta, ["development"], user, "org.manage");
    hide ResolveResourceAccess, Check, CanOverride, ActiveGrant;
  }

  lemma DevelopmentTouched()
    ensures Touched(["development"], []) == ["development"] && IsProtectedWrite(["development"], ["development"])
  {
    ProtectedWriteMeets(["development"], ["development"]);
    assert "development" in ["development"];
    assert AddNew([], ["development"]) == ["development"];
    assert AddNew(["development"], []) == ["development"];
  }

  lemma SmallChangeFiles(t: Tables, meta: Roles.Meta)
    requires t.db == OwnersDb(meta, ["development"]) && t.accounts == [SmallRow(0)] && t.requests == []
    ensures TryFile(t, SmallChange(Some(1))) == Ok(Filed(t, SmallChange(Some(1)), ["development"], Some(1)))
  {
    OwnersAuthorized(meta, ["development"], 1, "project.read");
    SmallLevel(t, meta, 1);
    DevelopmentTouched();
    hide Authorize, LevelOn, Touched, IsProtectedWrite;
    assert forall e <- ["development"] :: e == "development";
    assert Proposable(t, SmallChange(Some(1))) == Ok(Proposal(["development"], Some(1)));
  }

  /** The second owner approves, and the mutation goes through. */
  lemma SmallApproval(t: Tables, meta: Roles.Meta)
    requires t.db == OwnersDb(meta, ["development"]) && t.accounts == [SmallRow(0)] && t.requests == [SmallRequest()]
    ensures var v := Review(0, 2, true, true, true, 0);
            && TryReview(t, v).Ok?
            && TryReview(t, v).value.db == t.db
            && |TryReview(t, v).value.accounts| == 1 && TryReview(t, v).value.accounts[0].project == 1
            && TryReview(t, v).value.accounts[0].deletedAt == None
            && TryReview(t, v).value.accounts[0].environments == ["development"]
  {
    var v := Review(0, 2, true, true, true, 0);
    OwnersAuthorized(meta, ["development"], 2, "project.protection.approve");
    SmallLevel(t, meta, 1);
    var u := UpdateArgs(0, 1, None, None, true, None, None, Some(1), Some(0), false);
    assert EventOf(SmallRequest(), v) == Ok(UpdateEvent(u, 0));
    var w := WriteOf(t, UpdateEvent(u, 0));
    assert Authorises(t.requests, 0, w);
    WriteAllowedIff(t.db, t.requests, w);
    hide Authorize, LevelOn, AssertProtectedWrite, TouchedBy, OverrideRows;
    assert Attempt(t, UpdateEvent(u, 0)) == Ok(Updated(t, u));
  }

  /** The update of an action that broke the glass. */
  lemma SmallOverride(t: Tables, meta: Roles.Meta, u: UpdateArgs)
    requires t.db == OwnersDb(meta, ["development"]) && |t.accounts| == 1 && t.accounts[0].project == 1 && t.accounts[0].deletedAt == None
    requires u == UpdateArgs(0, 2, None, None, true, None, None, None, None, true)
    ensures Attempt(t, UpdateEvent(u, 0)).Ok?
  {
    SmallLevel(t, meta, 2);
    OwnerMay(meta, ["development"], 2, "project.protection.override");
    WriteAllowedIff(t.db, t.requests, WriteOf(t, UpdateEvent(u, 0)));
    hide Authorize, LevelOn, AssertProtectedWrite, TouchedBy, OverrideRows, Check, CanOverride, ResolveResourceAccess;
  }

  lemma {:induction false} RunSnoc(s: State, steps: seq<Step>, step: Step)
    ensures Run(s, steps + [step]) == Next(Run(s, steps), step)
    decreases |steps|
  {
    hide Next;
    if steps == [] {
      assert [] + [step] == [step] && [step][1..] == [];
      assert Run(s, [step]) == Run(Next(s, step), []);
    } else {
      RunSnoc(Next(s, steps[0]), steps[1..], step);
      assert (steps + [step])[1..] == steps[1..] + [step];
    }
  }

  lemma NextReachable(s: State, step: Step)
    requires Reachable(s)
    ensures Reachable(Next(s, step))
  {
    hide Next, Run;
    var db, steps :| s == Run(Initial(db), steps);
    RunSnoc(Initial(db), steps, step);
  }

  lemma SmallCommit(s: State, meta: Roles.Meta)
    requires s.t.db == OwnersDb(meta, []) && s.t.accounts == [] && s.t.requests == [] && s.inFlight == {0}
    ensures var after := Next(s, CommitCreate(0, SmallAccount(0, None)));
            && after.t.db == s.t.db && after.t.accounts == [SmallRow(0)] && after.t.requests == []
            && after.next == s.next && after.minted == s.minted && after.inFlight == {}
  {
    SmallCreate(s.t, meta, 0);
    hide Attempt, OwnersAfterEvent;
  }

  lemma SmallStage(s: State, meta: Roles.Meta)
    requires s.t.db == OwnersDb(meta, ["development"]) && s.t.accounts == [SmallRow(0)] && s.t.requests == [] && 1 in s.inFlight
    ensures var after := Next(s, CommitFiling(Some(1), SmallChange(None)));
            && after.t.db == s.t.db && after.t.accounts == s.t.accounts && after.t.requests == [SmallRequest()] && after.minted == s.minted
  {
    SmallChangeFiles(s.t, meta);
    assert SmallChange(None).(vaultRef := Some(1)) == SmallChange(Some(1));
    hide TryFile, OwnersAfterFiling;
  }

  lemma SmallMint(s: State, value: string)
    ensures var after := Next(s, Mint(value));
            && after.t == s.t && after.next == s.next + 1 && after.inFlight == s.inFlight + {s.next}
            && s.next in after.minted && after.minted[s.next] == value
  {
  }

  /** An account with object 0, and object 1 staged by a pending proposal to change it. */
  lemma SmallStaging(meta: Roles.Meta) returns (s: State)
    ensures Reachable(s) && s.t.db == OwnersDb(meta, ["development"])
    ensures s.t.accounts == [SmallRow(0)] && s.t.requests == [SmallRequest()]
    ensures 1 in s.minted && s.minted[1] == "proposed"
  {
    s := Initial(OwnersDb(meta, []));
    assert s == Run(s, []) && s.t.db == OwnersDb(meta, []);
    NextReachable(s, Mint("old"));
    SmallMint(s, "old");
    s := Next(s, Mint("old"));
    hide Next, Reachable, Run;
    NextReachable(s, CommitCreate(0, SmallAccount(0, None)));
    SmallCommit(s, meta);
    s := Next(s, CommitCreate(0, SmallAccount(0, None)));
    NextReachable(s, Step.World(OwnersDb(meta, ["development"])));
    SmallProtect(s, meta);
    s := Next(s, Step.World(OwnersDb(meta, ["development"])));
    NextReachable(s, Mint("proposed"));
    SmallMint(s, "proposed");
    s := Next(s, Mint("proposed"));
    NextReachable(s, CommitFiling(Some(1), SmallChange(None)));
    SmallStage(s, meta);
    s := Next(s, CommitFiling(Some(1), SmallChange(None)));
  }

  lemma SmallProtect(s: State, meta: Roles.Meta)
    requires s.t.db == OwnersDb(meta, [])
    ensures var after := Next(s, Step.World(OwnersDb(meta, ["development"])));
            after == s.(t := s.t.(db := OwnersDb(meta, ["development"])))
  {
  }

  /** Approving it after a write in place, and the update of the action that wrote. */
  lemma SmallSwap(s: State, meta: Roles.Meta, v: Review, u: UpdateArgs)
    requires s.t.db == OwnersDb(meta, ["development"]) && s.t.accounts == [SmallRow(0)] && s.t.requests == [SmallRequest()]
    requires v == Review(0, 2, true, true, true, 0) && u == UpdateArgs(0, 2, None, None, true, None, None, None, None, true)
    ensures Swap(s.t, Step.Decide(v), 0) == Some(1)
    ensures Attempt(Next(s, Step.Decide(v)).t, UpdateEvent(u, 0)).Ok?
  {
    SmallApproval(s.t, meta);
    DecisionApplied(s, v);
    NextIsDecision(s, v);
    assert Swap(s.t, Step.Decide(v), 0) == Some(1) by {
      hide TryReview, Attempt;
    }
    hide Attempt, TryReview, AfterDecision, Next, Swap, Direct;
    SmallOverride(Next(s, Step.Decide(v)).t, meta, u);
  }

  lemma NextIsDecision(s: State, v: Review)
    ensures Next(s, Step.Decide(v)) == AfterDecision(s, v)
  {
    hide AfterDecision;
  }

  lemma WritingKeepsTables(s: State, ref: Ref, value: string)
    ensures Next(s, WriteInPlace(ref, value)).t == s.t && Next(s, WriteInPlace(ref, value)).minted == s.minted
  {
  }

  /** The proposal is approved between the write in place and its commit: the accepted credentials are not live. */
  lemma SwapOvertakesWrite(meta: Roles.Meta) returns (s: State, v: Review, u: UpdateArgs)
    ensures Reachable(s) && |s.t.accounts| == 1 && u.account == 0 && Direct(UpdateEvent(u, 0))
    ensures var before := Run(Next(s, WriteInPlace(s.t.accounts[0].vaultRef, "new")), [Step.Decide(v)]);
            && Attempt(before.t, UpdateEvent(u, 0)).Ok?
            && LiveValue(Next(before, CommitUpdate(u, 0)), 0) == "proposed"
  {
    s := SmallStaging(meta);
    v := Review(0, 2, true, true, true, 0);
    u := UpdateArgs(0, 2, None, None, true, None, None, None, None, true);
    var written := Next(s, WriteInPlace(0, "new"));
    hide Attempt, Next, Reachable, Swap;
    WritingKeepsTables(s, 0, "new");
    SmallSwap(written, meta, v, u);
    assert [Step.Decide(v)][1..] == [];
    assert Run(written, [Step.Decide(v)]) == Next(written, Step.Decide(v));
    SwapIsLive(s, [Step.Decide(v)], u);
  }

  lemma SwapIsLive(s: State, steps: seq<Step>, u: UpdateArgs)
    requires Reachable(s) && |s.t.accounts| == 1 && u.account == 0 && Direct(UpdateEvent(u, 0))
    requires var written := Next(s, WriteInPlace(s.t.accounts[0].vaultRef, "new"));
             && |steps| == 1 && steps[0].Decide? && Swap(written.t, steps[0], 0) == Some(1)
             && 1 in written.minted && written.minted[1] == "proposed"
             && Attempt(Run(written, steps).t, UpdateEvent(u, 0)).Ok?
    ensures LiveValue(Next(Run(Next(s, WriteInPlace(s.t.accounts[0].vaultRef, "new")), steps), CommitUpdate(u, 0)), 0) == "proposed"
  {
    var write := WriteInPlace(s.t.accounts[0].vaultRef, "new");
    var written := Next(s, write);
    assert LastChange(Next(written, steps[0]), steps[1..], 0) == None;
    assert LastChange(written, steps, 0) == Change(written, steps[0], 0) == Some("proposed");
    ReachableInv(s);
    StepKeeps(s, write);
    StepPointer(s, write, 0);
    EveryRun(written, steps);
    hide Inv, Next, Run, Reachable, Attempt, LiveValue, Change, LastChange;
    LiveValueIsLastChange(written, steps, 0);
    var before := Run(written, steps);
    StepKeeps(before, CommitUpdate(u, 0));
    StepLiveValue(before, CommitUpdate(u, 0), 0);
    NoChange(before, u, 0);
  }

  // ----- the create action

  datatype Outcome = Requested | NewAccount(id: Id)

  datatype ActionError = ProjectGone | MayNotOverride | NotFiled(filing: FilingRefusal) | NotCreated(refusal: Refusal)

  function CreateFiling(a: CreateArgs, ref: Ref, rateAllows: bool, now: int): Filing {
    Filing(a.project, a.actor, CreateKind, None, Payload(Some(a.name), a.websiteUrl, a.description, Some(a.environments)),
           Some(ref), a.name, rateAllows, now)
  }

  class Actions {
    var s: State

    constructor (db: Db)
      ensures s == Initial(db)
    {
      s := Initial(db);
    }

    /**
      Mints the credentials and then proposes or creates the account. A refusal leaves the tables as they
      were and, when the compensating delete works, the vault too.
    */
    method CreateAccountAs(a: CreateArgs, value: string, rateAllows: bool, now: int, deletes: bool) returns (r: Result<Outcome, ActionError>)
      requires Inv(s)
      modifies this
      ensures Inv(s)
      ensures r.Err? ==> s.t == old(s).t && (deletes ==> s.vault == old(s).vault)
      ensures r.Ok? ==>
                && a.project in old(s).t.db.projects
                && var direct := a.override || !IsProtectedWrite(old(s).t.db.projects[a.project].protection, a.environments);
                   var commit := if direct then CommitCreate(old(s).next, a.(via := None))
                                 else CommitFiling(Some(old(s).next), CreateFiling(a, old(s).next, rateAllows, now));
                   && s == Next(Next(old(s), Mint(value)), commit)
                   && r.value == if direct then NewAccount(|old(s).t.accounts|) else Requested
    {
      if a.project !in s.t.db.projects || s.t.db.projects[a.project].deleted {
        return Err(ProjectGone);
      }
      var protectedEnvs := ProtectedIn(s.t.db.projects[a.project].protection, Touched([], a.environments));
      TouchedKeepsProtection(s.t.db.projects[a.project].protection, a.environments);
      var needsRequest := |protectedEnvs| > 0 && !a.override;
      if |protectedEnvs| > 0 && !needsRequest && !CanOverride(s.t.db, a.project, a.actor) {
        return Err(MayNotOverride);
      }
      var ref := s.next;
      StepKeeps(s, Mint(value));
      s := Next(s, Mint(value));
      StepKeeps(s, Abandon(ref, deletes));
      hide Inv, Kept, IsProtectedWrite, ProtectedIn, CanOverride;
      if needsRequest {
        var filing := CreateFiling(a, ref, rateAllows, now);
        var filed := TryFile(s.t, filing);
        if filed.Err? {
          s := Next(s, Abandon(ref, deletes));
          MintUndone(old(s), value);
          return Err(NotFiled(filed.error));
        }
        StepKeeps(s, CommitFiling(Some(ref), filing));
        s := Next(s, CommitFiling(Some(ref), filing));
        return Ok(Requested);
      }
      var args := a.(vaultRef := ref, via := None);
      var created := Attempt(s.t, CreateEvent(args));
      if created.Err? {
        s := Next(s, Abandon(ref, deletes));
        MintUndone(old(s), value);
        return Err(NotCreated(created.error));
      }
      var id := |s.t.accounts|;
      StepKeeps(s, CommitCreate(ref, a.(via := None)));
      s := Next(s, CommitCreate(ref, a.(via := None)));
      return Ok(NewAccount(id));
    }
  }

  lemma TouchedKeepsProtection(protection: seq<string>, environments: seq<string>)
    ensures |ProtectedIn(protection, Touched([], environments))| > 0 <==> IsProtectedWrite(protection, environments)
  {
    TouchedIff([], environments);
    ProtectedWriteMeets(protection, Touched([], environments));
    ProtectedWriteMeets(protection, environments);
  }

  lemma MintUndone(s: State, value: string)
    requires Inv(s)
    ensures var after := Next(Next(s, Mint(value)), Abandon(s.next, true)); after.vault == s.vault && after.t == s.t
  {
    assert s.next !in s.vault;
  }
}
