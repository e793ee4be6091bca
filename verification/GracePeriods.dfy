/** Grace periods after a cancelled subscription: creation with a cooldown, clearing, and the hourly sweep. */
module GracePeriods {
  import opened Prelude

  type Id = nat

  const DAY: int := 24 * 60 * 60 * 1000
  const COOLDOWN: int := 30 * DAY

  datatype Grace = Grace(user: Id, previousTier: string, end: int, createdAt: int, isActive: bool)

  datatype Downgrade = Downgrade(org: Id, user: Id, previousTier: string, at: int)

  /** Grace rows in creation order and one tier per user. */
  datatype State = State(graces: seq<Grace>, tiers: map<Id, string>, audit: seq<Downgrade>)

  /** `defaultTier` and who owns which organisation do not change in a run. */
  datatype Setting = Setting(defaultTier: string, ownedOrgs: map<Id, Id>)

  datatype Event =
    | Cancel(user: Id, previousTier: string, days: int, now: int)
    | Clear(user: Id)
    | SetTier(user: Id, tier: string)
    | Sweep(now: int, paused: bool)

  /** The user's latest grace row, by order of creation. */
  function Latest(graces: seq<Grace>, user: Id): Option<Grace> {
    if graces == [] then None
    else if graces[|graces| - 1].user == user then Some(graces[|graces| - 1])
    else Latest(graces[..|graces| - 1], user)
  }

  function ClearedUpTo(graces: seq<Grace>, user: Id, n: nat): seq<Grace> {
    seq(|graces|, k requires 0 <= k < |graces| =>
      if k < n && graces[k].user == user then graces[k].(isActive := false) else graces[k])
  }

  function Cleared(graces: seq<Grace>, user: Id): seq<Grace> {
    ClearedUpTo(graces, user, |graces|)
  }

  predicate Due(g: Grace, now: int) {
    g.isActive && g.end <= now
  }

  function SweepRow(w: Setting, s: State, k: nat, now: int): State
    requires k < |s.graces|
  {
    var g := s.graces[k];
    if !Due(g, now) then s
    else
      State(s.graces[k := g.(isActive := false)], s.tiers[g.user := w.defaultTier],
            if g.user in w.ownedOrgs then s.audit + [Downgrade(w.ownedOrgs[g.user], g.user, g.previousTier, now)] else s.audit)
  }

  function SweptFrom(w: Setting, s: State, k: nat, now: int): State
    decreases |s.graces| - k
  {
    if k >= |s.graces| then s else SweptFrom(w, SweepRow(w, s, k, now), k + 1, now)
  }

  function Next(w: Setting, s: State, ev: Event): State {
    match ev
    case Cancel(user, previousTier, days, now) =>
      var recent := Latest(s.graces, user);
      if recent.Some? && now - recent.value.createdAt < COOLDOWN then s.(tiers := s.tiers[user := w.defaultTier])
      else s.(graces := Cleared(s.graces, user) + [Grace(user, previousTier, now + days * DAY, now, true)])
    case Clear(user) => s.(graces := Cleared(s.graces, user))
    case SetTier(user, tier) => s.(tiers := s.tiers[user := tier])
    case Sweep(now, paused) => if paused then s else SweptFrom(w, s, 0, now)
  }

  function Run(w: Setting, s: State, evs: seq<Event>): State
    decreases |evs|
  {
    if evs == [] then s else Run(w, Next(w, s, evs[0]), evs[1..])
  }

  // ----- the mutations on the stored tables

  class Billing {
    const w: Setting
    var graces: seq<Grace>
    var tiers: map<Id, string>
    var audit: seq<Downgrade>

    function Contents(): State
      reads this
    {
      State(graces, tiers, audit)
    }

    constructor (w: Setting)
      ensures this.w == w && Contents() == State([], map[], [])
    {
      this.w, graces, tiers, audit := w, [], map[], [];
    }

    method CreateGracePeriod(user: Id, previousTier: string, days: int, now: int)
      modifies this
      ensures Contents() == Next(w, old(Contents()), Cancel(user, previousTier, days, now))
    {
      var recent := Latest(graces, user);
      if recent.Some? && now - recent.value.createdAt < 30 * 24 * 60 * 60 * 1000 {
        tiers := tiers[user := w.defaultTier];
        return;
      }
      Deactivate(user);
      graces := graces + [Grace(user, previousTier, now + days * 24 * 60 * 60 * 1000, now, true)];
    }

    method Deactivate(user: Id)
      modifies this`graces
      ensures graces == Cleared(old(graces), user)
    {
      ghost var was := graces;
      assert ClearedUpTo(was, user, 0) == was;
      for i := 0 to |graces|
        invariant |graces| == |was| && graces == ClearedUpTo(was, user, i)
      {
        ClearOne(was, user, i);
        if graces[i].user == user {
          graces := graces[i := graces[i].(isActive := false)];
        }
      }
    }

    method ClearGracePeriod(user: Id)
      modifies this
      ensures Contents() == Next(w, old(Contents()), Clear(user))
    {
      Deactivate(user);
    }

    method ExpireGracePeriods(now: int, paused: bool)
      modifies this
      ensures Contents() == Next(w, old(Contents()), Sweep(now, paused))
    {
      if paused {
        return;
      }
      for i := 0 to |graces|
        invariant |graces| == |old(graces)|
        invariant SweptFrom(w, Contents(), i, now) == SweptFrom(w, old(Contents()), 0, now)
      {
        var g := graces[i];
        ghost var before := Contents();
        if g.isActive && g.end <= now {
          graces := graces[i := g.(isActive := false)];
          tiers := tiers[g.user := w.defaultTier];
          if g.user in w.ownedOrgs {
            audit := audit + [Downgrade(w.ownedOrgs[g.user], g.user, g.previousTier, now)];
          }
        }
        assert Contents() == SweepRow(w, before, i, now);
      }
    }
  }

  lemma ClearOne(graces: seq<Grace>, user: Id, i: nat)
    requires i < |graces|
    ensures |ClearedUpTo(graces, user, i)| == |graces| && ClearedUpTo(graces, user, i)[i] == graces[i]
    ensures ClearedUpTo(graces, user, i + 1) ==
              if graces[i].user == user then ClearedUpTo(graces, user, i)[i := graces[i].(isActive := false)]
              else ClearedUpTo(graces, user, i)
  {
  }

  // ----- what every run keeps

  ghost predicate OneActive(graces: seq<Grace>) {
    forall i, j :: 0 <= i < j < |graces| && graces[i].user == graces[j].user ==> !(graces[i].isActive && graces[j].isActive)
  }

  ghost predicate CooledDown(graces: seq<Grace>) {
    forall i, j :: 0 <= i < j < |graces| && graces[i].user == graces[j].user ==> graces[j].createdAt >= graces[i].createdAt + COOLDOWN
  }

  lemma {:induction false} LatestIsLast(graces: seq<Grace>, user: Id)
    requires CooledDown(graces)
    ensures match Latest(graces, user)
            case None => forall k :: 0 <= k < |graces| ==> graces[k].user != user
            case Some(g) => forall k :: 0 <= k < |graces| && graces[k].user == user ==> graces[k].createdAt <= g.createdAt
  {
    if graces != [] {
      LatestIsLast(graces[..|graces| - 1], user);
    }
  }

  /** One of the user's rows from place `k` on is due. */
  ghost predicate SomeDue(graces: seq<Grace>, user: Id, k: nat, now: int) {
    exists i :: k <= i < |graces| && graces[i].user == user && Due(graces[i], now)
  }

  /** What a sweep does to one row and to one user. */
  lemma {:induction false} SweptRows(w: Setting, s: State, k: nat, now: int)
    ensures var after := SweptFrom(w, s, k, now);
            && |after.graces| == |s.graces|
            && (forall i :: 0 <= i < |s.graces| ==>
                  after.graces[i] == if i >= k && Due(s.graces[i], now) then s.graces[i].(isActive := false) else s.graces[i])
            && (forall user: Id :: TierOf(after, user) ==
                  if SomeDue(s.graces, user, k, now) then Some(w.defaultTier) else TierOf(s, user))
    decreases |s.graces| - k
  {
    if k < |s.graces| {
      var next := SweepRow(w, s, k, now);
      SweptRows(w, next, k + 1, now);
      hide SweptFrom;
      forall user: Id
        ensures SomeDue(s.graces, user, k, now) <==>
                  (s.graces[k].user == user && Due(s.graces[k], now)) || SomeDue(next.graces, user, k + 1, now)
      {
        assert forall i :: k < i < |s.graces| ==> next.graces[i] == s.graces[i];
        if SomeDue(s.graces, user, k, now) && !(s.graces[k].user == user && Due(s.graces[k], now)) {
          var i :| k <= i < |s.graces| && s.graces[i].user == user && Due(s.graces[i], now);
          assert next.graces[i] == s.graces[i];
        }
      }
    }
  }

  function TierOf(s: State, user: Id): Option<string> {
    if user in s.tiers then Some(s.tiers[user]) else None
  }

  lemma NextKeeps(w: Setting, s: State, ev: Event)
    requires OneActive(s.graces) && CooledDown(s.graces)
    ensures OneActive(Next(w, s, ev).graces) && CooledDown(Next(w, s, ev).graces)
  {
    match ev
    case Cancel(user, _, _, now) =>
      LatestIsLast(s.graces, user);
    case Sweep(now, _) =>
      SweptRows(w, s, 0, now);
      hide SweptFrom;
    case _ =>
  }

  /** In every run a user has at most one active grace period, and any two start thirty days apart. */
  lemma {:induction false} EveryRun(w: Setting, s: State, evs: seq<Event>)
    requires OneActive(s.graces) && CooledDown(s.graces)
    ensures OneActive(Run(w, s, evs).graces) && CooledDown(Run(w, s, evs).graces)
    decreases |evs|
  {
    if evs != [] {
      NextKeeps(w, s, evs[0]);
      EveryRun(w, Next(w, s, evs[0]), evs[1..]);
    }
  }

  // ----- the downgrade

  /** Nothing that concerns the user's subscription: other users' events and the sweeps. */
  predicate Quiet(ev: Event, user: Id) {
    match ev
    case Cancel(u, _, _, _) => u != user
    case Clear(u) => u != user
    case SetTier(u, _) => u != user
    case Sweep(_, _) => true
  }

  /** The user is on the default tier, or will be at the first sweep from `deadline` on. */
  ghost predicate Falling(w: Setting, s: State, user: Id, deadline: int) {
    TierOf(s, user) == Some(w.defaultTier) || SomeDue(s.graces, user, 0, deadline)
  }

  lemma QuietKeepsFalling(w: Setting, s: State, ev: Event, user: Id, deadline: int)
    requires Falling(w, s, user, deadline) && Quiet(ev, user)
    ensures Falling(w, Next(w, s, ev), user, deadline)
  {
    var after := Next(w, s, ev);
    if ev.Sweep? {
      SweptRows(w, s, 0, ev.now);
    }
    if TierOf(s, user) != Some(w.defaultTier) {
      var i :| 0 <= i < |s.graces| && s.graces[i].user == user && Due(s.graces[i], deadline);
      if ev.Sweep? && !ev.paused && Due(s.graces[i], ev.now) {
        assert TierOf(after, user) == Some(w.defaultTier);
      } else {
        assert after.graces[i] == s.graces[i];
      }
    }
  }

  lemma {:induction false} QuietRun(w: Setting, s: State, evs: seq<Event>, user: Id, deadline: int)
    requires Falling(w, s, user, deadline) && forall ev <- evs :: Quiet(ev, user)
    ensures Falling(w, Run(w, s, evs), user, deadline)
    decreases |evs|
  {
    if evs != [] {
      assert evs[0] in evs;
      QuietKeepsFalling(w, s, evs[0], user, deadline);
      QuietRun(w, Next(w, s, evs[0]), evs[1..], user, deadline);
    }
  }

  /**
    If a cancellation is the last that a user's subscription is heard of, the first unpaused sweep at or
    after its grace end leaves the user on the default tier, whatever happened before and in between.
  */
  lemma LastCancellationDowngrades(w: Setting, s: State, user: Id, previousTier: string, days: int, now: int, between: seq<Event>, sweepAt: int)
    requires (forall ev <- between :: Quiet(ev, user)) && sweepAt >= now + days * DAY
    ensures var canceled := Next(w, s, Cancel(user, previousTier, days, now));
            TierOf(Next(w, Run(w, canceled, between), Sweep(sweepAt, false)), user) == Some(w.defaultTier)
  {
    var deadline := now + days * DAY;
    var canceled := Next(w, s, Cancel(user, previousTier, days, now));
    assert Falling(w, canceled, user, deadline) by {
      if TierOf(canceled, user) != Some(w.defaultTier) {
        assert canceled.graces[|s.graces|] == Grace(user, previousTier, deadline, now, true);
      }
    }
    QuietRun(w, canceled, between, user, deadline);
    var last := Run(w, canceled, between);
    SweptRows(w, last, 0, sweepAt);
  }

  /** Once downgraded, a user stays on the default tier until a new subscription. */
  lemma {:induction false} DowngradeLasts(w: Setting, s: State, evs: seq<Event>, user: Id)
    requires TierOf(s, user) == Some(w.defaultTier) && forall ev <- evs :: !ev.SetTier? || ev.user != user
    ensures TierOf(Run(w, s, evs), user) == Some(w.defaultTier)
    decreases |evs|
  {
    if evs != [] {
      assert evs[0] in evs;
      if evs[0].Sweep? {
        SweptRows(w, s, 0, evs[0].now);
      }
      DowngradeLasts(w, Next(w, s, evs[0]), evs[1..], user);
    }
  }
}
