/**
  Rewriting an account's credentials in place. An action snapshots the vault value, writes the new one,
  asks the database to accept the change and, when it refuses, writes the snapshot back, guarded by the
  version that its own write reported. When the reply to the write is lost the action reads the object
  back and takes any current object with its value for its own. Actions interleave at every one of these
  points, read-backs included.
*/
module CredentialSaga {
  import opened Prelude

  type Version = nat

  /** How often the object is read back, at once and after each of two pauses. */
  const TRIES: nat := 3

  /**
    `seen` is the version an action snapshotted and `mine` the one it wrote, if its write landed;
    `reported` is the version it was told, in the reply itself or by a read-back.
  */
  datatype Write = Write(previous: string, seen: Version, mine: Option<Version>, reported: Option<Version>, answered: bool)

  datatype Phase =
    | Ready
    | Snapshotted(previous: string, seen: Version)
    | Uncertain(previous: string, seen: Version, mine: Option<Version>, tries: nat)
    | Written(write: Write)
    | Refused(write: Write)
    | Done(accepted: bool)

  datatype Action = Action(credentials: string, phase: Phase)

  /** The values one vault object has held, the current one last; a value's version is its place. */
  datatype State = State(log: seq<string>, actions: seq<Action>)

  /** What comes back from the vault's update call; an error or silence leaves open whether it was applied. */
  datatype Reply = Answered(reports: bool) | Rejected(applied: bool) | Lost(applied: bool)

  /** One read-back: an object, nothing to be had, or an error that ends the attempts. */
  datatype Reading = Found(reports: bool) | Nothing | Failed

  datatype Step =
    | Snapshot(readable: bool)
    | Put(reply: Reply)
    | ReadBack(reading: Reading)
    | Mutate(accepts: bool)
    | RollBack(reaches: bool)

  /** `Elsewhere` stands for writes that no action of this state makes. */
  datatype Event = Of(actor: nat, step: Step) | Elsewhere(values: seq<string>)

  function Value(log: seq<string>): string {
    if log == [] then "" else log[|log| - 1]
  }

  /** The vault's update call: refused when a version is given and is not the current one. */
  function Updated(log: seq<string>, value: string, versionCheck: Option<Version>): seq<string> {
    if versionCheck.Some? && versionCheck.value != |log| - 1 then log else log + [value]
  }

  /** The version of the current value, where the vault tells it. */
  function Told(log: seq<string>, reports: bool): Option<Version> {
    if reports && log != [] then Some(|log| - 1) else None
  }

  /** What one step of an action does to the object and to its own phase. */
  function Advance(log: seq<string>, action: Action, step: Step): (seq<string>, Phase) {
    match (step, action.phase)
    case (Snapshot(readable), Ready) =>
      (log, if readable && log != [] then Snapshotted(Value(log), |log| - 1) else Done(false))
    case (Put(reply), Snapshotted(previous, seen)) =>
      var written := log + [action.credentials];
      (match reply
       case Answered(reports) => (written, Written(Write(previous, seen, Some(|log|), Told(written, reports), true)))
       case Rejected(applied) => (if applied then written else log, Done(false))
       case Lost(applied) =>
         (if applied then written else log, Uncertain(previous, seen, if applied then Some(|log|) else None, 0)))
    case (ReadBack(reading), Uncertain(previous, seen, mine, tries)) =>
      if reading.Found? && Value(log) == action.credentials then
        (log, Written(Write(previous, seen, mine, Told(log, reading.reports), false)))
      else
        (log, if reading == Failed || tries + 1 >= TRIES then Done(false) else Uncertain(previous, seen, mine, tries + 1))
    case (Mutate(accepts), Written(write)) => (log, if accepts then Done(true) else Refused(write))
    case (RollBack(reaches), Refused(write)) =>
      (if reaches then Updated(log, write.previous, write.reported) else log, Done(false))
    case _ => (log, action.phase)
  }

  function After(s: State, ev: Event): State {
    match ev
    case Elsewhere(values) => s.(log := s.log + values)
    case Of(a, step) =>
      if a >= |s.actions| then s
      else
        var (log, phase) := Advance(s.log, s.actions[a], step);
        State(log, s.actions[a := s.actions[a].(phase := phase)])
  }

  function Run(s: State, evs: seq<Event>): State
    decreases |evs|
  {
    if evs == [] then s else Run(After(s, evs[0]), evs[1..])
  }

  // ----- what every interleaving keeps

  ghost predicate Traced(log: seq<string>, credentials: string, previous: string, seen: Version, mine: Option<Version>) {
    && seen < |log| && log[seen] == previous
    && (mine.Some? ==> seen < mine.value < |log| && log[mine.value] == credentials)
  }

  /** A version that an action was told is one of its value, not before its own write. */
  ghost predicate Confirmed(log: seq<string>, credentials: string, w: Write) {
    && Traced(log, credentials, w.previous, w.seen, w.mine)
    && (w.reported.Some? ==> w.seen <= w.reported.value < |log| && log[w.reported.value] == credentials)
    && (w.reported.Some? && w.mine.Some? ==> w.mine.value <= w.reported.value)
    && (w.answered ==> w.mine.Some? && (w.reported.Some? ==> w.reported == w.mine))
  }

  ghost predicate Faithful(log: seq<string>, a: Action) {
    match a.phase
    case Snapshotted(previous, seen) => Traced(log, a.credentials, previous, seen, None)
    case Uncertain(previous, seen, mine, tries) => Traced(log, a.credentials, previous, seen, mine)
    case Written(w) => Confirmed(log, a.credentials, w)
    case Refused(w) => Confirmed(log, a.credentials, w)
    case _ => true
  }

  ghost predicate Inv(s: State) {
    s.log != [] && forall a <- s.actions :: Faithful(s.log, a)
  }

  lemma AdvanceKeeps(log: seq<string>, action: Action, step: Step)
    requires log != [] && Faithful(log, action)
    ensures log <= Advance(log, action, step).0
    ensures Faithful(Advance(log, action, step).0, action.(phase := Advance(log, action, step).1))
  {
  }

  lemma LongerFaithful(log: seq<string>, longer: seq<string>, a: Action)
    requires Faithful(log, a) && log <= longer
    ensures Faithful(longer, a)
  {
  }

  lemma AfterKeeps(s: State, ev: Event)
    requires Inv(s)
    ensures Inv(After(s, ev)) && s.log <= After(s, ev).log
  {
    var next := After(s, ev);
    if ev.Of? && ev.actor < |s.actions| {
      assert Faithful(s.log, s.actions[ev.actor]);
      AdvanceKeeps(s.log, s.actions[ev.actor], ev.step);
    }
    hide Advance, Faithful;
    forall a | a in next.actions
      ensures Faithful(next.log, a)
    {
      if a in s.actions {
        LongerFaithful(s.log, next.log, a);
      }
    }
  }

  lemma {:induction false} EveryRun(s: State, evs: seq<Event>)
    requires Inv(s)
    ensures Inv(Run(s, evs)) && s.log <= Run(s, evs).log
    decreases |evs|
  {
    if evs != [] {
      AfterKeeps(s, evs[0]);
      hide After, Inv;
      EveryRun(After(s, evs[0]), evs[1..]);
    }
  }

  /** Any number of updates that have not begun, on an object that holds `value`. */
  function Fresh(value: string, credentials: seq<string>): State {
    State([value], seq(|credentials|, i requires 0 <= i < |credentials| => Action(credentials[i], Ready)))
  }

  ghost predicate Reachable(s: State) {
    exists value, credentials, evs :: s == Run(Fresh(value, credentials), evs)
  }

  lemma ReachableInv(s: State)
    requires Reachable(s)
    ensures Inv(s)
  {
    var value, credentials, evs :| s == Run(Fresh(value, credentials), evs);
    EveryRun(Fresh(value, credentials), evs);
  }

  // ----- rollbacks, in every interleaving

  /** An action that was refused and is about to roll back. */
  predicate MayRollBack(s: State, a: nat) {
    a < |s.actions| && s.actions[a].phase.Refused?
  }

  /** Whether the vault takes the rollback: no version was told, or the one told is still current. */
  predicate TakesEffect(s: State, w: Write, reaches: bool) {
    reaches && (w.reported == None || w.reported.value == |s.log| - 1)
  }

  lemma RefusedIsConfirmed(s: State, a: nat)
    requires Reachable(s) && MayRollBack(s, a)
    ensures s.log != [] && Confirmed(s.log, s.actions[a].credentials, s.actions[a].phase.write)
  {
    ReachableInv(s);
    assert Faithful(s.log, s.actions[a]);
    hide Reachable;
  }

  /** What a rollback does, exactly: the value that the action snapshotted becomes the current one, or nothing happens. */
  lemma RollbackOutcome(s: State, a: nat, reaches: bool)
    requires Reachable(s) && MayRollBack(s, a)
    ensures var w := s.actions[a].phase.write;
            && w.seen < |s.log|
            && After(s, Of(a, RollBack(reaches))).log == if TakesEffect(s, w, reaches) then s.log + [s.log[w.seen]] else s.log
  {
    RefusedIsConfirmed(s, a);
    hide Reachable;
  }

  /**
    Where the current value is not the action's own write, a rollback discards it exactly when it reaches
    the vault and either no version was told, or the reply was lost and a read-back told the version of
    just that value, which then equals the action's own credentials.
  */
  lemma RollbackDiscardsLaterWriteIff(s: State, a: nat, reaches: bool)
    requires Reachable(s) && MayRollBack(s, a) && s.actions[a].phase.write.mine != Some(|s.log| - 1)
    ensures var w := s.actions[a].phase.write;
            && (After(s, Of(a, RollBack(reaches))).log != s.log
                <==> reaches && (w.reported == None || (!w.answered && w.reported.value == |s.log| - 1)))
            && (w.reported.Some? && w.reported.value == |s.log| - 1 ==> Value(s.log) == s.actions[a].credentials)
  {
    RefusedIsConfirmed(s, a);
    RollbackOutcome(s, a, reaches);
    hide Reachable;
  }

  /**
    With a version a rollback replaces nothing but a value equal to the action's own credentials, and
    nothing but its own write when the reply came back.
  */
  lemma VersionedRollbackReplacesEqual(s: State, a: nat, reaches: bool)
    requires Reachable(s) && MayRollBack(s, a) && s.actions[a].phase.write.reported.Some?
    ensures var (w, after) := (s.actions[a].phase.write, After(s, Of(a, RollBack(reaches))));
            && (after.log == s.log || (after.log == s.log + [w.previous] && Value(s.log) == s.actions[a].credentials))
            && (after.log != s.log && w.answered ==> w.mine == Some(|s.log| - 1))
  {
    RefusedIsConfirmed(s, a);
    RollbackOutcome(s, a, reaches);
    hide Reachable;
  }

  /** The value that would be current had the action not written. */
  function WithoutIt(log: seq<string>, mine: Option<Version>): string {
    if mine == Some(|log| - 1) && |log| > 1 then log[|log| - 2] else Value(log)
  }

  /**
    A refused action leaves no trace in the current value exactly when its rollback takes effect and its
    snapshot holds that value, or has no effect and there was nothing to take back.
  */
  lemma RollbackRestoresIff(s: State, a: nat, reaches: bool)
    requires Reachable(s) && MayRollBack(s, a)
    ensures var w := s.actions[a].phase.write;
            && w.seen < |s.log|
            && (Value(After(s, Of(a, RollBack(reaches))).log) == WithoutIt(s.log, w.mine) <==>
                if TakesEffect(s, w, reaches) then s.log[w.seen] == WithoutIt(s.log, w.mine)
                else w.mine == Some(|s.log| - 1) ==> WithoutIt(s.log, w.mine) == s.actions[a].credentials)
  {
    RefusedIsConfirmed(s, a);
    RollbackOutcome(s, a, reaches);
    hide Reachable, Advance;
  }

  /** In particular when nobody wrote between snapshot and write: what was replaced comes back, or a version stops it. */
  lemma RollbackRestoresReplaced(s: State, a: nat)
    requires Reachable(s) && MayRollBack(s, a)
    requires var w := s.actions[a].phase.write; w.mine == Some(w.seen + 1)
    ensures var (w, after) := (s.actions[a].phase.write, After(s, Of(a, RollBack(true))));
            && w.seen + 1 < |s.log|
            && (w.seen + 1 == |s.log| - 1 || w.reported == None ==> Value(after.log) == s.log[w.seen])
            && (w.seen + 1 < |s.log| - 1 && w.answered && w.reported.Some? ==> after.log == s.log)
  {
    RefusedIsConfirmed(s, a);
    RollbackOutcome(s, a, true);
    hide Reachable, Advance;
  }

  // ----- actions one after the other

  /** How one whole action goes with nobody else writing. */
  datatype Turn = Turn(readable: bool, reply: Reply, first: Reading, second: Reading, third: Reading, accepts: bool, reaches: bool)

  function Steps(a: nat, t: Turn): seq<Event> {
    [Of(a, Snapshot(t.readable)), Of(a, Put(t.reply)), Of(a, ReadBack(t.first)), Of(a, ReadBack(t.second)),
     Of(a, ReadBack(t.third)), Of(a, Mutate(t.accepts)), Of(a, RollBack(t.reaches))]
  }

  /** Whether some read-back comes before an error and finds the object. */
  predicate ReadsBack(t: Turn) {
    t.first.Found? || (t.first != Failed && (t.second.Found? || (t.second != Failed && t.third.Found?)))
  }

  /** Whether the action learns that its value is the current one. */
  predicate Learns(value: string, credentials: string, t: Turn) {
    match t.reply
    case Answered(_) => true
    case Rejected(_) => false
    case Lost(applied) => ReadsBack(t) && (applied || value == credentials)
  }

  /** Whether the action's own write is what it leaves behind. */
  predicate Stays(t: Turn) {
    && t.readable
    && match t.reply
       case Answered(_) => t.accepts || !t.reaches
       case Rejected(applied) => applied
       case Lost(applied) => applied && (ReadsBack(t) ==> t.accepts || !t.reaches)
  }

  function InTurn(a: nat, turns: seq<Turn>): seq<Event>
    decreases |turns|
  {
    if turns == [] then [] else Steps(a, turns[0]) + InTurn(a + 1, turns[1..])
  }

  /** The credentials last accepted, as the actions themselves were told. */
  function LastAccepted(value: string, actions: seq<Action>): string
    decreases |actions|
  {
    if actions == [] then value
    else LastAccepted(if actions[0].phase == Done(true) then actions[0].credentials else value, actions[1..])
  }

  /** The credentials of the last write that stayed without being accepted, after the last that was accepted. */
  function Stray(stray: Option<string>, turns: seq<Turn>, actions: seq<Action>): Option<string>
    requires |turns| == |actions|
    decreases |turns|
  {
    if turns == [] then stray
    else
      Stray(if actions[0].phase == Done(true) then None else if Stays(turns[0]) then Some(actions[0].credentials) else stray,
            turns[1..], actions[1..])
  }

  function OrValue(stray: Option<string>, value: string): string {
    if stray.Some? then stray.value else value
  }

  lemma {:induction false} RunAppend(s: State, a: seq<Event>, b: seq<Event>)
    ensures Run(s, a + b) == Run(Run(s, a), b)
    decreases |a|
  {
    hide After;
    if a == [] {
      assert a + b == b;
    } else {
      RunAppend(After(s, a[0]), a[1..], b);
      assert (a + b)[1..] == a[1..] + b;
    }
  }

  lemma RunOne(s: State, ev: Event)
    ensures Run(s, [ev]) == After(s, ev)
  {
    hide After;
    assert [ev][1..] == [];
  }

  lemma RunSnoc(s: State, evs: seq<Event>, ev: Event)
    ensures Run(s, evs + [ev]) == After(Run(s, evs), ev)
  {
    hide After;
    RunAppend(s, evs, [ev]);
    RunOne(Run(s, evs), ev);
  }

  lemma RunThree(s: State, a: Event, b: Event, c: Event)
    ensures Run(s, [a, b, c]) == After(After(After(s, a), b), c)
  {
    hide After, Run;
    RunOne(s, a);
    RunSnoc(s, [a], b);
    RunSnoc(s, [a, b], c);
    assert [a] + [b] == [a, b] && [a, b] + [c] == [a, b, c];
  }

  lemma RunTwo(s: State, a: Event, b: Event)
    ensures Run(s, [a, b]) == After(After(s, a), b)
  {
    hide After, Run;
    RunOne(s, a);
    RunSnoc(s, [a], b);
    assert [a] + [b] == [a, b];
  }

  lemma RunFour(s: State, a: Event, b: Event, c: Event, d: Event)
    ensures Run(s, [a, b, c, d]) == After(After(After(After(s, a), b), c), d)
  {
    hide After, Run;
    RunThree(s, a, b, c);
    RunSnoc(s, [a, b, c], d);
    assert [a, b, c] + [d] == [a, b, c, d];
  }

  /** A rollback of such a write would take effect and put back the old value. */
  predicate Returns(was: seq<string>, log: seq<string>, w: Write) {
    w.previous == Value(was) && w.reported in {None, Some(|log| - 1)}
  }

  function WithPhase(s: State, a: nat, log: seq<string>, phase: Phase): State
    requires a < |s.actions|
  {
    State(log, s.actions[a := s.actions[a].(phase := phase)])
  }

  /** Snapshot and write. */
  lemma WriteOutcome(s: State, a: nat, t: Turn) returns (phase: Phase)
    requires s.log != [] && a < |s.actions| && s.actions[a].phase == Ready
    ensures var log := if t.readable && (t.reply.Answered? || t.reply.applied) then s.log + [s.actions[a].credentials] else s.log;
            && Run(s, Steps(a, t)[..2]) == WithPhase(s, a, log, phase)
            && if !t.readable || t.reply.Rejected? then phase == Done(false)
               else if t.reply.Answered? then phase.Written? && Returns(s.log, log, phase.write)
               else phase.Uncertain? && phase.tries == 0 && phase.previous == Value(s.log)
  {
    assert Steps(a, t)[..2] == [Of(a, Snapshot(t.readable)), Of(a, Put(t.reply))];
    RunTwo(s, Of(a, Snapshot(t.readable)), Of(a, Put(t.reply)));
    phase := After(After(s, Of(a, Snapshot(t.readable))), Of(a, Put(t.reply))).actions[a].phase;
    hide Run, Steps;
  }

  /** The read-backs that a lost reply asks for; no other phase has any. */
  lemma ReadBackOutcome(s: State, a: nat, t: Turn) returns (phase: Phase)
    requires s.log != [] && a < |s.actions| && (s.actions[a].phase.Uncertain? ==> s.actions[a].phase.tries == 0)
    ensures Run(s, Steps(a, t)[2..5]) == WithPhase(s, a, s.log, phase)
    ensures var was := s.actions[a].phase;
            if !was.Uncertain? then phase == was
            else if ReadsBack(t) && Value(s.log) == s.actions[a].credentials
            then phase.Written? && phase.write.previous == was.previous && phase.write.reported in {None, Some(|s.log| - 1)}
            else phase == Done(false)
  {
    assert Steps(a, t)[2..5] == [Of(a, ReadBack(t.first)), Of(a, ReadBack(t.second)), Of(a, ReadBack(t.third))];
    RunThree(s, Of(a, ReadBack(t.first)), Of(a, ReadBack(t.second)), Of(a, ReadBack(t.third)));
    phase := After(After(After(s, Of(a, ReadBack(t.first))), Of(a, ReadBack(t.second))), Of(a, ReadBack(t.third))).actions[a].phase;
    hide Run, Steps;
  }

  lemma KnownOutcome(s: State, a: nat, t: Turn) returns (phase: Phase)
    requires s.log != [] && a < |s.actions| && s.actions[a].phase == Ready
    ensures var log := if t.readable && (t.reply.Answered? || t.reply.applied) then s.log + [s.actions[a].credentials] else s.log;
            && Run(s, Steps(a, t)[..5]) == WithPhase(s, a, log, phase)
            && if t.readable && Learns(Value(s.log), s.actions[a].credentials, t) then phase.Written? && Returns(s.log, log, phase.write)
               else phase == Done(false)
  {
    assert Steps(a, t)[..5] == Steps(a, t)[..2] + Steps(a, t)[2..5];
    RunAppend(s, Steps(a, t)[..2], Steps(a, t)[2..5]);
    var first := WriteOutcome(s, a, t);
    phase := ReadBackOutcome(Run(s, Steps(a, t)[..2]), a, t);
    hide Run, Steps, ReadsBack;
  }

  /** The decision of the database and the rollback. */
  lemma DecisionOutcome(s: State, a: nat, t: Turn, was: seq<string>)
    requires s.log != [] && a < |s.actions|
    requires var phase := s.actions[a].phase; phase == Done(false) || (phase.Written? && Returns(was, s.log, phase.write))
    ensures var written := s.actions[a].phase.Written?;
            Run(s, Steps(a, t)[5..]) ==
              WithPhase(s, a, if written && !t.accepts && t.reaches then s.log + [Value(was)] else s.log, Done(written && t.accepts))
  {
    assert Steps(a, t)[5..] == [Of(a, Mutate(t.accepts)), Of(a, RollBack(t.reaches))];
    RunTwo(s, Of(a, Mutate(t.accepts)), Of(a, RollBack(t.reaches)));
    hide Run, Steps;
  }

  lemma OneTurn(s: State, a: nat, t: Turn)
    requires s.log != [] && a < |s.actions| && s.actions[a].phase == Ready
    ensures var (after, credentials) := (Run(s, Steps(a, t)), s.actions[a].credentials);
            && after.log != [] && Value(after.log) == (if Stays(t) then credentials else Value(s.log))
            && after == WithPhase(s, a, after.log, Done(t.readable && t.accepts && Learns(Value(s.log), credentials, t)))
  {
    assert Steps(a, t) == Steps(a, t)[..5] + Steps(a, t)[5..];
    RunAppend(s, Steps(a, t)[..5], Steps(a, t)[5..]);
    var phase := KnownOutcome(s, a, t);
    DecisionOutcome(Run(s, Steps(a, t)[..5]), a, t, s.log);
    hide Run, Steps, ReadsBack;
  }

  lemma {:induction false} AfterTurns(s: State, a: nat, turns: seq<Turn>, value: string, stray: Option<string>)
    requires s.log != [] && a + |turns| == |s.actions| && Value(s.log) == OrValue(stray, value)
    requires forall i :: a <= i < |s.actions| ==> s.actions[i].phase == Ready
    ensures var final := Run(s, InTurn(a, turns));
            && |final.actions| == |s.actions| && final.actions[..a] == s.actions[..a]
            && Value(final.log) == OrValue(Stray(stray, turns, final.actions[a..]), LastAccepted(value, final.actions[a..]))
    decreases |turns|
  {
    if turns != [] {
      OneTurn(s, a, turns[0]);
      var after := Run(s, Steps(a, turns[0]));
      RunAppend(s, Steps(a, turns[0]), InTurn(a + 1, turns[1..]));
      var accepted := after.actions[a].phase == Done(true);
      var credentials := s.actions[a].credentials;
      hide Run, Steps, Stays, Learns;
      AfterTurns(after, a + 1, turns[1..], if accepted then credentials else value,
                 if accepted then None else if Stays(turns[0]) then Some(credentials) else stray);
      SameFront(s.actions, after.actions, Run(s, InTurn(a, turns)).actions, a);
    }
  }

  lemma SameFront(was: seq<Action>, mid: seq<Action>, final: seq<Action>, a: nat)
    requires a < |was| == |mid| == |final| && mid == was[a := mid[a]] && final[..a + 1] == mid[..a + 1]
    ensures final[..a] == was[..a] && final[a] == mid[a] && final[a..][0] == mid[a] && final[a..][1..] == final[a + 1..]
  {
    assert forall i :: 0 <= i <= a ==> final[i] == final[..a + 1][i] == mid[i];
  }

  /**
    Updates that do not overlap leave the last accepted credentials exactly when no write stayed after
    them without being accepted, or the last one that did wrote the same. A write stays so when it landed
    but could not be confirmed, or was refused and its rollback did not get through.
  */
  lemma LastAcceptedWinsIff(s: State, a: nat, turns: seq<Turn>)
    requires s.log != [] && a + |turns| == |s.actions|
    requires forall i :: a <= i < |s.actions| ==> s.actions[i].phase == Ready
    ensures var final := Run(s, InTurn(a, turns));
            && |final.actions| == |s.actions|
            && var accepted := LastAccepted(Value(s.log), final.actions[a..]);
               Value(final.log) == accepted <==> Stray(None, turns, final.actions[a..]) in {None, Some(accepted)}
  {
    AfterTurns(s, a, turns, Value(s.log), None);
  }

  // ----- the gaps

  /** A write that lands but cannot be confirmed fails the action and stays, though no rollback fails. */
  lemma UnconfirmedWriteStays(value: string, credentials: string)
    ensures var final := Run(Fresh(value, [credentials]), InTurn(0, [Turn(true, Lost(true), Nothing, Nothing, Nothing, true, true)]));
            && |final.actions| == 1 && final.actions[0].phase == Done(false) && Value(final.log) == credentials
            && LastAccepted(value, final.actions) == value
  {
    var (s, t) := (Fresh(value, [credentials]), Turn(true, Lost(true), Nothing, Nothing, Nothing, true, true));
    assert InTurn(0, [t]) == Steps(0, t) + InTurn(1, [t][1..]) == Steps(0, t);
    OneTurn(s, 0, t);
    hide Run, Steps;
    var final := Run(s, Steps(0, t));
    assert final.actions[1..] == [];
  }

  lemma OverlappedUpToRefusal(value: string, first: string, second: string)
    ensures Run(Fresh(value, [first, second]),
                [Of(0, Snapshot(true)), Of(0, Put(Answered(true))), Of(1, Snapshot(true)), Of(0, Mutate(false))]) ==
              State([value, first], [Action(first, Refused(Write(value, 0, Some(1), Some(1), true))), Action(second, Snapshotted(first, 1))])
  {
    var s0 := Fresh(value, [first, second]);
    assert s0 == State([value], [Action(first, Ready), Action(second, Ready)]);
    RunFour(s0, Of(0, Snapshot(true)), Of(0, Put(Answered(true))), Of(1, Snapshot(true)), Of(0, Mutate(false)));
    hide Run;
  }

  /** Both of two overlapping updates are refused; the second snapshotted the first one's value. */
  function BothRefused(): seq<Event> {
    [Of(0, Snapshot(true)), Of(0, Put(Answered(true))), Of(1, Snapshot(true)), Of(0, Mutate(false))]
    + [Of(1, Put(Answered(true))), Of(0, RollBack(true)), Of(1, Mutate(false))]
  }

  lemma OverlappedRefused(value: string, first: string, second: string)
    ensures Run(Fresh(value, [first, second]), BothRefused()) ==
              State([value, first, second], [Action(first, Done(false)), Action(second, Refused(Write(first, 1, Some(2), Some(2), true)))])
  {
    RunAppend(Fresh(value, [first, second]),
              [Of(0, Snapshot(true)), Of(0, Put(Answered(true))), Of(1, Snapshot(true)), Of(0, Mutate(false))],
              [Of(1, Put(Answered(true))), Of(0, RollBack(true)), Of(1, Mutate(false))]);
    OverlappedUpToRefusal(value, first, second);
    var s := State([value, first], [Action(first, Refused(Write(value, 0, Some(1), Some(1), true))), Action(second, Snapshotted(first, 1))]);
    RunThree(s, Of(1, Put(Answered(true))), Of(0, RollBack(true)), Of(1, Mutate(false)));
    hide Run;
  }

  /** The second rollback puts back what its write replaced, and that is the rejected value. */
  lemma RejectedValueSurvives(value: string, first: string, second: string)
    ensures After(Run(Fresh(value, [first, second]), BothRefused()), Of(1, RollBack(true))) ==
              State([value, first, second, first], [Action(first, Done(false)), Action(second, Done(false))])
  {
    OverlappedRefused(value, first, second);
    hide Run;
  }

  /** The first update is accepted between the second one's snapshot and write; the second is refused. */
  function AcceptedBetween(): seq<Event> {
    [Of(1, Snapshot(true)), Of(0, Snapshot(true)), Of(0, Put(Answered(true))), Of(0, Mutate(true))]
    + [Of(1, Put(Answered(true))), Of(1, Mutate(false))]
  }

  lemma RefusedAfterAccepted(value: string, first: string, second: string)
    ensures Run(Fresh(value, [first, second]), AcceptedBetween()) ==
              State([value, first, second], [Action(first, Done(true)), Action(second, Refused(Write(value, 0, Some(2), Some(2), true)))])
  {
    var s0 := Fresh(value, [first, second]);
    assert s0 == State([value], [Action(first, Ready), Action(second, Ready)]);
    RunFour(s0, Of(1, Snapshot(true)), Of(0, Snapshot(true)), Of(0, Put(Answered(true))), Of(0, Mutate(true)));
    var s4 := State([value, first], [Action(first, Done(true)), Action(second, Snapshotted(value, 0))]);
    assert After(After(After(After(s0, Of(1, Snapshot(true))), Of(0, Snapshot(true))), Of(0, Put(Answered(true)))), Of(0, Mutate(true))) == s4;
    RunTwo(s4, Of(1, Put(Answered(true))), Of(1, Mutate(false)));
    RunAppend(s0, [Of(1, Snapshot(true)), Of(0, Snapshot(true)), Of(0, Put(Answered(true))), Of(0, Mutate(true))],
              [Of(1, Put(Answered(true))), Of(1, Mutate(false))]);
    hide Run;
  }

  /** And its rollback undoes the accepted one. */
  lemma AcceptedValueIsLost(value: string, first: string, second: string)
    ensures After(Run(Fresh(value, [first, second]), AcceptedBetween()), Of(1, RollBack(true))) ==
              State([value, first, second, value], [Action(first, Done(true)), Action(second, Done(false))])
  {
    RefusedAfterAccepted(value, first, second);
    hide Run;
  }

  lemma UnversionedUpToRefusal(value: string, first: string, second: string)
    ensures Run(Fresh(value, [first, second]), Unversioned()) ==
              State([value, first, second], [Action(first, Refused(Write(value, 0, Some(1), None, true))), Action(second, Done(true))])
  {
    var s0 := Fresh(value, [first, second]);
    assert s0 == State([value], [Action(first, Ready), Action(second, Ready)]);
    RunFour(s0, Of(0, Snapshot(true)), Of(0, Put(Answered(false))), Of(1, Snapshot(true)), Of(1, Put(Answered(true))));
    var s4 := State([value, first, second], [Action(first, Written(Write(value, 0, Some(1), None, true))),
                                             Action(second, Written(Write(first, 1, Some(2), Some(2), true)))]);
    assert After(After(After(After(s0, Of(0, Snapshot(true))), Of(0, Put(Answered(false)))), Of(1, Snapshot(true))), Of(1, Put(Answered(true)))) == s4;
    RunAppend(s0, [Of(0, Snapshot(true)), Of(0, Put(Answered(false))), Of(1, Snapshot(true)), Of(1, Put(Answered(true)))],
              [Of(1, Mutate(true)), Of(0, Mutate(false))]);
    RunTwo(s4, Of(1, Mutate(true)), Of(0, Mutate(false)));
    hide Run;
  }

  /** The reply to the first update carries no version; it is refused after the second is accepted. */
  function Unversioned(): seq<Event> {
    [Of(0, Snapshot(true)), Of(0, Put(Answered(false))), Of(1, Snapshot(true)), Of(1, Put(Answered(true)))]
    + [Of(1, Mutate(true)), Of(0, Mutate(false))]
  }

  /** Its rollback discards the accepted one. */
  lemma UnversionedRollbackDiscards(value: string, first: string, second: string)
    ensures After(Run(Fresh(value, [first, second]), Unversioned()), Of(0, RollBack(true))) ==
              State([value, first, second, value], [Action(first, Done(false)), Action(second, Done(true))])
  {
    UnversionedUpToRefusal(value, first, second);
    hide Run;
  }

  /**
    The same credentials submitted twice. The reply to the first write is lost, applied or not; the second
    is accepted, the first takes the second's object for its own and is refused.
  */
  function Resubmitted(applied: bool): seq<Event> {
    [Of(0, Snapshot(true)), Of(1, Snapshot(true)), Of(0, Put(Lost(applied))), Of(1, Put(Answered(true)))]
    + [Of(1, Mutate(true)), Of(0, ReadBack(Found(true))), Of(0, Mutate(false))]
  }

  /** Its rollback replaces the accepted credentials, although a version was told. */
  lemma LostReplyRollbackDiscards(value: string, credentials: string, applied: bool)
    ensures var log := [value] + (if applied then [credentials] else []) + [credentials];
            var s := Run(Fresh(value, [credentials, credentials]), Resubmitted(applied));
            && s == State(log, [Action(credentials, Refused(Write(value, 0, if applied then Some(1) else None, Some(|log| - 1), false))),
                                Action(credentials, Done(true))])
            && After(s, Of(0, RollBack(true))) == State(log + [value], [Action(credentials, Done(false)), Action(credentials, Done(true))])
  {
    var s0 := Fresh(value, [credentials, credentials]);
    assert s0 == State([value], [Action(credentials, Ready), Action(credentials, Ready)]);
    var landed := [value] + if applied then [credentials] else [];
    var s4 := State(landed + [credentials],
                    [Action(credentials, Uncertain(value, 0, if applied then Some(1) else None, 0)),
                     Action(credentials, Written(Write(value, 0, Some(|landed|), Some(|landed|), true)))]);
    RunFour(s0, Of(0, Snapshot(true)), Of(1, Snapshot(true)), Of(0, Put(Lost(applied))), Of(1, Put(Answered(true))));
    assert After(After(After(After(s0, Of(0, Snapshot(true))), Of(1, Snapshot(true))), Of(0, Put(Lost(applied)))), Of(1, Put(Answered(true)))) == s4;
    RunThree(s4, Of(1, Mutate(true)), Of(0, ReadBack(Found(true))), Of(0, Mutate(false)));
    RunAppend(s0, [Of(0, Snapshot(true)), Of(1, Snapshot(true)), Of(0, Put(Lost(applied))), Of(1, Put(Answered(true)))],
              [Of(1, Mutate(true)), Of(0, ReadBack(Found(true))), Of(0, Mutate(false))]);
    hide Run;
  }

  // ----- the action as the code runs it

  datatype VaultError = VersionConflict | ProviderFailure | Unconfirmed

  /** One read-back, and what others write to the object in the pause before it. */
  datatype Try = Try(others: seq<string>, reading: Reading)

  /** The object and the answer after reading back: a version, or none, of a current object with the value. */
  function Reconciled(log: seq<string>, value: string, tries: seq<Try>): (seq<string>, Option<Option<Version>>)
    decreases |tries|
  {
    if tries == [] then (log, None)
    else
      var now := log + tries[0].others;
      if tries[0].reading == Failed then (now, None)
      else if tries[0].reading.Found? && Value(now) == value then (now, Some(Told(now, tries[0].reading.reports)))
      else Reconciled(now, value, tries[1..])
  }

  /** The object when the `i`th read-back comes. */
  function LogAt(log: seq<string>, tries: seq<Try>, i: nat): seq<string>
    requires i < |tries|
    decreases |tries|
  {
    if i == 0 then log + tries[0].others else LogAt(log + tries[0].others, tries[1..], i - 1)
  }

  /** The `i`th read-back finds the value in place, and none before it failed. */
  predicate ConfirmedAt(log: seq<string>, value: string, tries: seq<Try>, i: nat)
    requires i < |tries|
  {
    && tries[i].reading.Found? && Value(LogAt(log, tries, i)) == value
    && forall j | 0 <= j < i :: tries[j].reading != Failed
  }

  /** A write is confirmed exactly when some read-back finds its value current, with the version current then. */
  lemma {:induction false} ReconciledIff(log: seq<string>, value: string, tries: seq<Try>) returns (i: nat)
    ensures var (after, confirmed) := Reconciled(log, value, tries);
            && log <= after
            && (confirmed == None ==> forall k | 0 <= k < |tries| :: !ConfirmedAt(log, value, tries, k))
            && (confirmed.Some? ==>
                  && i < |tries| && ConfirmedAt(log, value, tries, i) && after == LogAt(log, tries, i)
                  && confirmed.value == Told(after, tries[i].reading.reports)
                  && forall k | 0 <= k < i :: !ConfirmedAt(log, value, tries, k))
    decreases |tries|
  {
    i := 0;
    if tries != [] {
      var now := log + tries[0].others;
      if tries[0].reading != Failed && !(tries[0].reading.Found? && Value(now) == value) {
        var later := ReconciledIff(now, value, tries[1..]);
        LaterConfirmed(log, value, tries);
        hide ConfirmedAt;
        i := later + 1;
      }
    }
  }

  lemma LaterConfirmed(log: seq<string>, value: string, tries: seq<Try>)
    requires tries != [] && tries[0].reading != Failed
    ensures forall k | 0 < k < |tries| ::
              && LogAt(log, tries, k) == LogAt(log + tries[0].others, tries[1..], k - 1)
              && (ConfirmedAt(log, value, tries, k) <==> ConfirmedAt(log + tries[0].others, value, tries[1..], k - 1))
  {
    forall k | 0 < k < |tries|
      ensures ConfirmedAt(log, value, tries, k) <==> ConfirmedAt(log + tries[0].others, value, tries[1..], k - 1)
    {
      assert forall j | 0 <= j < k - 1 :: tries[1..][j] == tries[j + 1];
      if ConfirmedAt(log + tries[0].others, value, tries[1..], k - 1) {
        forall j | 0 <= j < k
          ensures tries[j].reading != Failed
        {
          assert j > 0 ==> tries[j] == tries[1..][j - 1];
        }
      }
    }
  }

  predicate Lands(reply: Reply) {
    reply.Answered? || reply.applied
  }

  /** One vault object. */
  class VaultObject {
    var log: seq<string>

    constructor (value: string)
      ensures log == [value]
    {
      log := [value];
    }

    method ReadSecret() returns (value: string)
      ensures value == Value(log)
    {
      value := if |log| == 0 then "" else log[|log| - 1];
    }

    /** What other actions write meanwhile. */
    method Interfere(values: seq<string>)
      modifies this
      ensures log == old(log) + values
    {
      log := log + values;
    }

    method ReadUpdatedObject(expected: string, reading: Reading) returns (r: Option<Option<Version>>)
      requires log != []
      ensures r == if reading.Found? && Value(log) == expected then Some(Told(log, reading.reports)) else None
    {
      if !reading.Found? {
        return None;
      }
      var value := ReadSecret();
      if value != expected {
        return None;
      }
      return Some(if reading.reports then Some(|log| - 1) else None);
    }

    method ReconcileUpdatedObject(expected: string, tries: seq<Try>) returns (r: Option<Option<Version>>)
      requires log != []
      modifies this
      ensures (log, r) == Reconciled(old(log), expected, tries)
    {
      for i := 0 to |tries|
        invariant log != [] && Reconciled(log, expected, tries[i..]) == Reconciled(old(log), expected, tries)
      {
        assert tries[i..][0] == tries[i] && tries[i..][1..] == tries[i + 1..];
        Interfere(tries[i].others);
        if tries[i].reading == Failed {
          return None;
        }
        r := ReadUpdatedObject(expected, tries[i].reading);
        if r.Some? {
          return r;
        }
      }
      assert tries[|tries|..] == [];
      return None;
    }

    /** Replaces the value; a lost reply is made up for by reading the object back. */
    method UpdateSecret(value: string, versionCheck: Option<Version>, reply: Reply, tries: seq<Try>)
      returns (r: Result<Option<Version>, VaultError>)
      requires log != [] && |tries| == TRIES
      modifies this
      ensures var landed := if Lands(reply) then Updated(old(log), value, versionCheck) else old(log);
              match reply
              case Answered(reports) =>
                log == landed && r == if landed == old(log) then Err(VersionConflict) else Ok(Told(landed, reports))
              case Rejected(_) => log == landed && r == Err(ProviderFailure)
              case Lost(_) =>
                var (after, confirmed) := Reconciled(landed, value, tries);
                log == after && r == if confirmed.Some? then Ok(confirmed.value) else Err(Unconfirmed)
    {
      var admitted := versionCheck == None || versionCheck.value == |log| - 1;
      if admitted && (reply.Answered? || reply.applied) {
        log := log + [value];
      }
      match reply {
        case Answered(reports) =>
          if !admitted {
            return Err(VersionConflict);
          }
          return Ok(if reports then Some(|log| - 1) else None);
        case Rejected(_) =>
          return Err(ProviderFailure);
        case Lost(_) =>
          var confirmed := ReconcileUpdatedObject(value, tries);
          if confirmed.Some? {
            return Ok(confirmed.value);
          }
          return Err(Unconfirmed);
      }
    }
  }

  /** How one action goes, with what others write in each of its pauses. */
  datatype Course = Course(
    readable: bool, beforePut: seq<string>, put: Reply, tries: seq<Try>, beforeMutation: seq<string>, accepts: bool,
    beforeRollback: seq<string>, restore: Reply, restoreTries: seq<Try>)

  /** The read-backs as events of the interleaved machine, up to the last one made. */
  lemma {:induction false} ReadBacksAreSteps(log: seq<string>, c: string, previous: string, seen: Version, mine: Option<Version>, tries: seq<Try>, done: nat)
    returns (evs: seq<Event>)
    requires log != [] && |tries| + done == TRIES && tries != []
    ensures var (after, confirmed) := Reconciled(log, c, tries);
            && after != []
            && Run(State(log, [Action(c, Uncertain(previous, seen, mine, done))]), evs) ==
                 State(after, [Action(c, if confirmed.Some? then Written(Write(previous, seen, mine, confirmed.value, false)) else Done(false))])
    decreases |tries|
  {
    var s := State(log, [Action(c, Uncertain(previous, seen, mine, done))]);
    var now := log + tries[0].others;
    evs := [Elsewhere(tries[0].others), Of(0, ReadBack(tries[0].reading))];
    RunTwo(s, evs[0], evs[1]);
    assert After(After(s, evs[0]), evs[1]).actions == [After(After(s, evs[0]), evs[1]).actions[0]];
    hide Run;
    if tries[0].reading != Failed && !(tries[0].reading.Found? && Value(now) == c) && |tries| > 1 {
      var rest := ReadBacksAreSteps(now, c, previous, seen, mine, tries[1..], done + 1);
      RunAppend(s, evs, rest);
      evs := evs + rest;
    }
  }

  /** Snapshot, write and read-backs as events of the machine. */
  lemma OpeningIsSteps(log: seq<string>, c: string, course: Course) returns (evs: seq<Event>)
    requires log != [] && |course.tries| == TRIES && course.readable
    ensures var before := log + course.beforePut;
            var landed := if Lands(course.put) then before + [c] else before;
            var mine := if Lands(course.put) then Some(|before|) else None;
            var (after, phase) := match course.put
              case Answered(reports) => (landed, Written(Write(Value(log), |log| - 1, mine, Told(landed, reports), true)))
              case Rejected(_) => (landed, Done(false))
              case Lost(_) =>
                var (after, confirmed) := Reconciled(landed, c, course.tries);
                (after, if confirmed.Some? then Written(Write(Value(log), |log| - 1, mine, confirmed.value, false)) else Done(false));
            Run(State(log, [Action(c, Ready)]), evs) == State(after, [Action(c, phase)])
  {
    var s := State(log, [Action(c, Ready)]);
    evs := [Of(0, Snapshot(true)), Elsewhere(course.beforePut), Of(0, Put(course.put))];
    RunThree(s, evs[0], evs[1], evs[2]);
    var put := After(After(After(s, evs[0]), evs[1]), evs[2]);
    assert put.actions == [put.actions[0]];
    hide Run;
    if course.put.Lost? {
      var before := log + course.beforePut;
      var mine := if Lands(course.put) then Some(|before|) else None;
      var rest := ReadBacksAreSteps(if Lands(course.put) then before + [c] else before, c, Value(log), |log| - 1, mine, course.tries, 0);
      RunAppend(s, evs, rest);
      evs := evs + rest;
    }
  }

  /** The rollback call, with whatever comes while its own reply is awaited. */
  lemma RollbackIsStep(s: State, reply: Reply, log: seq<string>) returns (evs: seq<Event>)
    requires |s.actions| == 1 && s.actions[0].phase.Refused?
    requires var w := s.actions[0].phase.write;
             (if Lands(reply) then Updated(s.log, w.previous, w.reported) else s.log) <= log
    ensures Run(s, evs) == State(log, [s.actions[0].(phase := Done(false))])
  {
    var w := s.actions[0].phase.write;
    var landed := if Lands(reply) then Updated(s.log, w.previous, w.reported) else s.log;
    evs := [Of(0, RollBack(Lands(reply))), Elsewhere(log[|landed|..])];
    RunTwo(s, evs[0], evs[1]);
    assert landed + log[|landed|..] == log;
    hide Run;
  }

  predicate Quiet(tries: seq<Try>) {
    forall t <- tries :: t.others == []
  }

  /** Nobody else writes while the action runs. */
  predicate Alone(course: Course) {
    course.beforePut == course.beforeMutation == course.beforeRollback == [] && Quiet(course.tries) && Quiet(course.restoreTries)
  }

  function TurnOf(course: Course): Turn
    requires |course.tries| == TRIES
  {
    Turn(course.readable, course.put, course.tries[0].reading, course.tries[1].reading, course.tries[2].reading, course.accepts,
         Lands(course.restore))
  }

  lemma {:induction false} QuietReconciled(log: seq<string>, value: string, tries: seq<Try>)
    requires Quiet(tries)
    ensures Reconciled(log, value, tries).0 == log
    decreases |tries|
  {
    if tries != [] {
      assert log + [] == log;
      QuietReconciled(log, value, tries[1..]);
    }
  }

  lemma ReconciledAlone(log: seq<string>, value: string, course: Course)
    requires |course.tries| == TRIES && Quiet(course.tries) && log != []
    ensures Reconciled(log, value, course.tries).1.Some? <==> ReadsBack(TurnOf(course)) && Value(log) == value
    ensures Reconciled(log, value, course.tries).1 in {None, Some(None), Some(Some(|log| - 1))}
  {
    var tries := course.tries;
    var (second, third) := (tries[1..], tries[1..][1..]);
    assert log + [] == log;
    assert tries[0] in tries && second[0] == tries[1] && tries[1] in tries && third[0] == tries[2] && tries[2] in tries && third[1..] == [];
    assert Reconciled(log, value, third[1..]) == (log, None);
    assert Reconciled(log, value, third).1 ==
           if third[0].reading.Found? && Value(log) == value then Some(Told(log, third[0].reading.reports)) else None;
    assert tries[0].reading != Failed && !(tries[0].reading.Found? && Value(log) == value) ==>
             Reconciled(log, value, tries) == Reconciled(log, value, second);
  }

  /** The snapshot and the write, and the same as events of the machine. */
  method Rewrite(vault: VaultObject, c: string, course: Course)
    returns (previous: string, r: Result<Option<Version>, VaultError>, ghost w: Write, ghost evs: seq<Event>)
    requires vault.log != [] && |course.tries| == TRIES && course.readable
    modifies vault
    ensures previous == Value(old(vault.log)) && vault.log != []
    ensures r.Ok? ==> w.previous == previous && w.reported == r.value
    ensures Run(State(old(vault.log), [Action(c, Ready)]), evs) ==
              State(vault.log, [Action(c, if r.Ok? then Written(w) else Done(false))])
    ensures Alone(course) ==>
              && vault.log == (if Lands(course.put) then old(vault.log) + [c] else old(vault.log))
              && (r.Ok? <==> Learns(previous, c, TurnOf(course)))
              && (r.Ok? ==> r.value in {None, Some(|vault.log| - 1)})
  {
    hide Run, Reconciled, ReadsBack;
    previous := vault.ReadSecret();
    vault.Interfere(course.beforePut);
    ghost var before := vault.log;
    ghost var landed := if Lands(course.put) then before + [c] else before;
    evs := OpeningIsSteps(old(vault.log), c, course);
    ghost var _ := ReconciledIff(landed, c, course.tries);
    if Alone(course) {
      assert before == old(vault.log);
      QuietReconciled(landed, c, course.tries);
      ReconciledAlone(landed, c, course);
    }
    r := vault.UpdateSecret(c, None, course.put, course.tries);
    w := if r.Ok? then Run(State(old(vault.log), [Action(c, Ready)]), evs).actions[0].phase.write else Write("", 0, None, None, false);
  }

  /** The rollback, on a best effort: its own answer is dropped. */
  method RestorePrevious(vault: VaultObject, c: string, previous: string, version: Option<Version>, course: Course, ghost w: Write)
    returns (ghost evs: seq<Event>)
    requires vault.log != [] && |course.restoreTries| == TRIES && w.previous == previous && w.reported == version
    modifies vault
    ensures Run(State(old(vault.log), [Action(c, Refused(w))]), evs) == State(vault.log, [Action(c, Done(false))])
    ensures Alone(course) ==> vault.log == if Lands(course.restore) then Updated(old(vault.log), previous, version) else old(vault.log)
  {
    hide Run, Reconciled;
    ghost var s := State(vault.log, [Action(c, Refused(w))]);
    vault.Interfere(course.beforeRollback);
    ghost var before := vault.log;
    ghost var landed := if Lands(course.restore) then Updated(before, previous, version) else before;
    ghost var _ := ReconciledIff(landed, previous, course.restoreTries);
    if Alone(course) {
      QuietReconciled(landed, previous, course.restoreTries);
    }
    var _ := vault.UpdateSecret(previous, version, course.restore, course.restoreTries);
    RunOne(s, Elsewhere(course.beforeRollback));
    ghost var last := RollbackIsStep(State(before, s.actions), course.restore, vault.log);
    evs := [Elsewhere(course.beforeRollback)] + last;
    RunAppend(s, [Elsewhere(course.beforeRollback)], last);
  }

  /** What others write before the mutation, and its decision, as events. */
  lemma DecisionIsSteps(log: seq<string>, c: string, w: Write, values: seq<string>, accepts: bool)
    ensures Run(State(log, [Action(c, Written(w))]), [Elsewhere(values), Of(0, Mutate(accepts))]) ==
              State(log + values, [Action(c, if accepts then Done(true) else Refused(w))])
  {
    RunTwo(State(log, [Action(c, Written(w))]), Elsewhere(values), Of(0, Mutate(accepts)));
    hide Run;
  }

  /**
    The whole action. Under any interference it is a run of one action of the machine, so what is proved
    of every interleaving holds of it; alone it goes as its turn says. Metadata-only updates never touch
    the vault.
  */
  method UpdateWithCredentials(vault: VaultObject, credentials: Option<string>, course: Course)
    returns (accepted: bool, ghost evs: seq<Event>)
    requires vault.log != [] && |course.tries| == |course.restoreTries| == TRIES
    modifies vault
    ensures credentials == None ==> vault.log == old(vault.log) && accepted == course.accepts
    ensures credentials.Some? ==>
              Run(State(old(vault.log), [Action(credentials.value, Ready)]), evs) ==
              State(vault.log, [Action(credentials.value, Done(accepted))])
    ensures credentials.Some? && Alone(course) ==>
              var (c, t) := (credentials.value, TurnOf(course));
              && (accepted <==> t.readable && t.accepts && Learns(Value(old(vault.log)), c, t))
              && Value(vault.log) == if Stays(t) then c else Value(old(vault.log))
  {
    if credentials == None {
      return course.accepts, [];
    }
    var c := credentials.value;
    ghost var s0 := State(vault.log, [Action(c, Ready)]);
    hide Run, ReadsBack;
    if !course.readable {
      evs := [Of(0, Snapshot(false))];
      RunOne(s0, evs[0]);
      return false, evs;
    }
    var previous, reply, w, opening := Rewrite(vault, c, course);
    if reply.Err? {
      return false, opening;
    }
    ghost var decision := [Elsewhere(course.beforeMutation), Of(0, Mutate(course.accepts))];
    DecisionIsSteps(vault.log, c, w, course.beforeMutation, course.accepts);
    RunAppend(s0, opening, decision);
    vault.Interfere(course.beforeMutation);
    if course.accepts {
      return true, opening + decision;
    }
    ghost var last := RestorePrevious(vault, c, previous, reply.value, course, w);
    RunAppend(s0, opening + decision, last);
    return false, opening + decision + last;
  }
}
