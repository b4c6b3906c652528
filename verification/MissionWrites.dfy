/** What every change of the durable mission was entitled to, over every run. */
module MissionWrites {
  import opened Common
  import opened Mission
  import opened MissionRuns

  /** The same mission, however far it has got. */
  predicate SameMission(a: Record, b: Record) {
    && a.generation == b.generation && a.commit == b.commit && a.previous == b.previous
    && a.owned == b.owned && a.candidate == b.candidate
  }

  /** A pending mission may progress; only a finished one may be replaced, by a newer pending one. */
  predicate Continues(before: Option<Record>, m: Record) {
    match before
    case None => m.phase == Pending
    case Some(b) =>
      if b.phase == Pending then SameMission(b, m)
      else b.generation < m.generation && m.phase == Pending
  }

  /** The supervisor ran at some time in this operation, and after that the target was proven
      within one tenure of the generation lock lasting through `until`. */
  ghost predicate SupervisedProof(tr: seq<World>, target: Commit, at: nat, p: Proof, until: nat) {
    RunningAt(tr, at) && at <= p.since && Proven(tr, target, p, until)
  }

  /** Such a proof whose lock is held to this moment. */
  ghost predicate StandingProof(tr: seq<World>, target: Commit, at: nat, p: Proof) {
    tr != [] && SupervisedProof(tr, target, at, p, |tr| - 1)
  }

  /** The right to end a mission, at the moment just before the write. A supervised confirmation is
      still inside the lock; a supervised rollback has let it go at `until`. */
  ghost predicate MayEnd(tr: seq<World>, m: Record)
    requires tr != []
  {
    match (m.owned, m.phase)
    case (Supervisor, Confirmed) =>
      Last(tr).locked && exists at, p :: StandingProof(tr, m.commit, at, p)
    case (Supervisor, RolledBack) =>
      exists at, p, until :: SupervisedProof(tr, m.previous, at, p, until)
    case (Controller, Confirmed) =>
      exists at :: SeenAlive(tr, at, m)
    case (Controller, RolledBack) =>
      m.candidate.Some? && m.candidate.value !in Last(tr).candidates
    case (Unknown, _) => false
    case (_, Pending) => true
  }

  ghost predicate Entitled(tr: seq<World>, after: Option<Record>)
    requires tr != []
  {
    after.Some? && Continues(Last(tr).mission, after.value) && MayEnd(tr, after.value)
  }

  /** A write that continues the mission without ending it. */
  predicate Progresses(before: Option<Record>, after: Option<Record>) {
    after.Some? && Continues(before, after.value) && after.value.phase == Pending && after.value.owned != Unknown
  }

  /** A write that ends the pending mission `m` as `phase`. */
  predicate Ends(before: Option<Record>, after: Option<Record>, m: Record, phase: Phase) {
    && before.Some? && before.value.phase == Pending && SameMission(before.value, m)
    && after.Some? && SameMission(m, after.value) && after.value.phase == phase
  }

  /** The only writes there are, and the places in the program they come from. */
  predicate Lawful(w: World, after: Option<Record>) {
    var c := w.control;
    || after == w.mission
    || Progresses(w.mission, after)
    || ((c.Restore? || c.Terminal?) && Ends(w.mission, after, c.m, RolledBack))
    || ((c.LegacyConfirm? || (c.Checking? && c.goal == Forward && c.read == 4))
       && Ends(w.mission, after, c.m, Confirmed))
  }

  lemma EnvironmentWrites(w: World, a: Outside)
    requires Agrees(w)
    ensures Lawful(w, Environment(w, a).mission)
  {}

  lemma DeployWrites(w: World, a: CheckoutStep)
    requires Agrees(w)
    ensures Lawful(w, Deploy(w, a).mission)
  {
    match a
    case BeginCheckout(_, _, _, _) =>
    case Publish(_) =>
    case HandOff(_) =>
    case GoLive(_) =>
  }

  lemma RollbackWrites(w: World, a: RollbackStep)
    requires Agrees(w)
    ensures Lawful(w, Rollback(w, a).mission)
  {
    if w.control.Restore? {
      assert SameMission(w.mission.value, w.control.m);
    }
  }

  lemma ConfirmWrites(w: World, a: ConfirmStep)
    requires Agrees(w)
    ensures Lawful(w, Confirm(w, a).mission)
  {}

  lemma FinalizeWrites(w: World, a: SettleStep)
    requires Agrees(w)
    ensures Lawful(w, Finalize(w, a).mission)
  {
    match a
    case ConfirmSupervised(_) =>
    case RollBackSupervised(_) =>
    case _ => assert Finalize(w, a).mission == w.mission;
  }

  lemma ProveWrites(w: World, a: ProofStep)
    requires Agrees(w)
    ensures Lawful(w, Prove(w, a).mission)
  {}

  lemma StepWrites(w: World, a: Action)
    requires Agrees(w)
    ensures Lawful(w, Apply(w, a).mission)
  {
    match a
    case Env(e) => EnvironmentWrites(w, e);
    case Deploys(s) => DeployWrites(w, s);
    case Rolls(s) => RollbackWrites(w, s);
    case Confirms(s) => ConfirmWrites(w, s);
    case Settles(s) => FinalizeWrites(w, s);
    case Proves(s) => ProveWrites(w, s);
  }

  /** Each place in the program from which a mission is ended carries the right to end it. */
  lemma PlacesMayEnd(tr: seq<World>, m: Record)
    requires Inv(tr)
    requires var c := Last(tr).control;
             || ((c.Restore? || c.Terminal?) && SameMission(c.m, m) && m.phase == RolledBack)
             || ((c.LegacyConfirm? || (c.Checking? && c.goal == Forward && c.read == 4)) && SameMission(c.m, m)
                && m.phase == Confirmed)
    ensures MayEnd(tr, m)
  {
    var c := Last(tr).control;
    match c
    case LegacyConfirm(_, seen) => assert SeenAlive(tr, seen, m);
    case Terminal(_, at, released, p) => assert SupervisedProof(tr, m.previous, at, p, released);
    case Checking(_, _, at, _, _, p) =>
      Completes(tr, m.commit, p);
      assert StandingProof(tr, m.commit, at, p);
    case _ =>
  }

  lemma WriteEntitled(tr: seq<World>, after: Option<Record>)
    requires Inv(tr) && Lawful(Last(tr), after) && after != Last(tr).mission
    ensures Entitled(tr, after)
  {
    if !Progresses(Last(tr).mission, after) {
      PlacesMayEnd(tr, after.value);
    }
  }

  /** Over every run of checkout, confirm, status and watchdog operations, however interrupted and
      whatever the supervisor does, each change of the mission was entitled: a supervised mission is
      confirmed only inside the generation lock with the exact settled intent still standing and a
      live ready child proven under it, it is rolled back only by an operation that saw the
      supervisor running and proved the previous commit so, a controller-owned one is rolled back
      only with its candidate dead, and one of unknown ownership is never ended at all. */
  lemma EveryWriteEntitled(tr: seq<World>, acts: seq<Action>, k: nat)
    requires IsRun(tr, acts) && k < |acts| && tr[k + 1].mission != tr[k].mission
    ensures Entitled(tr[..k + 1], tr[k + 1].mission)
  {
    RunKeeps(tr, acts, k);
    var past := tr[..k + 1];
    assert Last(past) == tr[k] && Linked(tr, acts, k);
    StepWrites(tr[k], acts[k]);
    WriteEntitled(past, tr[k + 1].mission);
  }

  /** One step of the durable mission: none, or a continuation of known ownership. */
  predicate Follows(before: Option<Record>, after: Option<Record>) {
    after == before || (after.Some? && Continues(before, after.value) && after.value.owned != Unknown)
  }

  ghost predicate Chained(tr: seq<World>) {
    forall k {:trigger tr[k]} :: 0 <= k < |tr| - 1 ==> Follows(tr[k].mission, tr[k + 1].mission)
  }

  lemma MissionStep(tr: seq<World>, acts: seq<Action>, k: nat)
    requires IsRun(tr, acts) && k < |acts|
    ensures Follows(tr[k].mission, tr[k + 1].mission)
  {
    if tr[k + 1].mission != tr[k].mission {
      EveryWriteEntitled(tr, acts, k);
      assert Last(tr[..k + 1]) == tr[k];
    }
  }

  lemma RunsChained(tr: seq<World>, acts: seq<Action>)
    requires IsRun(tr, acts)
    ensures Chained(tr)
  {
    forall k | 0 <= k < |tr| - 1 ensures Follows(tr[k].mission, tr[k + 1].mission) {
      MissionStep(tr, acts, k);
    }
  }

  /** A mission further on: newer, or the same one with everything but its progress kept. */
  predicate Later(b: Record, m: Record) {
    b.generation < m.generation || (SameMission(b, m) && (b.phase != Pending ==> b == m))
  }

  lemma {:induction false} ChainLater(tr: seq<World>, i: nat, j: nat)
    requires Chained(tr) && i <= j < |tr| && tr[i].mission.Some?
    ensures tr[j].mission.Some? && Later(tr[i].mission.value, tr[j].mission.value)
  {
    if i < j {
      ChainLater(tr, i, j - 1);
      assert Follows(tr[j - 1].mission, tr[j].mission);
    }
  }

  /** Generations only grow, and a mission keeps its ownership, commits and candidate for as long as
      it is the durable one; once ended it never changes. */
  lemma OwnershipFrozen(tr: seq<World>, acts: seq<Action>, i: nat, j: nat)
    requires IsRun(tr, acts) && i <= j < |tr| && tr[i].mission.Some?
    ensures tr[j].mission.Some? && Later(tr[i].mission.value, tr[j].mission.value)
  {
    RunsChained(tr, acts);
    ChainLater(tr, i, j);
  }

  /** A decision taken about the mission of one moment still concerns the mission of a later one
      if and only if no newer generation has been published in between. */
  lemma DecisionStillConcerns(tr: seq<World>, acts: seq<Action>, i: nat, j: nat)
    requires IsRun(tr, acts) && i <= j < |tr| && tr[i].mission.Some?
    ensures tr[j].mission.Some?
    ensures var b, m := tr[i].mission.value, tr[j].mission.value;
            SameMission(b, m) <==> !(b.generation < m.generation)
  {
    OwnershipFrozen(tr, acts, i, j);
  }

  lemma {:induction false} ChainHoldsUnknown(tr: seq<World>, i: nat, j: nat)
    requires Chained(tr) && i <= j < |tr|
    requires tr[i].mission.Some? && tr[i].mission.value.owned == Unknown && tr[i].mission.value.phase == Pending
    ensures tr[j].mission == tr[i].mission
  {
    if i < j {
      ChainHoldsUnknown(tr, i, j - 1);
      assert Follows(tr[j - 1].mission, tr[j].mission);
    }
  }

  /** A pending mission of unknown ownership stays exactly as it is for ever. */
  lemma UnknownHeld(tr: seq<World>, acts: seq<Action>, i: nat, j: nat)
    requires IsRun(tr, acts) && i <= j < |tr|
    requires tr[i].mission.Some? && tr[i].mission.value.owned == Unknown && tr[i].mission.value.phase == Pending
    ensures tr[j].mission == tr[i].mission
  {
    RunsChained(tr, acts);
    ChainHoldsUnknown(tr, i, j);
  }

  /** The watchdog and the due predicate part ways exactly on missions the controller does not own
      while no supervisor runs: there the predicate says due and the watchdog holds. */
  lemma DueAndWatchdogDisagree(m: Record, w: World)
    ensures RollbackDue(m, w) != WatchdogWants(m, w) <==> m.owned != Controller && !w.running
    ensures m.owned != Controller && !w.running ==> RollbackDue(m, w) && !WatchdogWants(m, w)
  {}

  /** What the supervisor may legitimately do to a pending mission's commit: be asked for it again,
      at a newer generation, or apply a newer generation up to the one desired. */
  datatype Progress = Asked(generation: nat) | Applied(generation: nat)

  predicate Legitimate(m: Record, desired: Desired, status: Report, p: Progress)
    requires desired.Intent?
  {
    match p
    case Asked(g) => g >= m.generation && g >= status.applied && g > desired.generation
    case Applied(g) => status.applied <= g <= desired.generation
  }

  function DesiredAfter(m: Record, desired: Desired, ps: seq<Progress>): Desired {
    if ps == [] then desired
    else if ps[|ps| - 1].Asked? then Intent(m.commit, ps[|ps| - 1].generation)
    else DesiredAfter(m, desired, ps[..|ps| - 1])
  }

  function StatusAfter(status: Report, ps: seq<Progress>): Report {
    if ps == [] then status
    else if ps[|ps| - 1].Applied? then status.(applied := ps[|ps| - 1].generation)
    else StatusAfter(status, ps[..|ps| - 1])
  }

  /** Restarts and migrations of the same commit never cost a pending mission its authority, at any
      moment between being asked for and being applied; an intent for another commit at or after
      the mission does, whatever has been applied. */
  lemma {:induction false} CompatibleThroughRestarts(
    m: Record, desired: Desired, status: Report, ps: seq<Progress>, other: Desired)
    requires ConfirmationMatches(m, desired, Some(status))
    requires forall i :: 0 <= i < |ps| ==>
               var d := DesiredAfter(m, desired, ps[..i]);
               d.Intent? && Legitimate(m, d, StatusAfter(status, ps[..i]), ps[i])
    ensures ConfirmationMatches(m, DesiredAfter(m, desired, ps), Some(StatusAfter(status, ps)))
    ensures other.Intent? && other.commit != m.commit && other.generation >= m.generation ==>
              !ConfirmationMatches(m, other, Some(StatusAfter(status, ps)))
  {
    if ps != [] {
      var n := |ps| - 1;
      var front := ps[..n];
      forall i | 0 <= i < |front|
        ensures var d := DesiredAfter(m, desired, front[..i]);
                d.Intent? && Legitimate(m, d, StatusAfter(status, front[..i]), front[i])
      {
        assert front[..i] == ps[..i];
      }
      CompatibleThroughRestarts(m, desired, status, front, other);
    }
  }

  /** The predicates agree: a desired intent at or after the mission has converged, by the lifecycle
      gate, exactly when confirmation finds it compatible and the reported child is ready and live. */
  lemma ConvergedIffCompatible(m: Record, desired: Desired, status: Report, live: bool)
    requires desired.Intent? && desired.generation >= m.generation
    ensures Converged(m.commit, m.generation, desired, status, live) <==>
      ConfirmationMatches(m, desired, Some(status)) && status.ready && !status.holding && live
  {}

  /** What terminalization proves is stronger than both, and such a mission is not due for rollback
      even after its deadline. */
  lemma ProvenIsNotDue(m: Record, w: World, generation: nat)
    requires m.owned != Controller && w.running && generation >= m.generation
    requires w.desired == Intent(m.commit, generation) && StatusSettled(m.commit, generation, w.status)
    requires StateSettled(m.commit, generation, w.state, w.status.value.child.value)
    requires w.status.value.child.value in w.children
    ensures ConfirmationMatches(m, w.desired, w.status) && Converged(m.commit, m.generation, w.desired, w.state, true)
    ensures !RollbackDue(m, w)
  {}

  /** Until the deadline a missing, dead, holding or unready child is no reason to roll back. */
  lemma TransientChildIsNotDue(m: Record, w: World, children: set<nat>, status: Report, state: Report)
    requires m.owned != Controller && !w.late && w.status.Some?
    requires status.commit == w.status.value.commit && status.applied == w.status.value.applied
    requires state.commit == w.state.commit && state.applied == w.state.applied
    ensures RollbackDue(m, w) == RollbackDue(m, w.(children := children, status := Some(status), state := state))
  {}

  /** Past the deadline, with the supervisor running and asked for something at or after the mission: due for
      rollback, by the predicate and the watchdog alike, unless the lifecycle gate finds the mission's
      commit converged and the durable state agrees, with its child alive. */
  lemma LateDueIff(m: Record, w: World)
    requires m.owned != Controller && w.running && w.late
    requires w.desired.Intent? && w.desired.generation >= m.generation && w.status.Some?
    ensures var live := w.state.child.Some? && w.state.child.value in w.children;
            var agrees := w.state.commit == w.status.value.commit && w.state.applied == w.status.value.applied;
            RollbackDue(m, w) <==> !(Converged(m.commit, m.generation, w.desired, w.status.value, live) && agrees)
    ensures WatchdogWants(m, w) <==> RollbackDue(m, w)
  {}
}
