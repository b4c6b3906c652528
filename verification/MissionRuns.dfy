/** What every run of the mission machine keeps, and what each mission write was entitled to. */
module MissionRuns {
  import opened Common
  import opened Mission

  function Last(tr: seq<World>): World
    requires tr != []
  {
    tr[|tr| - 1]
  }

  /** The same operation has been under way since `from`. */
  ghost predicate Busy(tr: seq<World>, from: nat) {
    from < |tr| && forall t :: from <= t < |tr| ==> tr[t].control != Idle
  }

  /** From just after `since` through `until` the controller held the generation lock and the
      desired intent was `d`. */
  ghost predicate HeldOn(tr: seq<World>, since: nat, until: nat, d: Desired) {
    until < |tr| && forall t :: since < t <= until ==> tr[t].locked && tr[t].desired == d
  }

  ghost predicate RunningAt(tr: seq<World>, at: nat) { Busy(tr, at) && tr[at].running }

  /** The candidate was seen alive, before its deadline, by the operation now under way. */
  ghost predicate SeenAlive(tr: seq<World>, at: nat, m: Record) {
    && Busy(tr, at) && !tr[at].late
    && m.candidate.Some? && m.candidate.value in tr[at].candidates
  }

  ghost predicate StatusRead(tr: seq<World>, target: Commit, p: Proof, until: nat) {
    && p.since < p.statusAt <= until < |tr|
    && StatusSettled(target, p.generation, tr[p.statusAt].status)
    && tr[p.statusAt].status.value.child == Some(p.child)
  }

  ghost predicate StateRead(tr: seq<World>, target: Commit, p: Proof, until: nat) {
    p.statusAt <= p.stateAt <= until < |tr| && StateSettled(target, p.generation, tr[p.stateAt].state, p.child)
  }

  ghost predicate ChildRead(tr: seq<World>, p: Proof, until: nat) {
    p.stateAt <= p.aliveAt <= until < |tr| && p.child in tr[p.aliveAt].children
  }

  /** The whole terminalization proof: throughout one tenure of the generation lock the desired
      intent was exactly the settled commit and generation, and within it the status, then the
      durable state, were read settled on them with one child, then that child was read alive. */
  ghost predicate Proven(tr: seq<World>, target: Commit, p: Proof, until: nat) {
    && HeldOn(tr, p.since, until, Intent(target, p.generation))
    && StatusRead(tr, target, p, until) && StateRead(tr, target, p, until) && ChildRead(tr, p, until)
  }

  // ---- the invariant ---------------------------------------------------------------------

  /** The operation's copy of the mission is the durable one; only a restart note may differ. */
  predicate Copies(w: World) {
    match w.control
    case Idle => true
    case Prepared(m) =>
      && m.phase == Pending && m.owned == Supervisor
      && (w.mission.Some? ==> w.mission.value.phase != Pending && w.mission.value.generation < m.generation)
    case Restore(m) => w.mission.Some? && w.mission.value.(restart := m.restart) == m && m.phase == Pending
    case _ => w.mission == Some(w.control.m) && w.control.m.phase == Pending
  }

  /** Which ownership each position of the program belongs to. */
  predicate Owns(c: Control) {
    match c
    case Idle | Rolling(_) => true
    case Prepared(_) | Handoff(_) | Confirming(_) | Preparing(_, _) => c.m.owned != Unknown
    case Releasing(_) | Retire(_) | Restore(_) | LegacyConfirm(_, _) => c.m.owned == Controller
    case _ => c.m.owned == Supervisor
  }

  ghost predicate Agrees(w: World) {
    && Copies(w) && Owns(w.control)
    && (w.locked <==> w.control.Checking?)
    && (w.control.Restore? ==> w.control.m.candidate.Some? && w.control.m.candidate.value !in w.candidates)
  }

  /** What the program has read so far did hold when it was read. */
  ghost predicate Evidence(tr: seq<World>)
    requires tr != []
  {
    match Last(tr).control
    case Preparing(m, at) => m.owned == Controller ==> SeenAlive(tr, at, m)
    case LegacyConfirm(m, at) => SeenAlive(tr, at, m)
    case Settle(_, _, at) => RunningAt(tr, at)
    case Settled(_, _, at, _) => RunningAt(tr, at)
    case Artifacts(_, at, _) => RunningAt(tr, at)
    case Rechecking(_, at, _) => RunningAt(tr, at)
    case Checking(m, goal, at, _, read, p) => RunningAt(tr, at) && at <= p.since && Partly(tr, Target(m, goal), read, p)
    case Terminal(m, at, released, p) => RunningAt(tr, at) && at <= p.since && Proven(tr, m.previous, p, released)
    case _ => true
  }

  ghost predicate Partly(tr: seq<World>, target: Commit, read: nat, p: Proof)
    requires tr != []
  {
    var now := |tr| - 1;
    && p.since < now && HeldOn(tr, p.since, now, Last(tr).desired)
    && (read >= 1 ==> Last(tr).desired == Intent(target, p.generation))
    && (read >= 2 ==> StatusRead(tr, target, p, now))
    && (read >= 3 ==> StateRead(tr, target, p, now))
    && (read >= 4 ==> ChildRead(tr, p, now))
  }

  ghost predicate Inv(tr: seq<World>) {
    tr != [] && Last(tr).clock == |tr| - 1 && Agrees(Last(tr)) && Evidence(tr)
  }

  // ---- each step keeps it ----------------------------------------------------------------

  lemma BusyOn(tr: seq<World>, w: World, from: nat)
    requires Busy(tr, from) && w.control != Idle
    ensures Busy(tr + [w], from)
  {}

  lemma HeldLonger(tr: seq<World>, w: World, since: nat)
    requires tr != [] && HeldOn(tr, since, |tr| - 1, Last(tr).desired) && w.locked && w.desired == Last(tr).desired
    ensures HeldOn(tr + [w], since, |tr|, w.desired)
  {}

  lemma ProvenStays(tr: seq<World>, w: World, target: Commit, p: Proof, until: nat)
    requires Proven(tr, target, p, until)
    ensures Proven(tr + [w], target, p, until)
  {}

  lemma PartlyStays(tr: seq<World>, w: World, target: Commit, read: nat, p: Proof)
    requires tr != [] && Partly(tr, target, read, p) && w.locked && w.desired == Last(tr).desired
    ensures Partly(tr + [w], target, read, p)
  {
    HeldLonger(tr, w, p.since);
  }

  /** Whatever leaves the program where it is leaves its evidence good. */
  lemma EvidenceStays(tr: seq<World>, w: World)
    requires Inv(tr) && w.control == Last(tr).control
    requires w.locked == Last(tr).locked && (w.locked ==> w.desired == Last(tr).desired)
    ensures Evidence(tr + [w])
  {
    match w.control
    case Preparing(m, at) => if m.owned == Controller { BusyOn(tr, w, at); }
    case LegacyConfirm(m, at) => BusyOn(tr, w, at);
    case Settle(_, _, at) => BusyOn(tr, w, at);
    case Settled(_, _, at, _) => BusyOn(tr, w, at);
    case Artifacts(_, at, _) => BusyOn(tr, w, at);
    case Rechecking(_, at, _) => BusyOn(tr, w, at);
    case Checking(m, goal, at, _, read, p) =>
      BusyOn(tr, w, at);
      PartlyStays(tr, w, Target(m, goal), read, p);
    case Terminal(m, at, released, p) =>
      BusyOn(tr, w, at);
      ProvenStays(tr, w, m.previous, p, released);
    case _ =>
  }

  /** What the next part of the proof must have shown, and how it is noted. */
  predicate NextRead(v: World, target: Commit, read: nat, p: Proof, q: Proof) {
    match read
    case 0 => q == p && v.desired == Intent(target, p.generation)
    case 1 => StatusSettled(target, p.generation, v.status)
      && q == p.(statusAt := v.clock, child := v.status.value.child.value)
    case 2 => StateSettled(target, p.generation, v.state, p.child) && q == p.(stateAt := v.clock)
    case 3 => p.child in v.children && q == p.(aliveAt := v.clock)
    case _ => false
  }

  predicate Stays(v: World, w: World) {
    w.control == v.control && w.locked == v.locked && (w.locked ==> w.desired == v.desired)
  }

  /** How a step comes to a place in the program where something is known. */
  predicate Enters(v: World, w: World) {
    match w.control
    case Preparing(m, at) => v.control == Confirming(m) && at == v.clock && (m.owned == Controller ==> !LegacyDue(m, v))
    case LegacyConfirm(m, at) => v.control == Preparing(m, at) && m.owned == Controller
    case Settle(_, _, at) => v.control != Idle && at == v.clock && v.running
    case Settled(_, _, at, _) => v.control.Settle? && v.control.runningAt == at
    case Artifacts(_, at, _) => v.control.Checking? && v.control.runningAt == at
    case Rechecking(_, at, _) => v.control.Artifacts? && v.control.runningAt == at
    case Checking(m, goal, at, again, read, p) =>
      w.locked && w.desired == v.desired && (Opens(v, w) || ReadsMore(v, w))
    case Terminal(m, at, released, p) =>
      && v.control.Checking? && v.control.goal == Back && v.control.m == m && v.control.runningAt == at
      && released == v.clock && v.control.read == 3 && NextRead(v, m.previous, 3, v.control.proof, p)
    case _ => true
  }

  predicate Opens(v: World, w: World)
    requires w.control.Checking?
  {
    && (v.control.Settled? || v.control.Rechecking?) && v.control.runningAt == w.control.runningAt
    && w.control.read == 0 && w.control.proof.since == v.clock
  }

  predicate ReadsMore(v: World, w: World)
    requires w.control.Checking?
  {
    && v.control.Checking? && v.control.runningAt == w.control.runningAt
    && v.control.m == w.control.m && v.control.goal == w.control.goal
    && w.control.read == v.control.read + 1
    && NextRead(v, Target(v.control.m, v.control.goal), v.control.read, v.control.proof, w.control.proof)
  }

  predicate Moves(v: World, w: World) { Stays(v, w) || Enters(v, w) }

  lemma ReadsOn(tr: seq<World>, w: World, target: Commit, read: nat, p: Proof, q: Proof)
    requires tr != [] && Last(tr).clock == |tr| - 1 && Partly(tr, target, read, p)
    requires w.locked && w.desired == Last(tr).desired && NextRead(Last(tr), target, read, p, q)
    ensures Partly(tr + [w], target, read + 1, q) && q.since == p.since
  {
    HeldLonger(tr, w, p.since);
  }

  lemma Completes(tr: seq<World>, target: Commit, p: Proof)
    requires tr != [] && Partly(tr, target, 4, p)
    ensures Proven(tr, target, p, |tr| - 1)
  {}

  /** The last read by a rollback: the lock is let go with the proof complete. */
  lemma ReadsLast(tr: seq<World>, w: World, target: Commit, p: Proof)
    requires tr != [] && Partly(tr, target, 3, p) && p.child in Last(tr).children
    ensures Proven(tr + [w], target, p.(aliveAt := |tr| - 1), |tr| - 1)
  {
    var q := p.(aliveAt := |tr| - 1);
    assert Proven(tr, target, q, |tr| - 1);
    ProvenStays(tr, w, target, q, |tr| - 1);
  }

  lemma CheckingEvidence(tr: seq<World>, w: World)
    requires Inv(tr) && w.control.Checking? && Enters(Last(tr), w)
    ensures Evidence(tr + [w])
  {
    var c := Last(tr).control;
    BusyOn(tr, w, w.control.runningAt);
    if ReadsMore(Last(tr), w) {
      ReadsOn(tr, w, Target(c.m, c.goal), c.read, c.proof, w.control.proof);
    }
  }

  lemma EntersEvidence(tr: seq<World>, w: World)
    requires Inv(tr) && Enters(Last(tr), w)
    ensures Evidence(tr + [w])
  {
    match w.control
    case Preparing(m, at) =>
    case LegacyConfirm(m, at) => BusyOn(tr, w, at);
    case Settle(_, _, at) =>
    case Settled(_, _, at, _) => BusyOn(tr, w, at);
    case Artifacts(_, at, _) => BusyOn(tr, w, at);
    case Rechecking(_, at, _) => BusyOn(tr, w, at);
    case Checking(_, _, _, _, _, _) => CheckingEvidence(tr, w);
    case Terminal(m, at, _, _) =>
      BusyOn(tr, w, at);
      ReadsLast(tr, w, m.previous, Last(tr).control.proof);
    case _ =>
  }

  lemma MoveKeeps(tr: seq<World>, w: World)
    requires Inv(tr) && w.clock == |tr| && Agrees(w) && Moves(Last(tr), w)
    ensures Inv(tr + [w])
  {
    if Stays(Last(tr), w) {
      EvidenceStays(tr, w);
    } else {
      EntersEvidence(tr, w);
    }
  }

  lemma EnvironmentMoves(v: World, a: Outside)
    requires Agrees(v)
    ensures Moves(v, Environment(v, a))
  {}

  lemma EnvironmentAgrees(w: World, a: Outside)
    requires Agrees(w)
    ensures Agrees(Environment(w, a))
  {}

  lemma DeployMoves(v: World, a: CheckoutStep)
    requires Agrees(v)
    ensures Moves(v, Deploy(v, a))
  {}

  lemma DeployAgrees(w: World, a: CheckoutStep)
    requires Agrees(w)
    ensures Agrees(Deploy(w, a))
  {}

  lemma RollbackMoves(v: World, a: RollbackStep)
    requires Agrees(v)
    ensures Moves(v, Rollback(v, a))
  {}

  lemma RollbackAgrees(w: World, a: RollbackStep)
    requires Agrees(w)
    ensures Agrees(Rollback(w, a))
  {}

  lemma ConfirmMoves(v: World, a: ConfirmStep)
    requires Agrees(v)
    ensures Moves(v, Confirm(v, a))
  {}

  lemma ConfirmAgrees(w: World, a: ConfirmStep)
    requires Agrees(w)
    ensures Agrees(Confirm(w, a))
  {}

  lemma FinalizeMoves(v: World, a: SettleStep)
    requires Agrees(v)
    ensures Moves(v, Finalize(v, a))
  {}

  lemma FinalizeAgrees(w: World, a: SettleStep)
    requires Agrees(w)
    ensures Agrees(Finalize(w, a))
  {}

  lemma ProveMoves(v: World, a: ProofStep)
    requires Agrees(v)
    ensures Moves(v, Prove(v, a))
  {}

  lemma ProveAgrees(w: World, a: ProofStep)
    requires Agrees(w)
    ensures Agrees(Prove(w, a))
  {}

  lemma StepMoves(v: World, a: Action)
    requires Agrees(v)
    ensures Moves(v, Apply(v, a)) && Agrees(Apply(v, a))
  {
    match a
    case Env(e) => EnvironmentMoves(v, e); EnvironmentAgrees(v, e);
    case Deploys(s) => DeployMoves(v, s); DeployAgrees(v, s);
    case Rolls(s) => RollbackMoves(v, s); RollbackAgrees(v, s);
    case Confirms(s) => ConfirmMoves(v, s); ConfirmAgrees(v, s);
    case Settles(s) => FinalizeMoves(v, s); FinalizeAgrees(v, s);
    case Proves(s) => ProveMoves(v, s); ProveAgrees(v, s);
  }

  lemma StepKeeps(tr: seq<World>, a: Action)
    requires Inv(tr)
    ensures Inv(tr + [Apply(Last(tr), a)])
  {
    StepMoves(Last(tr), a);
    MoveKeeps(tr, Apply(Last(tr), a));
  }

  lemma {:induction false} RunKeeps(tr: seq<World>, acts: seq<Action>, n: nat)
    requires IsRun(tr, acts) && n < |tr|
    ensures Inv(tr[..n + 1])
  {
    if n == 0 {
      assert tr[..1] == [tr[0]];
    } else {
      RunKeeps(tr, acts, n - 1);
      StepKeeps(tr[..n], acts[n - 1]);
      assert Linked(tr, acts, n - 1);
      assert tr[..n + 1] == tr[..n] + [tr[n]];
    }
  }
}
