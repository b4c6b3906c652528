/** The supervised-deployment mission over whole runs: checkout, confirm, status and watchdog
    operations of the deployment controller, one at a time under the deployment lock, each
    interruptible between any two steps, against a supervisor that changes underneath.
    Models the mission writers and authority predicates of src/lubko/deployctl.py. */
module Mission {
  import opened Common

  type Commit = string

  datatype Phase = Pending | Confirmed | RolledBack

  /** Who owns the candidate's process: `supervisor_owned` true, false or absent. */
  datatype Owner = Supervisor | Controller | Unknown

  /** The durable mission. `owned` is the frozen ownership.
      `candidate` is the process recorded for a controller-owned candidate. */
  datatype Record = Record(
    generation: nat, phase: Phase, commit: Commit, previous: Commit, owned: Owner,
    candidate: Option<nat>, retiring: bool, restart: bool)

  datatype Desired = Missing | Unreadable | Intent(commit: Commit, generation: nat)

  /** What the supervisor publishes, both as its status surface and as its durable state. */
  datatype Report = Report(commit: Commit, applied: nat, ready: bool, holding: bool, child: Option<nat>)

  // ---- the pure decisions ----------------------------------------------------------------

  /** A desired intent older than the mission is superseded by it; one at or after the mission
      must name its commit and bound what is applied. */
  predicate ConfirmationMatches(m: Record, desired: Desired, status: Option<Report>) {
    && desired.Intent? && status.Some? && status.value.commit == m.commit
    && if desired.generation < m.generation then status.value.applied == m.generation
       else desired.commit == m.commit && m.generation <= status.value.applied <= desired.generation
  }

  /** The status half of the terminalization proof. */
  predicate StatusSettled(commit: Commit, generation: nat, status: Option<Report>) {
    && status.Some? && status.value.commit == commit && status.value.applied == generation
    && status.value.ready && !status.value.holding && status.value.child.Some?
  }

  /** The durable-state half: the same target, and the very child the status names. */
  predicate StateSettled(commit: Commit, generation: nat, state: Report, child: nat) {
    && state.commit == commit && state.applied == generation
    && state.ready && !state.holding && state.child == Some(child)
  }

  predicate MissionActive(m: Record, w: World) {
    && w.state.commit == m.commit && w.state.child.Some?
    && w.state.child.value in w.children && w.state.applied >= m.generation
  }

  predicate MissionAuthoritative(m: Record, w: World) {
    && w.status.Some?
    && w.state.commit == w.status.value.commit && w.state.applied == w.status.value.applied
    && ConfirmationMatches(m, w.desired, w.status)
  }

  predicate LegacyDue(m: Record, w: World) {
    m.candidate.None? || w.late || m.candidate.value !in w.candidates
  }

  predicate RollbackDue(m: Record, w: World) {
    if m.owned == Controller then LegacyDue(m, w)
    else
      || !w.running
      || !MissionAuthoritative(m, w)
      || (w.late
          && (|| w.status.None? || w.status.value.commit != m.commit || w.status.value.applied < m.generation
              || !w.status.value.ready || w.status.value.holding || !MissionActive(m, w)))
  }

  predicate WatchdogWants(m: Record, w: World) {
    if m.owned == Controller then LegacyDue(m, w)
    else w.running && RollbackDue(m, w)
  }

  /** The supervisor has converged on a commit at a generation not before `minimum`. */
  predicate Converged(target: Commit, minimum: nat, desired: Desired, state: Report, live: bool) {
    && desired.Intent? && desired.commit == target && state.commit == target
    && minimum <= desired.generation && minimum <= state.applied <= desired.generation
    && state.ready && !state.holding && live
  }

  predicate PublishAuthorized(malformed: bool, phase: Option<Phase>) { !malformed && phase != Some(Pending) }

  predicate ConfirmAuthorized(malformed: bool, phase: Phase, ready: bool) {
    !malformed && (phase == Confirmed || (phase == Pending && ready))
  }

  predicate RollbackAuthorized(malformed: bool, phase: Phase) { !malformed && phase != Confirmed }

  // ---- the machine -----------------------------------------------------------------------

  datatype Goal = Forward | Back

  /** Times at which each part of the terminalization proof was read, `since` being when the
      generation lock was taken. */
  datatype Proof = Proof(generation: nat, since: nat, statusAt: nat, stateAt: nat, aliveAt: nat, child: nat)

  /** Where the operation holding the deployment lock stands. */
  datatype Control =
    | Idle
    | Prepared(m: Record)
    | Handoff(m: Record)
    | Releasing(m: Record)
    | Rolling(m: Record)
    | Retire(m: Record)
    | Restore(m: Record)
    | Confirming(m: Record)
    | Preparing(m: Record, seen: nat)
    | LegacyConfirm(m: Record, seen: nat)
    | Settle(m: Record, goal: Goal, runningAt: nat)
    | Settled(m: Record, goal: Goal, runningAt: nat, generation: nat)
    | Checking(m: Record, goal: Goal, runningAt: nat, again: bool, read: nat, proof: Proof)
    | Artifacts(m: Record, runningAt: nat, generation: nat)
    | Rechecking(m: Record, runningAt: nat, generation: nat)
    | Terminal(m: Record, runningAt: nat, releasedAt: nat, proof: Proof)

  /** `children` and `candidates` are the live supervisor children and controller candidates;
      `locked` says that the controller holds the generation lock; `late` that the mission's
      deadline has passed; `wanted` that some watchdog has decided to roll back. */
  datatype World = World(
    mission: Option<Record>, running: bool, desired: Desired, status: Option<Report>, state: Report,
    children: set<nat>, candidates: set<nat>, spawned: nat, late: bool, malformed: bool,
    locked: bool, wanted: bool, control: Control, clock: nat)

  /** A durable mission write either lands, or raises leaving the old or the new value. */
  datatype Fate = Landed | RaisedOld | RaisedNew

  datatype By = Operator | Watchdog

  /** The supervisor, its children, the clock, other intent writers, and watchdogs reading. */
  datatype Outside =
    | SetRunning(b: bool)
    | SetDesired(d: Desired)
    | SetStatus(s: Option<Report>)
    | SetState(r: Report)
    | SetChildren(cs: set<nat>)
    | CandidateExits(c: nat)
    | SetLate(b: bool)
    | SetMalformed(b: bool)
    | WatchdogReads

  datatype CheckoutStep =
    | BeginCheckout(commit: Commit, previous: Commit, generation: nat, fate: Fate)
    | Publish(fate: Fate)
    | HandOff(fate: Fate)
    | GoLive(fate: Fate)

  datatype RollbackStep =
    | BeginRollback(from: By)
    | Roll
    | ProveDead
    | NoteRestart(b: bool, fate: Fate)
    | RollBackLegacy(fate: Fate)

  datatype ConfirmStep =
    | BeginConfirm(request: Commit, due: bool)
    | Authorize(due: bool)
    | PrepareCandidate
    | ConfirmLegacy(fate: Fate)

  /** `Fail` is any refusal, exception, timeout or crash of the operation under way. */
  datatype SettleStep =
    | SettleDesired(generation: nat)
    | TakeLock
    | RestoreArtifacts
    | ConfirmSupervised(fate: Fate)
    | RollBackSupervised(fate: Fate)
    | Fail

  datatype ProofStep = ReadDesired | ReadStatus | ReadState | ReadChild

  datatype Action =
    | Env(event: Outside)
    | Deploys(checkout: CheckoutStep)
    | Rolls(rollback: RollbackStep)
    | Confirms(confirm: ConfirmStep)
    | Settles(settle: SettleStep)
    | Proves(proof: ProofStep)

  /** The operation is over; both locks are released. */
  function Over(w: World): World { w.(control := Idle, locked := false) }

  function Wrote(w: World, m: Record, fate: Fate, next: Control): World {
    var w' := if fate == RaisedOld then w else w.(mission := Some(m));
    if fate == Landed then w'.(control := next) else Over(w')
  }

  /** Greater than every generation in sight. */
  predicate Fresh(w: World, generation: nat) {
    && (w.mission.Some? ==> generation > w.mission.value.generation)
    && (w.desired.Intent? ==> generation > w.desired.generation)
    && generation > w.state.applied
  }

  function Target(m: Record, goal: Goal): Commit { if goal == Forward then m.commit else m.previous }

  function Environment(w: World, a: Outside): World {
    match a
    case SetRunning(b) => w.(running := b)
    case SetDesired(d) => if w.locked then w else w.(desired := d)
    case SetStatus(s) => w.(status := s)
    case SetState(r) => w.(state := r)
    case SetChildren(cs) => w.(children := cs)
    case CandidateExits(c) => w.(candidates := w.candidates - {c})
    case SetLate(b) => w.(late := b)
    case SetMalformed(b) => w.(malformed := b)
    case WatchdogReads =>
      if w.mission.Some? && w.mission.value.phase == Pending && WatchdogWants(w.mission.value, w)
      then w.(wanted := true) else w
  }

  /** Checkout and handoff. */
  function Deploy(w: World, a: CheckoutStep): World {
    match a
    case BeginCheckout(commit, previous, generation, fate) =>
      if w.control != Idle || !Fresh(w, generation) || commit == previous
         || !PublishAuthorized(w.malformed, if w.mission.Some? then Some(w.mission.value.phase) else None) then w
      else if w.running then
        w.(control := Prepared(Record(generation, Pending, commit, previous, Supervisor, None, false, false)))
      else
        var m := Record(generation, Pending, commit, previous, Controller, Some(w.spawned), false, false);
        Wrote(w.(candidates := w.candidates + {w.spawned}, spawned := w.spawned + 1), m, fate, Handoff(m))
    case Publish(fate) =>
      if w.control.Prepared? then Wrote(w, w.control.m, fate, Handoff(w.control.m)) else w
    case HandOff(fate) =>
      if !w.control.Handoff? then w
      else
        var m := w.control.m;
        if m.owned == Supervisor then Wrote(w, m, fate, Idle)
        else if w.running then w.(control := Rolling(m))
        else Wrote(w, m.(retiring := true), fate, Releasing(m.(retiring := true)))
    case GoLive(fate) =>
      if w.control.Releasing? then Wrote(w, w.control.m, fate, Idle) else w
  }

  /** Rollback up to the supervised settlement. */
  function Rollback(w: World, a: RollbackStep): World {
    match a
    case BeginRollback(from) =>
      if w.control != Idle && !w.control.Handoff? && !w.control.Releasing? then w
      else if w.mission.None? || w.mission.value.phase != Pending || (from == Watchdog && !w.wanted) then w
      else w.(control := Rolling(w.mission.value), wanted := w.wanted && from != Watchdog)
    case Roll =>
      if !w.control.Rolling? then w
      else
        var m := w.control.m;
        if m.phase != Pending || !RollbackAuthorized(w.malformed, m.phase) then Over(w)
        else if m.owned == Unknown then Over(w)
        else if m.owned == Controller then w.(control := Retire(m))
        else if !w.running then Over(w)
        else w.(control := Settle(m, Back, w.clock))
    case ProveDead =>
      if !w.control.Retire? then w
      else if w.control.m.candidate.Some? && w.control.m.candidate.value !in w.candidates
      then w.(control := Restore(w.control.m)) else Over(w)
    case NoteRestart(b, fate) =>
      if w.control.Restore? then Wrote(w, w.control.m.(restart := b), fate, w.control) else w
    case RollBackLegacy(fate) =>
      if w.control.Restore? then Wrote(w, w.control.m.(phase := RolledBack, restart := false), fate, Idle) else w
  }

  /** Confirmation up to the supervised settlement. */
  function Confirm(w: World, a: ConfirmStep): World {
    match a
    case BeginConfirm(request, due) =>
      if w.control != Idle || w.mission.None? || w.mission.value.phase != Pending then w
      else
        var m := w.mission.value;
        if m.owned == Unknown then w
        else if due || request != m.commit then w.(control := Rolling(m))
        else if m.owned == Supervisor && w.running && !ConfirmationMatches(m, w.desired, w.status) then w
        else w.(control := Confirming(m))
    case Authorize(due) =>
      if !w.control.Confirming? then w
      else
        var m := w.control.m;
        if (if m.owned == Controller then LegacyDue(m, w) else due) then w.(control := Rolling(m))
        else if !ConfirmAuthorized(w.malformed, m.phase, true) then w.(control := Rolling(m))
        else if m.owned == Supervisor && w.running && !ConfirmationMatches(m, w.desired, w.status) then Over(w)
        else w.(control := Preparing(m, w.clock))
    case PrepareCandidate =>
      if !w.control.Preparing? then w
      else
        var m := w.control.m;
        if m.owned == Unknown then Over(w)
        else if m.owned == Controller then
          w.(control := if m.candidate.None? then Rolling(m) else LegacyConfirm(m, w.control.seen))
        else if !w.running then w.(control := Rolling(m))
        else w.(control := Settle(m, Forward, w.clock))
    case ConfirmLegacy(fate) =>
      if w.control.LegacyConfirm? then Wrote(w, w.control.m.(phase := Confirmed), fate, Idle) else w
  }

  /** Settlement, the generation lock, and the supervised terminal writes. */
  function Finalize(w: World, a: SettleStep): World {
    match a
    case SettleDesired(generation) =>
      if !w.control.Settle? then w
      else
        var target := Target(w.control.m, w.control.goal);
        if w.desired.Unreadable? then Over(w)
        else if w.desired.Intent? && w.desired.commit == target then
          w.(control := Settled(w.control.m, w.control.goal, w.control.runningAt, w.desired.generation))
        else if !Fresh(w, generation) then w
        else
          w.(desired := Intent(target, generation),
             control := Settled(w.control.m, w.control.goal, w.control.runningAt, generation))
    case TakeLock =>
      (match w.control
       case Settled(m, goal, at, g) =>
         if goal == Forward && !w.running then Over(w)
         else w.(locked := true, control := Checking(m, goal, at, false, 0, Proof(g, w.clock, 0, 0, 0, 0)))
       case Rechecking(m, at, g) =>
         w.(locked := true, control := Checking(m, Back, at, true, 0, Proof(g, w.clock, 0, 0, 0, 0)))
       case _ => w)
    case RestoreArtifacts =>
      if w.control.Artifacts?
      then w.(control := Rechecking(w.control.m, w.control.runningAt, w.control.generation)) else w
    case ConfirmSupervised(fate) =>
      if w.control.Checking? && w.control.goal == Forward && w.control.read == 4
      then Over(Wrote(w, w.control.m.(phase := Confirmed), fate, Idle)) else w
    case RollBackSupervised(fate) =>
      if w.control.Terminal? then Wrote(w, w.control.m.(phase := RolledBack), fate, Idle) else w
    case Fail => if w.control != Idle then Over(w) else w
  }

  /** The proof read after the generation lock is taken, one read a step. A confirmation keeps the
      lock for its write; a rollback lets it go. */
  function Prove(w: World, a: ProofStep): World {
    if !w.control.Checking? then w
    else
      var c := w.control;
      var target := Target(c.m, c.goal);
      var p := c.proof;
      match a
      case ReadDesired =>
        if c.read != 0 then w
        else if w.desired == Intent(target, p.generation) then w.(control := c.(read := 1))
        else Over(w)
      case ReadStatus =>
        if c.read != 1 then w
        else if StatusSettled(target, p.generation, w.status) then
          w.(control := c.(read := 2, proof := p.(statusAt := w.clock, child := w.status.value.child.value)))
        else Over(w)
      case ReadState =>
        if c.read != 2 then w
        else if StateSettled(target, p.generation, w.state, p.child) then
          w.(control := c.(read := 3, proof := p.(stateAt := w.clock)))
        else Over(w)
      case ReadChild =>
        if c.read != 3 then w
        else if p.child !in w.children then Over(w)
        else if c.goal == Forward then w.(control := c.(read := 4, proof := p.(aliveAt := w.clock)))
        else if !c.again then w.(locked := false, control := Artifacts(c.m, c.runningAt, p.generation))
        else w.(locked := false, control := Terminal(c.m, c.runningAt, w.clock, p.(aliveAt := w.clock)))
  }

  /** One step; a step that is not enabled only lets time pass. */
  function Apply(w: World, a: Action): World {
    (match a
     case Env(e) => Environment(w, e)
     case Deploys(s) => Deploy(w, s)
     case Rolls(s) => Rollback(w, s)
     case Confirms(s) => Confirm(w, s)
     case Settles(s) => Finalize(w, s)
     case Proves(s) => Prove(w, s)).(clock := w.clock + 1)
  }

  ghost predicate Linked(tr: seq<World>, acts: seq<Action>, i: nat) {
    i < |acts| && i + 1 < |tr| && tr[i + 1] == Apply(tr[i], acts[i])
  }

  /** Every state of a run, in order; the clock is the index. */
  ghost predicate IsRun(tr: seq<World>, acts: seq<Action>) {
    && |tr| == |acts| + 1
    && tr[0].clock == 0 && tr[0].control == Idle && !tr[0].locked
    && forall i :: 0 <= i < |acts| ==> Linked(tr, acts, i)
  }
}
