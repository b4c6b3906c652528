/** What the operations on a mission come to when nothing disturbs them, from any moment of any run. */
module MissionProgress {
  import opened Common
  import opened Mission
  import opened MissionRuns
  import MissionCases

  /** The run goes on by these actions. */
  ghost predicate Goes(tr: seq<World>, acts: seq<Action>, longer: seq<World>, more: seq<Action>, steps: seq<Action>) {
    IsRun(tr, acts) && IsRun(longer, more) && tr <= longer && more == acts + steps
  }

  /** The mission is pending, and no operation is under way. */
  predicate Pends(w: World, m: Record) {
    w.control == Idle && !w.locked && w.mission == Some(m) && m.phase == Pending && m.owned != Unknown
  }

  /** The durable authority is sound, and the candidate lives before its deadline or the mission is compatible with
      what the supervisor is asked for and reports. */
  predicate Confirmable(w: World, m: Record) {
    && !w.malformed && m.phase == Pending
    && (if m.owned == Controller then !LegacyDue(m, w) else ConfirmationMatches(m, w.desired, w.status))
  }

  /** The supervisor is asked for this commit and has settled on it, and its child lives. */
  predicate SettledOn(w: World, target: Commit) {
    && w.running && w.desired.Intent? && w.desired.commit == target
    && StatusSettled(target, w.desired.generation, w.status)
    && StateSettled(target, w.desired.generation, w.state, w.status.value.child.value)
    && w.status.value.child.value in w.children
  }

  lemma BeginsConfirm(tr: seq<World>, acts: seq<Action>, m: Record) returns (longer: seq<World>, more: seq<Action>)
    requires IsRun(tr, acts) && Pends(Last(tr), m)
             && (m.owned == Supervisor ==> ConfirmationMatches(m, Last(tr).desired, Last(tr).status))
    ensures Goes(tr, acts, longer, more, [Confirms(BeginConfirm(m.commit, false))])
    ensures Last(longer) == Last(tr).(control := Confirming(m), clock := Last(tr).clock + 1)
  {
    longer, more := MissionCases.Extend(tr, acts, Confirms(BeginConfirm(m.commit, false)));
  }

  lemma Authorizes(tr: seq<World>, acts: seq<Action>, m: Record) returns (longer: seq<World>, more: seq<Action>)
    requires IsRun(tr, acts) && Last(tr).control == Confirming(m) && Confirmable(Last(tr), m)
    ensures Goes(tr, acts, longer, more, [Confirms(Authorize(false))])
    ensures Last(longer) == Last(tr).(control := Preparing(m, Last(tr).clock), clock := Last(tr).clock + 1)
  {
    longer, more := MissionCases.Extend(tr, acts, Confirms(Authorize(false)));
  }

  lemma PreparesLegacy(tr: seq<World>, acts: seq<Action>, m: Record, seen: nat)
    returns (longer: seq<World>, more: seq<Action>)
    requires IsRun(tr, acts) && Last(tr).control == Preparing(m, seen) && m.owned == Controller && m.candidate.Some?
    ensures Goes(tr, acts, longer, more, [Confirms(PrepareCandidate)])
    ensures Last(longer) == Last(tr).(control := LegacyConfirm(m, seen), clock := Last(tr).clock + 1)
  {
    longer, more := MissionCases.Extend(tr, acts, Confirms(PrepareCandidate));
  }

  lemma WritesLegacy(tr: seq<World>, acts: seq<Action>, m: Record, seen: nat)
    returns (longer: seq<World>, more: seq<Action>)
    requires IsRun(tr, acts) && Last(tr).control == LegacyConfirm(m, seen)
    ensures Goes(tr, acts, longer, more, [Confirms(ConfirmLegacy(Landed))])
    ensures Last(longer) ==
            Last(tr).(mission := Some(m.(phase := Confirmed)), control := Idle, clock := Last(tr).clock + 1)
  {
    longer, more := MissionCases.Extend(tr, acts, Confirms(ConfirmLegacy(Landed)));
  }

  lemma PreparesSupervised(tr: seq<World>, acts: seq<Action>, m: Record, seen: nat)
    returns (longer: seq<World>, more: seq<Action>)
    requires IsRun(tr, acts) && Last(tr).control == Preparing(m, seen) && m.owned == Supervisor && Last(tr).running
    ensures Goes(tr, acts, longer, more, [Confirms(PrepareCandidate)])
    ensures Last(longer) == Last(tr).(control := Settle(m, Forward, Last(tr).clock), clock := Last(tr).clock + 1)
  {
    longer, more := MissionCases.Extend(tr, acts, Confirms(PrepareCandidate));
  }

  lemma SettlesOn(tr: seq<World>, acts: seq<Action>, m: Record, at: nat) returns (longer: seq<World>, more: seq<Action>)
    requires IsRun(tr, acts) && Last(tr).control == Settle(m, Forward, at) && SettledOn(Last(tr), m.commit)
    ensures Goes(tr, acts, longer, more, [Settles(SettleDesired(0))])
    ensures Last(longer) ==
            Last(tr).(control := Settled(m, Forward, at, Last(tr).desired.generation), clock := Last(tr).clock + 1)
  {
    longer, more := MissionCases.Extend(tr, acts, Settles(SettleDesired(0)));
  }

  lemma TakesLock(tr: seq<World>, acts: seq<Action>, m: Record, at: nat, g: nat)
    returns (longer: seq<World>, more: seq<Action>)
    requires IsRun(tr, acts) && Last(tr).control == Settled(m, Forward, at, g) && Last(tr).running
    ensures Goes(tr, acts, longer, more, [Settles(TakeLock)])
    ensures Last(longer) ==
            Last(tr).(locked := true, clock := Last(tr).clock + 1,
                      control := Checking(m, Forward, at, false, 0, Proof(g, Last(tr).clock, 0, 0, 0, 0)))
  {
    longer, more := MissionCases.Extend(tr, acts, Settles(TakeLock));
  }

  lemma ReadsDesired(tr: seq<World>, acts: seq<Action>, m: Record, at: nat, p: Proof)
    returns (longer: seq<World>, more: seq<Action>)
    requires IsRun(tr, acts) && Last(tr).control == Checking(m, Forward, at, false, 0, p)
             && Last(tr).desired == Intent(m.commit, p.generation)
    ensures Goes(tr, acts, longer, more, [Proves(ReadDesired)])
    ensures Last(longer) == Last(tr).(control := Checking(m, Forward, at, false, 1, p), clock := Last(tr).clock + 1)
  {
    longer, more := MissionCases.Extend(tr, acts, Proves(ReadDesired));
  }

  lemma ReadsStatus(tr: seq<World>, acts: seq<Action>, m: Record, at: nat, p: Proof)
    returns (longer: seq<World>, more: seq<Action>)
    requires IsRun(tr, acts) && Last(tr).control == Checking(m, Forward, at, false, 1, p)
             && StatusSettled(m.commit, p.generation, Last(tr).status)
    ensures Goes(tr, acts, longer, more, [Proves(ReadStatus)])
    ensures var q := p.(statusAt := Last(tr).clock, child := Last(tr).status.value.child.value);
            Last(longer) == Last(tr).(control := Checking(m, Forward, at, false, 2, q), clock := Last(tr).clock + 1)
  {
    longer, more := MissionCases.Extend(tr, acts, Proves(ReadStatus));
  }

  lemma ReadsState(tr: seq<World>, acts: seq<Action>, m: Record, at: nat, p: Proof)
    returns (longer: seq<World>, more: seq<Action>)
    requires IsRun(tr, acts) && Last(tr).control == Checking(m, Forward, at, false, 2, p)
             && StateSettled(m.commit, p.generation, Last(tr).state, p.child)
    ensures Goes(tr, acts, longer, more, [Proves(ReadState)])
    ensures Last(longer) ==
            Last(tr).(control := Checking(m, Forward, at, false, 3, p.(stateAt := Last(tr).clock)),
                      clock := Last(tr).clock + 1)
  {
    longer, more := MissionCases.Extend(tr, acts, Proves(ReadState));
  }

  lemma ReadsChild(tr: seq<World>, acts: seq<Action>, m: Record, at: nat, p: Proof)
    returns (longer: seq<World>, more: seq<Action>)
    requires IsRun(tr, acts) && Last(tr).control == Checking(m, Forward, at, false, 3, p)
             && p.child in Last(tr).children
    ensures Goes(tr, acts, longer, more, [Proves(ReadChild)])
    ensures Last(longer) ==
            Last(tr).(control := Checking(m, Forward, at, false, 4, p.(aliveAt := Last(tr).clock)),
                      clock := Last(tr).clock + 1)
  {
    longer, more := MissionCases.Extend(tr, acts, Proves(ReadChild));
  }

  lemma WritesSupervised(tr: seq<World>, acts: seq<Action>, m: Record, at: nat, p: Proof)
    returns (longer: seq<World>, more: seq<Action>)
    requires IsRun(tr, acts) && Last(tr).control == Checking(m, Forward, at, false, 4, p)
    ensures Goes(tr, acts, longer, more, [Settles(ConfirmSupervised(Landed))])
    ensures Last(longer) ==
            Last(tr).(mission := Some(m.(phase := Confirmed)), locked := false, control := Idle,
                      clock := Last(tr).clock + 1)
  {
    longer, more := MissionCases.Extend(tr, acts, Settles(ConfirmSupervised(Landed)));
  }

  lemma Reads(tr: seq<World>, acts: seq<Action>, m: Record, at: nat, p: Proof)
    returns (longer: seq<World>, more: seq<Action>)
    requires IsRun(tr, acts) && SettledOn(Last(tr), m.commit) && Last(tr).desired.generation == p.generation
    requires Last(tr).control == Checking(m, Forward, at, false, 0, p)
    ensures Goes(tr, acts, longer, more,
                 [Proves(ReadDesired), Proves(ReadStatus), Proves(ReadState), Proves(ReadChild)])
    ensures Last(longer).control.Checking?
    ensures var q := Last(longer).control.proof;
            Last(longer) == Last(tr).(control := Checking(m, Forward, at, false, 4, q), clock := Last(tr).clock + 4)
  {
    var one, first := ReadsDesired(tr, acts, m, at, p);
    var two, second := ReadsStatus(one, first, m, at, p);
    var q := Last(two).control.proof;
    var three, third := ReadsState(two, second, m, at, q);
    longer, more := ReadsChild(three, third, m, at, Last(three).control.proof);
  }

  /** An undisturbed confirmation, as requested for its commit, of a controller-owned mission. */
  lemma LegacyConfirmationWrites(tr: seq<World>, acts: seq<Action>, m: Record)
    returns (longer: seq<World>, more: seq<Action>)
    requires IsRun(tr, acts) && Pends(Last(tr), m) && m.owned == Controller && Confirmable(Last(tr), m)
    ensures Goes(tr, acts, longer, more,
                 [Confirms(BeginConfirm(m.commit, false)), Confirms(Authorize(false)), Confirms(PrepareCandidate),
                  Confirms(ConfirmLegacy(Landed))])
    ensures Last(longer) == Last(tr).(mission := Some(m.(phase := Confirmed)), clock := Last(tr).clock + 4)
  {
    var one, first := BeginsConfirm(tr, acts, m);
    var two, second := Authorizes(one, first, m);
    var seen := Last(one).clock;
    var three, third := PreparesLegacy(two, second, m, seen);
    longer, more := WritesLegacy(three, third, m, seen);
  }

  lemma Locks(tr: seq<World>, acts: seq<Action>, m: Record) returns (longer: seq<World>, more: seq<Action>)
    requires IsRun(tr, acts) && Pends(Last(tr), m) && m.owned == Supervisor && Confirmable(Last(tr), m)
    requires SettledOn(Last(tr), m.commit)
    ensures Goes(tr, acts, longer, more,
                 [Confirms(BeginConfirm(m.commit, false)), Confirms(Authorize(false)), Confirms(PrepareCandidate),
                  Settles(SettleDesired(0)), Settles(TakeLock)])
    ensures var w := Last(tr);
            Last(longer) == w.(locked := true, clock := w.clock + 5,
                               control := Checking(m, Forward, w.clock + 2, false, 0,
                                                   Proof(w.desired.generation, w.clock + 4, 0, 0, 0, 0)))
  {
    var w := Last(tr);
    longer, more := BeginsConfirm(tr, acts, m);
    longer, more := Authorizes(longer, more, m);
    longer, more := PreparesSupervised(longer, more, m, w.clock + 1);
    longer, more := SettlesOn(longer, more, m, w.clock + 2);
    longer, more := TakesLock(longer, more, m, w.clock + 2, w.desired.generation);
  }

  /** An undisturbed confirmation of a supervised mission whose commit the supervisor has settled on. */
  lemma SupervisedConfirmationWrites(tr: seq<World>, acts: seq<Action>, m: Record)
    returns (longer: seq<World>, more: seq<Action>)
    requires IsRun(tr, acts) && Pends(Last(tr), m) && m.owned == Supervisor && Confirmable(Last(tr), m)
    requires SettledOn(Last(tr), m.commit)
    ensures Goes(tr, acts, longer, more,
                 [Confirms(BeginConfirm(m.commit, false)), Confirms(Authorize(false)), Confirms(PrepareCandidate),
                  Settles(SettleDesired(0)), Settles(TakeLock),
                  Proves(ReadDesired), Proves(ReadStatus), Proves(ReadState), Proves(ReadChild),
                  Settles(ConfirmSupervised(Landed))])
    ensures Last(longer) == Last(tr).(mission := Some(m.(phase := Confirmed)), clock := Last(tr).clock + 10)
  {
    var w := Last(tr);
    longer, more := Locks(tr, acts, m);
    longer, more := Reads(longer, more, m, w.clock + 2, Proof(w.desired.generation, w.clock + 4, 0, 0, 0, 0));
    longer, more := WritesSupervised(longer, more, m, w.clock + 2, Last(longer).control.proof);
  }

  // ---- checkout ----------------------------------------------------------------------------

  /** A mission may be published: none is pending, the durable authority is sound, and its generation is new. */
  predicate Publishable(w: World, commit: Commit, previous: Commit, g: nat) {
    && w.control == Idle && !w.locked && !w.malformed && Fresh(w, g) && commit != previous
    && (w.mission.Some? ==> w.mission.value.phase != Pending)
  }

  lemma BeginsSupervised(tr: seq<World>, acts: seq<Action>, commit: Commit, previous: Commit, g: nat)
    returns (longer: seq<World>, more: seq<Action>)
    requires IsRun(tr, acts) && Publishable(Last(tr), commit, previous, g) && Last(tr).running
    ensures Goes(tr, acts, longer, more, [Deploys(BeginCheckout(commit, previous, g, Landed))])
    ensures Last(longer) ==
            Last(tr).(control := Prepared(Record(g, Pending, commit, previous, Supervisor, None, false, false)),
                      clock := Last(tr).clock + 1)
  {
    longer, more := MissionCases.Extend(tr, acts, Deploys(BeginCheckout(commit, previous, g, Landed)));
  }

  lemma Publishes(tr: seq<World>, acts: seq<Action>, m: Record) returns (longer: seq<World>, more: seq<Action>)
    requires IsRun(tr, acts) && Last(tr).control == Prepared(m)
    ensures Goes(tr, acts, longer, more, [Deploys(Publish(Landed))])
    ensures Last(longer) == Last(tr).(mission := Some(m), control := Handoff(m), clock := Last(tr).clock + 1)
  {
    longer, more := MissionCases.Extend(tr, acts, Deploys(Publish(Landed)));
  }

  lemma HandsOff(tr: seq<World>, acts: seq<Action>, m: Record) returns (longer: seq<World>, more: seq<Action>)
    requires IsRun(tr, acts) && Last(tr).control == Handoff(m) && m.owned == Supervisor
    ensures Goes(tr, acts, longer, more, [Deploys(HandOff(Landed))])
    ensures Last(longer) == Last(tr).(mission := Some(m), control := Idle, clock := Last(tr).clock + 1)
  {
    longer, more := MissionCases.Extend(tr, acts, Deploys(HandOff(Landed)));
  }

  /** An undisturbed checkout under a live supervisor leaves a pending mission owned by it. */
  lemma CheckoutPublishes(tr: seq<World>, acts: seq<Action>, commit: Commit, previous: Commit, g: nat)
    returns (longer: seq<World>, more: seq<Action>)
    requires IsRun(tr, acts) && Publishable(Last(tr), commit, previous, g) && Last(tr).running
    ensures Goes(tr, acts, longer, more,
                 [Deploys(BeginCheckout(commit, previous, g, Landed)), Deploys(Publish(Landed)),
                  Deploys(HandOff(Landed))])
    ensures Last(longer) ==
            Last(tr).(mission := Some(Record(g, Pending, commit, previous, Supervisor, None, false, false)),
                      clock := Last(tr).clock + 3)
  {
    var m := Record(g, Pending, commit, previous, Supervisor, None, false, false);
    longer, more := BeginsSupervised(tr, acts, commit, previous, g);
    longer, more := Publishes(longer, more, m);
    longer, more := HandsOff(longer, more, m);
  }

  // ---- refusals ----------------------------------------------------------------------------

  /** The step finds a reason to roll the mission `m` back. */
  predicate Refuses(w: World, a: Action, m: Record) {
    match a
    case Confirms(BeginConfirm(request, due)) => Pends(w, m) && (due || request != m.commit)
    case Confirms(Authorize(due)) =>
      && w.control == Confirming(m)
      && (w.malformed || m.phase == RolledBack || if m.owned == Controller then LegacyDue(m, w) else due)
    case Confirms(PrepareCandidate) =>
      && w.control.Preparing? && w.control.m == m
      && ((m.owned == Controller && m.candidate.None?) || (m.owned == Supervisor && !w.running))
    case Deploys(HandOff(_)) => w.control == Handoff(m) && m.owned != Supervisor && w.running
    case _ => false
  }

  /** A refused operation goes on to roll the mission back, which it has not changed. */
  lemma RefusalRollsBack(w: World, a: Action, m: Record)
    requires Refuses(w, a, m)
    ensures Apply(w, a) == w.(control := Rolling(m), clock := w.clock + 1)
  {
    match a
    case Confirms(s) => ConfirmRefusal(w, s, m);
    case Deploys(s) => assert Deploy(w, s) == w.(control := Rolling(m));
    case _ =>
  }

  lemma ConfirmRefusal(w: World, s: ConfirmStep, m: Record)
    requires Refuses(w, Confirms(s), m)
    ensures Confirm(w, s) == w.(control := Rolling(m))
  {}

  /** The step does not find what it needs to go on with the mission it is about. */
  predicate Lacks(w: World, a: Action) {
    match a
    case Rolls(Roll) =>
      && w.control.Rolling?
      && (w.malformed || w.control.m.phase != Pending || w.control.m.owned == Unknown
          || (w.control.m.owned == Supervisor && !w.running))
    case Rolls(ProveDead) =>
      && w.control.Retire?
      && (w.control.m.candidate.None? || w.control.m.candidate.value in w.candidates)
    case Settles(SettleDesired(_)) => w.control.Settle? && w.desired.Unreadable?
    case Settles(TakeLock) => w.control.Settled? && w.control.goal == Forward && !w.running
    case Settles(Fail) => w.control != Idle
    case Proves(s) => w.control.Checking? && LacksProof(w, s)
    case _ => false
  }

  predicate LacksProof(w: World, s: ProofStep)
    requires w.control.Checking?
  {
    var c := w.control;
    var target, p := Target(c.m, c.goal), c.proof;
    match s
    case ReadDesired => c.read == 0 && w.desired != Intent(target, p.generation)
    case ReadStatus => c.read == 1 && !StatusSettled(target, p.generation, w.status)
    case ReadState => c.read == 2 && !StateSettled(target, p.generation, w.state, p.child)
    case ReadChild => c.read == 3 && p.child !in w.children
  }

  /** It fails closed: the operation is over, both locks are free, and nothing else has changed. */
  lemma FailsClosed(w: World, a: Action)
    requires Lacks(w, a)
    ensures Apply(w, a) == Over(w).(clock := w.clock + 1)
  {
    match a
    case Rolls(s) => assert Rollback(w, s) == Over(w);
    case Settles(s) => assert Finalize(w, s) == Over(w);
    case Proves(s) => assert Prove(w, s) == Over(w);
    case _ =>
  }

  lemma Refused(tr: seq<World>, acts: seq<Action>, a: Action, m: Record) returns (longer: seq<World>, more: seq<Action>)
    requires IsRun(tr, acts) && Refuses(Last(tr), a, m)
    ensures Goes(tr, acts, longer, more, [a])
    ensures Last(longer) == Last(tr).(control := Rolling(m), clock := Last(tr).clock + 1)
  {
    longer, more := MissionCases.Extend(tr, acts, a);
    RefusalRollsBack(Last(tr), a, m);
  }

  lemma RollsLegacy(tr: seq<World>, acts: seq<Action>, m: Record) returns (longer: seq<World>, more: seq<Action>)
    requires IsRun(tr, acts) && Last(tr).control == Rolling(m) && m.phase == Pending && m.owned == Controller
    requires !Last(tr).malformed && !Last(tr).locked
    requires m.candidate.Some? && m.candidate.value !in Last(tr).candidates
    ensures Goes(tr, acts, longer, more, [Rolls(Roll), Rolls(ProveDead), Rolls(RollBackLegacy(Landed))])
    ensures Last(longer) == Last(tr).(mission := Some(m.(phase := RolledBack, restart := false)), control := Idle,
                                      clock := Last(tr).clock + 3)
  {
    var w := Last(tr);
    longer, more := MissionCases.Extend(tr, acts, Rolls(Roll));
    assert Last(longer) == w.(control := Retire(m), clock := w.clock + 1);
    longer, more := MissionCases.Extend(longer, more, Rolls(ProveDead));
    assert Last(longer) == w.(control := Restore(m), clock := w.clock + 2);
    longer, more := MissionCases.Extend(longer, more, Rolls(RollBackLegacy(Landed)));
  }

  /** From any moment of any run, an undisturbed request for another commit, or a due one, ends a
      controller-owned mission whose candidate is dead as rolled back. */
  lemma OtherRequestRollsBack(tr: seq<World>, acts: seq<Action>, m: Record, request: Commit, due: bool)
    returns (longer: seq<World>, more: seq<Action>)
    requires IsRun(tr, acts) && Pends(Last(tr), m) && m.owned == Controller && !Last(tr).malformed
    requires due || request != m.commit
    requires m.candidate.Some? && m.candidate.value !in Last(tr).candidates
    ensures Goes(tr, acts, longer, more,
                 [Confirms(BeginConfirm(request, due)), Rolls(Roll), Rolls(ProveDead), Rolls(RollBackLegacy(Landed))])
    ensures Last(longer) == Last(tr).(mission := Some(m.(phase := RolledBack, restart := false)),
                                      clock := Last(tr).clock + 4)
  {
    longer, more := Refused(tr, acts, Confirms(BeginConfirm(request, due)), m);
    longer, more := RollsLegacy(longer, more, m);
  }

  // ---- the controller's intents --------------------------------------------------------------

  /** An intent that a step of the controller writes is for the target of its operation, and newer than the
      mission, the intent that stood, and what is applied. */
  lemma IntentsAreNewer(tr: seq<World>, acts: seq<Action>, k: nat)
    requires IsRun(tr, acts) && k < |acts| && !acts[k].Env? && tr[k + 1].desired != tr[k].desired
    ensures var v, d := tr[k], tr[k + 1].desired;
            && v.control.Settle? && d.Intent? && d.commit == Target(v.control.m, v.control.goal)
            && v.mission == Some(v.control.m) && d.generation > v.control.m.generation
            && (v.desired.Intent? ==> d.generation > v.desired.generation) && d.generation > v.state.applied
            && (v.desired.Intent? ==> v.desired.commit != d.commit)
  {
    RunKeeps(tr, acts, k);
    assert Last(tr[..k + 1]) == tr[k] && Linked(tr, acts, k);
    StepIntent(tr[k], acts[k]);
  }

  lemma WroteIntent(w: World, m: Record, fate: Fate, next: Control)
    ensures Wrote(w, m, fate, next).desired == w.desired
  {}

  lemma DeployIntent(v: World, s: CheckoutStep)
    ensures Deploy(v, s).desired == v.desired
  {
    match s
    case BeginCheckout(commit, previous, generation, fate) =>
      var m := Record(generation, Pending, commit, previous, Controller, Some(v.spawned), false, false);
      WroteIntent(v.(candidates := v.candidates + {v.spawned}, spawned := v.spawned + 1), m, fate, Handoff(m));
    case Publish(_) =>
    case HandOff(_) =>
    case GoLive(_) =>
  }

  lemma RollbackIntent(v: World, s: RollbackStep)
    ensures Rollback(v, s).desired == v.desired
  {
    match s
    case BeginRollback(_) =>
    case Roll =>
    case ProveDead =>
    case NoteRestart(_, _) =>
    case RollBackLegacy(_) =>
  }

  lemma ConfirmIntent(v: World, s: ConfirmStep)
    ensures Confirm(v, s).desired == v.desired
  {}

  lemma ProveIntent(v: World, s: ProofStep)
    ensures Prove(v, s).desired == v.desired
  {}

  /** Only settlement writes an intent, and only where another commit, or none, is asked for. */
  lemma FinalizeIntent(v: World, s: SettleStep)
    requires Finalize(v, s).desired != v.desired
    ensures s.SettleDesired? && v.control.Settle? && Fresh(v, s.generation)
    ensures Finalize(v, s).desired == Intent(Target(v.control.m, v.control.goal), s.generation)
    ensures v.desired.Intent? ==> v.desired.commit != Target(v.control.m, v.control.goal)
  {}

  lemma StepIntent(v: World, a: Action)
    requires !a.Env? && Apply(v, a).desired != v.desired
    ensures a.Settles? && a.settle.SettleDesired? && v.control.Settle? && Fresh(v, a.settle.generation)
    ensures Apply(v, a).desired == Intent(Target(v.control.m, v.control.goal), a.settle.generation)
    ensures v.desired.Intent? ==> v.desired.commit != Target(v.control.m, v.control.goal)
  {
    match a
    case Deploys(s) => DeployIntent(v, s);
    case Rolls(s) => RollbackIntent(v, s);
    case Confirms(s) => ConfirmIntent(v, s);
    case Settles(s) => FinalizeIntent(v, s);
    case Proves(s) => ProveIntent(v, s);
  }
}
