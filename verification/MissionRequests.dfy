/** Which request a confirmation answers, and what malformed durable authority lets happen, over
    every run. */
module MissionRequests {
  import opened Common
  import opened Mission
  import opened MissionRuns
  import opened MissionWrites

  /** The mission that the operation here in the program is on its way to confirm, if it is. */
  function ToConfirm(c: Control): Option<Record> {
    match c
    case Confirming(m) => Some(m)
    case Preparing(m, _) => Some(m)
    case LegacyConfirm(m, _) => Some(m)
    case Settle(m, goal, _) => if goal == Forward then Some(m) else None
    case Settled(m, goal, _, _) => if goal == Forward then Some(m) else None
    case Checking(m, goal, _, _, _, _) => if goal == Forward then Some(m) else None
    case _ => None
  }

  /** The operation at `k` began at `j` with a request, not due, for the very commit of the pending mission
      `m`, and has been on its way to confirm that mission since. */
  ghost predicate RequestedAt(tr: seq<World>, acts: seq<Action>, j: nat, k: nat, m: Record) {
    && j < k < |tr| && j < |acts|
    && acts[j] == Confirms(BeginConfirm(m.commit, false)) && tr[j].control == Idle && tr[j].mission == Some(m)
    && forall t :: j < t <= k ==> ToConfirm(tr[t].control) == Some(m)
  }

  ghost predicate Requested(tr: seq<World>, acts: seq<Action>, k: nat, m: Record) {
    exists j :: RequestedAt(tr, acts, j, k, m)
  }

  /** Nothing but such a request brings an operation on its way to confirm. */
  predicate Begins(v: World, s: ConfirmStep, m: Record) {
    s == BeginConfirm(m.commit, false) && v.control == Idle && v.mission == Some(m)
  }

  lemma ConfirmRequested(v: World, s: ConfirmStep)
    requires ToConfirm(Confirm(v, s).control).Some?
    ensures var m := ToConfirm(Confirm(v, s).control); ToConfirm(v.control) == m || Begins(v, s, m.value)
  {}

  lemma FinalizeRequested(v: World, s: SettleStep)
    requires ToConfirm(Finalize(v, s).control).Some?
    ensures ToConfirm(v.control) == ToConfirm(Finalize(v, s).control)
  {}

  lemma ProveRequested(v: World, s: ProofStep)
    requires ToConfirm(Prove(v, s).control).Some?
    ensures ToConfirm(v.control) == ToConfirm(Prove(v, s).control)
  {}

  lemma DeployRequested(v: World, s: CheckoutStep)
    requires ToConfirm(Deploy(v, s).control).Some?
    ensures ToConfirm(v.control) == ToConfirm(Deploy(v, s).control)
  {}

  lemma RollbackRequested(v: World, s: RollbackStep)
    requires ToConfirm(Rollback(v, s).control).Some?
    ensures ToConfirm(v.control) == ToConfirm(Rollback(v, s).control)
  {}

  lemma StepRequested(v: World, a: Action)
    requires ToConfirm(Apply(v, a).control).Some?
    ensures var m := ToConfirm(Apply(v, a).control);
            ToConfirm(v.control) == m || (a.Confirms? && Begins(v, a.confirm, m.value))
  {
    match a
    case Env(e) => assert Environment(v, e).control == v.control;
    case Deploys(s) => DeployRequested(v, s);
    case Rolls(s) => RollbackRequested(v, s);
    case Confirms(s) => ConfirmRequested(v, s);
    case Settles(s) => FinalizeRequested(v, s);
    case Proves(s) => ProveRequested(v, s);
  }

  /** One more step on the way. */
  lemma StillRequested(tr: seq<World>, acts: seq<Action>, k: nat, m: Record)
    requires 0 < k < |tr| && ToConfirm(tr[k].control) == Some(m) && Requested(tr, acts, k - 1, m)
    ensures Requested(tr, acts, k, m)
  {
    var j :| RequestedAt(tr, acts, j, k - 1, m);
    assert RequestedAt(tr, acts, j, k, m);
  }

  lemma RequestedOn(tr: seq<World>, acts: seq<Action>, k: nat, m: Record)
    requires IsRun(tr, acts) && k < |acts| && ToConfirm(tr[k + 1].control) == Some(m)
    ensures ToConfirm(tr[k].control) == Some(m) || (acts[k].Confirms? && Begins(tr[k], acts[k].confirm, m))
  {
    assert Linked(tr, acts, k);
    StepRequested(tr[k], acts[k]);
  }

  lemma {:induction false} OnItsWay(tr: seq<World>, acts: seq<Action>, k: nat, m: Record)
    requires IsRun(tr, acts) && k < |tr| && ToConfirm(tr[k].control) == Some(m)
    ensures Requested(tr, acts, k, m)
  {
    RequestedOn(tr, acts, k - 1, m);
    if ToConfirm(tr[k - 1].control) == Some(m) {
      OnItsWay(tr, acts, k - 1, m);
      StillRequested(tr, acts, k, m);
    } else {
      assert RequestedAt(tr, acts, k - 1, k, m);
    }
  }

  /** Step `k` writes a confirmation. */
  ghost predicate WritesConfirmed(tr: seq<World>, k: nat) {
    && k + 1 < |tr| && tr[k + 1].mission != tr[k].mission
    && tr[k + 1].mission.Some? && tr[k + 1].mission.value.phase == Confirmed
  }

  /** Over every run: every confirmation is written by an operation that began with a request, not due, for
      the very commit of the mission it confirms, and has done nothing else since. */
  lemma ConfirmedOnRequest(tr: seq<World>, acts: seq<Action>, k: nat)
    requires IsRun(tr, acts) && WritesConfirmed(tr, k)
    ensures exists m :: Requested(tr, acts, k, m) && SameMission(m, tr[k + 1].mission.value)
  {
    RunKeeps(tr, acts, k);
    assert Last(tr[..k + 1]) == tr[k] && Linked(tr, acts, k);
    StepWrites(tr[k], acts[k]);
    assert Lawful(tr[k], tr[k + 1].mission);
    OnItsWay(tr, acts, k, tr[k].control.m);
  }

  /** A request for another commit, or one that is due, is taken for a reason to roll back, and that operation
      confirms nothing. */
  lemma OtherRequestConfirmsNothing(tr: seq<World>, acts: seq<Action>, j: nat, k: nat)
    requires IsRun(tr, acts) && j < k < |acts| && tr[j].control == Idle && Busy(tr[..k + 1], j + 1)
    requires acts[j].Confirms? && acts[j].confirm.BeginConfirm? && tr[j].mission.Some?
    requires acts[j].confirm.due || acts[j].confirm.request != tr[j].mission.value.commit
    ensures tr[j + 1].control == Rolling(tr[j].mission.value)
    ensures !WritesConfirmed(tr, k)
  {
    assert Linked(tr, acts, j);
    assert tr[..k + 1][j + 1] == tr[j + 1];
    forall i: nat, m ensures !RequestedAt(tr, acts, i, k, m) {
      assert i <= k ==> tr[..k + 1][i] == tr[i];
    }
    if WritesConfirmed(tr, k) { ConfirmedOnRequest(tr, acts, k); }
  }

  // ---- malformed durable authority --------------------------------------------------------------

  /** Places in the program before the authority is asked whether it allows the operation. */
  predicate Early(c: Control) { c == Idle || c.Rolling? || c.Confirming? }

  /** Nothing was written, and the operation got no further. */
  predicate Held(w: World, v: World) { Early(v.control) && v.mission == w.mission && v.desired == w.desired }

  lemma DeployHeld(w: World, s: CheckoutStep)
    requires w.malformed && Early(w.control)
    ensures Held(w, Deploy(w, s))
  {}

  lemma RollbackHeld(w: World, s: RollbackStep)
    requires w.malformed && Early(w.control)
    ensures Held(w, Rollback(w, s))
  {}

  lemma ConfirmHeld(w: World, s: ConfirmStep)
    requires w.malformed && Early(w.control)
    ensures Held(w, Confirm(w, s))
  {}

  lemma RestHeld(w: World, s: SettleStep, p: ProofStep)
    requires Early(w.control)
    ensures Held(w, Finalize(w, s)) && Held(w, Prove(w, p))
  {}

  lemma StepHeld(w: World, a: Action)
    requires w.malformed && Early(w.control)
    ensures Early(Apply(w, a).control) && Apply(w, a).mission == w.mission
            && (a.Env? || Apply(w, a).desired == w.desired)
  {
    match a
    case Env(e) => assert Environment(w, e).control == w.control && Environment(w, e).mission == w.mission;
    case Deploys(s) => DeployHeld(w, s);
    case Rolls(s) => RollbackHeld(w, s);
    case Confirms(s) => ConfirmHeld(w, s);
    case Settles(s) => RestHeld(w, s, ReadDesired);
    case Proves(p) => RestHeld(w, Fail, p);
  }

  lemma HeldOn(tr: seq<World>, acts: seq<Action>, k: nat)
    requires IsRun(tr, acts) && k < |acts| && tr[k].malformed && Early(tr[k].control)
    ensures Early(tr[k + 1].control) && tr[k + 1].mission == tr[k].mission
    ensures acts[k].Env? || tr[k + 1].desired == tr[k].desired
  {
    assert Linked(tr, acts, k);
    StepHeld(tr[k], acts[k]);
  }

  /** For as long as the durable authority is malformed, operations that are begun, or have not asked yet, neither
      publish nor end a mission, and none writes an intent. */
  lemma {:induction false} MalformedHolds(tr: seq<World>, acts: seq<Action>, i: nat, j: nat)
    requires IsRun(tr, acts) && i <= j < |tr| && Early(tr[i].control)
    requires forall t :: i <= t < j ==> tr[t].malformed
    ensures Early(tr[j].control) && tr[j].mission == tr[i].mission
    ensures i < j && !acts[j - 1].Env? ==> tr[j].desired == tr[j - 1].desired
  {
    if i < j {
      MalformedHolds(tr, acts, i, j - 1);
      HeldOn(tr, acts, j - 1);
    }
  }
}
