/** Who changes the desired intent while the deployment controller is waiting or writing. */
module MissionIntents {
  import opened Common
  import opened Mission
  import opened MissionRuns

  predicate IsWriter(a: Action) { a.Env? && a.event.SetDesired? }

  /** The intent after these steps, when only other writers change it. */
  function LastIntent(acts: seq<Action>, d: Desired): Desired {
    if acts == [] then d
    else if IsWriter(acts[|acts| - 1]) then acts[|acts| - 1].event.d
    else LastIntent(acts[..|acts| - 1], d)
  }

  predicate Undisturbed(acts: seq<Action>) { forall i :: 0 <= i < |acts| ==> !IsWriter(acts[i]) }

  /** The writer at `i` has the last word. */
  predicate LastWriter(acts: seq<Action>, i: nat) {
    i < |acts| && IsWriter(acts[i]) && forall j :: i < j < |acts| ==> !IsWriter(acts[j])
  }

  /** Some writer has the last word, and it is `d`. */
  ghost predicate LastWord(acts: seq<Action>, d: Desired) {
    exists i: nat :: LastWriter(acts, i) && acts[i].event.d == d
  }

  lemma LastWordOn(acts: seq<Action>, a: Action, d: Desired)
    requires !IsWriter(a)
    ensures LastWord(acts, d) ==> LastWord(acts + [a], d)
    ensures Undisturbed(acts) ==> Undisturbed(acts + [a])
  {
    if LastWord(acts, d) {
      var i: nat :| LastWriter(acts, i) && acts[i].event.d == d;
      assert LastWriter(acts + [a], i);
    }
  }

  lemma {:induction false} LastIntentIs(acts: seq<Action>, d: Desired)
    ensures if Undisturbed(acts) then LastIntent(acts, d) == d else LastWord(acts, LastIntent(acts, d))
  {
    if acts != [] {
      var n := |acts| - 1;
      if IsWriter(acts[n]) {
        assert LastWriter(acts, n);
      } else {
        LastIntentIs(acts[..n], d);
        LastWordOn(acts[..n], acts[n], LastIntent(acts[..n], d));
        assert acts == acts[..n] + [acts[n]];
      }
    }
  }

  lemma OneLastWord(acts: seq<Action>, d: Desired, e: Desired)
    requires LastWord(acts, d) && LastWord(acts, e)
    ensures d == e && !Undisturbed(acts)
  {
    var i: nat :| LastWriter(acts, i) && acts[i].event.d == d;
    var j: nat :| LastWriter(acts, j) && acts[j].event.d == e;
  }

  // ---- between the release of the lock and the terminal rollback write -------------------

  /** Past the release only another writer changes the intent. */
  lemma TerminalStep(w: World, a: Action)
    requires w.control.Terminal? && !w.locked
    ensures Apply(w, a).desired == if IsWriter(a) then a.event.d else w.desired
  {}

  lemma TerminalStays(w: World, a: Action)
    requires w.control.Terminal? && !w.locked && Apply(w, a).control.Terminal?
    ensures Apply(w, a).control == w.control && !Apply(w, a).locked
  {}

  /** The place is entered by the last read of the proof, which changes no intent. */
  lemma TerminalEntry(w: World, a: Action)
    requires Agrees(w) && !w.control.Terminal? && Apply(w, a).control.Terminal?
    ensures Apply(w, a).control.releasedAt == w.clock && Apply(w, a).desired == w.desired && !Apply(w, a).locked
  {
    StepMoves(w, a);
  }

  /** At the release itself the intent was the proven one. */
  lemma ProvenAtRelease(past: seq<World>)
    requires Inv(past) && Last(past).control.Terminal?
    ensures var c := Last(past).control;
            c.releasedAt < |past| && past[c.releasedAt].desired == Intent(c.m.previous, c.proof.generation)
  {}

  lemma EntryStep(past: seq<World>, a: Action)
    requires Inv(past) && !Last(past).control.Terminal? && Apply(Last(past), a).control.Terminal?
    ensures var w := Apply(Last(past), a);
            && w.control.releasedAt == |past| - 1 && !w.locked
            && w.desired == Intent(w.control.m.previous, w.control.proof.generation)
  {
    StepKeeps(past, a);
    TerminalEntry(Last(past), a);
    var longer := past + [Apply(Last(past), a)];
    ProvenAtRelease(longer);
    assert longer[|past| - 1] == Last(past);
  }

  lemma TerminalEntered(tr: seq<World>, acts: seq<Action>, k: nat)
    requires IsRun(tr, acts) && 0 < k < |tr| && tr[k].control.Terminal? && !tr[k - 1].control.Terminal?
    ensures var c := tr[k].control;
            c.releasedAt == k - 1 && !tr[k].locked && tr[k].desired == Intent(c.m.previous, c.proof.generation)
  {
    RunKeeps(tr, acts, k - 1);
    assert Linked(tr, acts, k - 1) && Last(tr[..k]) == tr[k - 1];
    EntryStep(tr[..k], acts[k - 1]);
  }

  lemma {:induction false} TerminalIntent(tr: seq<World>, acts: seq<Action>, k: nat)
    requires IsRun(tr, acts) && k < |tr| && tr[k].control.Terminal?
    ensures var c := tr[k].control;
            && c.releasedAt < k && !tr[k].locked
            && tr[k].desired == LastIntent(acts[c.releasedAt + 1..k], Intent(c.m.previous, c.proof.generation))
  {
    var r := tr[k].control.releasedAt;
    if tr[k - 1].control.Terminal? {
      TerminalIntent(tr, acts, k - 1);
      assert Linked(tr, acts, k - 1);
      TerminalStep(tr[k - 1], acts[k - 1]);
      TerminalStays(tr[k - 1], acts[k - 1]);
      var since := acts[r + 1..k];
      assert since[..|since| - 1] == acts[r + 1..k - 1] && since[|since| - 1] == acts[k - 1];
    } else {
      TerminalEntered(tr, acts, k);
      assert acts[r + 1..k] == [];
    }
  }

  /** The intent `d` is still the desired one exactly when nobody wrote one or the last writer wrote
      `d`; among newer intents, exactly when nobody wrote one. */
  ghost predicate Stands(acts: seq<Action>, d: Desired, now: Desired)
    requires d.Intent?
  {
    && (now == d <==> Undisturbed(acts) || LastWord(acts, d))
    && (Newer(acts, d.generation) ==> (now == d <==> Undisturbed(acts)))
  }

  lemma StandsIff(acts: seq<Action>, d: Desired)
    requires d.Intent?
    ensures Stands(acts, d, LastIntent(acts, d))
  {
    LastIntentIs(acts, d);
    if LastWord(acts, d) && !Undisturbed(acts) {
      OneLastWord(acts, d, LastIntent(acts, d));
    }
  }

  /** When a supervised rollback writes its terminal state, the intent it proved is still the desired
      one if and only if, of the steps since the lock was let go, none wrote an intent or the last
      that did wrote that very one. Where every intent written is newer, it is so if and only if
      none was written. */
  lemma RollbackCurrentIff(tr: seq<World>, acts: seq<Action>, k: nat)
    requires IsRun(tr, acts) && k < |tr| && tr[k].control.Terminal?
    ensures tr[k].control.releasedAt < k <= |acts|
    ensures var c := tr[k].control;
            Stands(acts[c.releasedAt + 1..k], Intent(c.m.previous, c.proof.generation), tr[k].desired)
  {
    TerminalIntent(tr, acts, k);
    var c := tr[k].control;
    var since := acts[c.releasedAt + 1..k];
    var proven := Intent(c.m.previous, c.proof.generation);
    var now := tr[k].desired;
    assert now == LastIntent(since, proven);
    StandsIff(since, proven);
    assert Stands(since, proven, now);
  }

  /** Every intent written in these steps is of a later generation. */
  predicate Newer(acts: seq<Action>, generation: nat) {
    forall i :: 0 <= i < |acts| && IsWriter(acts[i]) ==>
      acts[i].event.d.Intent? && acts[i].event.d.generation > generation
  }

  // ---- while no supervisor runs ----------------------------------------------------------

  /** A pending supervisor-owned mission that no operation has got past its supervisor checks. */
  predicate Waits(w: World, m: Record) {
    && w.mission == Some(m) && m.owned == Supervisor && m.phase == Pending && !w.locked
    && match w.control
       case Idle => true
       case Rolling(n) => n == m
       case Confirming(n) => n == m
       case Preparing(n, _) => n == m
       case _ => false
  }

  predicate Holds(w: World, v: World, a: Action, m: Record) {
    Waits(v, m) && v.desired == if IsWriter(a) then a.event.d else w.desired
  }

  lemma EnvironmentHolds(w: World, a: Outside, m: Record)
    requires Waits(w, m)
    ensures Holds(w, Environment(w, a), Env(a), m)
  {}

  lemma DeployHolds(w: World, a: CheckoutStep, m: Record)
    requires Waits(w, m)
    ensures Holds(w, Deploy(w, a), Deploys(a), m)
  {}

  lemma RollbackHolds(w: World, a: RollbackStep, m: Record)
    requires Waits(w, m) && !w.running
    ensures Holds(w, Rollback(w, a), Rolls(a), m)
  {}

  lemma ConfirmHolds(w: World, a: ConfirmStep, m: Record)
    requires Waits(w, m) && !w.running
    ensures Holds(w, Confirm(w, a), Confirms(a), m)
  {}

  lemma FinalizeHolds(w: World, a: SettleStep, m: Record)
    requires Waits(w, m)
    ensures Holds(w, Finalize(w, a), Settles(a), m)
  {}

  lemma StepHolds(w: World, a: Action, m: Record)
    requires Waits(w, m) && !w.running
    ensures Holds(w, Apply(w, a), a, m)
  {
    match a
    case Env(e) => EnvironmentHolds(w, e, m);
    case Deploys(s) => DeployHolds(w, s, m);
    case Rolls(s) => RollbackHolds(w, s, m);
    case Confirms(s) => ConfirmHolds(w, s, m);
    case Settles(s) => FinalizeHolds(w, s, m);
    case Proves(_) =>
  }

  /** As long as no supervisor runs, whatever operations are begun and however they go, a pending
      supervisor-owned mission stays exactly as it is and the controller writes no intent. */
  lemma {:induction false} HeldWithoutSupervisor(tr: seq<World>, acts: seq<Action>, i: nat, j: nat, m: Record)
    requires IsRun(tr, acts) && i <= j < |tr| && Waits(tr[i], m)
    requires forall t :: i <= t < j ==> !tr[t].running
    ensures Waits(tr[j], m) && tr[j].mission == tr[i].mission
    ensures tr[j].desired == LastIntent(acts[i..j], tr[i].desired)
  {
    if i < j {
      HeldWithoutSupervisor(tr, acts, i, j - 1, m);
      assert Linked(tr, acts, j - 1);
      StepHolds(tr[j - 1], acts[j - 1], m);
      var since := acts[i..j];
      assert since[..|since| - 1] == acts[i..j - 1] && since[|since| - 1] == acts[j - 1];
    }
  }
}
