/** Runs that show where a promise of the deployment controller stops. */
module MissionCases {
  import opened Common
  import opened Mission
  import opened MissionRuns

  lemma Extend(tr: seq<World>, acts: seq<Action>, a: Action)
    returns (longer: seq<World>, more: seq<Action>)
    requires IsRun(tr, acts)
    ensures longer == tr + [Apply(Last(tr), a)] && more == acts + [a]
    ensures IsRun(longer, more) && Last(longer) == Apply(Last(tr), a) && |longer| == |tr| + 1
    ensures longer[|tr| - 1] == Last(tr)
  {
    longer, more := tr + [Apply(Last(tr), a)], acts + [a];
    forall i | 0 <= i < |more| ensures Linked(longer, more, i) {
      if i < |acts| {
        assert Linked(tr, acts, i);
      }
    }
  }

  /** `w` is about to take, or holds, the generation lock for a target settled on `g`. */
  predicate Calm(w: World, m: Record, g: nat, child: nat) {
    && w.desired == Intent(m.previous, g)
    && w.status == Some(Report(m.previous, g, true, false, Some(child)))
    && w.state == Report(m.previous, g, true, false, Some(child))
    && child in w.children
  }

  lemma RoundOpens(tr: seq<World>, acts: seq<Action>, m: Record, at: nat, g: nat, child: nat, again: bool)
    returns (longer: seq<World>, more: seq<Action>)
    requires IsRun(tr, acts) && Last(tr).clock == |tr| - 1 && Calm(Last(tr), m, g, child)
    requires Last(tr).control == if again then Rechecking(m, at, g) else Settled(m, Back, at, g)
    ensures IsRun(longer, more) && |longer| == |tr| + 2
    ensures Last(longer) == Last(tr).(locked := true, clock := |tr| + 1,
                              control := Checking(m, Back, at, again, 1, Proof(g, |tr| - 1, 0, 0, 0, 0)))
  {
    longer, more := Extend(tr, acts, Settles(TakeLock));
    assert Last(longer) == Last(tr).(locked := true, clock := |tr|,
                                     control := Checking(m, Back, at, again, 0, Proof(g, |tr| - 1, 0, 0, 0, 0)));
    longer, more := Extend(longer, more, Proves(ReadDesired));
  }

  lemma RoundCloses(tr: seq<World>, acts: seq<Action>, m: Record, at: nat, p: Proof, child: nat, again: bool)
    returns (longer: seq<World>, more: seq<Action>)
    requires IsRun(tr, acts) && Last(tr).clock == |tr| - 1 && Calm(Last(tr), m, p.generation, child)
    requires Last(tr).control == Checking(m, Back, at, again, 1, p)
    ensures IsRun(longer, more) && |longer| == |tr| + 3
    ensures var w := Last(longer);
            && w == Last(tr).(locked := false, clock := |tr| + 2, control := w.control)
            && if again then w.control.Terminal? && w.control.m == m && w.control.proof.generation == p.generation
               else w.control == Artifacts(m, at, p.generation)
  {
    var v := Last(tr);
    var n := |tr| - 1;
    longer, more := Extend(tr, acts, Proves(ReadStatus));
    var q := p.(statusAt := n, child := child);
    assert Last(longer) == v.(control := Checking(m, Back, at, again, 2, q), clock := n + 1);
    longer, more := Extend(longer, more, Proves(ReadState));
    assert Last(longer) == v.(control := Checking(m, Back, at, again, 3, q.(stateAt := n + 1)), clock := n + 2);
    longer, more := Extend(longer, more, Proves(ReadChild));
  }

  /** One round of the terminalization proof for a rollback whose target stays settled. */
  lemma ProofRound(tr: seq<World>, acts: seq<Action>, m: Record, at: nat, g: nat, child: nat, again: bool)
    returns (longer: seq<World>, more: seq<Action>)
    requires IsRun(tr, acts) && Last(tr).clock == |tr| - 1 && Calm(Last(tr), m, g, child) && !Last(tr).locked
    requires Last(tr).control == if again then Rechecking(m, at, g) else Settled(m, Back, at, g)
    ensures IsRun(longer, more) && |longer| == |tr| + 5
    ensures var w := Last(longer);
            && w == Last(tr).(clock := |tr| + 4, control := w.control)
            && if again then w.control.Terminal? && w.control.m == m && w.control.proof.generation == g
               else w.control == Artifacts(m, at, g)
  {
    longer, more := RoundOpens(tr, acts, m, at, g, child, again);
    longer, more := RoundCloses(longer, more, m, at, Proof(g, |tr| - 1, 0, 0, 0, 0), child, again);
  }

  /** From a pending supervised mission with the previous commit settled, a rollback comes to the
      point of its terminal write. */
  lemma RollbackComesToWrite(m: Record, w: World, g: nat, child: nat)
    returns (tr: seq<World>, acts: seq<Action>)
    requires w.mission == Some(m) && m.phase == Pending && m.owned == Supervisor && w.running && !w.malformed
    requires w.clock == 0 && w.control == Idle && !w.locked && Calm(w, m, g, child)
    ensures IsRun(tr, acts)
    ensures var v := Last(tr);
            v == w.(clock := |tr| - 1, control := v.control)
            && v.control.Terminal? && v.control.m == m && v.control.proof.generation == g
  {
    tr, acts := [w], [];
    tr, acts := Extend(tr, acts, Rolls(BeginRollback(Operator)));
    assert Last(tr) == w.(control := Rolling(m), clock := 1, wanted := w.wanted);
    tr, acts := Extend(tr, acts, Rolls(Roll));
    assert Last(tr) == w.(control := Settle(m, Back, 1), clock := 2);
    tr, acts := Extend(tr, acts, Settles(SettleDesired(0)));
    assert Last(tr) == w.(control := Settled(m, Back, 1, g), clock := 3);
    tr, acts := ProofRound(tr, acts, m, 1, g, child, false);
    tr, acts := Extend(tr, acts, Settles(RestoreArtifacts));
    assert Last(tr) == w.(control := Rechecking(m, 1, g), clock := 9);
    tr, acts := ProofRound(tr, acts, m, 1, g, child, true);
  }

  /** A rollback of a supervised mission can be recorded although a newer intent for another commit
      has won meanwhile: the terminal write comes after the generation lock is let go. */
  lemma RolledBackUnderNewerIntent() returns (tr: seq<World>, acts: seq<Action>)
    ensures IsRun(tr, acts) && |tr| >= 2
    ensures var before, after := tr[|tr| - 2], Last(tr);
            && before.mission.Some? && before.mission.value.phase == Pending
            && before.mission.value.owned == Supervisor
            && after.mission == Some(before.mission.value.(phase := RolledBack))
            && before.control.Terminal? && !before.locked
            && before.desired.Intent? && before.desired.generation > before.control.proof.generation
            && before.desired.commit != before.mission.value.previous
  {
    var m := Record(1, Pending, "new", "old", Supervisor, None, false, false);
    var calm := Report("old", 2, true, false, Some(7));
    var w := World(Some(m), true, Intent("old", 2), Some(calm), calm, {7}, {}, 0, true, false, false, false, Idle, 0);
    tr, acts := RollbackComesToWrite(m, w, 2, 7);
    var v := Last(tr);
    tr, acts := Extend(tr, acts, Env(SetDesired(Intent("newest", 3))));
    assert Last(tr) == v.(desired := Intent("newest", 3), clock := v.clock + 1);
    tr, acts := Extend(tr, acts, Settles(RollBackSupervised(Landed)));
  }

  lemma OperatorRollsBack(tr: seq<World>, acts: seq<Action>, m: Record, w: World)
    returns (longer: seq<World>, more: seq<Action>)
    requires IsRun(tr, acts) && Last(tr) == w && w.control == Idle && !w.locked && !w.malformed
    requires w.mission == Some(m) && m.phase == Pending && m.owned == Controller
    requires m.candidate.Some? && m.candidate.value !in w.candidates
    ensures IsRun(longer, more) && |longer| == |tr| + 4 && longer[0] == tr[0]
    ensures Last(longer) == w.(mission := Some(m.(phase := RolledBack, restart := false)), clock := w.clock + 4)
  {
    longer, more := Extend(tr, acts, Rolls(BeginRollback(Operator)));
    assert Last(longer) == w.(control := Rolling(m), clock := w.clock + 1);
    longer, more := Extend(longer, more, Rolls(Roll));
    assert Last(longer) == w.(control := Retire(m), clock := w.clock + 2);
    longer, more := Extend(longer, more, Rolls(ProveDead));
    assert Last(longer) == w.(control := Restore(m), clock := w.clock + 3);
    longer, more := Extend(longer, more, Rolls(RollBackLegacy(Landed)));
  }

  /** An undisturbed checkout without a supervisor leaves a pending mission with a candidate of the
      controller's, the previous worker being retired. */
  lemma LegacyGoesLive(tr: seq<World>, acts: seq<Action>, w: World, commit: Commit, previous: Commit, g: nat)
    returns (longer: seq<World>, more: seq<Action>)
    requires IsRun(tr, acts) && Last(tr) == w && w.control == Idle && !w.malformed && !w.running && Fresh(w, g)
    requires (w.mission.Some? ==> w.mission.value.phase != Pending) && commit != previous
    ensures IsRun(longer, more) && |longer| == |tr| + 3 && longer[0] == tr[0]
    ensures Last(longer) ==
            w.(mission := Some(Record(g, Pending, commit, previous, Controller, Some(w.spawned), true, false)),
               candidates := w.candidates + {w.spawned}, spawned := w.spawned + 1, clock := w.clock + 3)
  {
    var m := Record(g, Pending, commit, previous, Controller, Some(w.spawned), false, false);
    longer, more := Extend(tr, acts, Deploys(BeginCheckout(commit, previous, g, Landed)));
    var v := w.(mission := Some(m), candidates := w.candidates + {w.spawned}, spawned := w.spawned + 1);
    assert Last(longer) == v.(control := Handoff(m), clock := w.clock + 1);
    longer, more := Extend(longer, more, Deploys(HandOff(Landed)));
    var n := m.(retiring := true);
    assert Last(longer) == v.(mission := Some(n), control := Releasing(n), clock := w.clock + 2);
    longer, more := Extend(longer, more, Deploys(GoLive(Landed)));
  }

  /** A watchdog that decided about one mission can roll back the next: it reads the mission again
      under the deployment lock, but asks only whether that one is pending. */
  lemma WatchdogRollsBackAnother() returns (tr: seq<World>, acts: seq<Action>, k: nat)
    ensures IsRun(tr, acts) && 0 < k < |tr| - 1
    ensures var first, chosen := tr[0].mission, tr[k].mission;
            && first.Some? && chosen.Some? && first.value.generation < chosen.value.generation
            && acts[k] == Rolls(BeginRollback(Watchdog))
            && !WatchdogWants(chosen.value, tr[k]) && !RollbackDue(chosen.value, tr[k])
            && Last(tr).mission == Some(chosen.value.(phase := RolledBack))
  {
    var one := Record(1, Pending, "new", "old", Controller, Some(0), false, false);
    var quiet := Report("old", 0, true, false, None);
    var w := World(Some(one), false, Missing, None, quiet, {}, {}, 1, false, false, false, false, Idle, 0);
    tr, acts := [w], [];
    tr, acts := Extend(tr, acts, Env(WatchdogReads));
    assert Last(tr) == w.(wanted := true, clock := 1);
    tr, acts := OperatorRollsBack(tr, acts, one, w.(wanted := true, clock := 1));
    tr, acts := LegacyGoesLive(tr, acts, Last(tr), "newer", "old", 2);
    k := |tr| - 1;
    var live := Last(tr);
    tr, acts := FinishLegacy(tr, acts, live.mission.value, live);
    assert tr[k] == live && tr[0] == w;
  }

  lemma FinishLegacy(tr: seq<World>, acts: seq<Action>, m: Record, live: World)
    returns (longer: seq<World>, more: seq<Action>)
    requires IsRun(tr, acts) && Last(tr) == live && live.control == Idle && live.wanted
    requires live.mission == Some(m) && m.phase == Pending && m.owned == Controller && m.candidate.Some?
             && !live.malformed
    ensures IsRun(longer, more) && |longer| == |tr| + 5 && longer[..|tr|] == tr
            && more[|acts|] == Rolls(BeginRollback(Watchdog))
    ensures Last(longer).mission == Some(m.(phase := RolledBack, restart := false))
  {
    var c := m.candidate.value;
    longer, more := Extend(tr, acts, Rolls(BeginRollback(Watchdog)));
    assert Last(longer) == live.(wanted := false, control := Rolling(m), clock := live.clock + 1);
    longer, more := Extend(longer, more, Rolls(Roll));
    assert Last(longer).control == Retire(m);
    longer, more := Extend(longer, more, Env(CandidateExits(c)));
    longer, more := Extend(longer, more, Rolls(ProveDead));
    assert Last(longer).control == Restore(m);
    longer, more := Extend(longer, more, Rolls(RollBackLegacy(Landed)));
  }
}
