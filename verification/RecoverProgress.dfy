/** What recover and repair achieve when nothing disturbs them, and when their obligation goes.
    Models _recover_consumer_locked and _repair_authority_transition_locked in src/lubko/lifecycle.py. */
module RecoverProgress {
  import opened Common
  import opened Recover

  /** Neither the published worker nor the instance of the obligation is alive, and the obligation
      says which instance that is. */
  predicate Startable(w: World) {
    && w.control == Free && HonestAlive(true, w, false)
    && (w.obligation.Some? ==> w.obligation.value.pid.Some? && HonestGone(true, w, w.obligation.value, true))
  }

  /** The right verdicts: the published worker is alive, and the obligation's instance is gone. */
  predicate RightVerdicts(w: World, alive: bool, gone: bool) {
    && (alive <==> !HonestAlive(true, w, false))
    && (w.obligation.Some? ==> (gone <==> HonestGone(true, w, w.obligation.value, true)))
  }

  /** The steps of recover up to the spawn. */
  function Opening(alive: bool, gone: bool): seq<Action> {
    [Preflight(alive), Resolve(gone, true, Confirmed), Prewrite(Confirmed)]
  }

  /** Up to the spawn, recover goes on exactly if it may start a worker; otherwise nothing changes. */
  lemma Opens(w: World, alive: bool, gone: bool)
    requires w.control == Free && RightVerdicts(w, alive, gone)
    ensures Exec(true, w, Opening(alive, gone)) ==
            if !Startable(w) then w
            else w.(obligation := Some(Obligation(w.nextToken, None, None)), control := Prewritten(w.nextToken),
                    nextToken := w.nextToken + 1)
  {
    var b0: seq<Action> := [];
    var b1 := b0 + [Preflight(alive)];
    var b2 := b1 + [Resolve(gone, true, Confirmed)];
    Extend(true, w, b0, Preflight(alive));
    Extend(true, w, b1, Resolve(gone, true, Confirmed));
    assert Exec(true, w, b2) == if !Startable(w) then w else w.(obligation := None, control := Resolved);
    Extend(true, w, b2, Prewrite(Confirmed));
    assert Opening(alive, gone) == b2 + [Prewrite(Confirmed)];
  }

  /** An undisturbed recover of a worker that turns out healthy. */
  function Recovering(alive: bool, gone: bool, i: nat, pid: nat, ticks: nat): seq<Action> {
    Opening(alive, gone) + [Spawn(i, pid, ticks), Identify(Some(ticks), Confirmed), SettleHealthy]
  }

  /** The world with that worker running and recorded in the obligation. */
  function Recovered(w: World, i: nat, pid: nat, ticks: nat): World {
    w.(workers := w.workers[i := Worker(pid, ticks, w.nextToken, true, true)],
       obligation := Some(Obligation(w.nextToken, Some(pid), Some(ticks))), nextToken := w.nextToken + 1)
  }

  /** An undisturbed recover starts its worker exactly if it may, and records its identity. */
  lemma RecoverStartsIff(w: World, alive: bool, gone: bool, i: nat, pid: nat, ticks: nat)
    requires w.control == Free && RightVerdicts(w, alive, gone) && Fresh(w, i, pid, ticks)
    ensures Exec(true, w, Recovering(alive, gone, i, pid, ticks)) ==
            if Startable(w) then Recovered(w, i, pid, ticks) else w
  {
    var b5 := Opening(alive, gone) + [Spawn(i, pid, ticks), Identify(Some(ticks), Confirmed)];
    Identifies(w, alive, gone, i, pid, ticks);
    Extend(true, w, b5, SettleHealthy);
    assert Recovering(alive, gone, i, pid, ticks) == b5 + [SettleHealthy];
  }

  /** A recover whose spawn fails leaves no obligation behind if it could clear it, so that another one
      may start a worker; if not, its obligation has no PID. */
  lemma FailedSpawnClears(w: World, alive: bool, gone: bool, clear: Write)
    requires Startable(w) && RightVerdicts(w, alive, gone)
    ensures var v := Exec(true, w, Opening(alive, gone) + [SpawnFails(clear)]);
            && v.workers == w.workers && v.control == Free && v.meta == w.meta
            && (if clear == FailedOld then Pidless(v) else v.obligation.None? && Startable(v))
  {
    Opens(w, alive, gone);
    Extend(true, w, Opening(alive, gone), SpawnFails(clear));
  }

  /** A recover whose worker turns out unhealthy and is converged. */
  function Converging(alive: bool, gone: bool, i: nat, pid: nat, ticks: nat, groups: bool, clear: Write): seq<Action> {
    Opening(alive, gone)
    + [Spawn(i, pid, ticks), Identify(Some(ticks), Confirmed), Exit(i), Converge, FinishConverge(groups, clear)]
  }

  /** It leaves no obligation behind if the worker's groups were recovered and it could clear it. */
  lemma ConvergedClears(w: World, alive: bool, gone: bool, i: nat, pid: nat, ticks: nat, groups: bool, clear: Write)
    requires Startable(w) && RightVerdicts(w, alive, gone) && Fresh(w, i, pid, ticks)
    ensures var v := Exec(true, w, Converging(alive, gone, i, pid, ticks, groups, clear));
            && v.control == Free && v.meta == w.meta && i in v.workers && !v.workers[i].alive
            && v.obligation == (if groups && clear != FailedOld then None
                                else Some(Obligation(w.nextToken, Some(pid), Some(ticks))))
  {
    var b5 := Opening(alive, gone) + [Spawn(i, pid, ticks), Identify(Some(ticks), Confirmed)];
    var more := [Exit(i), Converge, FinishConverge(groups, clear)];
    Identifies(w, alive, gone, i, pid, ticks);
    Appends(true, w, b5, more);
    assert Converging(alive, gone, i, pid, ticks, groups, clear) == b5 + more;
    ConvergeClears(Exec(true, w, b5), i, groups, clear);
  }

  /** Up to its identity being recorded, recover has started its worker exactly if it may. */
  lemma Identifies(w: World, alive: bool, gone: bool, i: nat, pid: nat, ticks: nat)
    requires w.control == Free && RightVerdicts(w, alive, gone) && Fresh(w, i, pid, ticks)
    ensures Exec(true, w, Opening(alive, gone) + [Spawn(i, pid, ticks), Identify(Some(ticks), Confirmed)]) ==
            if Startable(w) then Recovered(w, i, pid, ticks).(control := Identified(i)) else w
  {
    var b3 := Opening(alive, gone);
    var b4 := b3 + [Spawn(i, pid, ticks)];
    Opens(w, alive, gone);
    Extend(true, w, b3, Spawn(i, pid, ticks));
    Extend(true, w, b4, Identify(Some(ticks), Confirmed));
    assert b3 + [Spawn(i, pid, ticks), Identify(Some(ticks), Confirmed)] == b4 + [Identify(Some(ticks), Confirmed)];
  }

  lemma ConvergeClears(w: World, i: nat, groups: bool, clear: Write)
    requires w.control == Identified(i) && i in w.workers
    ensures var v := Exec(true, w, [Exit(i), Converge, FinishConverge(groups, clear)]);
            && v.control == Free && v.meta == w.meta && i in v.workers && !v.workers[i].alive
            && v.obligation == if groups && clear != FailedOld then None else w.obligation
  {
    var b0: seq<Action> := [];
    var b1 := b0 + [Exit(i)];
    var b2 := b1 + [Converge];
    Extend(true, w, b0, Exit(i));
    Extend(true, w, b1, Converge);
    Extend(true, w, b2, FinishConverge(groups, clear));
    assert [Exit(i), Converge, FinishConverge(groups, clear)] == b2 + [FinishConverge(groups, clear)];
  }

  /** An undisturbed repair of a worker that consumes. */
  function Repairing(i: nat, alive: bool): seq<Action> {
    [CheckAdoption(i, alive), Publish(Confirmed), Verify(true), Release(Confirmed)]
  }

  /** No other published worker lives, and an obligation is exactly for this worker. */
  predicate Adoptable(w: World, i: nat)
    requires i in w.workers
  {
    && (w.meta.Some? && w.meta.value.pid != w.workers[i].pid ==> HonestAlive(true, w, false))
    && (w.obligation.Some? ==> Exactly(w.obligation.value, w.workers[i]))
  }

  /** An undisturbed repair of a live worker adopts it exactly if it may: the metadata then names it and
      no obligation is left. Otherwise nothing changes. */
  lemma RepairAdoptsIff(w: World, i: nat, alive: bool)
    requires w.control == Free && i in w.workers && w.workers[i].alive && (alive <==> !HonestAlive(true, w, false))
    ensures var x := w.workers[i];
            Exec(true, w, Repairing(i, alive)) ==
            if Adoptable(w, i) then w.(meta := Some(Published(x.pid, x.ticks, x.token)), obligation := None) else w
  {
    var b0: seq<Action> := [];
    var b1 := b0 + [CheckAdoption(i, alive)];
    var b2 := b1 + [Publish(Confirmed)];
    var b3 := b2 + [Verify(true)];
    Extend(true, w, b0, CheckAdoption(i, alive));
    assert Exec(true, w, b1) == if Adoptable(w, i) then w.(control := Adopting(i)) else w;
    Extend(true, w, b1, Publish(Confirmed));
    var x := w.workers[i];
    var named := w.(meta := Some(Published(x.pid, x.ticks, x.token)));
    assert Exec(true, w, b2) == if Adoptable(w, i) then named.(control := Adopted(i)) else w;
    Extend(true, w, b2, Verify(true));
    assert Exec(true, w, b3) == if Adoptable(w, i) then named.(control := Verified(i)) else w;
    Extend(true, w, b3, Release(Confirmed));
    assert Repairing(i, alive) == b3 + [Release(Confirmed)];
  }

  /** Where a worker may be started no recovery worker lives. */
  lemma StartableIsEmpty(w: World, i: nat)
    requires Inv(w) && Startable(w)
    ensures !Live(w, i)
  {
    assert Named(w, i);
  }

  /** Progress: from every reachable state in which recover may start a worker, an undisturbed recover ends
      with exactly one live recovery worker, named by its obligation, and an undisturbed repair of it
      ends with the metadata naming it and no obligation. */
  lemma RecoverThenRepair(actions: seq<Action>, gone: bool, i: nat, pid: nat, ticks: nat)
    requires var w := Exec(true, START, actions);
             Startable(w) && RightVerdicts(w, false, gone) && Fresh(w, i, pid, ticks)
    ensures var w := Exec(true, START, actions);
            var started := Exec(true, w, Recovering(false, gone, i, pid, ticks));
            var repaired := Exec(true, started, Repairing(i, !HonestAlive(true, started, false)));
            && i in started.workers && i in repaired.workers
            && (forall j :: Live(started, j) <==> j == i) && (forall j :: Live(repaired, j) <==> j == i)
            && started.control == Free && started.obligation.Some?
            && Exactly(started.obligation.value, started.workers[i])
            && repaired.control == Free && repaired.obligation.None?
            && repaired.meta.Some? && Describes(repaired.meta.value, repaired.workers[i])
  {
    var w := Exec(true, START, actions);
    RecoveryRuns(actions);
    RecoverStartsIff(w, false, gone, i, pid, ticks);
    var started := Recovered(w, i, pid, ticks);
    forall j ensures Live(started, j) <==> j == i { StartableIsEmpty(w, j); }
    RepairAdoptsIff(started, i, !HonestAlive(true, started, false));
    assert Adoptable(started, i);
    var repaired := Exec(true, started, Repairing(i, !HonestAlive(true, started, false)));
    forall j ensures Live(repaired, j) <==> Live(started, j) {}
  }

  /** The step settles what the obligation was for: nothing was spawned, the child and its groups are gone,
      the worker is adopted, or the instance it records was found gone. */
  predicate Settles(w: World, a: Action) {
    match a
    case SpawnFails(_) => w.control.Prewritten?
    case FinishConverge(groups, _) => w.control.Converged? && groups
    case Release(_) =>
      && w.control.Verified? && w.control.i in w.workers
      && (w.obligation.Some? ==> Exactly(w.obligation.value, w.workers[w.control.i]))
    case Resolve(gone, groups, _) =>
      && w.control == Preflighted && gone && groups && w.obligation.Some? && w.obligation.value.pid.Some?
      && HonestGone(true, w, w.obligation.value, true)
    case _ => false
  }

  predicate Lands(a: Action) {
    match a
    case SpawnFails(clear) => clear != FailedOld
    case FinishConverge(_, clear) => clear != FailedOld
    case Release(clear) => clear != FailedOld
    case Resolve(_, _, clear) => clear != FailedOld
    case _ => false
  }

  /** The obligation after the last step of any run: gone exactly if that step settled it durably or there
      was none; otherwise the one that stood, the same with its instance filled in, or a new one
      written while no recovery worker lived. When it goes, the metadata names whichever recovery
      worker lives. */
  lemma ObligationFate(actions: seq<Action>, a: Action)
    ensures var w, w' := Exec(true, START, actions), Exec(true, START, actions + [a]);
            && (Settles(w, a) && Lands(a) ==> w'.obligation.None?)
            && (w.obligation.Some? && w'.obligation.None? ==> Settles(w, a) && Lands(a))
            && (w'.obligation.Some? && w'.obligation != w.obligation ==>
                  || (w'.obligation == Some(Obligation(w.nextToken, None, None)) && forall i :: !Live(w', i))
                  || (w.obligation == Some(Obligation(w'.obligation.value.token, None, None))
                      && exists i :: i in w.workers && Covers(w'.obligation.value, w.workers[i])
                                     && w'.obligation.value.pid == Some(w.workers[i].pid)))
            && (w'.obligation.None? ==>
                  forall i :: Live(w', i) ==> w'.meta.Some? && Describes(w'.meta.value, w'.workers[i]))
  {
    var w := Exec(true, START, actions);
    RecoveryRuns(actions);
    RecoveryRuns(actions + [a]);
    Extend(true, START, actions, a);
    var w' := Apply(true, w, a);
    forall i | Live(w', i) && w'.obligation.None?
      ensures w'.meta.Some? && Describes(w'.meta.value, w'.workers[i])
    {
      assert Named(w', i);
    }
    if a.Prewrite? {
      forall i ensures Live(w', i) ==> Live(w, i) && Progress(w, i) {}
    }
    if a.Identify? && w.control.Spawned? && w'.obligation != w.obligation {
      assert Covers(w'.obligation.value, w.workers[w.control.i]);
    }
  }

  /** Whatever became of its last write, a command at its last step is over. */
  lemma CommandEnds(readable: bool, w: World, clear: Write, groups: bool)
    ensures w.control.Prewritten? ==> Apply(readable, w, SpawnFails(clear)).control == Free
    ensures w.control.Converged? ==> Apply(readable, w, FinishConverge(groups, clear)).control == Free
    ensures w.control.Verified? && w.control.i in w.workers ==> Apply(readable, w, Release(clear)).control == Free
  {}
}
