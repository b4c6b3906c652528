/** What the serialized durable operations put in place: any number of threads and processes, failures and
    crashes make a register whose value is the last one committed. The values are read off the actions of
    the run, not off the world. Models write_bytes_durable under the reentrant lock of src/lubko/durable.py. */
module DurableRegister {
  import opened Common
  import opened DurableLock

  /** The value given to the thread's last rename that took place. */
  function Given(proc: nat -> nat, value: int, actions: seq<Action>, t: nat): int {
    if actions == [] then value else
      var fewer, a := actions[..|actions| - 1], actions[|actions| - 1];
      if a.Rename? && a.thread == t && PhaseOf(Exec(proc, Start(value), fewer), t).Snapped? then a.v
      else Given(proc, value, fewer, t)
  }

  /** The values given to the renames whose directory fsync was confirmed, in order. */
  function Confirmed(proc: nat -> nat, value: int, actions: seq<Action>): seq<int> {
    if actions == [] then [] else
      var fewer, a := actions[..|actions| - 1], actions[|actions| - 1];
      Confirmed(proc, value, fewer)
      + if Confirms(proc, value, fewer, a) then [Given(proc, value, fewer, a.thread)] else []
  }

  predicate Confirms(proc: nat -> nat, value: int, fewer: seq<Action>, a: Action) {
    a.Confirm? && PhaseOf(Exec(proc, Start(value), fewer), a.thread).Renamed?
  }

  /** The last committed value or the initial one. */
  function Current(proc: nat -> nat, value: int, actions: seq<Action>): int {
    var all := Confirmed(proc, value, actions);
    if all == [] then value else all[|all| - 1]
  }

  /** The thread has put a value in place that is neither confirmed nor given up. */
  predicate Dirty(ph: Phase) { ph.Renamed? || ph.Unconfirmed? || ph.Nested? }

  /** The step leaves an unconfirmed value behind: a process crashes inside an operation, or a cleanup ends
      without having written the snapshot back. */
  ghost predicate Mars(proc: nat -> nat, w: World, a: Action) {
    || (a.Crash? && exists t :: proc(t) == a.process && Dirty(PhaseOf(w, t)))
    || (a.NestedExit? && var ph := PhaseOf(w, a.thread); ph.Nested? && ph.level <= 1 && ph.placed != ph.prior)
  }

  /** Such a step has happened since the last commit. */
  ghost predicate Marred(proc: nat -> nat, value: int, actions: seq<Action>) {
    actions != [] &&
    var fewer, a := actions[..|actions| - 1], actions[|actions| - 1];
    && !Confirms(proc, value, fewer, a)
    && (Mars(proc, Exec(proc, Start(value), fewer), a) || Marred(proc, value, fewer))
  }

  /** What a thread inside an operation holds: the value current at its snapshot, and the value it was
      given; and what is in place is one of the two. */
  ghost predicate Holds(ph: Phase, now: int, given: int, current: int, marred: bool) {
    match ph
    case Snapped(prior, _) => (marred || prior == current) && now == prior
    case Renamed(prior, _, own) => (marred || prior == current) && own == given && now == given
    case Unconfirmed(prior, _, own) => (marred || prior == current) && own == given && now == given
    case Nested(prior, _, own, _, placed) =>
      (marred || prior == current) && own == given && now == placed && (placed == prior || placed == given)
    case _ => true
  }

  ghost predicate NoneDirty(w: World) { forall t :: !Dirty(PhaseOf(w, t)) }

  ghost predicate Sound(proc: nat -> nat, value: int, actions: seq<Action>) {
    var w, now := Exec(proc, Start(value), actions), Current(proc, value, actions);
    var marred := Marred(proc, value, actions);
    && w.commits == Confirmed(proc, value, actions)
    && (NoneDirty(w) && !marred ==> w.value == now)
    && (forall t :: Holds(PhaseOf(w, t), w.value, Given(proc, value, actions, t), now, marred))
  }

  function GivenOn(w: World, a: Action, t: nat, given: int): int {
    if a.Rename? && a.thread == t && PhaseOf(w, t).Snapped? then a.v else given
  }

  predicate ConfirmsNow(w: World, a: Action) { a.Confirm? && PhaseOf(w, a.thread).Renamed? }

  /** The thread's own step. */
  lemma ActorHolds(proc: nat -> nat, w: World, a: Action, given: int, current: int, marred: bool)
    requires !a.Crash? && CallSound(w, a.thread)
    requires Holds(PhaseOf(w, a.thread), w.value, given, current, marred)
    requires a.Snapshot? && PhaseOf(w, a.thread) == Held ==> marred || w.value == current
    ensures var w' := Apply(proc, w, a);
            Holds(PhaseOf(w', a.thread), w'.value, GivenOn(w, a, a.thread, given), current, marred)
  {}

  /** Another thread's step while this one holds something, which is past the lock. */
  lemma OtherHolds(proc: nat -> nat, w: World, a: Action, t: nat, given: int, current: int, marred: bool)
    requires Inv(proc, w) && !a.Crash? && a.thread != t && Holds(PhaseOf(w, t), w.value, given, current, marred)
    ensures var w' := Apply(proc, w, a);
            && PhaseOf(w', t) == PhaseOf(w, t)
            && (Locked(PhaseOf(w, t)) ==> w'.value == w.value && !ConfirmsNow(w, a) && !Mars(proc, w, a))
  {
    if Locked(PhaseOf(w, t)) && Locked(PhaseOf(w, a.thread)) {
      MutualExclusion(proc, w, t, a.thread);
    }
  }

  /** What a step makes of what a thread holds. */
  lemma HoldsKept(proc: nat -> nat, w: World, a: Action, t: nat, given: int, current: int, marred: bool, committed: int)
    requires Inv(proc, w) && Holds(PhaseOf(w, t), w.value, given, current, marred)
    requires NoneDirty(w) && !marred ==> w.value == current
    ensures var w' := Apply(proc, w, a);
            Holds(PhaseOf(w', t), w'.value, GivenOn(w, a, t, given), if ConfirmsNow(w, a) then committed else current,
                  !ConfirmsNow(w, a) && (Mars(proc, w, a) || marred))
  {
    if a.Crash? {
      assert PhaseOf(Apply(proc, w, a), t) == PhaseOf(w, t) || PhaseOf(Apply(proc, w, a), t) == Idle;
    } else if a.thread != t {
      OtherHolds(proc, w, a, t, given, current, marred);
    } else {
      if PhaseOf(w, t) == Held {
        forall u ensures !Dirty(PhaseOf(w, u)) {
          if Dirty(PhaseOf(w, u)) { MutualExclusion(proc, w, t, u); }
        }
      }
      assert CallSound(w, t);
      ActorHolds(proc, w, a, given, current, marred);
    }
  }

  /** Once nobody is past the lock the value is the committed one, unless something was left behind. */
  lemma ValueKept(proc: nat -> nat, w: World, a: Action, given: int, current: int, marred: bool)
    requires Inv(proc, w) && (NoneDirty(w) && !marred ==> w.value == current)
    requires !a.Crash? ==> Holds(PhaseOf(w, a.thread), w.value, given, current, marred)
    requires NoneDirty(Apply(proc, w, a)) && !ConfirmsNow(w, a) && !Mars(proc, w, a) && !marred
    ensures Apply(proc, w, a).value == current
  {
    var w' := Apply(proc, w, a);
    if a.Crash? {
      forall t ensures !Dirty(PhaseOf(w, t)) {
        assert !Dirty(PhaseOf(w', t));
      }
    } else {
      assert !Dirty(PhaseOf(w', a.thread));
      if !Dirty(PhaseOf(w, a.thread)) {
        forall t ensures !Dirty(PhaseOf(w, t)) {
          assert !Dirty(PhaseOf(w', t));
        }
      }
    }
  }

  /** One more step appends what it confirms. */
  lemma CommitsStep(proc: nat -> nat, value: int, actions: seq<Action>)
    requires actions != [] && Sound(proc, value, actions[..|actions| - 1])
    ensures Exec(proc, Start(value), actions).commits == Confirmed(proc, value, actions)
    ensures var fewer, a := actions[..|actions| - 1], actions[|actions| - 1];
            var w := Exec(proc, Start(value), fewer);
            Current(proc, value, actions) ==
            if ConfirmsNow(w, a) then Given(proc, value, fewer, a.thread) else Current(proc, value, fewer)
  {
    var fewer, a := actions[..|actions| - 1], actions[|actions| - 1];
    var w := Exec(proc, Start(value), fewer);
    if ConfirmsNow(w, a) {
      assert Holds(PhaseOf(w, a.thread), w.value, Given(proc, value, fewer, a.thread), Current(proc, value, fewer),
                   Marred(proc, value, fewer));
    }
  }

  lemma HoldsStep(proc: nat -> nat, value: int, actions: seq<Action>, t: nat)
    requires actions != [] && Sound(proc, value, actions[..|actions| - 1])
    ensures var w := Exec(proc, Start(value), actions);
            Holds(PhaseOf(w, t), w.value, Given(proc, value, actions, t), Current(proc, value, actions),
                  Marred(proc, value, actions))
  {
    var fewer, a := actions[..|actions| - 1], actions[|actions| - 1];
    var w := Exec(proc, Start(value), fewer);
    SerializedRuns(proc, value, fewer);
    CommitsStep(proc, value, actions);
    HoldsKept(proc, w, a, t, Given(proc, value, fewer, t), Current(proc, value, fewer), Marred(proc, value, fewer),
              Current(proc, value, actions));
  }

  lemma ValueStep(proc: nat -> nat, value: int, actions: seq<Action>)
    requires actions != [] && Sound(proc, value, actions[..|actions| - 1])
    requires NoneDirty(Exec(proc, Start(value), actions)) && !Marred(proc, value, actions)
    ensures Exec(proc, Start(value), actions).value == Current(proc, value, actions)
  {
    var fewer, a := actions[..|actions| - 1], actions[|actions| - 1];
    var w, current, marred := Exec(proc, Start(value), fewer), Current(proc, value, fewer), Marred(proc, value, fewer);
    SerializedRuns(proc, value, fewer);
    CommitsStep(proc, value, actions);
    var given := if a.Crash? then 0 else Given(proc, value, fewer, a.thread);
    if !a.Crash? { assert Holds(PhaseOf(w, a.thread), w.value, given, current, marred); }
    if !ConfirmsNow(w, a) { ValueKept(proc, w, a, given, current, marred); }
  }

  /** Over every run of any number of threads and processes, with any failures and crashes: the committed
      values are, in order, exactly those given to the renames that were confirmed; while nobody has an
      unconfirmed value in place, and unless a crash or an unfinished cleanup left one behind since the
      last commit, the value is the last committed one, or the initial one; and a thread inside an
      operation holds that one as its snapshot, and has its own value in place or, its cleanup having
      written it back, the snapshot. */
  lemma {:induction false} RegisterRuns(proc: nat -> nat, value: int, actions: seq<Action>)
    ensures Sound(proc, value, actions)
  {
    if actions != [] {
      RegisterRuns(proc, value, actions[..|actions| - 1]);
      var w := Exec(proc, Start(value), actions);
      CommitsStep(proc, value, actions);
      if NoneDirty(w) && !Marred(proc, value, actions) { ValueStep(proc, value, actions); }
      forall t
        ensures Holds(PhaseOf(w, t), w.value, Given(proc, value, actions, t), Current(proc, value, actions),
                      Marred(proc, value, actions))
      {
        HoldsStep(proc, value, actions, t);
      }
    }
  }

  /** The cleanup that has just written back has put the last committed value, or the initial one, in place
      again: no restore loses another call's commit. */
  lemma RestoreIsCurrent(proc: nat -> nat, value: int, actions: seq<Action>, t: nat)
    requires PhaseOf(Exec(proc, Start(value), actions), t).Nested? && !Marred(proc, value, actions)
    ensures Exec(proc, Start(value), actions + [NestedWrite(t, true)]).value == Current(proc, value, actions)
  {
    var w := Exec(proc, Start(value), actions);
    RegisterRuns(proc, value, actions);
    assert Holds(PhaseOf(w, t), w.value, Given(proc, value, actions, t), Current(proc, value, actions), false);
    Extend(proc, Start(value), actions, NestedWrite(t, true));
    assert Apply(proc, w, NestedWrite(t, true)).value == PhaseOf(w, t).prior;
  }

  /** An operation that nothing disturbs. */
  function Writing(t: nat, v: int): seq<Action> {
    [Enter(t), Lock(t), Snapshot(t), Rename(t, v), Confirm(t), Unlock(t), Leave(t)]
  }

  lemma Extend(proc: nat -> nat, w: World, actions: seq<Action>, a: Action)
    ensures Exec(proc, w, actions + [a]) == Apply(proc, Exec(proc, w, actions), a)
  {
    var more := actions + [a];
    assert more[..|more| - 1] == actions;
  }

  lemma {:induction false} Appends(proc: nat -> nat, w: World, first: seq<Action>, later: seq<Action>)
    ensures Exec(proc, w, first + later) == Exec(proc, Exec(proc, w, first), later)
    decreases |later|
  {
    if later == [] {
      assert first + later == first;
    } else {
      Appends(proc, w, first, later[..|later| - 1]);
      assert (first + later)[..|first + later| - 1] == first + later[..|later| - 1];
    }
  }

  lemma WritingLocks(proc: nat -> nat, w: World, t: nat)
    requires PhaseOf(w, t) == Idle && GateOf(w, proc(t)) == FREE && w.flock.None?
    ensures var w' := Exec(proc, w, [Enter(t), Lock(t)]);
            && PhaseOf(w', t) == Held && GateOf(w', proc(t)) == Gate(Some(t), 1, true) && w'.flock == Some(proc(t))
            && w'.value == w.value && w'.commits == w.commits && w'.restores == w.restores
            && w'.locking == w.locking + [Taken(t)]
  {
    var b0: seq<Action> := [];
    var b1 := b0 + [Enter(t)];
    Extend(proc, w, b0, Enter(t));
    assert PhaseOf(Exec(proc, w, b1), t) == Waiting && GateOf(Exec(proc, w, b1), proc(t)) == Gate(Some(t), 1, false);
    Extend(proc, w, b1, Lock(t));
    assert [Enter(t), Lock(t)] == b1 + [Lock(t)];
  }

  lemma WritingPlaces(proc: nat -> nat, w: World, t: nat, v: int)
    requires PhaseOf(w, t) == Held
    ensures var w' := Exec(proc, w, [Snapshot(t), Rename(t, v), Confirm(t)]);
            && PhaseOf(w', t) == Leaving && w'.value == v && w'.commits == w.commits + [v]
            && w'.gates == w.gates && w'.flock == w.flock && w'.restores == w.restores && w'.locking == w.locking
  {
    var b0: seq<Action> := [];
    var b1 := b0 + [Snapshot(t)];
    var b2 := b1 + [Rename(t, v)];
    Extend(proc, w, b0, Snapshot(t));
    Extend(proc, w, b1, Rename(t, v));
    Extend(proc, w, b2, Confirm(t));
    assert [Snapshot(t), Rename(t, v), Confirm(t)] == b2 + [Confirm(t)];
  }

  lemma WritingLeaves(proc: nat -> nat, w: World, t: nat)
    requires PhaseOf(w, t) == Leaving && GateOf(w, proc(t)) == Gate(Some(t), 1, true)
    ensures var w' := Exec(proc, w, [Unlock(t), Leave(t)]);
            && PhaseOf(w', t) == Idle && GateOf(w', proc(t)) == FREE && w'.flock.None?
            && w'.value == w.value && w'.commits == w.commits && w'.restores == w.restores
            && w'.locking == w.locking + [Dropped(t)]
  {
    var b0: seq<Action> := [];
    var b1 := b0 + [Unlock(t)];
    Extend(proc, w, b0, Unlock(t));
    Extend(proc, w, b1, Leave(t));
    assert [Unlock(t), Leave(t)] == b1 + [Leave(t)];
  }

  /** From every state in which its gate and the file lock are free, it commits its value and frees both. */
  lemma WritingCommits(proc: nat -> nat, w: World, t: nat, v: int)
    requires PhaseOf(w, t) == Idle && GateOf(w, proc(t)) == FREE && w.flock.None?
    ensures var w' := Exec(proc, w, Writing(t, v));
            && w'.value == v && w'.commits == w.commits + [v] && w'.restores == w.restores
            && w'.locking == w.locking + [Taken(t), Dropped(t)]
            && PhaseOf(w', t) == Idle && GateOf(w', proc(t)) == FREE && w'.flock.None?
  {
    var locks: seq<Action> := [Enter(t), Lock(t)];
    var places := [Snapshot(t), Rename(t, v), Confirm(t)];
    var leaves: seq<Action> := [Unlock(t), Leave(t)];
    WritingLocks(proc, w, t);
    var held := Exec(proc, w, locks);
    WritingPlaces(proc, held, t, v);
    WritingLeaves(proc, Exec(proc, held, places), t);
    Appends(proc, w, locks, places);
    Appends(proc, w, locks + places, leaves);
    assert Writing(t, v) == locks + places + leaves;
  }

  /** A failed directory fsync, and the cleanup that follows, one nested call deep. */
  function Failing(t: nat, v: int): seq<Action> { [Snapshot(t), Rename(t, v), FsyncFails(t)] }

  function Undoing(t: nat): seq<Action> { [NestedEnter(t), NestedWrite(t, true), NestedExit(t)] }

  lemma FailingHolds(proc: nat -> nat, w: World, t: nat, v: int)
    requires PhaseOf(w, t) == Held
    ensures var w' := Exec(proc, w, Failing(t, v));
            && PhaseOf(w', t) == Unconfirmed(w.value, |w.commits|, v) && w'.value == v && w'.commits == w.commits
            && w'.gates == w.gates && w'.restores == w.restores && w'.locking == w.locking
  {
    var b0: seq<Action> := [];
    var b1 := b0 + [Snapshot(t)];
    var b2 := b1 + [Rename(t, v)];
    Extend(proc, w, b0, Snapshot(t));
    Extend(proc, w, b1, Rename(t, v));
    Extend(proc, w, b2, FsyncFails(t));
    assert Failing(t, v) == b2 + [FsyncFails(t)];
  }

  lemma UndoingRestores(proc: nat -> nat, w: World, t: nat, prior: int, own: int)
    requires PhaseOf(w, t) == Unconfirmed(prior, |w.commits|, own) && GateOf(w, proc(t)) == Gate(Some(t), 1, true)
    requires w.value == own
    ensures var w' := Exec(proc, w, Undoing(t));
            && PhaseOf(w', t) == Leaving && GateOf(w', proc(t)) == Gate(Some(t), 1, true)
            && w'.value == prior && w'.commits == w.commits && w'.locking == w.locking
            && w'.restores == w.restores + [Restore(t, own, own, 0)]
  {
    var b0: seq<Action> := [];
    var b1 := b0 + [NestedEnter(t)];
    var b2 := b1 + [NestedWrite(t, true)];
    Extend(proc, w, b0, NestedEnter(t));
    var w1 := Exec(proc, w, b1);
    assert PhaseOf(w1, t) == Nested(prior, |w.commits|, own, 1, own);
    assert GateOf(w1, proc(t)) == Gate(Some(t), 2, true);
    Extend(proc, w, b1, NestedWrite(t, true));
    var w2 := Exec(proc, w, b2);
    assert PhaseOf(w2, t) == Nested(prior, |w.commits|, own, 1, prior) && w2.gates == w1.gates;
    Extend(proc, w, b2, NestedExit(t));
    assert Undoing(t) == b2 + [NestedExit(t)];
  }

  /** From every state in which its gate and the file lock are free, a write whose fsync fails enters the lock
      again, puts the value back that was there, commits nothing and frees both. */
  lemma FailedWriteRestores(proc: nat -> nat, w: World, t: nat, v: int)
    requires PhaseOf(w, t) == Idle && GateOf(w, proc(t)) == FREE && w.flock.None?
    ensures var w' := Exec(proc, w, [Enter(t), Lock(t)] + Failing(t, v) + Undoing(t) + [Unlock(t), Leave(t)]);
            && w'.value == w.value && w'.commits == w.commits && w'.restores == w.restores + [Restore(t, v, v, 0)]
            && PhaseOf(w', t) == Idle && GateOf(w', proc(t)) == FREE && w'.flock.None?
  {
    var locks: seq<Action> := [Enter(t), Lock(t)];
    WritingLocks(proc, w, t);
    var held := Exec(proc, w, locks);
    FailingHolds(proc, held, t, v);
    var failed := Exec(proc, held, Failing(t, v));
    UndoingRestores(proc, failed, t, w.value, v);
    WritingLeaves(proc, Exec(proc, failed, Undoing(t)), t);
    Appends(proc, w, locks, Failing(t, v));
    Appends(proc, w, locks + Failing(t, v), Undoing(t));
    Appends(proc, w, locks + Failing(t, v) + Undoing(t), [Unlock(t), Leave(t)]);
  }

  /** An operation that fails before its rename, at the lock file or with the snapshot in hand, leaves nothing. */
  lemma GivingUpLeaves(proc: nat -> nat, w: World, t: nat)
    ensures PhaseOf(w, t).Snapped? || PhaseOf(w, t).Held? ==>
            var w' := Apply(proc, w, GiveUp(t));
            PhaseOf(w', t) == Leaving && w' == w.(phases := w'.phases)
    ensures PhaseOf(w, t) == Waiting && GateOf(w, proc(t)).depth == 1 ==>
            var w' := Apply(proc, w, Abandon(t));
            PhaseOf(w', t) == Idle && GateOf(w', proc(t)).owner.None?
              && w' == w.(phases := w'.phases, gates := w'.gates)
  {}
}
