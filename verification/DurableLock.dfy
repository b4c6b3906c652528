/** Serialization of durable operations on one path: a reentrant gate per process and one
    file lock across processes. Models src/lubko/durable.py. */
module DurableLock {
  import opened Common

  /** A process's lock state for one destination: the gate's owner and depth, and whether the
      process holds the file lock. */
  datatype Gate = Gate(owner: Option<nat>, depth: nat, fd: bool)

  const FREE := Gate(None, 0, false)

  predicate Open(g: Gate, thread: nat) { g.owner.None? || g.owner == Some(thread) }

  function Acquired(g: Gate, thread: nat): Gate { Gate(Some(thread), g.depth + 1, g.fd) }

  function Loosened(g: Gate): Gate
    requires g.depth > 0
  {
    Gate(if g.depth == 1 then None else g.owner, g.depth - 1, g.fd)
  }

  /** The in-process object: a reentrant lock, its depth and the lock-file descriptor. */
  class DestinationLock {
    var owner: Option<nat>
    var depth: nat
    var fd: Option<nat>

    ghost function State(): Gate
      reads this
    {
      Gate(owner, depth, fd.Some?)
    }

    /** The descriptor is held only inside an entry, and the owner is known exactly then. */
    ghost predicate Valid()
      reads this
    {
      (owner.Some? <==> depth > 0) && (depth == 0 ==> fd.None?)
    }

    constructor ()
      ensures Valid() && State() == FREE
    {
      owner, depth, fd := None, 0, None;
    }

    /** True exactly for the outermost acquisition. The gate blocks every other thread. */
    method Acquire(thread: nat) returns (outermost: bool)
      requires Valid() && Open(State(), thread)
      modifies this`owner, this`depth
      ensures Valid() && State() == Acquired(old(State()), thread)
      ensures outermost <==> old(depth) == 0
    {
      owner := Some(thread);
      depth := depth + 1;
      outermost := depth == 1;
    }

    method Release()
      requires Valid() && depth > 0 && (depth == 1 ==> fd.None?)
      modifies this`owner, this`depth
      ensures Valid() && State() == Loosened(old(State()))
    {
      depth := depth - 1;
      if depth == 0 {
        owner := None;
      }
    }

    /** Enter the serialized region: the outermost entry, and only it, opens and locks the
        file; if either fails, the entry is undone completely. */
    method Enter(thread: nat, file: Option<nat>, locked: bool) returns (ok: bool, outermost: bool)
      requires Valid() && Open(State(), thread) && (depth > 0 ==> fd.Some?)
      modifies this
      ensures Valid() && outermost == (old(depth) == 0)
      ensures ok <==> !outermost || (file.Some? && locked)
      ensures !ok ==> State() == old(State())
      ensures ok ==> State() == Gate(Some(thread), old(depth) + 1, true)
      ensures !outermost ==> fd == old(fd)
    {
      outermost := Acquire(thread);
      if outermost {
        if file.None? || !locked {
          Release();
          return false, outermost;
        }
        fd := file;
      }
      ok := true;
    }

    /** Leave it: the outermost exit, and only it, gives the file lock up. */
    method Exit(outermost: bool)
      requires Valid() && depth > 0 && fd.Some? && outermost == (depth == 1)
      modifies this
      ensures Valid() && depth == old(depth) - 1 && fd == (if outermost then None else old(fd))
      ensures owner == if outermost then None else old(owner)
    {
      if outermost {
        fd := None;
      }
      Release();
    }
  }

  /* ---- Any number of threads in any number of processes ---- */

  /** Where a thread is in one durable operation. `prior` is its snapshot, `mark` the number of
      values committed by then, `own` the value it renamed into place. In cleanup `level` counts the
      nested calls and `placed` is the value this operation last put in place. */
  datatype Phase =
    | Idle
    | Waiting                                       // gate held, file lock not yet
    | Held                                          // both held, nothing read yet
    | Snapped(prior: int, mark: nat)
    | Renamed(prior: int, mark: nat, own: int)
    | Unconfirmed(prior: int, mark: nat, own: int)  // the directory fsync failed
    | Nested(prior: int, mark: nat, own: int, level: nat, placed: int)  // inside nested cleanup calls
    | Leaving                                       // about to unlock the file
    | Releasing                                     // file unlocked, gate still held

  datatype LockEvent = Taken(thread: nat) | Dropped(thread: nat)

  /** One write by cleanup: what it overwrote, what its operation had placed, and how many values
      other calls had committed since its snapshot. */
  datatype Restore = Restore(thread: nat, overwritten: int, placed: int, since: int)

  datatype World = World(
    phases: map<nat, Phase>, gates: map<nat, Gate>, flock: Option<nat>,
    value: int, commits: seq<int>, restores: seq<Restore>, locking: seq<LockEvent>)

  datatype Action =
    | Enter(thread: nat) | Abandon(thread: nat) | Lock(thread: nat) | Snapshot(thread: nat)
    | GiveUp(thread: nat) | Rename(thread: nat, v: int) | Confirm(thread: nat) | FsyncFails(thread: nat)
    | NestedEnter(thread: nat) | NestedWrite(thread: nat, back: bool) | NestedExit(thread: nat)
    | Unlock(thread: nat) | Leave(thread: nat)
    | Crash(process: nat)

  function PhaseOf(w: World, t: nat): Phase { if t in w.phases then w.phases[t] else Idle }
  function GateOf(w: World, p: nat): Gate { if p in w.gates then w.gates[p] else FREE }

  function At(w: World, t: nat, ph: Phase): World { w.(phases := w.phases[t := ph]) }
  function With(w: World, p: nat, g: Gate): World { w.(gates := w.gates[p := g]) }

  function Apply(proc: nat -> nat, w: World, a: Action): World {
    match a
    case Enter(t) =>
      var g := GateOf(w, proc(t));
      if PhaseOf(w, t) == Idle && Open(g, t) then At(With(w, proc(t), Acquired(g, t)), t, Waiting) else w
    case Abandon(t) =>
      var g := GateOf(w, proc(t));
      if PhaseOf(w, t) == Waiting && g.depth > 0 then At(With(w, proc(t), Loosened(g)), t, Idle) else w
    case Lock(t) =>
      if PhaseOf(w, t) == Waiting && w.flock.None? then
        At(With(w, proc(t), GateOf(w, proc(t)).(fd := true)), t, Held)
          .(flock := Some(proc(t)), locking := w.locking + [Taken(t)])
      else w
    case Snapshot(t) =>
      if PhaseOf(w, t) == Held then At(w, t, Snapped(w.value, |w.commits|)) else w
    case GiveUp(t) =>
      if PhaseOf(w, t).Snapped? || PhaseOf(w, t).Held? then At(w, t, Leaving) else w
    case Rename(t, v) =>
      var ph := PhaseOf(w, t);
      if ph.Snapped? then At(w, t, Renamed(ph.prior, ph.mark, v)).(value := v) else w
    case Confirm(t) =>
      var ph := PhaseOf(w, t);
      if ph.Renamed? then At(w, t, Leaving).(commits := w.commits + [ph.own]) else w
    case FsyncFails(t) =>
      var ph := PhaseOf(w, t);
      if ph.Renamed? then At(w, t, Unconfirmed(ph.prior, ph.mark, ph.own)) else w
    case NestedEnter(t) =>
      var ph, g := PhaseOf(w, t), GateOf(w, proc(t));
      if !Open(g, t) then w
      else if ph.Unconfirmed?
      then At(With(w, proc(t), Acquired(g, t)), t, Nested(ph.prior, ph.mark, ph.own, 1, ph.own))
      else if ph.Nested? then At(With(w, proc(t), Acquired(g, t)), t, ph.(level := ph.level + 1)) else w
    case NestedWrite(t, back) =>
      var ph := PhaseOf(w, t);
      if ph.Nested? then
        var v := if back then ph.prior else ph.own;
        At(w, t, ph.(placed := v))
          .(value := v, restores := w.restores + [Restore(t, w.value, ph.placed, |w.commits| - ph.mark)])
      else w
    case NestedExit(t) =>
      var ph, g := PhaseOf(w, t), GateOf(w, proc(t));
      if ph.Nested? && g.depth > 0
      then At(With(w, proc(t), Loosened(g)), t, if ph.level <= 1 then Leaving else ph.(level := ph.level - 1)) else w
    case Unlock(t) =>
      if PhaseOf(w, t) == Leaving then
        At(With(w, proc(t), GateOf(w, proc(t)).(fd := false)), t, Releasing)
          .(flock := None, locking := w.locking + [Dropped(t)])
      else w
    case Leave(t) =>
      var g := GateOf(w, proc(t));
      if PhaseOf(w, t) == Releasing && g.depth > 0 then At(With(w, proc(t), Loosened(g)), t, Idle) else w
    case Crash(p) =>
      var holder := GateOf(w, p).owner;
      w.(phases := map t | t in w.phases && proc(t) != p :: w.phases[t],
         gates := w.gates - {p},
         flock := if w.flock == Some(p) then None else w.flock,
         locking := if w.flock == Some(p) && holder.Some? then w.locking + [Dropped(holder.value)] else w.locking)
  }

  function Exec(proc: nat -> nat, w: World, actions: seq<Action>): World {
    if actions == [] then w
    else Apply(proc, Exec(proc, w, actions[..|actions| - 1]), actions[|actions| - 1])
  }

  function Start(value: int): World { World(map[], map[], None, value, [], [], []) }

  /** Phases in which the thread holds the file lock, and the gate depth each phase has. */
  predicate Locked(ph: Phase) { !ph.Idle? && !ph.Waiting? && !ph.Releasing? }
  function DepthOf(ph: Phase): nat {
    if ph.Idle? then 0 else if ph.Nested? then ph.level + 1 else 1
  }

  /** A thread inside an operation owns its process's gate at exactly the depth of its phase,
      and its process holds the file lock exactly in the locked phases. */
  ghost predicate ThreadSound(proc: nat -> nat, w: World, t: nat) {
    var ph, g := PhaseOf(w, t), GateOf(w, proc(t));
    !ph.Idle? ==> g.owner == Some(t) && g.depth == DepthOf(ph) && g.fd == Locked(ph) && (ph.Nested? ==> ph.level >= 1)
  }

  ghost predicate GateSound(proc: nat -> nat, w: World, p: nat) {
    var g := GateOf(w, p);
    && (g.owner.Some? ==> proc(g.owner.value) == p && !PhaseOf(w, g.owner.value).Idle?)
    && (g.owner.None? ==> g == FREE)
    && (g.fd <==> w.flock == Some(p))
  }

  /** Inside an operation nothing has been committed since the snapshot, and the value in place
      is the snapshot or what the operation itself last placed. */
  ghost predicate CallSound(w: World, t: nat) {
    match PhaseOf(w, t)
    case Snapped(prior, mark) => mark == |w.commits| && w.value == prior
    case Renamed(_, mark, own) => mark == |w.commits| && w.value == own
    case Unconfirmed(_, mark, own) => mark == |w.commits| && w.value == own
    case Nested(_, mark, _, _, placed) => mark == |w.commits| && w.value == placed
    case _ => true
  }

  /** Cleanup overwrites only what its own operation placed, and no value committed since its
      snapshot. */
  ghost predicate RestoresSound(w: World) {
    forall i :: 0 <= i < |w.restores| ==>
      w.restores[i].overwritten == w.restores[i].placed && w.restores[i].since == 0
  }

  /** The file lock is taken and dropped in turn, each pair by one thread's outermost entry. */
  ghost predicate LockingSound(w: World) {
    && Alternates(w.locking)
    && (w.flock.Some? <==> |w.locking| % 2 == 1)
    && (w.flock.Some? ==> GateOf(w, w.flock.value).owner == Some(w.locking[|w.locking| - 1].thread))
  }

  ghost predicate Inv(proc: nat -> nat, w: World) {
    && (forall t :: ThreadSound(proc, w, t)) && (forall p :: GateSound(proc, w, p))
    && (forall t :: CallSound(w, t)) && RestoresSound(w) && LockingSound(w)
  }

  /** At most one thread of all processes is past the file lock. */
  lemma MutualExclusion(proc: nat -> nat, w: World, t: nat, u: nat)
    requires Inv(proc, w) && Locked(PhaseOf(w, t)) && Locked(PhaseOf(w, u))
    ensures t == u
  {
    assert ThreadSound(proc, w, t) && ThreadSound(proc, w, u);
    assert GateSound(proc, w, proc(t)) && GateSound(proc, w, proc(u));
  }

  /** The gate is entered exactly while the depth is positive, and in a quiet process the file
      lock is held exactly in between. */
  lemma DepthTracksLock(proc: nat -> nat, w: World, p: nat)
    requires Inv(proc, w)
    ensures GateOf(w, p).depth == 0 ==> w.flock != Some(p)
    ensures GateOf(w, p).depth > 0 ==>
            GateOf(w, p).owner.Some? &&
            (w.flock == Some(p) <==> Locked(PhaseOf(w, GateOf(w, p).owner.value)))
  {
    assert GateSound(proc, w, p);
    if GateOf(w, p).owner.Some? {
      assert ThreadSound(proc, w, GateOf(w, p).owner.value);
    }
  }

  lemma ActorKept(proc: nat -> nat, w: World, a: Action)
    requires Inv(proc, w) && !a.Crash?
    ensures ThreadSound(proc, Apply(proc, w, a), a.thread)
  {
    assert GateSound(proc, w, proc(a.thread)) && ThreadSound(proc, w, a.thread);
  }

  lemma OthersKept(proc: nat -> nat, w: World, a: Action, t: nat)
    requires Inv(proc, w) && (a.Crash? || a.thread != t)
    ensures ThreadSound(proc, Apply(proc, w, a), t)
  {
    assert ThreadSound(proc, w, t);
    assert !a.Crash? ==> ThreadSound(proc, w, a.thread);
  }

  lemma ThreadsKept(proc: nat -> nat, w: World, a: Action, t: nat)
    requires Inv(proc, w)
    ensures ThreadSound(proc, Apply(proc, w, a), t)
  {
    if !a.Crash? && a.thread == t { ActorKept(proc, w, a); } else { OthersKept(proc, w, a, t); }
  }

  lemma GatesKept(proc: nat -> nat, w: World, a: Action, q: nat)
    requires Inv(proc, w)
    ensures GateSound(proc, Apply(proc, w, a), q)
  {
    var p := if a.Crash? then a.process else proc(a.thread);
    assert GateSound(proc, w, p) && GateSound(proc, w, q);
    assert !a.Crash? ==> ThreadSound(proc, w, a.thread);
  }

  lemma CallsKept(proc: nat -> nat, w: World, a: Action)
    requires Inv(proc, w)
    ensures var w' := Apply(proc, w, a); (forall t :: CallSound(w', t)) && RestoresSound(w')
  {
    var w' := Apply(proc, w, a);
    if !a.Crash? { assert CallSound(w, a.thread); }
    forall t ensures CallSound(w', t) {
      assert CallSound(w, t);
      if !a.Crash? && Locked(PhaseOf(w, a.thread)) && Locked(PhaseOf(w, t)) {
        MutualExclusion(proc, w, a.thread, t);
      }
    }
  }

  ghost predicate InTurn(log: seq<LockEvent>, i: nat)
    requires i < |log|
  {
    if i % 2 == 0 then log[i].Taken? else log[i] == Dropped(log[i - 1].thread)
  }

  ghost predicate Alternates(log: seq<LockEvent>) {
    forall i :: 0 <= i < |log| ==> InTurn(log, i)
  }

  lemma AlternatesOn(log: seq<LockEvent>, e: LockEvent)
    requires Alternates(log)
    requires if |log| % 2 == 0 then e.Taken? else e == Dropped(log[|log| - 1].thread)
    ensures Alternates(log + [e])
  {
    var more := log + [e];
    forall i | 0 <= i < |more|
      ensures InTurn(more, i)
    {
      if i < |log| { assert InTurn(log, i); }
    }
  }

  lemma LockingKept(proc: nat -> nat, w: World, a: Action)
    requires Inv(proc, w)
    ensures LockingSound(Apply(proc, w, a))
  {
    var w' := Apply(proc, w, a);
    var p := if a.Crash? then a.process else proc(a.thread);
    assert GateSound(proc, w, p);
    if w.flock.Some? { assert GateSound(proc, w, w.flock.value); }
    if !a.Crash? { assert ThreadSound(proc, w, a.thread); }
    if w'.locking != w.locking {
      AlternatesOn(w.locking, w'.locking[|w.locking|]);
    }
  }

  /** Over every run of any number of threads and processes, with any pattern of failures and
      process crashes: the lock layers agree, and no restore ever overwrites a value another
      call committed. */
  lemma {:induction false} SerializedRuns(proc: nat -> nat, value: int, actions: seq<Action>)
    ensures Inv(proc, Exec(proc, Start(value), actions))
  {
    if actions != [] {
      var w := Exec(proc, Start(value), actions[..|actions| - 1]);
      SerializedRuns(proc, value, actions[..|actions| - 1]);
      var w' := Apply(proc, w, actions[|actions| - 1]);
      forall t ensures ThreadSound(proc, w', t) { ThreadsKept(proc, w, actions[|actions| - 1], t); }
      forall q ensures GateSound(proc, w', q) { GatesKept(proc, w, actions[|actions| - 1], q); }
      CallsKept(proc, w, actions[|actions| - 1]);
      LockingKept(proc, w, actions[|actions| - 1]);
    }
  }
}
