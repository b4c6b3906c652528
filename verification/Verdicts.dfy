/** Where the verdicts of the recovery and restart machines come from: the liveness reads and stops of
    the process layer, made on a host whose processes exit, recycle numbers and change underneath.
    Models the reads of src/lubko/lifecycle.py and src/lubko/deployctl.py that decide a step. */
module Verdicts {
  import opened Common
  import opened ProcessTable
  import opened Kernel
  import opened ExactSignal
  import opened Retirement
  import R = Recover
  import L = LegacyRestart
  import M = Mission

  /** Two running instances never share a number. */
  lemma OnePerNumber(t: Table, i: nat, j: nat)
    requires Wf(t) && Alive(t, i) && Alive(t, j) && t.instances[i].pid == t.instances[j].pid
    ensures i == j
  {
    assert Seated(t, i) && Seated(t, j);
  }

  /** What liveness reads of this worker between two clocks need to be right: none fails, the metadata
      names the instance, and it keeps its group, session and token. */
  ghost predicate Dependable(h: Host, past: seq<Table>, meta: Meta, x: nat, since: nat, from: nat, to: nat) {
    && (forall n :: from <= n < to ==> !h.blocked(n))
    && since < |past| && x in past[since].instances && Names(meta, past[since].instances[x]) && Steady(h.env, x)
    && (meta.token.Some? ==>
          forall a :: since < a < |past| && x in past[a].instances ==> past[a].instances[x].token == meta.token)
  }

  /** One liveness read. */
  method Look(h: Host, meta: Meta, ghost x: nat, ghost since: nat, ghost from: nat) returns (alive: bool)
    requires h.Valid() && since < |h.past| && from <= h.clock
    modifies h`table, h`clock, h`past
    ensures h.Valid() && old(h.past) <= h.past && old(h.clock) <= h.clock
    ensures !alive && Dependable(h, h.past, meta, x, since, from, h.clock) ==> Gone(h.table, x)
    ensures alive && Recorded(old(h.table), meta, x) ==> RanSince(h.past, |old(h.past)|, x)
  {
    ghost var last := |h.past| - 1;
    alive := WorkerAlive(h, meta, x);
    if Dependable(h, h.past, meta, x, since, from, h.clock) {
      assert Trustworthy(h, meta, x, since);
      TrustLasts(h, meta, x, since, last);
    }
  }

  // ---- recover ---------------------------------------------------------------------------

  /** The live workers are running instances with their number and start time. */
  ghost predicate Mirrors(t: Table, w: R.World) {
    forall i :: i in w.workers && w.workers[i].alive ==>
      && Alive(t, i)
      && t.instances[i].pid == w.workers[i].pid && t.instances[i].ticks == w.workers[i].ticks
  }

  /** The same world once the workers that run no more have exited. */
  function Exited(w: R.World, t: Table): R.World {
    w.(workers := map i | i in w.workers :: w.workers[i].(alive := w.workers[i].alive && Alive(t, i)))
  }

  lemma MirrorsOn(t: Table, later: Table, w: R.World)
    requires Mirrors(t, w) && Later(t, later)
    ensures Mirrors(later, Exited(w, later))
  {
    forall i | i in w.workers && w.workers[i].alive && Alive(later, i)
      ensures later.instances[i].pid == w.workers[i].pid && later.instances[i].ticks == w.workers[i].ticks
    {
      assert Same(t.instances[i], later.instances[i]);
    }
  }

  ghost function Killed(w: R.World, dead: set<nat>): R.World {
    w.(workers := map i | i in w.workers :: if i in dead then w.workers[i].(alive := false) else w.workers[i])
  }

  /** Exits are steps of the machine. */
  lemma {:induction false} ExitsAreSteps(w: R.World, dead: set<nat>) returns (actions: seq<R.Action>)
    requires dead <= w.workers.Keys
    ensures forall readable :: R.Exec(readable, w, actions) == Killed(w, dead)
  {
    if dead == {} {
      actions := [];
      assert Killed(w, {}).workers == w.workers;
    } else {
      var i :| i in dead;
      var fewer := ExitsAreSteps(w, dead - {i});
      actions := fewer + [R.Action.Exit(i)];
      forall readable ensures R.Exec(readable, w, actions) == Killed(w, dead) {
        R.Extend(readable, w, fewer, R.Action.Exit(i));
        assert R.Apply(readable, Killed(w, dead - {i}), R.Action.Exit(i)).workers == Killed(w, dead).workers;
      }
    }
  }

  lemma ExitedIsReached(w: R.World, t: Table) returns (actions: seq<R.Action>)
    ensures forall readable :: R.Exec(readable, w, actions) == Exited(w, t)
  {
    var dead := set i | i in w.workers && !Alive(t, i);
    actions := ExitsAreSteps(w, dead);
    assert Exited(w, t).workers == Killed(w, dead).workers;
  }

  /** Recover's verdict on its obligation, made on the host: as long as no read fails it is the honest
      one, for the world as it is after the exits meanwhile. */
  method ObligationVerdict(h: Host, o: R.Obligation, ghost w: R.World) returns (gone: bool, ghost now: R.World)
    requires h.Valid() && Mirrors(h.table, w)
    modifies h`table, h`clock, h`past
    ensures h.Valid() && old(h.past) <= h.past && now == Exited(w, h.table) && Mirrors(h.table, now)
    ensures h.Clean(old(h.clock)) ==> R.HonestGone(true, now, o, gone)
  {
    ghost var start := h.table;
    ghost var x := if exists i :: Holds(w, o, i) then var i :| Holds(w, o, i); i else 0;
    gone := ObligationInstanceGone(h, o.pid, o.ticks, x);
    now := Exited(w, h.table);
    LaterNow(h, |old(h.past)| - 1);
    MirrorsOn(start, h.table, w);
    if h.Clean(old(h.clock)) && gone {
      forall i | i in now.workers && now.workers[i].alive && Some(now.workers[i].pid) == o.pid
        ensures o.ticks.Some? && now.workers[i].ticks != o.ticks.value
      {
        if Holds(w, o, i) {
          assert Wf(h.past[|old(h.past)| - 1]);
          OnePerNumber(start, i, x);
        }
      }
    }
  }

  /** The obligation's recorded number, and start time if it has one, are this live worker's. */
  ghost predicate Holds(w: R.World, o: R.Obligation, i: nat) {
    && i in w.workers && w.workers[i].alive && o.pid == Some(w.workers[i].pid)
    && (o.ticks.Some? ==> o.ticks.value == w.workers[i].ticks)
  }

  lemma LaterNow(h: Host, since: nat)
    requires h.Valid() && since < |h.past|
    ensures Later(h.past[since], h.table)
  {
    assert Later(h.past[since], h.past[|h.past| - 1]);
  }

  /** Recover's and repair's verdict on the published worker, made on the host: it is the honest one
      whenever reads of that worker are dependable. */
  method PublishedVerdict(h: Host, meta: Meta, ghost w: R.World, ghost since: nat)
    returns (alive: bool, ghost now: R.World)
    requires h.Valid() && Mirrors(h.table, w) && since == |h.past| - 1
    requires w.meta.Some? && meta.pid == Some(w.meta.value.pid) && meta.ticks == Some(w.meta.value.ticks)
    modifies h`table, h`clock, h`past
    ensures h.Valid() && old(h.past) <= h.past && now == Exited(w, h.table) && Mirrors(h.table, now)
    ensures (forall i :: Published(w, i) ==> Dependable(h, h.past, meta, i, since, old(h.clock), h.clock))
            ==> R.HonestAlive(true, now, alive)
  {
    ghost var start := h.table;
    ghost var x := if exists i :: Published(w, i) then var i :| Published(w, i); i else 0;
    alive := Look(h, meta, x, since, h.clock);
    now := Exited(w, h.table);
    LaterNow(h, since);
    MirrorsOn(start, h.table, w);
    if !alive && forall i :: Published(w, i) ==> Dependable(h, h.past, meta, i, since, old(h.clock), h.clock) {
      forall i | i in now.workers && now.workers[i].alive ensures !R.Describes(now.meta.value, now.workers[i]) {
        if R.Describes(w.meta.value, w.workers[i]) {
          assert Published(w, i);
          assert Wf(h.past[since]);
          OnePerNumber(start, i, x);
        }
      }
    }
  }

  /** The published metadata describes this live worker. */
  ghost predicate Published(w: R.World, i: nat) {
    i in w.workers && w.workers[i].alive && w.meta.Some? && R.Describes(w.meta.value, w.workers[i])
  }

  // ---- the legacy restart ----------------------------------------------------------------

  /** The instances of the restarted workers, of the original and of another maintained worker. */
  datatype Seats = Seats(restarted: map<nat, nat>, original: nat, other: nat)

  /** The restart machine's world at an instant. */
  ghost function SeenAt(w: L.World, t: Table, seats: Seats): L.World {
    w.(original := w.original && Alive(t, seats.original), other := w.other && Alive(t, seats.other),
       workers := map i | i in w.workers ::
         w.workers[i].(alive := w.workers[i].alive && i in seats.restarted && Alive(t, seats.restarted[i])))
  }

  /** The instance of a worker the mission or the metadata names. */
  ghost function Subject(who: L.Maintained, seats: Seats): Option<nat> {
    match who
    case Original => Some(seats.original)
    case Other => Some(seats.other)
    case Restarted(i) => if i in seats.restarted then Some(seats.restarted[i]) else None
    case Nobody => None
  }

  lemma AliveAt(w: L.World, who: L.Maintained, t: Table, seats: Seats)
    ensures L.AliveNow(SeenAt(w, t, seats), who) <==>
      L.AliveNow(w, who) && Subject(who, seats).Some? && Alive(t, Subject(who, seats).value)
  {}

  /** The verdict on the maintained worker, made on the host: some instant of the call at which it is
      right, provided reads of that worker are dependable. */
  method MaintainedVerdict(
    h: Host, meta: Meta, exact: bool, ghost w: L.World, ghost seats: Seats, ghost since: nat)
    returns (alive: bool, ghost at: nat)
    requires h.Valid() && since == |h.past| - 1 && L.AliveNow(w, w.maintained)
    requires var x := Subject(w.maintained, seats); x.Some? && Recorded(h.table, meta, x.value)
    modifies h`table, h`clock, h`past
    ensures h.Valid() && old(h.past) <= h.past && since <= at < |h.past|
    ensures Dependable(h, h.past, meta, Subject(w.maintained, seats).value, since, old(h.clock), h.clock) ==>
      L.Right(SeenAt(w, h.past[at], seats), L.CheckMaintained(alive, exact))
  {
    ghost var x := Subject(w.maintained, seats).value;
    alive := Look(h, meta, x, since, h.clock);
    at := |h.past| - 1;
    if alive {
      at :| |old(h.past)| <= at < |h.past| && Alive(h.past[at], x);
    }
    AliveAt(w, w.maintained, h.past[at], seats);
  }

  /** One stop. */
  method Stop(
    h: Host, meta: Meta, candidates: seq<seq<nat>>, polls: (nat, nat), sentinel: nat -> bool,
    ghost x: nat, ghost since: nat, ghost from: nat)
    returns (stopped: bool)
    requires h.Valid() && since < |h.past| && |candidates| == 2
    modifies h
    ensures h.Valid() && old(h.past) <= h.past
    ensures stopped && Dependable(h, h.past, meta, x, since, from, h.clock) ==> Gone(h.table, x)
  {
    ghost var last := |h.past| - 1;
    ghost var pgid, split;
    stopped, pgid, split := StopWorker(h, meta, candidates, polls, sentinel, x);
    if Dependable(h, h.past, meta, x, since, from, h.clock) {
      assert Trustworthy(h, meta, x, since);
      TrustLasts(h, meta, x, since, last);
    }
  }

  /** The verdict on the recorded restart, made on the host: a worker found dead is; one that is not
      adopted is stopped and looked for again, and called stopped only if it is gone. */
  method RecordVerdict(
    h: Host, meta: Meta, adopted: bool, candidates: seq<seq<nat>>, polls: (nat, nat), sentinel: nat -> bool,
    ghost x: nat)
    returns (alive: bool, stopped: bool)
    requires h.Valid() && |candidates| == 2
    modifies h
    ensures h.Valid() && old(h.past) <= h.past
    ensures Dependable(h, h.past, meta, x, |old(h.past)| - 1, old(h.clock), h.clock) ==>
      (Alive(h.table, x) ==> alive && (!stopped || adopted))
  {
    stopped := false;
    ghost var since, from := |h.past| - 1, h.clock;
    alive := Look(h, meta, x, since, from);
    if !alive || adopted {
      return;
    }
    stopped := Stop(h, meta, candidates, polls, sentinel, x, since, from);
    if stopped {
      var again := Look(h, meta, x, since, from);
      stopped := !again;
    }
  }

  /** The verdict on the original worker, made on the host: a retiring one is stopped before another is
      spawned. */
  method OriginalVerdict(
    h: Host, meta: Meta, retiring: bool, candidates: seq<seq<nat>>, polls: (nat, nat), sentinel: nat -> bool,
    ghost x: nat)
    returns (alive: bool, stopped: bool)
    requires h.Valid() && |candidates| == 2
    modifies h
    ensures h.Valid() && old(h.past) <= h.past
    ensures Dependable(h, h.past, meta, x, |old(h.past)| - 1, old(h.clock), h.clock) ==>
      (Alive(h.table, x) ==> alive && !(retiring && stopped))
  {
    stopped := false;
    ghost var since, from := |h.past| - 1, h.clock;
    alive := Look(h, meta, x, since, from);
    if alive && retiring {
      stopped := Stop(h, meta, candidates, polls, sentinel, x, since, from);
    }
  }

  /** These are the verdicts the restart machine calls right. */
  lemma VerdictsAreRight(
    w: L.World, t: Table, seats: Seats, alive: bool, healthy: bool, stopped: bool, clear: L.Write)
    ensures (w.record.Some? && w.record.value.i in seats.restarted
             && (Alive(t, seats.restarted[w.record.value.i]) ==>
                alive && (!stopped || (w.record.value.released && healthy))))
            ==> L.Right(SeenAt(w, t, seats), L.CheckRecord(alive, healthy, stopped, clear))
    ensures (Alive(t, seats.original) ==> alive && !(w.retiring && stopped))
            ==> L.Right(SeenAt(w, t, seats), L.CheckOriginal(alive, stopped))
  {
    if w.record.Some? {
      AliveAt(w, L.Restarted(w.record.value.i), t, seats);
    }
  }

  // ---- the candidate of a legacy rollback --------------------------------------------------

  /** The mission's world once the candidates that run no more have exited; `seat` is each candidate's
      instance. */
  ghost function Remaining(w: M.World, t: Table, seat: map<nat, nat>): M.World {
    w.(candidates := set c | c in w.candidates && c in seat && Alive(t, seat[c]))
  }

  /** Stopping the candidate and looking for it again, made on the host: the rollback goes on to restore
      only where the machine's own step does, for the world after the exits meanwhile, provided reads
      of the candidate are dependable. Without its identity it never goes on. */
  method CandidateVerdict(
    h: Host, meta: Option<Meta>, candidates: seq<seq<nat>>, polls: (nat, nat), sentinel: nat -> bool,
    ghost w: M.World, ghost seat: map<nat, nat>)
    returns (dead: bool)
    requires h.Valid() && |candidates| == 2
    requires w.control.Retire? && (meta.Some? <==> w.control.m.candidate.Some?)
    modifies h
    ensures h.Valid() && old(h.past) <= h.past
    ensures w.control.m.candidate.None? ==> !dead && M.Rollback(w, M.ProveDead).control == M.Idle
    ensures (dead && (w.control.m.candidate.value in seat ==>
                        Dependable(h, h.past, meta.value, seat[w.control.m.candidate.value], |old(h.past)| - 1,
                                   old(h.clock), h.clock)))
            ==> M.Rollback(Remaining(w, h.table, seat), M.ProveDead).control == M.Restore(w.control.m)
  {
    if meta.None? {
      return false;
    }
    ghost var since, from := |h.past| - 1, h.clock;
    ghost var c := w.control.m.candidate.value;
    ghost var x := if c in seat then seat[c] else 0;
    dead := Stop(h, meta.value, candidates, polls, sentinel, x, since, from);
    if dead {
      var alive := Look(h, meta.value, x, since, from);
      dead := !alive;
    }
  }
}
