/** Recover and repair run on a host: every liveness verdict is a read of the process table, made while
    processes exit, start and take over numbers, and every worker is a process of that table.
    Models src/lubko/lifecycle.py from _obligation_instance_gone to _recover_consumer_locked. */
module RecoverOnHost {
  import opened Common
  import opened ProcessTable
  import opened Kernel
  import opened Retirement
  import opened Verdicts
  import R = Recover

  /** What happens next: a step whose verdict is asked of the host, a process that turns out to be the
      spawned worker or one started elsewhere, or any other step. */
  datatype Move =
    | AskPreflight
    | AskResolve(groups: bool, clear: R.Write)
    | AskAdoption(i: nat)
    | Spawned(i: nat)
    | StartedElsewhere(i: nat, token: nat)
    | Other(a: R.Action)

  /** Verdicts, processes and exits come from the host alone. */
  predicate Internal(a: R.Action) {
    !a.Preflight? && !a.Resolve? && !a.CheckAdoption? && !a.Spawn? && !a.OtherStarts? && !a.Exit?
  }

  /** The workers are processes, with their number and start time, and alive exactly if those run. */
  ghost predicate Follows(t: Table, w: R.World) {
    forall i :: i in w.workers ==>
      && i in t.instances && t.instances[i].pid == w.workers[i].pid && t.instances[i].ticks == w.workers[i].ticks
      && (w.workers[i].alive <==> Alive(t, i))
  }

  lemma FollowsOn(t: Table, later: Table, w: R.World)
    requires Follows(t, w) && Later(t, later)
    ensures Mirrors(t, w) && Follows(later, Exited(w, later))
  {
    forall i | i in w.workers
      ensures i in later.instances && Same(t.instances[i], later.instances[i])
    {}
  }

  /** A process that is no worker yet has a number and start time of its own. */
  lemma NewIsFresh(t: Table, w: R.World, i: nat)
    requires Wf(t) && Follows(t, w) && Alive(t, i) && i !in w.workers
    ensures R.Fresh(w, i, t.instances[i].pid, t.instances[i].ticks)
  {
    forall j | j in w.workers && w.workers[j].pid == t.instances[i].pid
      ensures w.workers[j].ticks != t.instances[i].ticks && !w.workers[j].alive
    {
      assert ProcessTable.Distinct(t, i, j) && Seated(t, i) && Seated(t, j);
    }
  }

  ghost predicate Identifies(meta: (nat, nat) -> Meta) {
    forall pid: nat, ticks: nat :: meta(pid, ticks).pid == Some(pid) && meta(pid, ticks).ticks == Some(ticks)
  }

  /** The metadata published for a number and start time describe this process whenever it is there. */
  ghost predicate Described(past: seq<Table>, meta: (nat, nat) -> Meta, i: nat) {
    forall a :: 0 <= a < |past| && i in past[a].instances ==>
      var p := past[a].instances[i];
      Names(meta(p.pid, p.ticks), p) && (meta(p.pid, p.ticks).token.Some? ==> p.token == meta(p.pid, p.ticks).token)
  }

  /** No read failed, and the workers keep the group, session and token that are published for them. */
  ghost predicate Reliable(h: Host, past: seq<Table>, meta: (nat, nat) -> Meta, workers: set<nat>, from: nat, to: nat) {
    && (forall n :: from <= n < to ==> !h.blocked(n))
    && (forall i :: i in workers ==> Steady(h.env, i) && Described(past, meta, i))
  }

  lemma ReliableBefore(h: Host, past: seq<Table>, more: seq<Table>, meta: (nat, nat) -> Meta,
                       workers: set<nat>, all: set<nat>, from: nat, at: nat, to: nat)
    requires Reliable(h, more, meta, all, from, to) && past <= more && workers <= all && at <= to
    ensures Reliable(h, past, meta, workers, from, at)
  {
    forall i | i in workers ensures Described(past, meta, i) {
      forall a | 0 <= a < |past| ensures past[a] == more[a] {}
    }
  }

  /** Ask the host whether the published worker is alive. */
  method AskPublished(h: Host, w: R.World, meta: (nat, nat) -> Meta) returns (alive: bool)
    requires h.Valid() && Follows(h.table, w) && Identifies(meta)
    modifies h`table, h`clock, h`past
    ensures h.Valid() && old(h.past) <= h.past && old(h.clock) <= h.clock
    ensures Reliable(h, h.past, meta, w.workers.Keys, old(h.clock), h.clock) ==>
              R.HonestAlive(true, Exited(w, h.table), alive)
  {
    FollowsOn(h.table, h.table, w);
    if w.meta.None? {
      return false;
    }
    var m := meta(w.meta.value.pid, w.meta.value.ticks);
    ghost var since := |h.past| - 1;
    ghost var now;
    alive, now := PublishedVerdict(h, m, w, since);
    if Reliable(h, h.past, meta, w.workers.Keys, old(h.clock), h.clock) {
      forall i | Verdicts.Published(w, i) ensures Dependable(h, h.past, m, i, since, old(h.clock), h.clock) {
        assert Described(h.past, meta, i);
      }
    }
  }

  /** Ask the host whether the obligation's instance is gone. */
  method AskObligation(h: Host, w: R.World, meta: (nat, nat) -> Meta) returns (gone: bool)
    requires h.Valid() && Follows(h.table, w)
    modifies h`table, h`clock, h`past
    ensures h.Valid() && old(h.past) <= h.past
    ensures w.obligation.Some? && Reliable(h, h.past, meta, w.workers.Keys, old(h.clock), h.clock) ==>
              R.HonestGone(true, Exited(w, h.table), w.obligation.value, gone)
  {
    gone := false;
    if w.obligation.Some? {
      FollowsOn(h.table, h.table, w);
      ghost var now;
      gone, now := ObligationVerdict(h, w.obligation.value, w);
    }
  }

  /** Ask the host what the move needs to know: the step it comes to, if any, right for the world after
      the exits meanwhile. */
  method Ask(h: Host, w: R.World, move: Move, meta: (nat, nat) -> Meta) returns (a: Option<R.Action>)
    requires h.Valid() && Follows(h.table, w) && Identifies(meta)
    modifies h`table, h`clock, h`past
    ensures h.Valid() && old(h.past) <= h.past
    ensures a.Some? ==> Comes(h.table, move, a.value)
    ensures a.None? ==> (move.Spawned? || move.StartedElsewhere? ==> !Alive(h.table, move.i))
    ensures a.Some? && Reliable(h, h.past, meta, w.workers.Keys, old(h.clock), h.clock) ==>
              Honest(Exited(w, h.table), a.value)
  {
    match move {
      case AskPreflight =>
        var alive := AskPublished(h, w, meta);
        a := Some(R.Preflight(alive));
      case AskResolve(groups, clear) =>
        var gone := AskObligation(h, w, meta);
        a := Some(R.Resolve(gone, groups, clear));
      case AskAdoption(i) =>
        var alive := AskPublished(h, w, meta);
        a := Some(R.CheckAdoption(i, alive));
      case Spawned(i) =>
        var _ := h.Pass();
        a := if Alive(h.table, i) then Some(R.Spawn(i, h.table.instances[i].pid, h.table.instances[i].ticks)) else None;
      case StartedElsewhere(i, token) =>
        var _ := h.Pass();
        a := if Alive(h.table, i)
             then Some(R.OtherStarts(i, h.table.instances[i].pid, h.table.instances[i].ticks, token)) else None;
      case Other(b) =>
        var _ := h.Pass();
        a := if Internal(b) then Some(b) else None;
    }
  }

  /** The step is one that this move may come to. */
  ghost predicate Comes(t: Table, move: Move, a: R.Action) {
    match move
    case AskPreflight => a.Preflight?
    case AskResolve(groups, clear) => a.Resolve? && a.groups == groups && a.clear == clear
    case AskAdoption(i) => a.CheckAdoption? && a.i == i
    case Spawned(i) => Alive(t, i) && a == R.Spawn(i, t.instances[i].pid, t.instances[i].ticks)
    case StartedElsewhere(i, token) =>
      Alive(t, i) && a == R.OtherStarts(i, t.instances[i].pid, t.instances[i].ticks, token)
    case Other(b) => a == b && Internal(b)
  }

  /** The verdict in the step, if any, is honest. */
  ghost predicate Honest(w: R.World, a: R.Action) {
    match a
    case Preflight(alive) => R.HonestAlive(true, w, alive)
    case Resolve(gone, _, _) => w.obligation.Some? ==> R.HonestGone(true, w, w.obligation.value, gone)
    case CheckAdoption(_, alive) => R.HonestAlive(true, w, alive)
    case _ => true
  }

  /** An honest step is what the machine with readable reads does. */
  lemma HonestStep(w: R.World, a: R.Action)
    requires Honest(w, a)
    ensures R.Apply(true, w, a) == R.Apply(false, w, a)
  {}

  lemma StepFollows(t: Table, w: R.World, move: Move, a: R.Action)
    requires Wf(t) && Follows(t, w) && Comes(t, move, a)
    ensures Follows(t, R.Apply(false, w, a)) && w.workers.Keys <= R.Apply(false, w, a).workers.Keys
  {}

  /** The process that recover spawned is its worker from then on. */
  lemma SpawnTakes(t: Table, w: R.World, i: nat)
    requires Wf(t) && Follows(t, w) && Alive(t, i) && i !in w.workers && w.control.Prewritten?
    ensures Recovered(R.Apply(false, w, R.Spawn(i, t.instances[i].pid, t.instances[i].ticks)), t, i)
  {
    NewIsFresh(t, w, i);
  }

  /** A process started by recover that runs. */
  ghost predicate Recovered(w: R.World, t: Table, i: nat) { i in w.workers && w.workers[i].ours && Alive(t, i) }

  /** One move. */
  method Step(h: Host, w: R.World, move: Move, meta: (nat, nat) -> Meta)
    returns (next: R.World, ghost actions: seq<R.Action>)
    requires h.Valid() && Follows(h.table, w) && Identifies(meta)
    modifies h`table, h`clock, h`past
    ensures h.Valid() && old(h.past) <= h.past && Follows(h.table, next) && w.workers.Keys <= next.workers.Keys
    ensures next == R.Exec(false, w, actions)
    ensures Reliable(h, h.past, meta, w.workers.Keys, old(h.clock), h.clock) ==> next == R.Exec(true, w, actions)
    ensures move.Spawned? && w.control.Prewritten? && move.i !in w.workers && Alive(h.table, move.i) ==>
              Recovered(next, h.table, move.i)
  {
    ghost var before := h.table;
    var a := Ask(h, w, move, meta);
    LaterNow(h, |old(h.past)| - 1);
    FollowsOn(before, h.table, w);
    assert Wf(h.past[|h.past| - 1]);
    var now := Exited(w, h.table);
    actions := ExitedIsReached(w, h.table);
    next := now;
    if a.Some? {
      next := R.Apply(false, now, a.value);
      R.Extend(false, w, actions, a.value);
      R.Extend(true, w, actions, a.value);
      actions := actions + [a.value];
      StepFollows(h.table, now, move, a.value);
      if Honest(now, a.value) { HonestStep(now, a.value); }
      if move.Spawned? && now.control.Prewritten? && move.i !in now.workers { SpawnTakes(h.table, now, move.i); }
    }
  }

  /** However recover and repair are run on the host, and whatever its processes do meanwhile: if no read
      fails and the workers keep the identity published for them, this is a run of the recovery machine
      with right verdicts, so at most one process that recover started is running, and it is named by
      the durable obligation or the published metadata. */
  method Drive(h: Host, moves: seq<Move>, meta: (nat, nat) -> Meta) returns (w: R.World, ghost actions: seq<R.Action>)
    requires h.Valid() && Identifies(meta)
    modifies h`table, h`clock, h`past
    ensures h.Valid() && Follows(h.table, w) && w == R.Exec(false, R.START, actions)
    ensures Reliable(h, h.past, meta, w.workers.Keys, old(h.clock), h.clock) ==>
              && w == R.Exec(true, R.START, actions)
              && (forall i :: Recovered(w, h.table, i) ==> R.Live(w, i) && R.Named(w, i))
              && (forall i, j :: Recovered(w, h.table, i) && Recovered(w, h.table, j) ==> i == j)
  {
    w, actions := R.START, [];
    var k := 0;
    while k < |moves|
      invariant k <= |moves| && h.Valid() && old(h.past) <= h.past && Follows(h.table, w)
      invariant w == R.Exec(false, R.START, actions)
      invariant Reliable(h, h.past, meta, w.workers.Keys, old(h.clock), h.clock) ==> w == R.Exec(true, R.START, actions)
    {
      ghost var was, past, at := w, h.past, h.clock;
      ghost var more;
      w, more := Step(h, w, moves[k], meta);
      R.Appends(false, R.START, actions, more);
      R.Appends(true, R.START, actions, more);
      if Reliable(h, h.past, meta, w.workers.Keys, old(h.clock), h.clock) {
        ReliableBefore(h, past, h.past, meta, was.workers.Keys, w.workers.Keys, old(h.clock), at, h.clock);
        assert Reliable(h, h.past, meta, was.workers.Keys, at, h.clock);
      }
      actions := actions + more;
      k := k + 1;
    }
    R.RecoveryRuns(actions);
  }
}
