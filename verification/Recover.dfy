/** Manual recovery: `recover` starts a detached worker under a durable pre-spawn obligation,
    `repair` adopts it into the published metadata. The commands run one at a time under the
    deployment lock; each may crash between any two steps, every durable write may fail with
    either value left behind, and workers may exit at any moment.
    Models _recover_consumer_locked and _repair_authority_transition_locked in
    src/lubko/lifecycle.py. */
module Recover {
  import opened Common

  /** A queue consumer; `ours` are those started by recover. A PID and start time together never
      recur. */
  datatype Worker = Worker(pid: nat, ticks: nat, token: nat, ours: bool, alive: bool)

  /** The durable obligation in the supervisor state; without a PID it covers a worker that may
      or may not have been spawned yet. */
  datatype Obligation = Obligation(token: nat, pid: Option<nat>, ticks: Option<nat>)

  /** The identity in the published worker metadata. */
  datatype Published = Published(pid: nat, ticks: nat, token: nat)

  /** Where the running command is. */
  datatype Control =
    | Free
    | Preflighted
    | Resolved
    | Prewritten(token: nat)
    | Spawned(i: nat)
    | Identified(i: nat)
    | Converged(i: nat)
    | Adopting(i: nat)
    | Adopted(i: nat)
    | Verified(i: nat)

  datatype World = World(
    workers: map<nat, Worker>, obligation: Option<Obligation>, meta: Option<Published>,
    control: Control, nextToken: nat)

  /** How a durable write ends: confirmed, or failed with the old or the new value in place. */
  datatype Write = Confirmed | FailedOld | FailedNew

  datatype Action =
    | Preflight(metaAlive: bool)
    | Resolve(gone: bool, groups: bool, clear: Write)
    | Prewrite(w: Write)
    | Spawn(i: nat, pid: nat, ticks: nat)
    | SpawnFails(clear: Write)
    | Identify(read: Option<nat>, w: Write)
    | SettleHealthy
    | Converge
    | FinishConverge(groups: bool, clear: Write)
    | CheckAdoption(i: nat, metaAlive: bool)
    | Publish(w: Write)
    | Verify(consumed: bool)
    | Release(clear: Write)
    | Crash
    | Exit(i: nat)
    | OtherStarts(i: nat, pid: nat, ticks: nat, token: nat)

  predicate Describes(p: Published, x: Worker) { p.pid == x.pid && p.ticks == x.ticks && p.token == x.token }

  predicate Covers(o: Obligation, x: Worker) {
    && o.token == x.token
    && (o.pid.Some? ==> o.pid.value == x.pid && (o.ticks.Some? ==> o.ticks.value == x.ticks))
  }

  /** Repair's exact match: same PID, start time and token. */
  predicate Exactly(o: Obligation, x: Worker) {
    o.pid == Some(x.pid) && o.ticks == Some(x.ticks) && o.token == x.token
  }

  /** The liveness verdict on the published worker. With a readable process table and metadata
      a live worker is never reported dead; otherwise anything goes. */
  predicate HonestAlive(readable: bool, w: World, verdict: bool) {
    readable && !verdict ==>
      forall i :: i in w.workers && w.workers[i].alive && w.meta.Some? ==> !Describes(w.meta.value, w.workers[i])
  }

  /** The verdict that an obligation's instance is gone: with readable start times it is only
      given when no live process has the recorded number and, if recorded, start time. */
  predicate HonestGone(readable: bool, w: World, o: Obligation, gone: bool) {
    readable && gone && o.pid.Some? ==>
      forall i :: i in w.workers && w.workers[i].alive && w.workers[i].pid == o.pid.value ==>
        o.ticks.Some? && w.workers[i].ticks != o.ticks.value
  }

  predicate Fresh(w: World, i: nat, pid: nat, ticks: nat) {
    && i !in w.workers
    && (forall j :: j in w.workers && w.workers[j].pid == pid ==> w.workers[j].ticks != ticks && !w.workers[j].alive)
  }

  function After(before: Option<Obligation>, next: Option<Obligation>, w: Write): Option<Obligation> {
    if w == FailedOld then before else next
  }

  function Apply(readable: bool, w: World, a: Action): World {
    match a
    case Preflight(metaAlive) =>
      if w.control != Free || !HonestAlive(readable, w, metaAlive) then w
      else if w.meta.Some? && metaAlive then w
      else w.(control := Preflighted)
    case Resolve(gone, groups, clear) =>
      if w.control != Preflighted then w
      else if w.obligation.None? then w.(control := Resolved)
      else if !HonestGone(readable, w, w.obligation.value, gone) then w
      else if w.obligation.value.pid.None? || !gone || !groups then w.(control := Free)
      else w.(obligation := After(w.obligation, None, clear),
              control := if clear == Confirmed then Resolved else Free)
    case Prewrite(write) =>
      if w.control != Resolved then w else
        w.(obligation := After(w.obligation, Some(Obligation(w.nextToken, None, None)), write),
           control := if write == Confirmed then Prewritten(w.nextToken) else Free,
           nextToken := w.nextToken + 1)
    case Spawn(i, pid, ticks) =>
      if !w.control.Prewritten? || !Fresh(w, i, pid, ticks) then w else
        w.(workers := w.workers[i := Worker(pid, ticks, w.control.token, true, true)], control := Spawned(i))
    case SpawnFails(clear) =>
      if !w.control.Prewritten? then w else
        w.(obligation := After(w.obligation, None, clear), control := Free)
    case Identify(read, write) =>
      if !w.control.Spawned? || w.control.i !in w.workers || w.obligation.None? then w else
        var x := w.workers[w.control.i];
        if read.Some? && read.value != x.ticks then w else
          w.(obligation := After(w.obligation, Some(w.obligation.value.(pid := Some(x.pid), ticks := read)), write),
             control := Identified(w.control.i))
    case SettleHealthy => if w.control.Identified? then w.(control := Free) else w
    case Converge =>
      // Returns only once the direct child has been waited for.
      if w.control.Identified? && w.control.i in w.workers && !w.workers[w.control.i].alive
      then w.(control := Converged(w.control.i)) else w
    case FinishConverge(groups, clear) =>
      if !w.control.Converged? then w
      else if !groups then w.(control := Free)
      else w.(obligation := After(w.obligation, None, clear), control := Free)
    case CheckAdoption(i, metaAlive) =>
      if w.control != Free || i !in w.workers || !w.workers[i].alive then w
      else if !HonestAlive(readable, w, metaAlive) then w
      else if w.meta.Some? && metaAlive && w.meta.value.pid != w.workers[i].pid then w
      else if w.obligation.Some? && !Exactly(w.obligation.value, w.workers[i]) then w
      else w.(control := Adopting(i))
    case Publish(write) =>
      if !w.control.Adopting? || w.control.i !in w.workers then w else
        var x := w.workers[w.control.i];
        w.(meta := if write == FailedOld then w.meta else Some(Published(x.pid, x.ticks, x.token)),
           control := if write == Confirmed then Adopted(w.control.i) else Free)
    case Verify(consumed) =>
      if !w.control.Adopted? then w
      else w.(control := if consumed then Verified(w.control.i) else Free)
    case Release(clear) =>
      if !w.control.Verified? || w.control.i !in w.workers then w
      else if w.obligation.Some? && !Exactly(w.obligation.value, w.workers[w.control.i]) then w.(control := Free)
      else w.(obligation := After(w.obligation, None, clear), control := Free)
    case Crash => w.(control := Free)
    case Exit(i) =>
      if i !in w.workers then w else w.(workers := w.workers[i := w.workers[i].(alive := false)])
    case OtherStarts(i, pid, ticks, token) =>
      if !Fresh(w, i, pid, ticks) || token < w.nextToken then w else
        w.(workers := w.workers[i := Worker(pid, ticks, token, false, true)], nextToken := token + 1)
  }

  function Exec(readable: bool, w: World, actions: seq<Action>): World {
    if actions == [] then w
    else Apply(readable, Exec(readable, w, actions[..|actions| - 1]), actions[|actions| - 1])
  }

  const START := World(map[], None, None, Free, 0)

  ghost predicate Live(w: World, i: nat) { i in w.workers && w.workers[i].ours && w.workers[i].alive }

  /** A live recovery worker is named by the obligation or by the published metadata. */
  ghost predicate Named(w: World, i: nat) {
    Live(w, i) ==>
      || (w.obligation.Some? && Covers(w.obligation.value, w.workers[i]))
      || (w.meta.Some? && Describes(w.meta.value, w.workers[i]))
  }

  /** Tokens are fresh per worker, and live workers have different PIDs. */
  ghost predicate Apart(w: World, i: nat, j: nat) {
    i in w.workers && j in w.workers && i != j ==>
      && w.workers[i].token != w.workers[j].token
      && (w.workers[i].alive && w.workers[j].alive ==> w.workers[i].pid != w.workers[j].pid)
  }

  /** What the running command has established, live worker by live worker. */
  ghost predicate Progress(w: World, i: nat) {
    Live(w, i) ==>
      match w.control
      case Free => true
      case Preflighted => w.obligation.Some? && Covers(w.obligation.value, w.workers[i])
      case Resolved => false
      case Prewritten(_) => false
      case Spawned(k) => i == k
      case Identified(k) => i == k
      case Converged(_) => false
      case Adopting(k) => i == k
      case Adopted(k) => i == k
      case Verified(k) => i == k
  }

  /** The obligation and metadata the running command relies on. */
  ghost predicate Standing(w: World) {
    match w.control
    case Prewritten(t) => t < w.nextToken && w.obligation == Some(Obligation(t, None, None))
                          && (forall i :: i in w.workers ==> w.workers[i].token != t)
    case Spawned(k) => k in w.workers && w.obligation == Some(Obligation(w.workers[k].token, None, None))
    case Identified(k) => k in w.workers && w.obligation.Some? && Covers(w.obligation.value, w.workers[k])
    case Converged(k) => k in w.workers && !w.workers[k].alive
    case Adopting(k) => k in w.workers && (w.obligation.Some? ==> Exactly(w.obligation.value, w.workers[k]))
    case Adopted(k) => k in w.workers && w.meta.Some? && Describes(w.meta.value, w.workers[k])
    case Verified(k) => k in w.workers && w.meta.Some? && Describes(w.meta.value, w.workers[k])
    case _ => true
  }

  ghost predicate Inv(w: World) {
    && (forall i :: Named(w, i)) && (forall i, j :: Apart(w, i, j)) && (forall i :: Progress(w, i))
    && (forall i, j :: Live(w, i) && Live(w, j) ==> i == j)
    && (forall i :: i in w.workers ==> w.workers[i].token < w.nextToken)
    && Standing(w)
  }

  lemma ApartKept(w: World, a: Action)
    requires Inv(w)
    ensures var w' := Apply(true, w, a);
            && (forall i, j :: Apart(w', i, j))
            && (forall i :: i in w'.workers ==> w'.workers[i].token < w'.nextToken)
  {
    var w' := Apply(true, w, a);
    forall i, j ensures Apart(w', i, j) {
      assert Apart(w, i, j);
    }
  }

  lemma StandingKept(w: World, a: Action)
    requires Inv(w)
    ensures Standing(Apply(true, w, a))
  {}

  lemma ProgressKept(w: World, a: Action, i: nat)
    requires Inv(w)
    ensures Progress(Apply(true, w, a), i) && Named(Apply(true, w, a), i)
  {
    assert Progress(w, i) && Named(w, i);
    if a.CheckAdoption? && i in w.workers && a.i in w.workers {
      assert Apart(w, i, a.i);
    }
    if w.control.Adopting? || w.control.Adopted? || w.control.Verified? {
      assert Apart(w, i, w.control.i);
    }
  }

  lemma OneKept(w: World, a: Action, i: nat, j: nat)
    requires Inv(w)
    requires Live(Apply(true, w, a), i) && Live(Apply(true, w, a), j)
    ensures i == j
  {
    assert Progress(w, i) && Progress(w, j);
    if Live(w, i) && Live(w, j) {
      assert i == j;
    }
  }

  /** With readable metadata and process table, at every step of every sequence of recover and
      repair runs - crashes, failed writes and exits at any point included - every live worker
      recover started is named by the durable obligation or the published metadata, and at most
      one such worker is alive. */
  lemma {:induction false} RecoveryRuns(actions: seq<Action>)
    ensures var w := Exec(true, START, actions);
            && Inv(w)
            && (forall i :: Named(w, i))
            && (forall i, j :: Live(w, i) && Live(w, j) ==> i == j)
  {
    if actions != [] {
      var w, a := Exec(true, START, actions[..|actions| - 1]), actions[|actions| - 1];
      RecoveryRuns(actions[..|actions| - 1]);
      ApartKept(w, a);
      StandingKept(w, a);
      var w' := Apply(true, w, a);
      forall i ensures Progress(w', i) && Named(w', i) { ProgressKept(w, a, i); }
      forall i, j | Live(w', i) && Live(w', j) ensures i == j { OneKept(w, a, i, j); }
    }
  }

  lemma Extend(readable: bool, w: World, actions: seq<Action>, a: Action)
    ensures Exec(readable, w, actions + [a]) == Apply(readable, Exec(readable, w, actions), a)
  {
    var more := actions + [a];
    assert more[..|more| - 1] == actions;
  }

  /** One recover run that takes every worker for gone and starts another. */
  ghost function Mistaken(i: nat, pid: nat, ticks: nat): seq<Action> {
    [Crash, Preflight(false), Resolve(true, true, Confirmed), Prewrite(Confirmed), Spawn(i, pid, ticks)]
  }

  lemma MistakenStarts(w: World, i: nat, pid: nat, ticks: nat)
    requires Fresh(w, i, pid, ticks) && (w.obligation.Some? ==> w.obligation.value.pid.Some?)
    ensures Exec(false, w, Mistaken(i, pid, ticks)).workers ==
            w.workers[i := Worker(pid, ticks, w.nextToken, true, true)]
  {
    var b0: seq<Action> := [];
    var b1 := b0 + [Crash];
    var b2 := b1 + [Preflight(false)];
    var b3 := b2 + [Resolve(true, true, Confirmed)];
    var b4 := b3 + [Prewrite(Confirmed)];
    Extend(false, w, b0, Crash);
    Extend(false, w, b1, Preflight(false));
    assert Exec(false, w, b2) == w.(control := Preflighted);
    Extend(false, w, b2, Resolve(true, true, Confirmed));
    assert Exec(false, w, b3) == w.(obligation := None, control := Resolved);
    Extend(false, w, b3, Prewrite(Confirmed));
    Extend(false, w, b4, Spawn(i, pid, ticks));
    assert Mistaken(i, pid, ticks) == b4 + [Spawn(i, pid, ticks)];
  }

  /** Some number is above all of these. */
  lemma {:induction false} Above(s: set<nat>) returns (n: nat)
    ensures forall x :: x in s ==> x < n
  {
    if s == {} {
      n := 0;
    } else {
      var y :| y in s;
      var m := Above(s - {y});
      n := if y < m then m else y + 1;
      assert forall x :: x in s ==> x == y || x in s - {y};
    }
  }

  lemma FreshExists(w: World) returns (i: nat, pid: nat)
    ensures Fresh(w, i, pid, 0)
  {
    var pids := set j | j in w.workers :: w.workers[j].pid;
    i := Above(w.workers.Keys);
    pid := Above(pids);
    assert i !in w.workers.Keys;
    assert forall j :: j in w.workers ==> w.workers[j].pid in pids;
  }

  ghost predicate TwoAlive(w: World) { exists i, j :: i != j && Live(w, i) && Live(w, j) }

  ghost predicate Pidless(w: World) { w.obligation.Some? && w.obligation.value.pid.None? }

  /** Behind an obligation without a PID nothing is started or adopted any more. */
  ghost predicate Held(w0: World, w: World) {
    && Pidless(w0) && w.obligation == w0.obligation && (w.control == Free || w.control == Preflighted)
    && (forall k :: Live(w, k) ==> Live(w0, k))
  }

  lemma {:induction false} PidlessHolds(w: World, actions: seq<Action>)
    requires Pidless(w) && w.control == Free
    ensures Held(w, Exec(false, w, actions))
  {
    if actions != [] {
      var n := |actions| - 1;
      PidlessHolds(w, actions[..n]);
      var v := Exec(false, w, actions[..n]);
      forall k | Live(Apply(false, v, actions[n]), k) ensures Live(w, k) {
        assert Live(v, k);
      }
    }
  }

  /** Right verdicts are needed everywhere but behind an obligation without a PID: between commands, in
      every state reachable with right verdicts in which a recovery worker lives, wrong ones can lead
      to two of them alive if and only if the obligation, if there is one, records a PID. */
  lemma WrongVerdictStartsTwo(actions: seq<Action>, i: nat)
    requires var w := Exec(true, START, actions); w.control == Free && Live(w, i)
    ensures var w := Exec(true, START, actions);
            (exists more :: TwoAlive(Exec(false, w, more))) <==> !Pidless(w)
  {
    var w := Exec(true, START, actions);
    RecoveryRuns(actions);
    if Pidless(w) {
      forall more ensures !TwoAlive(Exec(false, w, more)) {
        PidlessHolds(w, more);
      }
    } else {
      var j, pid := FreshExists(w);
      MistakenStarts(w, j, pid, 0);
      var v := Exec(false, w, Mistaken(j, pid, 0));
      assert i != j && Live(v, i) && Live(v, j);
    }
  }

  /** Such states occur: recover starts a worker, records its PID, and is over. */
  lemma UnreadableStartsTwo()
    ensures exists actions :: TwoAlive(Exec(false, START, actions))
  {
    var b0: seq<Action> := [];
    var b1 := b0 + Mistaken(0, 10, 100);
    assert b1 == Mistaken(0, 10, 100);
    StartsOnce();
    var b2 := b1 + [Identify(Some(100), Confirmed)];
    Extend(false, START, b1, Identify(Some(100), Confirmed));
    var b3 := b2 + [SettleHealthy];
    Extend(false, START, b2, SettleHealthy);
    var w := Exec(false, START, b3);
    MistakenStarts(w, 1, 11, 110);
    Appends(false, START, b3, Mistaken(1, 11, 110));
    var v := Exec(false, START, b3 + Mistaken(1, 11, 110));
    assert Live(v, 0) && Live(v, 1);
  }

  lemma StartsOnce()
    ensures Exec(false, START, Mistaken(0, 10, 100)) ==
      World(map[0 := Worker(10, 100, 0, true, true)], Some(Obligation(0, None, None)), None, Spawned(0), 1)
  {
    var b0: seq<Action> := [];
    var b1 := b0 + [Crash];
    var b2 := b1 + [Preflight(false)];
    var b3 := b2 + [Resolve(true, true, Confirmed)];
    var b4 := b3 + [Prewrite(Confirmed)];
    Extend(false, START, b0, Crash);
    Extend(false, START, b1, Preflight(false));
    Extend(false, START, b2, Resolve(true, true, Confirmed));
    Extend(false, START, b3, Prewrite(Confirmed));
    Extend(false, START, b4, Spawn(0, 10, 100));
    assert Mistaken(0, 10, 100) == b4 + [Spawn(0, 10, 100)];
  }

  lemma {:induction false} Appends(readable: bool, w: World, first: seq<Action>, later: seq<Action>)
    ensures Exec(readable, w, first + later) == Exec(readable, Exec(readable, w, first), later)
    decreases |later|
  {
    if later == [] {
      assert first + later == first;
    } else {
      var n := |later| - 1;
      Appends(readable, w, first, later[..n]);
      assert (first + later)[..|first + later| - 1] == first + later[..n];
    }
  }
}
