/** Restarting the previous worker during a legacy rollback: any number of attempts, each of which
    may crash between any two steps or fail a durable write. A fresh worker waits behind a pipe
    gate until it is released; a closed gate can never be released any more.
    Models _restart_previous and its helpers in src/lubko/deployctl.py. */
module LegacyRestart {
  import opened Common

  /** A previous-commit worker spawned by an attempt; once its release byte is written it consumes
      the queue. Its gate pipe is held by the spawning attempt alone, so a worker whose attempt
      has ended unreleased can never be released. */
  datatype Worker = Worker(alive: bool, released: bool)

  /** The restart identity recorded in the mission and its release flag. */
  datatype Record = Record(i: nat, released: bool)

  /** Whom the maintained worker metadata names; `Other` is any worker that is neither the original nor
      started by an attempt. */
  datatype Maintained = Nobody | Original | Restarted(i: nat) | Other

  datatype Control =
    | Idle
    | Begun                 // an attempt is past the durable-metadata check
    | Cleared               // no restart is recorded any more
    | Spawning              // the original worker is out of the way
    | Gated(i: nat)
    | Prepared(i: nat)
    | Let(i: nat)           // the gate byte is written
    | Flagged(i: nat)       // and the release recorded
    | Restored(who: Maintained)
    | Published             // the metadata names the restored worker

  datatype World = World(
    original: bool, other: bool, retiring: bool, workers: map<nat, Worker>, record: Option<Record>,
    maintained: Maintained, control: Control, terminal: bool, clears: seq<bool>)

  datatype Write = Confirmed | FailedOld | FailedNew

  datatype Action =
    | CheckMaintained(alive: bool, exact: bool)
    | CheckRecord(alive: bool, healthy: bool, stopped: bool, clear: Write)
    | CheckOriginal(alive: bool, stopped: bool)
    | SpawnGated(i: nat)
    | AbandonSpawn
    | Prepare(w: Write)
    | Release
    | ReleaseFails(reaped: bool, clear: Write)
    | Flag(w: Write)
    | Healthy
    | Unhealthy(reaped: bool, clear: Write)
    | Publish(w: Write)
    | Terminalize(w: Write)
    | Crash
    | Exit(i: nat)
    | OriginalExits
    | OtherExits

  function AliveNow(w: World, m: Maintained): bool {
    match m
    case Nobody => false
    case Original => w.original
    case Restarted(i) => i in w.workers && w.workers[i].alive
    case Other => w.other
  }

  /** A return, an exception or a crash: the attempt is over and its gate is closed. */
  function Ends(w: World): World { w.(control := Idle) }

  /** Clear the recorded restart, noting whether its worker was alive. A write that fails raises,
      and leaves the old or the new value. */
  function Clears(w: World, write: Write, next: Control): World {
    var alive := w.record.Some? && AliveNow(w, Restarted(w.record.value.i));
    var w' := if write == FailedOld then w else w.(record := None, clears := w.clears + [alive]);
    if write == Confirmed then w'.(control := next) else Ends(w')
  }

  /** The liveness verdicts are right: no live worker is called dead, none that is to be stopped is
      called stopped while it lives, and the maintained one is called alive only if it is. */
  predicate Right(w: World, a: Action) {
    match a
    case CheckMaintained(alive, _) => alive == AliveNow(w, w.maintained)
    case CheckRecord(alive, healthy, stopped, _) =>
      w.record.Some? && AliveNow(w, Restarted(w.record.value.i)) ==>
        alive && (!stopped || (w.record.value.released && healthy))
    case CheckOriginal(alive, stopped) => w.original ==> alive && !(w.retiring && stopped)
    case _ => true
  }

  /** Whom to adopt. A live maintained worker is adopted if its metadata are `exact`: readable, running, of
      this repository and of the previous commit. `sound` says that every verdict is right. */
  function Check(sound: bool, w: World, a: Action): World {
    match a
    case CheckMaintained(alive, exact) =>
      if w.control != Idle || w.terminal || (sound && !Right(w, a)) then w
      else if w.maintained == Nobody || !alive then w.(control := Begun)
      else if !exact then w
      else if w.maintained == Original && w.retiring then w.(control := Begun)
      else w.(control := Restored(w.maintained))
    case CheckRecord(alive, healthy, stopped, clear) =>
      if w.control != Begun then w
      else if w.record.None? then w.(control := Cleared)
      else
        if sound && !Right(w, a) then w
        else if alive && w.record.value.released && healthy then w.(control := Restored(Restarted(w.record.value.i)))
        else if alive && !stopped then Ends(w)
        else Clears(w, clear, Cleared)
    case CheckOriginal(alive, stopped) =>
      if w.control != Cleared then w
      else if sound && !Right(w, a) then w
      else if alive && !w.retiring then w.(control := Restored(Original))
      else if alive && !stopped then Ends(w)
      else w.(control := Spawning)
    case _ => w
  }

  /** Start another worker behind its gate. */
  function Start(w: World, a: Action): World {
    match a
    case SpawnGated(i) =>
      if w.control != Spawning || i in w.workers then w else
        w.(workers := w.workers[i := Worker(true, false)], control := Gated(i))
    case AbandonSpawn => if w.control.Gated? then Ends(w) else w
    case Prepare(write) =>
      if !w.control.Gated? then w else
        var w' := if write == FailedOld then w else w.(record := Some(Record(w.control.i, false)));
        if write == Confirmed then w'.(control := Prepared(w.control.i)) else Ends(w')
    case Release =>
      if !w.control.Prepared? || w.control.i !in w.workers then w else
        w.(workers := w.workers[w.control.i := w.workers[w.control.i].(released := true)],
           control := Let(w.control.i))
    case ReleaseFails(reaped, clear) =>
      if !w.control.Prepared? then w
      else if reaped && AliveNow(w, Restarted(w.control.i)) then w
      else if !reaped then Ends(w)
      else Clears(Ends(w), clear, Idle)
    case Flag(write) =>
      if !w.control.Let? then w else
        var w' := if write == FailedOld then w else w.(record := Some(Record(w.control.i, true)));
        if write == Confirmed then w'.(control := Flagged(w.control.i)) else Ends(w')
    case _ => w
  }

  /** See a restored worker through to the end of the mission. */
  function Adopt(w: World, a: Action): World {
    match a
    case Healthy => if w.control.Flagged? then w.(control := Restored(Restarted(w.control.i))) else w
    case Unhealthy(reaped, clear) =>
      if !w.control.Flagged? then w
      else if reaped && AliveNow(w, Restarted(w.control.i)) then w
      else if !reaped then Ends(w)
      else Clears(Ends(w), clear, Idle)
    case Publish(write) =>
      if !w.control.Restored? then w else
        var w' := if write == FailedOld then w else w.(maintained := w.control.who);
        if write == Confirmed then w'.(control := Published) else Ends(w')
    case Terminalize(write) =>
      if w.control != Published then w
      else if write == FailedOld then Ends(w)
      else Ends(w).(record := None, terminal := true)
    case _ => w
  }

  predicate Checking(a: Action) { a.CheckMaintained? || a.CheckRecord? || a.CheckOriginal? }

  predicate Starting(a: Action) {
    a.SpawnGated? || a.AbandonSpawn? || a.Prepare? || a.Release? || a.ReleaseFails? || a.Flag?
  }

  predicate Adopts(a: Action) { a.Healthy? || a.Unhealthy? || a.Publish? || a.Terminalize? }

  /** One step of the attempt, a crash, or an exit. */
  function Apply(sound: bool, w: World, a: Action): World {
    if Checking(a) then Check(sound, w, a)
    else if Starting(a) then Start(w, a)
    else if Adopts(a) then Adopt(w, a)
    else
      match a
      case Crash => Ends(w)
      case Exit(i) =>
        if i !in w.workers then w else w.(workers := w.workers[i := w.workers[i].(alive := false)])
      case OriginalExits => w.(original := false)
      case OtherExits => w.(other := false)
      case _ => w
  }

  function Exec(sound: bool, w: World, actions: seq<Action>): World {
    if actions == [] then w
    else Apply(sound, Exec(sound, w, actions[..|actions| - 1]), actions[|actions| - 1])
  }

  /** A pending mission whose restart has not been attempted yet. */
  ghost predicate Initial(w: World) {
    w.workers == map[] && w.record.None? && w.control == Idle && !w.terminal && w.clears == []
    && !w.maintained.Restarted?
  }

  ghost predicate Consuming(w: World, i: nat) { i in w.workers && w.workers[i].alive && w.workers[i].released }

  /** A live released worker is the recorded one, until the mission is terminal. */
  ghost predicate Anchored(w: World, i: nat) {
    Consuming(w, i) ==>
      || (w.record.Some? && w.record.value.i == i)
      || (w.terminal && w.maintained == Restarted(i))
  }

  /** Where the running attempt is. */
  ghost predicate Standing(w: World) {
    match w.control
    case Idle => true
    case Begun => !w.terminal
    case Cleared => w.record.None? && !w.terminal
    case Spawning => w.record.None? && !w.original && !w.terminal
    case Gated(i) => w.record.None? && !w.terminal && i in w.workers && !w.workers[i].released
    case Prepared(i) => !w.terminal && w.record == Some(Record(i, false)) && i in w.workers && !w.workers[i].released
    case Let(i) => !w.terminal && w.record == Some(Record(i, false)) && i in w.workers && w.workers[i].released
    case Flagged(i) => !w.terminal && w.record == Some(Record(i, true)) && i in w.workers
    case Restored(who) => !w.terminal && Settled(w, who)
    case Published => !w.terminal && Settled(w, w.maintained)
  }

  /** Adopting this worker leaves no other one consuming. */
  ghost predicate Settled(w: World, who: Maintained) {
    match who
    case Restarted(i) => i in w.workers && w.workers[i].released && (forall j :: Consuming(w, j) ==> j == i)
    case Original => forall j :: !Consuming(w, j)
    case Other => forall j :: !Consuming(w, j)
    case Nobody => false
  }

  ghost predicate NoneStarted(w: World) { forall i :: i !in w.workers }

  /** While another maintained worker lives the attempts get no further than adopting it. */
  ghost predicate Untouched(w: World) {
    && (w.control == Restored(Other) ==> w.maintained == Other)
    && (w.maintained == Other && w.other ==>
          NoneStarted(w) && (w.control == Idle || w.control == Restored(Other) || w.control == Published))
  }

  /** What the record and the metadata say of the workers. */
  ghost predicate Orderly(w: World) {
    && (w.original ==> NoneStarted(w))
    && (w.record.Some? ==>
          w.record.value.i in w.workers && (w.record.value.released ==> w.workers[w.record.value.i].released))
    && (w.terminal ==> w.record.None?)
    && (w.maintained.Restarted? ==> w.maintained.i in w.workers && w.workers[w.maintained.i].released)
  }

  /** Only dead workers were cleared. */
  ghost predicate DeadCleared(w: World) { forall k :: 0 <= k < |w.clears| ==> !w.clears[k] }

  ghost predicate Inv(w: World) {
    (forall i :: Anchored(w, i)) && Untouched(w) && Orderly(w) && DeadCleared(w) && Standing(w)
  }

  /** Steps outside the attempt's own reasoning: nothing starts consuming. */
  predicate Outside(a: Action) { a.Exit? || a.OriginalExits? || a.OtherExits? || a.Crash? }

  lemma SettledLasts(w: World, w': World, who: Maintained)
    requires Settled(w, who)
    requires forall i :: i in w.workers ==> i in w'.workers && (w.workers[i].released ==> w'.workers[i].released)
    requires forall j :: Consuming(w', j) ==> Consuming(w, j)
    ensures Settled(w', who)
  {}

  lemma OutsideKeepsStanding(w: World, a: Action)
    requires Inv(w) && Outside(a)
    ensures Standing(Apply(true, w, a))
  {
    var w' := Apply(true, w, a);
    if w.control.Restored? { SettledLasts(w, w', w.control.who); }
    if w.control == Published { SettledLasts(w, w', w.maintained); }
  }

  /** Whoever the checks let the attempt adopt is the only one consuming. */
  lemma ChecksKeepStanding(w: World, a: Action)
    requires Inv(w) && Checking(a)
    ensures Standing(Check(true, w, a))
  {
    if a.CheckMaintained? {
      MaintainedIsAlone(w, a);
    } else {
      forall j | Consuming(Check(true, w, a), j) ensures Consuming(w, j) && Anchored(w, j) {}
    }
  }

  lemma MaintainedIsAlone(w: World, a: Action)
    requires Inv(w) && a.CheckMaintained?
    ensures Standing(Check(true, w, a))
  {
    forall j | Consuming(Check(true, w, a), j) ensures Consuming(w, j) && Anchored(w, j) {}
    if w.maintained.Restarted? { assert Anchored(w, w.maintained.i); }
  }

  lemma GateKeepsStanding(w: World, a: Action)
    requires Inv(w) && (a.SpawnGated? || a.AbandonSpawn? || a.Prepare? || a.Release? || a.Flag?)
    ensures Standing(Apply(true, w, a))
  {}

  lemma EndKeepsStanding(w: World, a: Action)
    requires Inv(w) && (a.ReleaseFails? || a.Unhealthy? || a.Terminalize?)
    ensures Standing(Apply(true, w, a))
  {}

  lemma AdoptionKeepsStanding(w: World, a: Action)
    requires Inv(w) && (a.Healthy? || a.Publish?)
    ensures Standing(Apply(true, w, a))
  {
    var w' := Apply(true, w, a);
    if a.Publish? && w.control.Restored? {
      SettledLasts(w, w', w.control.who);
    } else if w.control.Flagged? {
      forall j | Consuming(w', j) ensures j == w.control.i { assert Anchored(w, j); }
    }
  }

  lemma StandingKept(w: World, a: Action)
    requires Inv(w)
    ensures Standing(Apply(true, w, a))
  {
    if Outside(a) {
      OutsideKeepsStanding(w, a);
    } else if Checking(a) {
      ChecksKeepStanding(w, a);
    } else if a.Healthy? || a.Publish? {
      AdoptionKeepsStanding(w, a);
    } else if a.ReleaseFails? || a.Unhealthy? || a.Terminalize? {
      EndKeepsStanding(w, a);
    } else {
      GateKeepsStanding(w, a);
    }
  }

  lemma ChecksKeepOrder(w: World, a: Action)
    requires Orderly(w) && Standing(w)
    ensures Orderly(Check(true, w, a))
  {}

  lemma StartsKeepOrder(w: World, a: Action)
    requires Orderly(w) && Standing(w)
    ensures Orderly(Start(w, a))
  {}

  lemma AdoptsKeepOrder(w: World, a: Action)
    requires Orderly(w) && Standing(w)
    ensures Orderly(Adopt(w, a))
  {}

  lemma OrderKept(w: World, a: Action)
    requires Orderly(w) && Standing(w)
    ensures Orderly(Apply(true, w, a))
  {
    if Checking(a) {
      ChecksKeepOrder(w, a);
    } else if Starting(a) {
      StartsKeepOrder(w, a);
    } else if Adopts(a) {
      AdoptsKeepOrder(w, a);
    }
  }

  lemma ChecksKeepAnchors(w: World, a: Action, i: nat)
    requires Anchored(w, i) && Orderly(w) && Standing(w)
    ensures Anchored(Check(true, w, a), i)
  {}

  lemma StartsKeepAnchors(w: World, a: Action, i: nat)
    requires Anchored(w, i) && Orderly(w) && Standing(w)
    ensures Anchored(Start(w, a), i)
  {}

  lemma AdoptsKeepAnchors(w: World, a: Action, i: nat)
    requires Anchored(w, i) && Orderly(w) && Standing(w)
    ensures Anchored(Adopt(w, a), i)
  {
    if w.control == Published { assert Consuming(w, i) ==> Settled(w, w.maintained); }
  }

  lemma AnchorsKept(w: World, a: Action, i: nat)
    requires Anchored(w, i) && Orderly(w) && Standing(w)
    ensures Anchored(Apply(true, w, a), i)
  {
    if Checking(a) {
      ChecksKeepAnchors(w, a, i);
    } else if Starting(a) {
      StartsKeepAnchors(w, a, i);
    } else if Adopts(a) {
      AdoptsKeepAnchors(w, a, i);
    }
  }

  lemma ChecksKeepRest(w: World, a: Action)
    requires DeadCleared(w) && Untouched(w) && Standing(w)
    ensures DeadCleared(Check(true, w, a)) && Untouched(Check(true, w, a))
  {}

  lemma StartsKeepRest(w: World, a: Action)
    requires DeadCleared(w) && Untouched(w) && Standing(w)
    ensures DeadCleared(Start(w, a)) && Untouched(Start(w, a))
  {}

  lemma AdoptsKeepRest(w: World, a: Action)
    requires DeadCleared(w) && Untouched(w) && Standing(w)
    ensures DeadCleared(Adopt(w, a)) && Untouched(Adopt(w, a))
  {}

  lemma RestKept(w: World, a: Action)
    requires DeadCleared(w) && Untouched(w) && Standing(w)
    ensures DeadCleared(Apply(true, w, a)) && Untouched(Apply(true, w, a))
  {
    if Checking(a) {
      ChecksKeepRest(w, a);
    } else if Starting(a) {
      StartsKeepRest(w, a);
    } else if Adopts(a) {
      AdoptsKeepRest(w, a);
    }
  }

  /** Over any number of attempts and crashes: at most one released worker is alive, and while one
      is, the original is dead and so is any other maintained worker; a recorded restart implies the
      original worker is dead; and every restart identity was cleared only when its worker was dead,
      so nothing is spawned beside it. */
  lemma {:induction false} RestartRuns(w0: World, actions: seq<Action>)
    requires Initial(w0)
    ensures var w := Exec(true, w0, actions);
            && Inv(w)
            && (forall i, j :: Consuming(w, i) && Consuming(w, j) ==> i == j)
            && ((exists i :: Consuming(w, i)) || w.record.Some? ==> !w.original)
            && ((exists i :: Consuming(w, i)) ==> !(w.maintained == Other && w.other))
            && DeadCleared(w)
  {
    if actions != [] {
      var w, a := Exec(true, w0, actions[..|actions| - 1]), actions[|actions| - 1];
      RestartRuns(w0, actions[..|actions| - 1]);
      forall i ensures Anchored(Apply(true, w, a), i) { AnchorsKept(w, a, i); }
      OrderKept(w, a);
      RestKept(w, a);
      StandingKept(w, a);
    }
    var w := Exec(true, w0, actions);
    forall i, j | Consuming(w, i) && Consuming(w, j) ensures i == j {
      assert Anchored(w, i) && Anchored(w, j);
    }
  }

  lemma Extend(sound: bool, w0: World, actions: seq<Action>, a: Action)
    ensures Exec(sound, w0, actions + [a]) == Apply(sound, Exec(sound, w0, actions), a)
  {
    var more := actions + [a];
    assert more[..|more| - 1] == actions;
  }

  /** One attempt that takes every worker for dead and crashes once it has released another. */
  ghost function Mistaken(i: nat): seq<Action> {
    [Crash, CheckMaintained(false, false), CheckRecord(false, false, false, Confirmed), CheckOriginal(false, false),
     SpawnGated(i), Prepare(Confirmed), Release]
  }

  /** Taken for dead, everybody is out of the way. */
  lemma MistakenClears(w: World)
    requires !w.terminal
    ensures var v := Exec(false, w, Mistaken(0)[..4]); v.control == Spawning && v.workers == w.workers
  {
    var b0: seq<Action> := [];
    var b1 := b0 + [Crash];
    var b2 := b1 + [CheckMaintained(false, false)];
    var b3 := b2 + [CheckRecord(false, false, false, Confirmed)];
    Extend(false, w, b0, Crash);
    Extend(false, w, b1, CheckMaintained(false, false));
    assert Exec(false, w, b2) == w.(control := Begun);
    Extend(false, w, b2, CheckRecord(false, false, false, Confirmed));
    assert Exec(false, w, b3).control == Cleared && Exec(false, w, b3).workers == w.workers;
    Extend(false, w, b3, CheckOriginal(false, false));
    assert Mistaken(0)[..4] == b3 + [CheckOriginal(false, false)];
  }

  lemma MistakenReleases(w: World, i: nat)
    requires !w.terminal && i !in w.workers
    ensures Exec(false, w, Mistaken(i)).workers == w.workers[i := Worker(true, true)]
  {
    MistakenClears(w);
    var b4 := Mistaken(0)[..4];
    var b5 := b4 + [SpawnGated(i)];
    var b6 := b5 + [Prepare(Confirmed)];
    var spawned := w.workers[i := Worker(true, false)];
    Extend(false, w, b4, SpawnGated(i));
    assert Exec(false, w, b5).control == Gated(i) && Exec(false, w, b5).workers == spawned;
    Extend(false, w, b5, Prepare(Confirmed));
    assert Exec(false, w, b6).control == Prepared(i) && Exec(false, w, b6).workers == spawned;
    Extend(false, w, b6, Release);
    assert Mistaken(i) == b6 + [Release];
  }

  /** Right verdicts are needed everywhere: from every state reachable with right ones in which the
      mission is open and a released worker lives, one attempt with wrong ones has a second released
      worker alive beside it. */
  lemma UnsoundReadsReleaseTwo(w0: World, actions: seq<Action>, i: nat, j: nat)
    requires Initial(w0)
    requires var w := Exec(true, w0, actions); !w.terminal && Consuming(w, i) && j !in w.workers
    ensures i != j
    ensures var w := Exec(false, Exec(true, w0, actions), Mistaken(j)); Consuming(w, i) && Consuming(w, j)
  {
    MistakenReleases(Exec(true, w0, actions), j);
  }
}
