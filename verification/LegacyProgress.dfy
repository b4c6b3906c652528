/** What an attempt to restart the previous worker comes to when nothing disturbs it.
    Models _restart_previous and its callers in src/lubko/deployctl.py. */
module LegacyProgress {
  import opened Common
  import opened LegacyRestart

  lemma {:induction false} Appends(w: World, first: seq<Action>, later: seq<Action>)
    ensures Exec(true, w, first + later) == Exec(true, Exec(true, w, first), later)
    decreases |later|
  {
    if later == [] {
      assert first + later == first;
    } else {
      Appends(w, first, later[..|later| - 1]);
      assert (first + later)[..|first + later| - 1] == first + later[..|later| - 1];
    }
  }

  /** A worker that is to be adopted is published, and the mission ends. */
  lemma AdoptionEnds(w: World, who: Maintained)
    requires w.control == Restored(who)
    ensures Exec(true, w, [Publish(Confirmed), Terminalize(Confirmed)]) ==
            w.(maintained := who, record := None, terminal := true, control := Idle)
  {
    var b0: seq<Action> := [];
    var b1 := b0 + [Publish(Confirmed)];
    Extend(true, w, b0, Publish(Confirmed));
    Extend(true, w, b1, Terminalize(Confirmed));
    assert [Publish(Confirmed), Terminalize(Confirmed)] == b1 + [Terminalize(Confirmed)];
  }

  /** An open mission, no attempt under way. */
  predicate Open(w: World) { w.control == Idle && !w.terminal }

  /** A live maintained worker whose metadata are exact is adopted, unless it is the original being retired. */
  lemma MaintainedEnds(w: World)
    requires Open(w) && AliveNow(w, w.maintained) && !(w.maintained == Original && w.retiring)
    ensures Exec(true, w, [CheckMaintained(true, true)] + [Publish(Confirmed), Terminalize(Confirmed)]) ==
            w.(record := None, terminal := true)
  {
    Extend(true, w, [], CheckMaintained(true, true));
    assert [] + [CheckMaintained(true, true)] == [CheckMaintained(true, true)];
    Appends(w, [CheckMaintained(true, true)], [Publish(Confirmed), Terminalize(Confirmed)]);
    AdoptionEnds(Exec(true, w, [CheckMaintained(true, true)]), w.maintained);
  }

  /** The recorded restart lives, is released and is found healthy. */
  predicate Restartable(w: World) {
    w.record.Some? && w.record.value.released && AliveNow(w, Restarted(w.record.value.i))
  }

  /** A live released restart found healthy is adopted when no maintained worker lives. */
  lemma RecordEnds(w: World, exact: bool)
    requires Open(w) && !AliveNow(w, w.maintained) && Restartable(w)
    ensures Exec(true, w, [CheckMaintained(false, exact), CheckRecord(true, true, false, Confirmed)]
                          + [Publish(Confirmed), Terminalize(Confirmed)]) ==
            w.(maintained := Restarted(w.record.value.i), record := None, terminal := true)
  {
    var b0: seq<Action> := [];
    var b1 := b0 + [CheckMaintained(false, exact)];
    var b2 := [CheckMaintained(false, exact), CheckRecord(true, true, false, Confirmed)];
    Extend(true, w, b0, CheckMaintained(false, exact));
    Extend(true, w, b1, CheckRecord(true, true, false, Confirmed));
    assert b2 == b1 + [CheckRecord(true, true, false, Confirmed)];
    Appends(w, b2, [Publish(Confirmed), Terminalize(Confirmed)]);
    AdoptionEnds(Exec(true, w, b2), Restarted(w.record.value.i));
  }

  /** Neither a maintained nor a recorded worker lives. */
  predicate NeitherLives(w: World) {
    !AliveNow(w, w.maintained) && (w.record.Some? ==> !AliveNow(w, Restarted(w.record.value.i)))
  }

  function Looking(exact: bool): seq<Action> {
    [CheckMaintained(false, exact), CheckRecord(false, false, false, Confirmed)]
  }

  /** Then the record is cleared, and the original is looked at. */
  lemma LookingClears(w: World, exact: bool)
    requires Open(w) && NeitherLives(w)
    ensures var v := Exec(true, w, Looking(exact));
            v == w.(control := Cleared, record := None,
                    clears := if w.record.Some? then w.clears + [false] else w.clears)
  {
    var b0: seq<Action> := [];
    var b1 := b0 + [CheckMaintained(false, exact)];
    Extend(true, w, b0, CheckMaintained(false, exact));
    Extend(true, w, b1, CheckRecord(false, false, false, Confirmed));
    assert Looking(exact) == b1 + [CheckRecord(false, false, false, Confirmed)];
  }

  /** A live original that is not being retired is adopted. */
  lemma OriginalEnds(w: World, exact: bool)
    requires Open(w) && NeitherLives(w) && w.original && !w.retiring
    ensures var v := Exec(true, w, Looking(exact) + [CheckOriginal(true, false)]
                                   + [Publish(Confirmed), Terminalize(Confirmed)]);
            v.terminal && v.control == Idle && v.maintained == Original && v.record.None? && v.workers == w.workers
  {
    LookingClears(w, exact);
    var b3 := Looking(exact) + [CheckOriginal(true, false)];
    Extend(true, w, Looking(exact), CheckOriginal(true, false));
    Appends(w, b3, [Publish(Confirmed), Terminalize(Confirmed)]);
    AdoptionEnds(Exec(true, w, b3), Original);
  }

  /** A worker is started behind its gate, recorded, released and found healthy. */
  function Starting(i: nat): seq<Action> {
    [SpawnGated(i), Prepare(Confirmed), Release, Flag(Confirmed), Healthy]
  }

  lemma StartingRestores(w: World, i: nat)
    requires w.control == Spawning && i !in w.workers
    ensures var v := Exec(true, w, Starting(i));
            && v.control == Restored(Restarted(i)) && v.workers == w.workers[i := Worker(true, true)]
            && v.record == Some(Record(i, true))
  {
    var b0: seq<Action> := [];
    var b1 := b0 + [SpawnGated(i)];
    var b2 := b1 + [Prepare(Confirmed)];
    var b3 := b2 + [Release];
    var b4 := b3 + [Flag(Confirmed)];
    Extend(true, w, b0, SpawnGated(i));
    assert Exec(true, w, b1) == w.(workers := w.workers[i := Worker(true, false)], control := Gated(i));
    Extend(true, w, b1, Prepare(Confirmed));
    assert Exec(true, w, b2).control == Prepared(i) && Exec(true, w, b2).workers == w.workers[i := Worker(true, false)];
    Extend(true, w, b2, Release);
    assert Exec(true, w, b3).control == Let(i) && Exec(true, w, b3).workers == w.workers[i := Worker(true, true)];
    Extend(true, w, b3, Flag(Confirmed));
    assert Exec(true, w, b4).control == Flagged(i) && Exec(true, w, b4).record == Some(Record(i, true));
    Extend(true, w, b4, Healthy);
    assert Starting(i) == b4 + [Healthy];
  }

  /** Where nobody lives, an undisturbed attempt starts one released worker, publishes it and ends the
      mission. */
  lemma RestartEnds(w: World, exact: bool, i: nat)
    requires Open(w) && NeitherLives(w) && !w.original && i !in w.workers
    ensures var v := Exec(true, w, Looking(exact) + [CheckOriginal(false, false)] + Starting(i)
                                   + [Publish(Confirmed), Terminalize(Confirmed)]);
            && v.terminal && v.control == Idle && v.maintained == Restarted(i) && v.record.None?
            && v.workers == w.workers[i := Worker(true, true)] && Consuming(v, i)
  {
    LookingClears(w, exact);
    var b3 := Looking(exact) + [CheckOriginal(false, false)];
    Extend(true, w, Looking(exact), CheckOriginal(false, false));
    StartingRestores(Exec(true, w, b3), i);
    Appends(w, b3, Starting(i));
    AdoptionEnds(Exec(true, w, b3 + Starting(i)), Restarted(i));
    Appends(w, b3 + Starting(i), [Publish(Confirmed), Terminalize(Confirmed)]);
  }

  /** A retiring original that is still maintained does not end the attempt: once it has exited another worker
      is started in its place. */
  lemma RetiredOriginalEnds(w: World, i: nat)
    requires Open(w) && w.maintained == Original && w.retiring && w.original && w.record.None? && i !in w.workers
    ensures var v := Exec(true, w, [CheckMaintained(true, true), CheckRecord(false, false, false, Confirmed),
                                    OriginalExits, CheckOriginal(false, false)] + Starting(i)
                                   + [Publish(Confirmed), Terminalize(Confirmed)]);
            && v.terminal && v.control == Idle && v.maintained == Restarted(i) && v.record.None? && !v.original
            && v.workers == w.workers[i := Worker(true, true)] && Consuming(v, i)
  {
    var b0: seq<Action> := [];
    var b1 := b0 + [CheckMaintained(true, true)];
    var b2 := b1 + [CheckRecord(false, false, false, Confirmed)];
    var b3 := b2 + [OriginalExits];
    var b4 := [CheckMaintained(true, true), CheckRecord(false, false, false, Confirmed), OriginalExits,
               CheckOriginal(false, false)];
    Extend(true, w, b0, CheckMaintained(true, true));
    assert Exec(true, w, b1) == w.(control := Begun);
    Extend(true, w, b1, CheckRecord(false, false, false, Confirmed));
    assert Exec(true, w, b2) == w.(control := Cleared);
    Extend(true, w, b2, OriginalExits);
    assert Exec(true, w, b3) == w.(control := Cleared, original := false);
    Extend(true, w, b3, CheckOriginal(false, false));
    assert b4 == b3 + [CheckOriginal(false, false)];
    StartingRestores(Exec(true, w, b4), i);
    StartingKeeps(Exec(true, w, b4), i);
    Appends(w, b4, Starting(i));
    AdoptionEnds(Exec(true, w, b4 + Starting(i)), Restarted(i));
    Appends(w, b4 + Starting(i), [Publish(Confirmed), Terminalize(Confirmed)]);
  }

  lemma {:induction false} StartingKeeps(w: World, i: nat)
    ensures Exec(true, w, Starting(i)).original == w.original
  {
    var b0: seq<Action> := [];
    var b1 := b0 + [SpawnGated(i)];
    var b2 := b1 + [Prepare(Confirmed)];
    var b3 := b2 + [Release];
    var b4 := b3 + [Flag(Confirmed)];
    Extend(true, w, b0, SpawnGated(i));
    Extend(true, w, b1, Prepare(Confirmed));
    Extend(true, w, b2, Release);
    Extend(true, w, b3, Flag(Confirmed));
    Extend(true, w, b4, Healthy);
    assert Starting(i) == b4 + [Healthy];
  }

  /** A live worker that cannot be stopped holds the attempt: it is over, and nothing was started or adopted.
      So does a live maintained worker whose metadata are not exact. */
  lemma HeldAttempt(w: World, healthy: bool, clear: Write)
    requires !w.terminal
    ensures w.control == Idle && AliveNow(w, w.maintained) ==> Apply(true, w, CheckMaintained(true, false)) == w
    ensures w.control == Begun && w.record.Some? && !(w.record.value.released && healthy) ==>
            Apply(true, w, CheckRecord(true, healthy, false, clear)) == w.(control := Idle)
    ensures w.control == Cleared && w.retiring ==> Apply(true, w, CheckOriginal(true, false)) == w.(control := Idle)
  {}

  /** A started worker that could not be released, or turned out unhealthy, ends the attempt; once it is reaped
      its record goes, unless that write fails. */
  lemma FailedStartEnds(w: World, i: nat, clear: Write)
    requires w.record.Some? && w.record.value.i == i && !AliveNow(w, Restarted(i))
    ensures w.control == Prepared(i) ==> Forgets(w, Apply(true, w, ReleaseFails(true, clear)), clear)
    ensures w.control == Flagged(i) ==> Forgets(w, Apply(true, w, Unhealthy(true, clear)), clear)
  {}

  ghost predicate Forgets(w: World, v: World, clear: Write) {
    v.control == Idle && v.workers == w.workers && v.record == if clear == FailedOld then w.record else None
  }

  /** Whatever else fails while a worker is started, the attempt is over. */
  lemma FailedStepEnds(w: World, fate: Write, clear: Write)
    requires fate != Confirmed
    ensures w.control.Gated? ==> Apply(true, w, AbandonSpawn) == w.(control := Idle)
    ensures w.control.Gated? ==> Apply(true, w, Prepare(fate)).control == Idle
    ensures w.control.Prepared? ==> Apply(true, w, ReleaseFails(false, clear)) == w.(control := Idle)
    ensures w.control.Let? ==> Apply(true, w, Flag(fate)).control == Idle
  {}

  /** So it is if it turns out unhealthy and is not reaped, or cannot be published or the mission not ended:
      that write leaves the mission open or ended. */
  lemma FailedAdoptionEnds(w: World, fate: Write, clear: Write)
    requires fate != Confirmed
    ensures w.control.Flagged? ==> Apply(true, w, Unhealthy(false, clear)) == w.(control := Idle)
    ensures w.control.Restored? ==> Apply(true, w, Publish(fate)).control == Idle
    ensures w.control == Published ==>
            Apply(true, w, Terminalize(fate)).control == Idle
            && Apply(true, w, Terminalize(fate)).terminal == (fate == FailedNew || w.terminal)
  {}
}
