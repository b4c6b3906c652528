/** The crash-durable write, symlink-switch and removal primitives with their best-effort
    fail-closed cleanup. Models src/lubko/durable.py. */
module DurableWrite {
  import opened Common
  import opened DurableDirectory

  /** How a call ends: normally, with a durability error, or with another OS error. */
  datatype Answer = Done | Unconfirmed | OsFailure

  /** What became of a failed call's cleanup: none was needed because the destination was never
      touched, it was confirmed, or its fate is open. */
  datatype Cleanup = NotNeeded | Confirmed | Open

  /** Since moment k the destination showed only these outcomes, and a crash could reveal only those
      or what it could reveal before. */
  ghost predicate Confined(d: Directory, k: nat, shown: set<Outcome>, before: set<Outcome>)
    reads d`entries, d`listings, d`inodes, d`nextTemp, d`nextIno, d`moments
  {
    && d.Valid() && d.Visible() in shown && d.Recoverable() <= before + shown
    && Stayed(d.moments, k, shown, before + shown)
  }

  /** Two different steps in the interval were not smooth. */
  ghost predicate Twice(d: Directory, from: nat, to: nat) {
    exists mid :: from <= mid <= to && d.Tripped(from, mid) && d.Tripped(mid, to)
  }

  lemma BothTrip(d: Directory, from: nat, mid: nat, to: nat)
    requires from <= mid <= to && d.Tripped(from, mid) && d.Tripped(mid, to)
    ensures Twice(d, from, to) && d.Tripped(from, to)
  {
    var n :| from <= n < mid && !d.Smooth(n);
  }

  /** Write every byte, retrying short transfers; a transfer of nothing is an error. */
  method WriteAll(d: Directory, ino: nat, data: Bytes) returns (ok: bool)
    requires d.Valid() && ino in d.inodes && d.inodes[ino] == Inode([], false) && d.Aside(ino)
    modifies d
    ensures d.Unmoved(old(d.Visible()), old(d.Recoverable()), old(d.moments))
    ensures d.Aside(ino) && ino in d.inodes && d.entries == old(d.entries)
    ensures ok ==> d.inodes[ino] == Inode(data, false)
    ensures old(d.clock) <= d.clock && (!ok ==> d.Stumbled(old(d.clock), d.clock))
    ensures d.Written(old(d.clock), |data|) == if ok then Some(d.clock) else None
  {
    var total := 0;
    while total < |data|
      invariant 0 <= total <= |data|
      invariant d.Unmoved(old(d.Visible()), old(d.Recoverable()), old(d.moments))
      invariant d.Aside(ino) && ino in d.inodes && d.inodes[ino] == Inode(data[..total], false)
      invariant d.entries == old(d.entries) && old(d.clock) <= d.clock
      invariant d.Written(old(d.clock), |data|) == d.Written(d.clock, |data| - total)
    {
      var n := d.moved(d.clock);
      d.clock := d.clock + 1;
      if n <= 0 {
        assert !d.Sure(d.clock - 1);
        return false;
      }
      var upto := if n > |data| - total then |data| else total + n;
      ghost var before := d.moments;
      d.Store(ino, Inode(data[..upto], false));
      StayedOn(before, d.moments, |old(d.moments)|,
               {old(d.Visible())}, old(d.Recoverable()), {old(d.Visible())}, old(d.Recoverable()));
      total := upto;
    }
    assert data[..total] == data;
    ok := true;
  }

  /** Write and fsync a temporary file; a failure may leave its name behind. */
  method WriteTemporaryFile(d: Directory, data: Bytes) returns (ok: bool, t: Option<nat>)
    requires d.Valid()
    modifies d
    ensures d.Unmoved(old(d.Visible()), old(d.Recoverable()), old(d.moments))
    ensures ok ==> t.Some? && Complete(d, t.value, data)
    ensures var c := old(d.clock);
            var end := if d.fault(c) then None else d.Written(c + 1, |data|);
            && (ok <==> end.Some? && !d.fault(end.value)) && (ok ==> d.clock == end.value + 1)
    ensures old(d.clock) <= d.clock && (!ok ==> d.Stumbled(old(d.clock), d.clock))
  {
    ghost var seen, possible, k := {d.Visible()}, d.Recoverable(), |d.moments|;
    var failed := d.Fails();
    if failed {
      return false, None;
    }
    var ino := d.Allocate();
    var name := d.NameTemp(File(ino));
    t := Some(name);
    ghost var m1 := d.moments;
    ok := WriteAll(d, ino, data);
    StayedOn(m1, d.moments, k, seen, possible, seen, possible);
    failed := d.Fails();
    ghost var m2 := d.moments;
    ok := ok && !failed;
    if ok {
      d.Store(ino, Inode(data, true));
      StayedOn(m2, d.moments, k, seen, possible, seen, possible);
    }
  }

  /** The temporary name holds these bytes, synced. */
  ghost predicate Complete(d: Directory, t: nat, data: Bytes)
    reads d`entries, d`inodes
  {
    && Temp(t) in d.entries && d.entries[Temp(t)].File? && d.entries[Temp(t)].ino in d.inodes
    && d.inodes[d.entries[Temp(t)].ino] == Inode(data, true)
  }

  /** Everything before the rename: either the temporary file is complete and synced under the
      lock, with the prior bytes in hand, or the call is over and the destination untouched. */
  datatype Stage = Ready(t: nat, previous: Option<Bytes>) | Over(a: Answer)

  /** A failure before the rename is done: drop the temporary name. If that fails too, its error is
      what the caller sees. */
  method Abandon(d: Directory, t: Option<nat>) returns (a: Answer)
    requires d.Valid()
    modifies d
    ensures d.Unmoved(old(d.Visible()), old(d.Recoverable()), old(d.moments))
    ensures old(d.clock) <= d.clock && a == (if d.fault(old(d.clock)) then OsFailure else Unconfirmed)
  {
    var stuck := d.Fails();
    if stuck {
      return OsFailure;
    }
    if t.Some? {
      d.DropTemp(t.value);
    }
    a := Unconfirmed;
  }

  method Prepare(d: Directory, data: Bytes) returns (s: Stage)
    requires d.Valid()
    modifies d
    ensures d.Unmoved(old(d.Visible()), old(d.Recoverable()), old(d.moments))
    ensures s.Over? ==> s.a != Done
    ensures s.Ready? ==> Complete(d, s.t, data) && s.previous == d.Kept(old(d.Visible()))
    ensures d.Prepared(old(d.clock), |data|, old(d.Visible()) != Absent) == if s.Ready? then Some(d.clock) else None
    ensures old(d.clock) <= d.clock && (s.Over? ==> d.Stumbled(old(d.clock), d.clock))
  {
    s := ReadPrior(d);
    if s.Ready? {
      var previous := s.previous;
      s := WriteAside(d, data);
      if s.Ready? {
        s := Ready(s.t, previous);
      }
    }
  }

  /** A complete temporary file that can be renamed, or its name dropped again. */
  method WriteAside(d: Directory, data: Bytes) returns (s: Stage)
    requires d.Valid()
    modifies d
    ensures d.Unmoved(old(d.Visible()), old(d.Recoverable()), old(d.moments))
    ensures s.Over? ==> s.a != Done
    ensures s.Ready? ==> Complete(d, s.t, data)
    ensures d.SetAside(old(d.clock), |data|) == if s.Ready? then Some(d.clock) else None
    ensures old(d.clock) <= d.clock && (s.Over? ==> d.Stumbled(old(d.clock), d.clock))
  {
    ghost var seen, possible, k := {d.Visible()}, d.Recoverable(), |d.moments|;
    var written, t := WriteTemporaryFile(d, data);
    ghost var m := d.moments;
    var unreplaced := d.Fails();
    if !written || unreplaced {
      var a := Abandon(d, t);
      StayedOn(m, d.moments, k, seen, possible, seen, possible);
      return Over(a);
    }
    s := Ready(t.value, None);
  }

  /** Make the directory, take the lock and read the prior bytes. */
  method ReadPrior(d: Directory) returns (s: Stage)
    requires d.Valid()
    modifies d`clock
    ensures s.Over? ==> s.a != Done && d.Stumbled(old(d.clock), d.clock)
    ensures s.Ready? ==> s.previous == d.Kept(d.Visible())
    ensures var c := old(d.clock);
            && (s.Ready? <==> !d.fault(c) && !d.fault(c + 1) && !(d.Visible() != Absent && d.fault(c + 2)))
            && c <= d.clock && (s.Ready? ==> d.clock == c + 3)
  {
    assert d.Fits(d.entries);
    var unmade := d.Fails();
    var unlocked := d.Fails();
    if unmade || unlocked {
      return Over(Unconfirmed);
    }
    var unreadable := d.Fails();
    if unreadable && Dest in d.entries {
      return Over(OsFailure);
    }
    var previous := ReadDestination(d);
    s := Ready(0, previous);
  }

  /** The bytes at the destination, read through a link if it is one. */
  method ReadDestination(d: Directory) returns (previous: Option<Bytes>)
    requires d.Valid()
    ensures previous == d.Kept(d.Visible())
  {
    assert d.Fits(d.entries);
    if Dest !in d.entries {
      return None;
    }
    match d.entries[Dest]
    case File(ino) => previous := Some(d.inodes[ino].data);
    case Link(target) => previous := d.through(target);
  }

  /** The rename (or unlink) and the directory fsync that confirms it. */
  method Commit(d: Directory, entry: Option<Entry>, temp: Option<nat>,
                ghost prior: Outcome, ghost before: set<Outcome>, ghost k: nat)
    returns (confirmed: bool)
    requires d.Valid() && d.Visible() == prior && d.Recoverable() == before && k <= |d.moments|
    requires Stayed(d.moments, k, {prior}, before)
    requires entry.Some? && entry.value.File? ==>
             entry.value.ino in d.inodes && d.inodes[entry.value.ino].synced && temp.Some?
    requires temp.Some? ==> Temp(temp.value) in d.entries && entry == Some(d.entries[Temp(temp.value)])
    modifies d
    ensures old(d.moments) <= d.moments && d.inodes == old(d.inodes)
    ensures d.Visible() == OutcomeOf(entry, d.inodes) && Confined(d, k, {prior, d.Visible()}, before)
    ensures d.Recoverable() == if confirmed then {d.Visible()} else before + {d.Visible()}
    ensures d.clock == old(d.clock) + 1 && confirmed == !d.syncFault(old(d.clock))
    ensures !confirmed ==> d.Tripped(old(d.clock), d.clock)
  {
    ghost var m := d.moments;
    d.Place(entry, temp);
    ghost var next := d.Visible();
    ghost var m' := d.moments;
    confirmed := d.SyncDirectory();
    assert d.moments[..|m|] == m;
    StayedOn(m, d.moments, k, {prior}, before, {prior, next}, before + {prior, next});
    assert !confirmed ==> !d.Smooth(old(d.clock));
  }

  /** Durably write bytes. Whatever fails and wherever the host crashes, nested cleanup
      included, the destination holds the complete prior or the complete new value, or the bytes a
      prior link led to; a normal return leaves only the new one recoverable; a failure before the
      rename changes nothing; and a confirmed cleanup leaves only the restored one recoverable,
      which is the prior value exactly when that was not a link. Without a failing step the call
      returns normally; exactly which patterns of failures confirm the write and leave the cleanup open
      is stated, the latter never one failing step alone; and an open cleanup leaves the new value
      recoverable and, if bytes were kept, the prior one as well. */
  method WriteBytes(d: Directory, data: Bytes, restore: bool) returns (a: Answer, cleanup: Cleanup)
    requires d.Valid()
    modifies d
    ensures old(d.moments) <= d.moments
    ensures Confined(d, |old(d.moments)|, Outcomes(d, old(d.Visible()), Whole(data), restore), old(d.Recoverable()))
    ensures a == Done ==> d.Visible() == Whole(data) && d.Recoverable() == {Whole(data)}
    ensures a != Done && cleanup == NotNeeded ==>
            d.Visible() == old(d.Visible()) && d.Recoverable() == old(d.Recoverable())
    ensures cleanup == Confirmed ==>
            && restore && a == Unconfirmed && d.Visible() == d.Restored(old(d.Visible()))
            && d.Recoverable() == {d.Restored(old(d.Visible()))}
    ensures cleanup == Open ==>
            && a != Done && Whole(data) in d.Recoverable()
            && (!restore || d.Kept(old(d.Visible())).Some? ==> old(d.Recoverable()) <= d.Recoverable())
    ensures old(d.clock) <= d.clock && (a != Done ==> d.Tripped(old(d.clock), d.clock))
    ensures restore && cleanup == Open ==> Twice(d, old(d.clock), d.clock)
    ensures a == Done <==> d.Confirms(old(d.clock), |data|, old(d.Visible()) != Absent)
    ensures restore ==>
            (cleanup == Open <==>
             d.LeavesOpen(old(d.clock), |data|, old(d.Visible()) != Absent, d.Kept(old(d.Visible()))))
    ensures cleanup == NotNeeded && a != Done ==> d.Stumbled(old(d.clock), d.clock)
    decreases if restore then 2 else 0, 0
  {
    if restore {
      a, cleanup := WriteRestoring(d, data);
    } else {
      a, cleanup := WriteOnce(d, data);
    }
  }

  /** A write without cleanup of its own. */
  method WriteOnce(d: Directory, data: Bytes) returns (a: Answer, cleanup: Cleanup)
    requires d.Valid()
    modifies d
    ensures old(d.moments) <= d.moments && old(d.clock) <= d.clock
    ensures Confined(d, |old(d.moments)|, {old(d.Visible()), Whole(data)}, old(d.Recoverable()))
    ensures a == Done ==> d.Visible() == Whole(data) && d.Recoverable() == {Whole(data)}
    ensures cleanup != Confirmed && (cleanup == Open ==> a != Done)
    ensures a != Done && cleanup == NotNeeded ==>
            && d.Visible() == old(d.Visible()) && d.Recoverable() == old(d.Recoverable())
            && d.Stumbled(old(d.clock), d.clock)
    ensures cleanup == Open ==> d.Recoverable() == old(d.Recoverable()) + {Whole(data)}
    ensures a != Done ==> d.Tripped(old(d.clock), d.clock)
    ensures a == Done <==> d.Confirms(old(d.clock), |data|, old(d.Visible()) != Absent)
    decreases 0, 0
  {
    d.VisibleIsRecoverable();
    var s, confirmed := Attempt(d, data);
    if s.Over? {
      d.StumbledTrips(old(d.clock), d.clock);
      Untouched(d, old(d.Visible()), old(d.Recoverable()), old(d.moments), {old(d.Visible()), Whole(data)});
      return s.a, NotNeeded;
    }
    a := if confirmed then Done else Unconfirmed;
    cleanup := if confirmed then NotNeeded else Open;
  }

  lemma Untouched(d: Directory, prior: Outcome, before: set<Outcome>, moments: seq<Moment>, shown: set<Outcome>)
    requires d.Unmoved(prior, before, moments) && prior in shown && prior in before
    ensures Confined(d, |moments|, shown, before)
  {
    StayedOn(d.moments, d.moments, |moments|, {prior}, before, shown, before + shown);
  }

  /** A write that cleans up after itself. */
  method WriteRestoring(d: Directory, data: Bytes) returns (a: Answer, cleanup: Cleanup)
    requires d.Valid()
    modifies d
    ensures old(d.moments) <= d.moments && old(d.clock) <= d.clock
    ensures Confined(d, |old(d.moments)|, Outcomes(d, old(d.Visible()), Whole(data), true), old(d.Recoverable()))
    ensures a == Done ==> d.Visible() == Whole(data) && d.Recoverable() == {Whole(data)}
    ensures a != Done && cleanup == NotNeeded ==>
            && d.Visible() == old(d.Visible()) && d.Recoverable() == old(d.Recoverable())
            && d.Stumbled(old(d.clock), d.clock)
    ensures cleanup == Confirmed ==>
            && a == Unconfirmed && d.Visible() == d.Restored(old(d.Visible()))
            && d.Recoverable() == {d.Restored(old(d.Visible()))}
    ensures cleanup == Open ==>
            && a != Done && Whole(data) in d.Recoverable()
            && (d.Kept(old(d.Visible())).Some? ==> old(d.Recoverable()) <= d.Recoverable())
    ensures a != Done ==> d.Tripped(old(d.clock), d.clock)
    ensures cleanup == Open ==> Twice(d, old(d.clock), d.clock)
    ensures a == Done <==> d.Confirms(old(d.clock), |data|, old(d.Visible()) != Absent)
    ensures cleanup == Open <==>
            d.LeavesOpen(old(d.clock), |data|, old(d.Visible()) != Absent, d.Kept(old(d.Visible())))
    decreases 1, 2
  {
    ghost var prior, before, k := d.Visible(), d.Recoverable(), |d.moments|;
    ghost var shown := Outcomes(d, prior, Whole(data), true);
    var s, confirmed := AttemptShowing(d, data, shown);
    if s.Over? {
      return s.a, NotNeeded;
    }
    if confirmed {
      return Done, NotNeeded;
    }
    ghost var mid := d.clock;
    a, cleanup := Undo(d, s.previous, shown, before, k);
    d.TrippedOn(old(d.clock), mid, d.clock);
    if cleanup == Open {
      BothTrip(d, old(d.clock), mid, d.clock);
    }
  }

  /** The same attempt, seen among all that may ever be shown. */
  method AttemptShowing(d: Directory, data: Bytes, ghost shown: set<Outcome>) returns (s: Stage, confirmed: bool)
    requires d.Valid() && d.Visible() in shown && Whole(data) in shown
    modifies d
    ensures old(d.moments) <= d.moments && old(d.clock) <= d.clock
    ensures Confined(d, |old(d.moments)|, shown, old(d.Recoverable())) && old(d.Visible()) in old(d.Recoverable())
    ensures var end := d.Prepared(old(d.clock), |data|, old(d.Visible()) != Absent);
            && (s.Ready? <==> end.Some?)
            && (s.Ready? ==> d.clock == end.value + 1 && confirmed == !d.syncFault(end.value))
    ensures s.Over? ==>
            && s.a != Done && d.Stumbled(old(d.clock), d.clock)
            && d.Visible() == old(d.Visible()) && d.Recoverable() == old(d.Recoverable())
    ensures s.Ready? ==>
            && s.previous == d.Kept(old(d.Visible())) && d.Visible() == Whole(data)
            && d.Recoverable() == (if confirmed then {Whole(data)} else old(d.Recoverable()) + {Whole(data)})
    ensures s.Over? || !confirmed ==> d.Tripped(old(d.clock), d.clock)
  {
    ghost var prior, before, k := d.Visible(), d.Recoverable(), |d.moments|;
    d.VisibleIsRecoverable();
    s, confirmed := Attempt(d, data);
    if s.Over? {
      d.StumbledTrips(old(d.clock), d.clock);
      Untouched(d, prior, before, old(d.moments), shown);
    } else {
      Widened(d, k, {prior, Whole(data)}, shown, before);
    }
  }

  /** The write up to and including the directory fsync that confirms it. */
  method Attempt(d: Directory, data: Bytes) returns (s: Stage, confirmed: bool)
    requires d.Valid()
    modifies d
    ensures old(d.moments) <= d.moments && old(d.clock) <= d.clock
    ensures var c, end := old(d.clock), d.Prepared(old(d.clock), |data|, old(d.Visible()) != Absent);
            && (s.Ready? <==> end.Some?)
            && (s.Ready? ==> d.clock == end.value + 1 && confirmed == !d.syncFault(end.value))
    ensures s.Over? ==>
            && s.a != Done && d.Stumbled(old(d.clock), d.clock)
            && d.Unmoved(old(d.Visible()), old(d.Recoverable()), old(d.moments))
    ensures s.Ready? ==>
            && s.previous == d.Kept(old(d.Visible())) && d.Visible() == Whole(data)
            && Confined(d, |old(d.moments)|, {old(d.Visible()), Whole(data)}, old(d.Recoverable()))
            && d.Recoverable() == (if confirmed then {Whole(data)} else old(d.Recoverable()) + {Whole(data)})
            && (!confirmed ==> d.Tripped(old(d.clock), d.clock))
  {
    ghost var prior, before, k := d.Visible(), d.Recoverable(), |d.moments|;
    s := Prepare(d, data);
    confirmed := false;
    if s.Ready? {
      confirmed := Commit(d, Some(d.entries[Temp(s.t)]), Some(s.t), prior, before, k);
    }
  }

  /** All a write may ever show: the prior value, the new one and, when it cleans up, what it puts
      back. */
  ghost function Outcomes(d: Directory, prior: Outcome, next: Outcome, restore: bool): set<Outcome> {
    {prior, next} + if restore then {d.Restored(prior)} else {}
  }

  lemma Widened(d: Directory, k: nat, shown: set<Outcome>, wider: set<Outcome>, before: set<Outcome>)
    requires Confined(d, k, shown, before) && shown <= wider && k <= |d.moments|
    ensures Confined(d, k, wider, before)
  {
    StayedOn(d.moments, d.moments, k, shown, before + shown, wider, before + wider);
  }

  /** The fail-closed cleanup of an unconfirmed write: put the kept bytes back, or remove the
      unconfirmed entry. Only a durability error of the nested call is swallowed, and the call
      fails either way. */
  method Undo(d: Directory, previous: Option<Bytes>, ghost shown: set<Outcome>, ghost before: set<Outcome>,
              ghost k: nat)
    returns (a: Answer, cleanup: Cleanup)
    requires Confined(d, k, shown, before) && k <= |d.moments|
    requires (if previous.Some? then Whole(previous.value) else Absent) in shown
    modifies d
    ensures old(d.moments) <= d.moments && Confined(d, k, shown, before)
    ensures a != Done && cleanup != NotNeeded && (cleanup == Confirmed ==> a == Unconfirmed)
    ensures cleanup == Confirmed ==>
            var back := if previous.Some? then Whole(previous.value) else Absent;
            d.Visible() == back && d.Recoverable() == {back}
    ensures cleanup == Open ==>
            old(d.Visible()) in d.Recoverable() && (previous.Some? ==> old(d.Recoverable()) <= d.Recoverable())
    ensures old(d.clock) <= d.clock && (cleanup == Open ==> d.Tripped(old(d.clock), d.clock))
    ensures cleanup == Confirmed <==>
            if previous.Some? then d.Confirms(old(d.clock), |previous.value|, old(d.Visible()) != Absent)
            else d.Removes(old(d.clock), old(d.Visible()).Whole?)
    decreases 1, 1
  {
    d.VisibleIsRecoverable();
    if previous.Some? {
      a, cleanup := Reinstate(d, previous.value, shown, before, k);
    } else {
      ghost var m, now := d.moments, d.Visible();
      ghost var reach := d.Recoverable();
      var nested, _ := Remove(d);
      StayedOn(m, d.moments, k, shown, before + shown, shown, before + shown);
      cleanup := if nested == Done then Confirmed else Open;
      a := if nested == OsFailure then OsFailure else Unconfirmed;
    }
  }

  /** Everything before the unlink of a removal; only a regular file's bytes are kept. */
  method PrepareRemoval(d: Directory) returns (s: Stage)
    requires d.Valid()
    modifies d`clock
    ensures old(d.clock) <= d.clock && (s.Over? ==> s.a != Done && d.Stumbled(old(d.clock), d.clock))
    ensures s.Ready? ==> s.previous == if d.Visible().Whole? then Some(d.Visible().data) else None
    ensures var c := old(d.clock);
            && (s.Ready? <==> !d.fault(c) && !(d.Visible().Whole? && d.fault(c + 1)) && !d.fault(c + 2))
            && (s.Ready? ==> d.clock == c + 3)
  {
    var unlocked := d.Fails();
    if unlocked {
      return Over(Unconfirmed);
    }
    var unreadable := d.Fails();
    if unreadable && Dest in d.entries && d.entries[Dest].File? {
      return Over(OsFailure);
    }
    assert d.Fits(d.entries);
    var previous := if Dest in d.entries && d.entries[Dest].File?
                    then Some(d.inodes[d.entries[Dest].ino].data) else None;
    var stuck := d.Fails();
    s := if stuck then Over(Unconfirmed) else Ready(0, previous);
  }

  /** Durably remove the destination, restoring a regular file whose removal was not
      confirmed. */
  method Remove(d: Directory) returns (a: Answer, cleanup: Cleanup)
    requires d.Valid()
    modifies d
    ensures old(d.moments) <= d.moments
    ensures Confined(d, |old(d.moments)|, {old(d.Visible()), Absent}, old(d.Recoverable()))
    ensures a == Done ==> d.Visible() == Absent && d.Recoverable() == {Absent}
    ensures a != Done && cleanup == NotNeeded ==>
            d.Visible() == old(d.Visible()) && d.Recoverable() == old(d.Recoverable())
    ensures cleanup == Confirmed ==>
            a == Unconfirmed && d.Visible() == old(d.Visible()) && d.Recoverable() == {old(d.Visible())}
    ensures cleanup == Open ==> a != Done && old(d.Recoverable()) + {Absent} <= d.Recoverable()
    ensures old(d.clock) <= d.clock && (a != Done ==> d.Tripped(old(d.clock), d.clock))
    ensures cleanup == Open && old(d.Visible()).Whole? ==> Twice(d, old(d.clock), d.clock)
    ensures a == Done <==> d.Removes(old(d.clock), old(d.Visible()).Whole?)
    decreases 1, 0
  {
    ghost var prior, before, k := d.Visible(), d.Recoverable(), |d.moments|;
    d.VisibleIsRecoverable();
    var s := PrepareRemoval(d);
    if s.Over? {
      d.StumbledTrips(old(d.clock), d.clock);
      return s.a, NotNeeded;
    }
    var confirmed := Commit(d, None, None, prior, before, k);
    if confirmed {
      return Done, NotNeeded;
    }
    if s.previous.None? {
      return Unconfirmed, Open;
    }
    ghost var mid := d.clock;
    a, cleanup := Reinstate(d, s.previous.value, {prior, Absent}, before, k);
    if cleanup == Open {
      BothTrip(d, old(d.clock), mid, d.clock);
    }
  }

  /** Put kept bytes back over an unconfirmed change. */
  method Reinstate(d: Directory, bytes: Bytes, ghost shown: set<Outcome>, ghost before: set<Outcome>, ghost k: nat)
    returns (a: Answer, cleanup: Cleanup)
    requires Confined(d, k, shown, before) && k <= |d.moments| && Whole(bytes) in shown
    modifies d
    ensures old(d.moments) <= d.moments && Confined(d, k, shown, before)
    ensures a != Done && cleanup != NotNeeded && (cleanup == Confirmed ==> a == Unconfirmed)
    ensures cleanup == Confirmed ==> d.Visible() == Whole(bytes) && d.Recoverable() == {Whole(bytes)}
    ensures cleanup == Open ==> old(d.Recoverable()) <= d.Recoverable()
    ensures old(d.clock) <= d.clock && (cleanup == Open ==> d.Tripped(old(d.clock), d.clock))
    ensures cleanup == Confirmed <==> d.Confirms(old(d.clock), |bytes|, old(d.Visible()) != Absent)
    decreases 0, 1
  {
    ghost var m := d.moments;
    ghost var now := d.Visible();
    ghost var reach := d.Recoverable();
    var nested, _ := WriteOnce(d, bytes);
    StayedOn(m, d.moments, k, shown, before + shown, shown, before + shown);
    cleanup := if nested == Done then Confirmed else Open;
    a := if nested == OsFailure then OsFailure else Unconfirmed;
  }

  /** The prior entry of a switch: a link's target, or a regular file's bytes. */
  method SnapshotEntry(d: Directory) returns (s: Stage, previous: Option<Entry>)
    requires d.Valid()
    modifies d`clock
    ensures d.Visible() == OutcomeOf(previous, d.inodes)
    ensures old(d.clock) <= d.clock && (s.Over? ==> s.a != Done && d.Stumbled(old(d.clock), d.clock))
    ensures s.Ready? ==> s.previous == if d.Visible().Whole? then Some(d.Visible().data) else None
    ensures var c := old(d.clock);
            s.Ready? <==> !d.fault(c) && !d.fault(c + 1) && !(previous.Some? && d.fault(c + 2)) && !d.fault(c + 3)
  {
    previous := if Dest in d.entries then Some(d.entries[Dest]) else None;
    assert d.Fits(d.entries);
    var unmade := d.Fails();
    var unlocked := d.Fails();
    if unmade || unlocked {
      return Over(Unconfirmed), previous;
    }
    var unreadable := d.Fails();
    if unreadable && Dest in d.entries {
      return Over(OsFailure), previous;
    }
    var uncreated := d.Fails();
    if uncreated {
      return Over(Unconfirmed), previous;
    }
    s := Ready(0, if previous.Some? && previous.value.File? then Some(d.inodes[previous.value.ino].data) else None);
  }

  /** Everything before a symlink switch's rename. */
  method PrepareLink(d: Directory, target: string) returns (s: Stage, previous: Option<Entry>)
    requires d.Valid()
    modifies d
    ensures d.Unmoved(old(d.Visible()), old(d.Recoverable()), old(d.moments))
    ensures s.Over? ==> s.a != Done
    ensures s.Ready? ==> Temp(s.t) in d.entries && d.entries[Temp(s.t)] == Link(target)
    ensures s.Ready? ==> old(d.Visible()) == OutcomeOf(previous, d.inodes)
    ensures s.Ready? ==>
            s.previous == if old(d.Visible()).Whole? then Some(old(d.Visible()).data) else None
    ensures old(d.clock) <= d.clock && (s.Over? ==> d.Stumbled(old(d.clock), d.clock))
  {
    ghost var seen, possible, k := {d.Visible()}, d.Recoverable(), |d.moments|;
    s, previous := SnapshotEntry(d);
    if s.Over? {
      return;
    }
    var bytes := s.previous;
    var t := d.NameTemp(Link(target));
    ghost var m := d.moments;
    var unreplaced := d.Fails();
    if unreplaced {
      var a := Abandon(d, Some(t));
      StayedOn(m, d.moments, k, seen, possible, seen, possible);
      return Over(a), previous;
    }
    s := Ready(t, bytes);
  }

  /** Durably switch the destination to a symlink. A prior regular file is put back by the
      nested byte write, which first reads through the new link; that read may fail. */
  method WriteSymlink(d: Directory, target: string, restore: bool) returns (a: Answer, cleanup: Cleanup)
    requires d.Valid()
    modifies d
    ensures old(d.moments) <= d.moments
    ensures Confined(d, |old(d.moments)|, {old(d.Visible()), Points(target)}, old(d.Recoverable()))
    ensures a == Done ==> d.Visible() == Points(target) && d.Recoverable() == {Points(target)}
    ensures a != Done && cleanup == NotNeeded ==>
            d.Visible() == old(d.Visible()) && d.Recoverable() == old(d.Recoverable())
    ensures cleanup == Confirmed ==>
            restore && a == Unconfirmed && d.Visible() == old(d.Visible()) && d.Recoverable() == {old(d.Visible())}
    ensures cleanup == Open ==>
            && a != Done && Points(target) in d.Recoverable()
            && (!restore || old(d.Visible()) != Absent ==> old(d.Recoverable()) <= d.Recoverable())
    ensures old(d.clock) <= d.clock && (a != Done ==> d.Tripped(old(d.clock), d.clock))
    ensures restore && cleanup == Open ==> Twice(d, old(d.clock), d.clock)
    decreases if restore then 2 else 0, 0
  {
    ghost var prior, before, k := d.Visible(), d.Recoverable(), |d.moments|;
    d.VisibleIsRecoverable();
    var s, previous := PrepareLink(d, target);
    if s.Over? {
      d.StumbledTrips(old(d.clock), d.clock);
      return s.a, NotNeeded;
    }
    var confirmed := Commit(d, Some(Link(target)), Some(s.t), prior, before, k);
    if confirmed {
      return Done, NotNeeded;
    }
    if !restore {
      return Unconfirmed, Open;
    }
    ghost var mid := d.clock;
    a, cleanup := UndoSwitch(d, previous, s.previous, {prior, Points(target)}, before, k);
    if cleanup == Open {
      BothTrip(d, old(d.clock), mid, d.clock);
    }
  }

  /** The cleanup of an unconfirmed switch: a prior link is switched back, anything else undone as for
      a write. */
  method UndoSwitch(
    d: Directory, previous: Option<Entry>, bytes: Option<Bytes>, ghost shown: set<Outcome>, ghost before: set<Outcome>,
    ghost k: nat)
    returns (a: Answer, cleanup: Cleanup)
    requires Confined(d, k, shown, before) && k <= |d.moments| && PutBack(previous, bytes) in shown
    modifies d
    ensures old(d.moments) <= d.moments && Confined(d, k, shown, before)
    ensures a != Done && cleanup != NotNeeded && (cleanup == Confirmed ==> a == Unconfirmed)
    ensures cleanup == Confirmed ==>
              d.Visible() == PutBack(previous, bytes) && d.Recoverable() == {PutBack(previous, bytes)}
    ensures cleanup == Open ==>
            && old(d.Visible()) in d.Recoverable()
            && (PutBack(previous, bytes) != Absent ==> old(d.Recoverable()) <= d.Recoverable())
    ensures old(d.clock) <= d.clock && (cleanup == Open ==> d.Tripped(old(d.clock), d.clock))
    decreases 1, 2
  {
    d.VisibleIsRecoverable();
    if previous.Some? && previous.value.Link? {
      ghost var m := d.moments;
      ghost var now := d.Visible();
      ghost var reach := d.Recoverable();
      var nested, _ := WriteSymlink(d, previous.value.target, false);
      StayedOn(m, d.moments, k, shown, before + shown, shown, before + shown);
      cleanup := if nested == Done then Confirmed else Open;
      a := if nested == OsFailure then OsFailure else Unconfirmed;
    } else {
      a, cleanup := Undo(d, bytes, shown, before, k);
    }
  }

  /** What an undone switch leaves: the prior link, the kept bytes, or nothing. */
  function PutBack(previous: Option<Entry>, bytes: Option<Bytes>): Outcome {
    match previous
    case Some(Link(target)) => Points(target)
    case _ => if bytes.Some? then Whole(bytes.value) else Absent
  }

  /** Two failing directory fsyncs are enough: after them a crash may leave the prior or the new value,
      whatever the two are. */
  method TwoFailedSyncs(prior: Bytes, next: Bytes) returns (d: Directory)
    ensures d.Recoverable() == {Whole(prior), Whole(next)}
  {
    d := new Directory.Holding(prior, (n: nat) => false, (n: nat) => true, (n: nat) => 1, (t: string) => None);
    ghost var c := d.clock;
    assert forall n :: d.Sure(n) && d.syncFault(n);
    d.OnlySyncsLeaveOpen(c, |next|, true, Some(prior));
    var _, cleanup := WriteBytes(d, next, true);
    assert cleanup == Open;
  }

  /** A failed write over a link does not put the link back: with one failing directory fsync and a
      confirmed cleanup the destination is durably a regular file with what the link led to. */
  method LinkBecomesFile(target: string, bytes: Bytes) returns (d: Directory)
    ensures d.Visible() == Whole(bytes) && d.Recoverable() == {Whole(bytes)}
  {
    d := new Directory.Pointing(target, (n: nat) => false, (n: nat) => n == 6, (n: nat) => 1,
                                (t: string) => Some(bytes));
    assert forall n :: d.Sure(n) && (!d.Smooth(n) ==> n == 6);
    var a, cleanup := WriteBytes(d, [], true);
    assert cleanup != Open;
  }
}
