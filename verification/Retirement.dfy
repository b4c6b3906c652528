/** Retiring a recorded worker: when may its replacement be started?
    Models process_absence_proven, identity_matches, _worker_retirement_state, stop_worker and
    their waits in src/lubko/lifecycle.py. */
module Retirement {
  import opened Common
  import opened ProcessTable
  import opened Kernel
  import opened ExactSignal

  /** The process identity recorded in worker metadata. */
  datatype Meta = Meta(pid: Option<nat>, pgid: Option<nat>, sid: Option<nat>, ticks: Option<nat>, token: Option<string>)

  predicate IdentityMatches(meta: Meta, pid: nat, id: Identity) {
    && meta.pid == Some(pid)
    && meta.ticks == Some(id.ticks)
    && (meta.pgid.Some? ==> meta.pgid.value == id.pgid)
    && (meta.sid.Some? ==> meta.sid.value == id.sid)
  }

  /** The metadata describes this instance as it is now. */
  predicate Names(meta: Meta, i: Instance) { IdentityMatches(meta, i.pid, Identity(i.pgid, i.sid, i.ticks)) }

  ghost predicate Gone(t: Table, x: nat) { x in t.instances && t.instances[x].life != Running }

  /** What the caller can check before the call: the metadata names the instance exactly, and
      the instance does not change group or session. */
  ghost predicate Trustworthy(h: Host, meta: Meta, x: nat, since: nat)
    reads h`past
    requires since < |h.past|
  {
    x in h.past[since].instances && Names(meta, h.past[since].instances[x]) && Steady(h.env, x)
  }

  /** Reading another start time, group or session from a trustworthy worker's number proves
      that worker gone. */
  lemma MismatchMeansGone(h: Host, meta: Meta, x: nat, since: nat, at: nat)
    requires h.Valid() && since <= at < |h.past| && Trustworthy(h, meta, x, since)
    requires var pid := meta.pid.value;
             pid in h.past[at].slots ==>
               h.past[at].slots[pid] in h.past[at].instances &&
               var p := h.past[at].instances[h.past[at].slots[pid]];
               || Some(p.ticks) != meta.ticks
               || (meta.pgid.Some? && p.pgid != meta.pgid.value)
               || (meta.sid.Some? && p.sid != meta.sid.value)
    ensures Gone(h.table, x)
  {
    var now := |h.past| - 1;
    assert Later(h.past[since], h.past[at]) && Later(h.past[at], h.past[now]);
    assert Same(h.past[since].instances[x], h.past[at].instances[x]);
    assert KeepsGroup(h.past, x) && GroupKept(h.past[since], h.past[at], x);
    assert Wf(h.past[at]);
    RecycledMeansReaped(h.past[at], h.past[now], x);
  }

  lemma TrustLasts(h: Host, meta: Meta, x: nat, since: nat, at: nat)
    requires h.Valid() && since <= at < |h.past| && Trustworthy(h, meta, x, since)
    ensures Trustworthy(h, meta, x, at)
  {
    assert Later(h.past[since], h.past[at]);
    assert Same(h.past[since].instances[x], h.past[at].instances[x]);
    assert KeepsGroup(h.past, x) && GroupKept(h.past[since], h.past[at], x);
  }

  /** Once gone, gone at every later instant. */
  lemma GoneLasts(h: Host, x: nat, at: nat)
    requires h.Valid() && at < |h.past| && Gone(h.past[at], x)
    ensures Gone(h.table, x)
  {
    assert Later(h.past[at], h.past[|h.past| - 1]);
    assert Same(h.past[at].instances[x], h.table.instances[x]);
  }

  /** There is no such number, or its entry can be read and shows a dead occupant or another start time. */
  ghost predicate Absent(t: Table, pid: nat, ticks: Option<nat>, readable: bool) {
    || pid !in t.slots
    || (readable && t.slots[pid] in t.instances
        && (!Alive(t, t.slots[pid]) || (ticks.Some? && t.instances[t.slots[pid]].ticks != ticks.value)))
  }

  /** Positive absence only, as it is at the instant of the read: no such number, a dead occupant, or
      another start time. An unreadable entry proves nothing. */
  method AbsenceProven(h: Host, pid: nat, ticks: Option<nat>, ghost x: nat) returns (r: bool)
    requires h.Valid()
    modifies h`table, h`clock, h`past
    ensures h.Valid() && h.past == old(h.past) + [h.table] && (old(h.Quiet()) ==> h.table == old(h.table))
    ensures r <==> Absent(h.table, pid, ticks, !h.blocked(old(h.clock)))
    ensures (r && x in old(h.table).instances && old(h.table).instances[x].pid == pid
             && (ticks.Some? ==> ticks.value == old(h.table).instances[x].ticks))
            ==> Gone(h.table, x)
  {
    var s := h.Stat(pid);
    ghost var now := |h.past| - 1;
    if x in old(h.table).instances && old(h.table).instances[x].pid == pid {
      assert Later(h.past[now - 1], h.past[now]);
      assert Same(old(h.table).instances[x], h.table.instances[x]);
      assert Wf(h.past[now]) && Seated(h.table, x);
    }
    match s {
      case Missing => r := true;
      case Unreadable => r := false;
      case Found(life, observed, _) => r := life != Running || (ticks.Some? && observed != ticks.value);
    }
  }

  /** Who is not absent runs. */
  lemma PresentRuns(h: Host, meta: Meta, x: nat, since: nat)
    requires h.Valid() && since < |h.past| && Recorded(h.past[since], meta, x)
    requires !Absent(h.table, meta.pid.value, meta.ticks, true)
    ensures Alive(h.table, x)
  {
    var now := |h.past| - 1;
    assert Later(h.past[since], h.past[now]);
    assert Same(h.past[since].instances[x], h.past[now].instances[x]);
    assert Wf(h.past[now]) && SlotSound(h.table, meta.pid.value);
    assert ProcessTable.Distinct(h.table, x, h.table.slots[meta.pid.value]);
  }

  /** The metadata names this running instance. */
  ghost predicate NamedLive(t: Table, meta: Meta, x: nat) { Alive(t, x) && Names(meta, t.instances[x]) }

  /** Read the identity under the recorded number or, without one, look for proof of absence. Whatever
      disagrees with the metadata proves a trustworthy worker gone; as long as no read fails, whatever
      does not means that the recorded instance was running during the call. */
  method Observe(h: Host, meta: Meta, ghost x: nat, ghost since: nat) returns (id: Option<Identity>, absent: bool)
    requires h.Valid() && since < |h.past| && meta.pid.Some?
    modifies h`table, h`clock, h`past
    ensures h.Valid() && old(h.past) <= h.past && (old(h.Quiet()) ==> h.table == old(h.table))
    ensures h.clock > old(h.clock)
    ensures Trustworthy(h, meta, x, since)
            && (if id.None? then absent else !IdentityMatches(meta, meta.pid.value, id.value))
            ==> Gone(h.table, x)
    ensures (Recorded(old(h.table), meta, x)
             && (if id.None? then !absent && h.Clean(old(h.clock)) else Some(id.value.ticks) == meta.ticks))
            ==> RanSince(h.past, |old(h.past)|, x)
    ensures old(h.Quiet()) && Alive(old(h.table), x) && meta.pid == Some(old(h.table).instances[x].pid) ==>
            var p := old(h.table).instances[x]; id == Some(Identity(p.pgid, p.sid, p.ticks))
  {
    ghost var before := |h.past| - 1;
    SeatedNow(h, x);
    ghost var alive, timed, grouped, sessioned;
    id, alive, timed, grouped, sessioned := h.ProcessIdentity(meta.pid.value);
    absent := false;
    if id.None? {
      TrustSince(h, meta, x, since, |h.past| - 1);
      absent := AbsenceProven(h, meta.pid.value, meta.ticks, x);
      if !absent && Recorded(old(h.table), meta, x) && h.Clean(old(h.clock)) {
        assert !h.blocked(h.clock - 1);
        PresentRuns(h, meta, x, before);
      }
    } else if Some(id.value.ticks) == meta.ticks && Recorded(old(h.table), meta, x) {
      RecordedWasAlive(h, meta, x, before, alive, timed);
    }
    if id.Some? && !IdentityMatches(meta, meta.pid.value, id.value) && Trustworthy(h, meta, x, since) {
      MismatchMeansGone(h, meta, x, since,
        if Some(id.value.ticks) != meta.ticks then timed
        else if meta.pgid.Some? && meta.pgid.value != id.value.pgid then grouped else sessioned);
    }
  }

  /** True: positively gone or its number reused; false: exactly alive; none: unknown. As long as no read
      fails, anything but true means that the recorded instance was running during the call. */
  method RetirementState(h: Host, meta: Meta, ghost x: nat, ghost since: nat) returns (r: Option<bool>)
    requires h.Valid() && since < |h.past|
    modifies h`table, h`clock, h`past
    ensures h.Valid() && old(h.past) <= h.past && (old(h.Quiet()) ==> h.table == old(h.table))
    ensures r == Some(true) && Trustworthy(h, meta, x, since) ==> Gone(h.table, x)
    ensures r != Some(true) && h.Clean(old(h.clock)) && Recorded(old(h.table), meta, x) ==>
              RanSince(h.past, |old(h.past)|, x)
    ensures old(h.Quiet()) && NamedLive(old(h.table), meta, x) ==> r == Some(false)
    ensures if meta.pid.None? then r == Some(true) else h.clock > old(h.clock)
  {
    if meta.pid.None? {
      return Some(true);
    }
    var id, absent := Observe(h, meta, x, since);
    if id.None? {
      return if absent then Some(true) else None;
    }
    if IdentityMatches(meta, meta.pid.value, id.value) {
      return Some(false);
    }
    r := if meta.ticks.Some? && id.value.ticks != meta.ticks.value then Some(true) else None;
  }

  lemma RecordedOn(h: Host, meta: Meta, x: nat, since: nat)
    requires h.Valid() && since < |h.past|
    ensures Recorded(h.past[since], meta, x) ==> Recorded(h.table, meta, x)
  {
    assert Later(h.past[since], h.past[|h.past| - 1]);
    if x in h.past[since].instances { assert Same(h.past[since].instances[x], h.table.instances[x]); }
  }

  /** The recorded instance runs no more. */
  ghost predicate Retired(t: Table, meta: Meta, x: nat) { Recorded(t, meta, x) && Gone(t, x) }

  lemma NeverRuns(h: Host, meta: Meta, x: nat, since: nat, from: nat)
    requires h.Valid() && since <= from && since < |h.past|
    ensures Retired(h.past[since], meta, x) ==> !RanSince(h.past, from, x)
  {
    if Retired(h.past[since], meta, x) {
      forall a | from <= a < |h.past| ensures !Alive(h.past[a], x) {
        assert Later(h.past[since], h.past[a]);
        assert Same(h.past[since].instances[x], h.past[a].instances[x]);
      }
    }
  }

  /** Poll for positive retirement proof; the last poll is made after the deadline. */
  method WaitForRetirement(h: Host, meta: Meta, polls: nat, ghost x: nat, ghost since: nat) returns (r: bool)
    requires h.Valid() && since < |h.past|
    modifies h`table, h`clock, h`past
    ensures h.Valid() && old(h.past) <= h.past && (old(h.Quiet()) ==> h.table == old(h.table))
    ensures r && Trustworthy(h, meta, x, since) ==> Gone(h.table, x)
    ensures !r && h.Clean(old(h.clock)) && Recorded(old(h.table), meta, x) ==>
              RanSince(h.past, |old(h.past)|, x)
    ensures old(h.Quiet()) && NamedLive(old(h.table), meta, x) ==> !r
  {
    var n := polls;
    while n > 0
      invariant h.Valid() && old(h.past) <= h.past && (old(h.Quiet()) ==> h.table == old(h.table))
    {
      var state := RetirementState(h, meta, x, since);
      if state == Some(true) {
        return true;
      }
      n := n - 1;
    }
    RecordedOn(h, meta, x, |old(h.past)| - 1);
    var last := RetirementState(h, meta, x, since);
    r := last == Some(true);
  }

  /** One poll: of a worker retired since `start` it is positive, and on an idle host never of a live named
      one. */
  method Poll(h: Host, meta: Meta, ghost x: nat, ghost since: nat, ghost start: nat) returns (gone: bool)
    requires h.Valid() && since < |h.past| && start < |h.past|
    modifies h`table, h`clock, h`past
    ensures h.Valid() && old(h.past) <= h.past && (old(h.Quiet()) ==> h.table == old(h.table))
    ensures gone && Trustworthy(h, meta, x, since) ==> Gone(h.table, x)
    ensures h.Clean(old(h.clock)) && Retired(h.past[start], meta, x) ==> gone
    ensures old(h.Quiet()) && NamedLive(old(h.table), meta, x) ==> !gone
    ensures !gone ==> h.clock > old(h.clock)
  {
    RecordedOn(h, meta, x, start);
    var state := RetirementState(h, meta, x, since);
    NeverRuns(h, meta, x, start, |old(h.past)|);
    gone := state == Some(true);
  }

  /** Wait until the worker is gone, or its drain sentinel appears and it is then gone; no worker is given up
      before all polls are made. */
  method WaitForDrain(h: Host, meta: Meta, polls: nat, sentinel: nat -> bool, ghost x: nat, ghost since: nat)
    returns (r: bool)
    requires h.Valid() && since < |h.past|
    modifies h`table, h`clock, h`past
    ensures h.Valid() && old(h.past) <= h.past && (old(h.Quiet()) ==> h.table == old(h.table))
    ensures r && Trustworthy(h, meta, x, since) ==> Gone(h.table, x)
    ensures old(h.Quiet()) && NamedLive(old(h.table), meta, x) ==> !r
    ensures polls > 0 && h.Clean(old(h.clock)) && Retired(old(h.table), meta, x) ==> r
    ensures !r ==> h.clock >= old(h.clock) + polls
  {
    ghost var start := |h.past| - 1;
    var n := polls;
    r := false;
    while n > 0 && !r
      invariant h.Valid() && old(h.past) <= h.past && (old(h.Quiet()) ==> h.table == old(h.table))
      invariant r && Trustworthy(h, meta, x, since) ==> Gone(h.table, x)
      invariant old(h.Quiet()) && NamedLive(old(h.table), meta, x) ==> !r
      invariant n < polls && h.Clean(old(h.clock)) && Retired(old(h.table), meta, x) ==> r
      invariant n <= polls && (!r ==> h.clock >= old(h.clock) + polls - n)
    {
      r := Poll(h, meta, x, since, start);
      if !r && meta.token.Some? && sentinel(n) {
        r := WaitDrained(h, meta, n, x, since, start);
        return;
      }
      n := n - 1;
    }
  }

  /** Once it has drained, wait until the worker is gone too. */
  method WaitDrained(h: Host, meta: Meta, polls: nat, ghost x: nat, ghost since: nat, ghost start: nat)
    returns (r: bool)
    requires h.Valid() && since < |h.past| && start < |h.past| && polls > 0
    modifies h`table, h`clock, h`past
    ensures h.Valid() && old(h.past) <= h.past && (old(h.Quiet()) ==> h.table == old(h.table))
    ensures r && Trustworthy(h, meta, x, since) ==> Gone(h.table, x)
    ensures old(h.Quiet()) && NamedLive(old(h.table), meta, x) ==> !r
    ensures h.Clean(old(h.clock)) && Retired(h.past[start], meta, x) ==> r
    ensures !r ==> h.clock >= old(h.clock) + polls
  {
    var n := polls;
    r := false;
    while n > 0 && !r
      invariant h.Valid() && old(h.past) <= h.past && (old(h.Quiet()) ==> h.table == old(h.table))
      invariant r && Trustworthy(h, meta, x, since) ==> Gone(h.table, x)
      invariant old(h.Quiet()) && NamedLive(old(h.table), meta, x) ==> !r
      invariant n < polls && h.Clean(old(h.clock)) && Retired(h.past[start], meta, x) ==> r
      invariant n <= polls && (!r ==> h.clock >= old(h.clock) + polls - n)
    {
      r := Poll(h, meta, x, since, start);
      n := n - 1;
    }
  }

  /** The signals logged from `start` on: termination of proven members of the group up to `split`, kills
      of such members from there on, and none without a token. */
  ghost predicate Escalation(
    past: seq<Table>, from: nat, log: seq<Delivery>, start: nat, split: nat, pgid: nat, token: Option<string>)
  {
    && start <= split <= |log|
    && (if token.None? then |log| == start
        else AllOwned(past, from, log[..split], start, 15, pgid, token.value)
             && AllOwned(past, from, log, split, 9, pgid, token.value))
  }

  /** The instance was running after the last termination signal and before the first kill. */
  ghost predicate RanBetween(past: seq<Table>, log: seq<Delivery>, start: nat, split: nat, x: nat) {
    exists a :: 0 <= a < |past| && Alive(past[a], x) && Between(log, start, split, a)
  }

  ghost predicate Between(log: seq<Delivery>, start: nat, split: nat, a: nat) {
    && (forall i :: start <= i < split && i < |log| ==> log[i].at <= a)
    && (forall i :: split <= i < |log| ==> a <= log[i].at)
  }

  lemma AllOwnedLater(past: seq<Table>, more: seq<Table>, from: nat, earlier: nat, log: seq<Delivery>, start: nat,
                      sig: int, pgid: nat, token: string)
    requires AllOwned(past, from, log, start, sig, pgid, token) && past <= more && earlier <= from
    ensures AllOwned(more, earlier, log, start, sig, pgid, token)
  {
    forall i | start <= i < |log| ensures log[i].sig == sig && Owned(more, earlier, log[i], pgid, token) {
      OwnedOn(past, more, from, earlier, log[i], pgid, token);
    }
  }

  /** Ask the group to drain and wait. */
  method Drain(h: Host, meta: Meta, pgid: nat, candidates: seq<nat>, polls: nat, sentinel: nat -> bool,
               ghost x: nat, ghost since: nat)
    returns (r: bool)
    requires h.Valid() && since < |h.past| && meta.token.Some?
    modifies h
    ensures h.Valid() && old(h.past) <= h.past && old(h.log) <= h.log
    ensures r && Trustworthy(h, meta, x, since) ==> Gone(h.table, x)
    ensures AllOwned(h.past, |old(h.past)|, h.log, |old(h.log)|, 15, pgid, meta.token.value)
    ensures old(h.Quiet()) ==>
            && h.table == old(h.table) && (NamedLive(h.table, meta, x) ==> !r)
            && AllReached(h.table, candidates, h.log, |old(h.log)|, pgid, meta.token.value)
  {
    var _ := SignalExactGroup(h, pgid, 15, meta.token, candidates);
    ghost var past := h.past;
    r := WaitForDrain(h, meta, polls, sentinel, x, since);
    AllOwnedLater(past, h.past, |old(h.past)|, |old(h.past)|, h.log, |old(h.log)|, 15, pgid, meta.token.value);
  }

  /** Kill what is left of the group and wait. */
  method KillGroup(h: Host, meta: Meta, pgid: nat, candidates: seq<nat>, polls: nat, ghost x: nat, ghost since: nat)
    returns (r: bool)
    requires h.Valid() && since < |h.past| && meta.token.Some?
    modifies h
    ensures h.Valid() && old(h.past) <= h.past && old(h.log) <= h.log
    ensures r && Trustworthy(h, meta, x, since) ==> Gone(h.table, x)
    ensures AllOwned(h.past, |old(h.past)|, h.log, |old(h.log)|, 9, pgid, meta.token.value)
    ensures old(h.Quiet()) ==> h.table == old(h.table)
    ensures old(h.Quiet()) && NamedLive(h.table, meta, x) ==>
            !r && AllReached(h.table, candidates, h.log, |old(h.log)|, pgid, meta.token.value)
  {
    var _ := SignalExactGroup(h, pgid, 9, meta.token, candidates);
    ghost var past := h.past;
    r := WaitForRetirement(h, meta, polls, x, since);
    AllOwnedLater(past, h.past, |old(h.past)|, |old(h.past)|, h.log, |old(h.log)|, 9, pgid, meta.token.value);
  }

  /** Kill what is left of the group, unless the worker is gone by now. */
  method Kill(h: Host, meta: Meta, pgid: nat, candidates: seq<nat>, polls: nat, ghost x: nat, ghost since: nat)
    returns (r: bool)
    requires h.Valid() && since < |h.past| && meta.token.Some?
    modifies h
    ensures h.Valid() && old(h.past) <= h.past && old(h.log) <= h.log
    ensures r && Trustworthy(h, meta, x, since) ==> Gone(h.table, x)
    ensures AllOwned(h.past, |old(h.past)|, h.log, |old(h.log)|, 9, pgid, meta.token.value)
    ensures h.log != old(h.log) && h.Clean(old(h.clock)) && Recorded(old(h.table), meta, x) ==>
              RanBefore(h.past, |old(h.past)|, h.log, |old(h.log)|, x)
    ensures h.Clean(old(h.clock)) && Retired(old(h.table), meta, x) ==> r && h.log == old(h.log)
    ensures old(h.Quiet()) && NamedLive(h.table, meta, x) ==>
            !r && AllReached(h.table, candidates, h.log, |old(h.log)|, pgid, meta.token.value)
    ensures old(h.Quiet()) ==> h.table == old(h.table)
  {
    var state := RetirementState(h, meta, x, since);
    NeverRuns(h, meta, x, |old(h.past)| - 1, |old(h.past)|);
    if state == Some(true) {
      return true;
    }
    ghost var seen, clean := h.past, h.Clean(old(h.clock));
    ghost var ran := RanSince(seen, |old(h.past)|, x);
    assert clean && Recorded(old(h.table), meta, x) ==> ran;
    assert Retired(old(h.table), meta, x) ==> !ran;
    r := KillGroup(h, meta, pgid, candidates, polls, x, since);
    assert h.Clean(old(h.clock)) ==> clean;
    AllOwnedLater(h.past, h.past, |seen|, |old(h.past)|, h.log, |old(h.log)|, 9, pgid, meta.token.value);
    if ran {
      RanBeforeOn(seen, h.past, h.past, |old(h.past)|, h.log, |old(h.log)|, pgid, meta.token.value, x);
    }
  }

  /** The instance was running at some instant from `from` on and before every signal since `start`. */
  ghost predicate RanBefore(past: seq<Table>, from: nat, log: seq<Delivery>, start: nat, x: nat) {
    exists a :: from <= a < |past| && Alive(past[a], x) && Between(log, start, start, a)
  }

  lemma RanBeforeOn(seen: seq<Table>, past: seq<Table>, more: seq<Table>, from: nat, log: seq<Delivery>, start: nat,
                    pgid: nat, token: string, x: nat)
    requires RanSince(seen, from, x) && seen <= past <= more && AllOwned(past, |seen|, log, start, 9, pgid, token)
    ensures RanBefore(more, from, log, start, x)
  {
    var a :| from <= a < |seen| && Alive(seen[a], x);
    assert more[a] == seen[a];
    assert Between(log, start, start, a);
  }

  /** Terminate the group and wait for the drain; failing that, kill. */
  method DrainOrKill(h: Host, meta: Meta, pgid: nat, candidates: seq<seq<nat>>, polls: (nat, nat),
                     sentinel: nat -> bool, ghost x: nat, ghost since: nat)
    returns (r: bool, ghost split: nat)
    requires h.Valid() && since < |h.past| && meta.token.Some? && |candidates| == 2
    modifies h
    ensures h.Valid() && old(h.past) <= h.past && old(h.log) <= h.log
    ensures r && Trustworthy(h, meta, x, since) ==> Gone(h.table, x)
    ensures Escalation(h.past, |old(h.past)|, h.log, |old(h.log)|, split, pgid, meta.token)
    ensures split < |h.log| && h.Clean(old(h.clock)) && Recorded(old(h.table), meta, x) ==>
              RanBetween(h.past, h.log, |old(h.log)|, split, x)
    ensures old(h.Quiet()) ==> h.table == old(h.table)
    ensures old(h.Quiet()) && NamedLive(old(h.table), meta, x) ==>
            && !r && AllReached(h.table, candidates[0], h.log[..split], |old(h.log)|, pgid, meta.token.value)
            && AllReached(h.table, candidates[1], h.log, split, pgid, meta.token.value)
  {
    r := Drain(h, meta, pgid, candidates[0], polls.0, sentinel, x, since);
    split := |h.log|;
    ghost var drained, terms := h.past, h.log;
    assert h.log[..split] == terms;
    if !r {
      RecordedOn(h, meta, x, |old(h.past)| - 1);
      r := Kill(h, meta, pgid, candidates[1], polls.1, x, since);
      assert h.log[..split] == terms;
    }
    Escalates(drained, h.past, |old(h.past)|, terms, h.log, |old(h.log)|, pgid, meta.token.value, x);
  }

  /** Prove the token under the pin, and only then signal. */
  method DrainAndKill(h: Host, meta: Meta, pgid: nat, candidates: seq<seq<nat>>, polls: (nat, nat),
                      sentinel: nat -> bool, ghost x: nat, ghost since: nat)
    returns (r: bool, ghost split: nat)
    requires h.Valid() && since < |h.past| && meta.pid.Some? && |candidates| == 2
    modifies h
    ensures h.Valid() && old(h.past) <= h.past && old(h.log) <= h.log
    ensures r && Trustworthy(h, meta, x, since) ==> Gone(h.table, x)
    ensures Escalation(h.past, |old(h.past)|, h.log, |old(h.log)|, split, pgid, meta.token)
    ensures split < |h.log| && h.Clean(old(h.clock)) && Recorded(old(h.table), meta, x) ==>
              RanBetween(h.past, h.log, |old(h.log)|, split, x)
    ensures old(h.Quiet()) && NamedLive(old(h.table), meta, x) ==>
            !r && h.table == old(h.table) && Addressed(h.table, meta, x, pgid, candidates, h.log, |old(h.log)|, split)
  {
    split := |h.log|;
    SeatedNow(h, x);
    var carries := false;
    if meta.token.Some? {
      assert h.Quiet() ==> !h.blocked(h.clock);
      carries := h.HasToken(meta.pid.value, meta.token.value);
    }
    assert h.log[..split] == h.log;
    if !carries {
      return false, split;
    }
    ghost var proven := |h.past|;
    RecordedOn(h, meta, x, |old(h.past)| - 1);
    r, split := DrainOrKill(h, meta, pgid, candidates, polls, sentinel, x, since);
    EscalationOn(h.past, proven, |old(h.past)|, h.log, |old(h.log)|, split, pgid, meta.token);
  }

  /** What a live named worker on an idle host gets: nothing unless it carries the token; else every owned
      candidate is terminated and, as the worker does not go, killed. */
  ghost predicate Addressed(t: Table, meta: Meta, x: nat, pgid: nat, candidates: seq<seq<nat>>,
                            log: seq<Delivery>, start: nat, split: nat)
    requires x in t.instances && |candidates| == 2
  {
    if meta.token.None? || t.instances[x].token != meta.token then |log| == start
    else
      && split <= |log|
      && AllReached(t, candidates[0], log[..split], start, pgid, meta.token.value)
      && AllReached(t, candidates[1], log, split, pgid, meta.token.value)
  }

  lemma Escalates(drained: seq<Table>, past: seq<Table>, from: nat, terms: seq<Delivery>, log: seq<Delivery>,
                  start: nat, pgid: nat, token: string, x: nat)
    requires drained <= past && terms <= log && start <= |terms| && from <= |drained|
    requires AllOwned(drained, from, terms, start, 15, pgid, token)
    requires AllOwned(past, |drained|, log, |terms|, 9, pgid, token)
    ensures Escalation(past, from, log, start, |terms|, pgid, Some(token))
    ensures RanBefore(past, |drained|, log, |terms|, x) ==> RanBetween(past, log, start, |terms|, x)
  {
    assert log[..|terms|] == terms;
    AllOwnedLater(drained, past, from, from, terms, start, 15, pgid, token);
    AllOwnedLater(past, past, |drained|, from, log, |terms|, 9, pgid, token);
    if RanBefore(past, |drained|, log, |terms|, x) {
      var a :| |drained| <= a < |past| && Alive(past[a], x) && Between(log, |terms|, |terms|, a);
      forall i | start <= i < |terms| ensures log[i].at <= a {
        assert log[i] == terms[i] && Owned(drained, from, terms[i], pgid, token);
      }
      assert Between(log, start, |terms|, a);
    }
  }

  lemma NoSignals(past: seq<Table>, from: nat, log: seq<Delivery>, pgid: nat, token: Option<string>)
    ensures Escalation(past, from, log, |log|, |log|, pgid, token)
  {
    assert log[..|log|] == log;
  }

  /** Drain and escalate under the leader pin. */
  method StopPinned(h: Host, meta: Meta, candidates: seq<seq<nat>>, polls: (nat, nat), sentinel: nat -> bool,
                    ghost x: nat, ghost from: nat)
    returns (r: bool, ghost pgid: nat, ghost split: nat)
    requires h.Valid() && meta.pid.Some? && |candidates| == 2 && from <= |h.past|
    modifies h
    ensures h.Valid() && old(h.past) <= h.past && old(h.log) <= h.log
    ensures r && Trustworthy(h, meta, x, |old(h.past)| - 1) ==> Gone(h.table, x)
    ensures old(h.Quiet()) && Misnamed(old(h.table), meta, x) ==> r && h.table == old(h.table)
    ensures h.Clean(old(h.clock)) && Retired(old(h.table), meta, x) ==> r && h.log == old(h.log)
    ensures Escalation(h.past, from, h.log, |old(h.log)|, split, pgid, meta.token)
    ensures meta.pgid.Some? && h.log != old(h.log) ==> pgid == meta.pgid.value
    ensures split < |h.log| && h.Clean(old(h.clock)) && Recorded(old(h.table), meta, x) ==>
              RanBetween(h.past, h.log, |old(h.log)|, split, x)
    ensures old(h.Quiet()) && NamedLive(old(h.table), meta, x) ==>
            && !r && h.table == old(h.table) && pgid == h.table.instances[x].pgid
            && Addressed(h.table, meta, x, pgid, candidates, h.log, |old(h.log)|, split)
  {
    pgid, split := 0, |h.log|;
    ghost var since := |h.past| - 1;
    var id, absent := Observe(h, meta, x, since);
    NeverRuns(h, meta, x, since, |old(h.past)|);
    NoSignals(h.past, from, h.log, pgid, meta.token);
    if id.None? {
      return absent, pgid, split;
    }
    if !IdentityMatches(meta, meta.pid.value, id.value) {
      return true, pgid, split;
    }
    pgid := id.value.pgid;
    RecordedOn(h, meta, x, since);
    ghost var known := h.past;
    r, split := DrainAndKill(h, meta, id.value.pgid, candidates, polls, sentinel, x, since);
    EscalationOn(h.past, |known|, from, h.log, |old(h.log)|, split, pgid, meta.token);
  }

  lemma EscalationOn(past: seq<Table>, from: nat, earlier: nat, log: seq<Delivery>, start: nat, split: nat, pgid: nat,
                     token: Option<string>)
    requires Escalation(past, from, log, start, split, pgid, token) && earlier <= from
    ensures Escalation(past, earlier, log, start, split, pgid, token)
  {
    if token.Some? {
      AllOwnedLater(past, past, from, earlier, log[..split], start, 15, pgid, token.value);
      AllOwnedLater(past, past, from, earlier, log, split, 9, pgid, token.value);
    }
  }

  /** Of a retired worker every read that succeeds is proof. */
  lemma RetiredIsAbsent(h: Host, meta: Meta, x: nat, since: nat)
    requires h.Valid() && since < |h.past|
    ensures Retired(h.past[since], meta, x) ==> Absent(h.table, meta.pid.value, meta.ticks, true)
  {
    if Retired(h.past[since], meta, x) && !Absent(h.table, meta.pid.value, meta.ticks, true) {
      PresentRuns(h, meta, x, since);
      GoneLasts(h, x, since);
    }
  }

  /** A live instance under the recorded number that the metadata does not name. */
  ghost predicate Misnamed(t: Table, meta: Meta, x: nat) {
    Alive(t, x) && meta.pid == Some(t.instances[x].pid) && !Names(meta, t.instances[x])
  }

  /** Stop the recorded worker. For every timing of exits, reuse of numbers and unreadable entries:
      - a positive answer means the recorded instance is gone, provided the metadata names it exactly and
        it keeps its group and session; the proviso is exact: whatever happens before the pin, if the
        host is idle from then on the answer is positive for every live worker that the metadata
        does not name at the pin;
      - a recorded worker gone at the pin is called stopped, without a signal, as long as no call fails;
      - every signal is a termination of a proven member of the group, or after those a kill of one,
        and before the kills, if no call fails, the recorded worker was seen running;
      - a live named worker on a host idle from the pin on is not called stopped, and gets no signal
        unless it carries the token. */
  method StopWorker(h: Host, meta: Meta, candidates: seq<seq<nat>>, polls: (nat, nat), sentinel: nat -> bool,
                    ghost x: nat)
    returns (r: bool, ghost pgid: nat, ghost split: nat)
    requires h.Valid() && |candidates| == 2
    modifies h
    ensures h.Valid() && old(h.past) <= h.past && old(h.log) <= h.log
    ensures r && Trustworthy(h, meta, x, |old(h.past)| - 1) ==> Gone(h.table, x)
    ensures var pinned := HappenAll(old(h.table), h.env(old(h.clock)));
            h.Calms() && h.calm <= old(h.clock) + 1 && !h.blocked(old(h.clock)) && Misnamed(pinned, meta, x) ==>
              r && h.table == pinned
    ensures h.Clean(old(h.clock)) && Retired(HappenAll(old(h.table), h.env(old(h.clock))), meta, x) ==>
              r && h.log == old(h.log)
    ensures meta.pid.None? ==> r && h.log == old(h.log)
    ensures Escalation(h.past, |old(h.past)|, h.log, |old(h.log)|, split, pgid, meta.token)
    ensures meta.pgid.Some? && h.log != old(h.log) ==> pgid == meta.pgid.value
    ensures split < |h.log| && h.Clean(old(h.clock)) && Recorded(old(h.table), meta, x) ==>
              RanBetween(h.past, h.log, |old(h.log)|, split, x)
    ensures var pinned := HappenAll(old(h.table), h.env(old(h.clock)));
            h.Calms() && h.calm <= old(h.clock) + 1 && !h.blocked(old(h.clock)) && NamedLive(pinned, meta, x) ==>
              && !r && h.table == pinned && pgid == h.table.instances[x].pgid
              && Addressed(h.table, meta, x, pgid, candidates, h.log, |old(h.log)|, split)
  {
    pgid, split := 0, |h.log|;
    NoSignals(h.past, |h.past|, h.log, pgid, meta.token);
    if meta.pid.None? {
      return true, pgid, split;
    }
    ghost var since := |h.past| - 1;
    var pin := h.OpenPidfd(meta.pid.value);
    TrustSince(h, meta, x, since, |h.past| - 1);
    RecordedOn(h, meta, x, since);
    if pin.None? {
      SeatedNow(h, x);
      r := StopUnpinned(h, meta, x);
      NoSignals(h.past, |old(h.past)|, h.log, pgid, meta.token);
      return;
    }
    assert h.Calms() && h.calm <= old(h.clock) + 1 ==> h.Quiet();
    r, pgid, split := StopPinned(h, meta, candidates, polls, sentinel, x, |old(h.past)|);
  }

  /** Without a pin only positive absence counts. */
  method StopUnpinned(h: Host, meta: Meta, ghost x: nat) returns (r: bool)
    requires h.Valid() && meta.pid.Some?
    modifies h`table, h`clock, h`past
    ensures h.Valid() && h.past == old(h.past) + [h.table] && h.clock == old(h.clock) + 1
    ensures r && Trustworthy(h, meta, x, |old(h.past)| - 1) ==> Gone(h.table, x)
    ensures !h.blocked(old(h.clock)) && Retired(old(h.table), meta, x) ==> r
  {
    r := AbsenceProven(h, meta.pid.value, meta.ticks, x);
    RetiredIsAbsent(h, meta, x, |old(h.past)| - 1);
  }

  lemma TrustSince(h: Host, meta: Meta, x: nat, since: nat, at: nat)
    requires h.Valid() && since <= at < |h.past|
    ensures Trustworthy(h, meta, x, since) ==> Trustworthy(h, meta, x, at)
  {
    if Trustworthy(h, meta, x, since) {
      TrustLasts(h, meta, x, since, at);
    }
  }

  lemma SeatedNow(h: Host, x: nat)
    requires h.Valid()
    ensures Seated(h.table, x)
  {
    assert Wf(h.past[|h.past| - 1]);
  }

  /** Recover's test that an obligation's instance is gone. When its one read succeeds a positive
      answer is proof; a read that fails on a live worker is answered positively as well. */
  method ObligationInstanceGone(h: Host, pid: Option<nat>, ticks: Option<nat>, ghost x: nat) returns (r: bool)
    requires h.Valid()
    modifies h`table, h`clock, h`past
    ensures h.Valid() && old(h.past) <= h.past && old(h.clock) <= h.clock
    ensures (r && h.Clean(old(h.clock)) && x in old(h.table).instances
             && pid == Some(old(h.table).instances[x].pid)
             && (ticks.Some? ==> ticks.value == old(h.table).instances[x].ticks))
            ==> Gone(h.table, x)
    ensures pid.Some? && h.blocked(old(h.clock)) ==> r
    ensures pid.None? ==> !r
    ensures pid.Some? && !h.blocked(old(h.clock)) ==>
            (r <==> pid.value in h.table.slots && h.table.slots[pid.value] in h.table.instances ==>
                      ticks.Some? && h.table.instances[h.table.slots[pid.value]].ticks != ticks.value)
  {
    if pid.None? {
      return false;
    }
    var s := h.Stat(pid.value);
    var observed := if s.Found? then Some(s.ticks) else None;
    r := if ticks.None? then observed.None? else observed != ticks;
    if x in old(h.table).instances && pid == Some(old(h.table).instances[x].pid) {
      ghost var now := |h.past| - 1;
      assert Later(h.past[now - 1], h.past[now]);
      assert Same(old(h.table).instances[x], h.table.instances[x]);
      assert Wf(h.past[now]) && Seated(h.table, x);
    }
  }

  /** The metadata records the instance's number and start time. */
  ghost predicate Recorded(t: Table, meta: Meta, x: nat) {
    x in t.instances && meta.pid == Some(t.instances[x].pid) && meta.ticks == Some(t.instances[x].ticks)
  }

  /** A live occupant, and later the recorded start time, under a number that the recorded instance held
      from the beginning: the live occupant was that instance. */
  lemma RecordedWasAlive(h: Host, meta: Meta, x: nat, since: nat, alive: nat, timed: nat)
    requires h.Valid() && since <= alive <= timed < |h.past| && Recorded(h.past[since], meta, x)
    requires var pid := meta.pid.value;
             && pid in h.past[alive].slots && Alive(h.past[alive], h.past[alive].slots[pid])
             && pid in h.past[timed].slots && h.past[timed].slots[pid] in h.past[timed].instances
             && Some(h.past[timed].instances[h.past[timed].slots[pid]].ticks) == meta.ticks
    ensures Alive(h.past[alive], x)
  {
    var pid := meta.pid.value;
    assert Later(h.past[since], h.past[timed]) && Later(h.past[since], h.past[alive])
      && Later(h.past[alive], h.past[timed]);
    assert Same(h.past[since].instances[x], h.past[timed].instances[x]);
    assert Same(h.past[since].instances[x], h.past[alive].instances[x]);
    assert Wf(h.past[timed]) && SlotSound(h.past[timed], pid);
    assert Distinct(h.past[timed], x, h.past[timed].slots[pid]);
    assert Wf(h.past[alive]) && Seated(h.past[alive], x);
    assert Same(h.past[alive].instances[x], h.past[timed].instances[x]);
  }

  /** Whether the recorded worker is alive and ours. A positive answer means that the instance the
      metadata records was running at some instant of the call; a negative one proves it gone as far
      as no read failed, the metadata names it and it kept its group, session and token. */
  method WorkerAlive(h: Host, meta: Meta, ghost x: nat) returns (r: bool)
    requires h.Valid()
    modifies h`table, h`clock, h`past
    ensures h.Valid() && old(h.past) <= h.past && old(h.clock) <= h.clock
    ensures (!r && h.Clean(old(h.clock)) && Trustworthy(h, meta, x, |old(h.past)| - 1)
             && (forall a :: |old(h.past)| <= a < |h.past| && x in h.past[a].instances ==>
                   meta.token.Some? ==> h.past[a].instances[x].token == meta.token))
            ==> Gone(h.table, x)
    ensures r && Recorded(old(h.table), meta, x) ==> RanSince(h.past, |old(h.past)|, x)
    ensures r ==> meta.pid.Some? && (meta.token.Some? ==> Carries(h.table, meta.pid.value, meta.token))
  {
    if meta.pid.None? {
      return false;
    }
    ghost var since := |h.past| - 1;
    r := IdentityHolds(h, meta, x);
    if !r || meta.token.None? {
      return;
    }
    ghost var past := h.past;
    r := TokenHolds(h, meta, x, since, old(h.clock));
    if RanSince(past, |old(h.past)|, x) {
      RanOn(past, h.past, |old(h.past)|, x);
    }
  }

  /** The number's occupant carries this token. */
  ghost predicate Carries(t: Table, pid: nat, token: Option<string>) {
    pid in t.slots && t.slots[pid] in t.instances && t.instances[t.slots[pid]].token == token
  }

  /** Whether the environment of the recorded number carries the recorded token. */
  method TokenHolds(h: Host, meta: Meta, ghost x: nat, ghost since: nat, ghost from: nat) returns (r: bool)
    requires h.Valid() && meta.pid.Some? && meta.token.Some? && since < |h.past| && from <= h.clock
    modifies h`table, h`clock, h`past
    ensures h.Valid() && h.past == old(h.past) + [h.table]
    ensures r ==> Carries(h.table, meta.pid.value, meta.token)
    ensures (!r && h.Clean(from) && Trustworthy(h, meta, x, since)
             && (x in h.table.instances ==> h.table.instances[x].token == meta.token))
            ==> Gone(h.table, x)
  {
    r := h.HasToken(meta.pid.value, meta.token.value);
    if !r && h.Clean(from) && Trustworthy(h, meta, x, since) {
      ghost var now := |h.past| - 1;
      assert !h.blocked(h.clock - 1);
      assert Later(h.past[since], h.past[now]);
      assert Same(h.past[since].instances[x], h.past[now].instances[x]);
      assert Wf(h.past[now]) && Seated(h.table, x);
    }
  }

  lemma RanOn(past: seq<Table>, more: seq<Table>, from: nat, x: nat)
    requires RanSince(past, from, x) && past <= more
    ensures RanSince(more, from, x)
  {
    var a :| from <= a < |past| && Alive(past[a], x);
    assert more[a] == past[a];
  }

  /** Whether a live process has the recorded identity. */
  method IdentityHolds(h: Host, meta: Meta, ghost x: nat) returns (r: bool)
    requires h.Valid() && meta.pid.Some?
    modifies h`table, h`clock, h`past
    ensures h.Valid() && old(h.past) <= h.past && old(h.clock) <= h.clock
    ensures !r && h.Clean(old(h.clock)) && Trustworthy(h, meta, x, |old(h.past)| - 1) ==> Gone(h.table, x)
    ensures r && Recorded(old(h.table), meta, x) ==> RanSince(h.past, |old(h.past)|, x)
  {
    ghost var since := |h.past| - 1;
    var pid := meta.pid.value;
    var id, alive, timed, grouped, sessioned := h.ProcessIdentity(pid);
    if id.None? {
      if h.Clean(old(h.clock)) && Trustworthy(h, meta, x, since) {
        NotAliveMeansGone(h, meta, x, since, alive);
      }
      return false;
    }
    r := IdentityMatches(meta, pid, id.value);
    if !r && Trustworthy(h, meta, x, since) {
      MismatchMeansGone(h, meta, x, since,
        if Some(id.value.ticks) != meta.ticks then timed
        else if meta.pgid.Some? && meta.pgid.value != id.value.pgid then grouped else sessioned);
    }
    if r && Recorded(old(h.table), meta, x) {
      RecordedWasAlive(h, meta, x, since, alive, timed);
    }
  }

  lemma NotAliveMeansGone(h: Host, meta: Meta, x: nat, since: nat, at: nat)
    requires h.Valid() && since <= at < |h.past| && Trustworthy(h, meta, x, since)
    requires meta.pid.value in h.past[at].slots ==> !Alive(h.past[at], h.past[at].slots[meta.pid.value])
    ensures Gone(h.table, x)
  {
    assert Later(h.past[since], h.past[at]);
    assert Same(h.past[since].instances[x], h.past[at].instances[x]);
    assert Wf(h.past[at]) && Seated(h.past[at], x);
    GoneLasts(h, x, at);
  }

  ghost predicate NamedAtFirst(h: Host, meta: Meta, x: nat)
    reads h`past
  {
    h.past != [] && x in h.past[0].instances && Names(meta, h.past[0].instances[x])
  }

  /** The worker must keep its group: one the metadata names, moved to another group before the pin,
      is called stopped although it runs on. */
  method RegroupDeceives(pid: nat, ticks: nat, group: nat, other: nat, token: string) returns (h: Host, r: bool)
    requires group != other
    ensures r && Alive(h.table, 0)
            && NamedAtFirst(h, Meta(Some(pid), Some(group), Some(pid), Some(ticks), Some(token)), 0)
  {
    var meta := Meta(Some(pid), Some(group), Some(pid), Some(ticks), Some(token));
    var table := Table(map[0 := Instance(pid, ticks, group, pid, Some(token), Running)], map[pid := 0]);
    var moves: seq<Event> := [Regroup(0, other, pid)];
    assert Wf(table) by {
      forall p ensures SlotSound(table, p) {}
      forall i ensures Seated(table, i) {}
      forall i, j ensures ProcessTable.Distinct(table, i, j) {}
    }
    h := new Host(table, (n: nat) => if n == 0 then moves else [], (n: nat) => false, 1);
    ghost var pinned := table.(instances := map[0 := Instance(pid, ticks, other, pid, Some(token), Running)]);
    assert moves[..0] == [];
    assert HappenAll(table, moves[..0]) == table;
    assert HappenAll(table, moves) == pinned;
    ghost var pgid, split;
    r, pgid, split := StopWorker(h, meta, [[], []], (0, 0), (n: nat) => false, 0);
    assert h.past[0] == table;
  }
}
