/** Signalling by pinned identity: pin, re-prove under the pin, deliver through the pin.
    Models _signal_exact_group, _signal_pinned_anchor and _converge_unproven_spawn in
    src/lubko/lifecycle.py and _pinned_snapshot_process_live in src/lubko/health.py. */
module ExactSignal {
  import opened Common
  import opened ProcessTable
  import opened Kernel

  /** The instance a signal reached was seen, at two instants of the call before the delivery,
      running in the recorded group and carrying the token. */
  ghost predicate Owned(past: seq<Table>, from: nat, d: Delivery, pgid: nat, token: string) {
    exists a, b :: from <= a <= b <= d.at < |past| && OwnedAt(past, a, b, d, pgid, token)
  }

  ghost predicate OwnedAt(past: seq<Table>, a: nat, b: nat, d: Delivery, pgid: nat, token: string)
    requires a < |past| && b < |past|
  {
    && Alive(past[a], d.target) && past[a].instances[d.target].pgid == pgid
    && d.target in past[b].instances && past[b].instances[d.target].token == Some(token)
  }

  lemma OwnedOn(past: seq<Table>, more: seq<Table>, from: nat, earlier: nat, d: Delivery, pgid: nat, token: string)
    requires Owned(past, from, d, pgid, token) && past <= more && earlier <= from
    ensures Owned(more, earlier, d, pgid, token)
  {
    var a, b :| from <= a <= b <= d.at < |past| && OwnedAt(past, a, b, d, pgid, token);
    assert more[a] == past[a] && more[b] == past[b];
    assert OwnedAt(more, a, b, d, pgid, token);
  }

  /** A pinned instance still unreaped now occupied its number at every instant since the pin. */
  lemma Pinned(h: Host, x: nat, pid: nat, since: nat, a: nat)
    requires h.Valid() && since <= a < |h.past|
    requires pid in h.past[since].slots && h.past[since].slots[pid] == x && Unreaped(h.table, x)
    ensures pid in h.past[a].slots && h.past[a].slots[pid] == x && x in h.past[a].instances
    ensures h.past[a].instances[x].pid == pid == h.table.instances[x].pid
    ensures h.past[a].instances[x].ticks == h.table.instances[x].ticks
  {
    var now := |h.past| - 1;
    assert Wf(h.past[since]) && SlotSound(h.past[since], pid);
    assert Later(h.past[since], h.past[a]) && Later(h.past[a], h.past[now]);
    assert Same(h.past[since].instances[x], h.past[a].instances[x]);
    assert Same(h.past[a].instances[x], h.past[now].instances[x]);
    assert Wf(h.past[a]);
    PinHolds(h.past[a], h.past[now], x);
  }

  /** The number was the instance's at every instant from `from` on. */
  ghost predicate OccupiedSince(past: seq<Table>, from: nat, pid: nat, x: nat) {
    forall a :: from <= a < |past| ==> pid in past[a].slots && past[a].slots[pid] == x
  }

  /** The number's occupant is running and started then. */
  ghost predicate RunsAs(t: Table, pid: nat, ticks: nat) {
    pid in t.slots && Alive(t, t.slots[pid]) && t.instances[t.slots[pid]].ticks == ticks
  }

  /** The instance was running at some instant from `from` on. */
  ghost predicate RanSince(past: seq<Table>, from: nat, x: nat) {
    exists a :: from <= a < |past| && Alive(past[a], x)
  }

  lemma PinnedSince(h: Host, x: nat, pid: nat, since: nat)
    requires h.Valid() && since < |h.past|
    requires pid in h.past[since].slots && h.past[since].slots[pid] == x && Unreaped(h.table, x)
    ensures OccupiedSince(h.past, since, pid, x)
  {
    forall a | since <= a < |h.past| ensures pid in h.past[a].slots && h.past[a].slots[pid] == x {
      Pinned(h, x, pid, since, a);
    }
  }

  /** What was read of the number under the pin was read of the pinned instance. */
  lemma DeliveredOwned(h: Host, d: Delivery, pid: nat, since: nat, a: nat, b: nat, pgid: nat, token: string)
    requires h.Valid() && since <= a <= b < d.at < |h.past| && Unreaped(h.table, d.target)
    requires pid in h.past[since].slots && h.past[since].slots[pid] == d.target
    requires pid in h.past[a].slots && Alive(h.past[a], h.past[a].slots[pid])
    requires h.past[a].instances[h.past[a].slots[pid]].pgid == pgid
    requires pid in h.past[b].slots && h.past[b].slots[pid] in h.past[b].instances
    requires h.past[b].instances[h.past[b].slots[pid]].token == Some(token)
    ensures OwnedAt(h.past, a, b, d, pgid, token)
  {
    Pinned(h, d.target, pid, since, a);
    Pinned(h, d.target, pid, since, b);
  }

  /** The number's occupant runs in the group and carries the token. */
  ghost predicate OwnedNow(t: Table, pid: nat, pgid: nat, token: string) {
    && pid in t.slots && Alive(t, t.slots[pid])
    && t.instances[t.slots[pid]].pgid == pgid && t.instances[t.slots[pid]].token == Some(token)
  }

  /** Read a number's group, then its token; the ghost results are the two instants. */
  method ProveMember(h: Host, pid: nat, pgid: nat, token: string) returns (ok: bool, ghost a: nat, ghost b: nat)
    requires h.Valid()
    modifies h`table, h`clock, h`past
    ensures h.Valid() && old(h.past) <= h.past
    ensures ok ==>
            && |old(h.past)| <= a <= b == |h.past| - 1
            && pid in h.past[a].slots && Alive(h.past[a], h.past[a].slots[pid])
            && h.past[a].instances[h.past[a].slots[pid]].pgid == pgid
            && pid in h.past[b].slots && h.past[b].slots[pid] in h.past[b].instances
            && h.past[b].instances[h.past[b].slots[pid]].token == Some(token)
    ensures old(h.Quiet()) ==> h.table == old(h.table) && (OwnedNow(h.table, pid, pgid, token) ==> ok)
  {
    ok, a, b := false, 0, 0;
    var group := h.ProcessPgrp(pid);
    if group != Some(pgid) {
      return;
    }
    a := |h.past| - 1;
    assert old(h.Quiet()) ==> !h.blocked(h.clock);
    var carries := h.HasToken(pid, token);
    b := |h.past| - 1;
    ok := carries;
  }

  /** One candidate: pin it, re-prove group and token under the pin, deliver through the pin. On an
      otherwise idle host exactly the owned candidates are reached. */
  method SignalMember(h: Host, pid: nat, pgid: nat, sig: int, token: string) returns (ok: bool)
    requires h.Valid()
    modifies h
    ensures h.Valid() && old(h.past) <= h.past
    ensures !ok ==> h.log == old(h.log)
    ensures ok ==> |h.log| == |old(h.log)| + 1 && h.log[..|old(h.log)|] == old(h.log)
    ensures ok ==> var d := h.log[|old(h.log)|];
                   d.sig == sig && Owned(h.past, |old(h.past)|, d, pgid, token)
    ensures old(h.Quiet()) ==>
            && h.table == old(h.table) && (OwnedNow(h.table, pid, pgid, token) ==> ok)
            && (ok ==> pid in h.table.slots && h.log[|old(h.log)|].target == h.table.slots[pid])
  {
    var pin := h.OpenPidfd(pid);
    if pin.None? {
      return false;
    }
    ghost var pinned := |h.past| - 1;
    assert Wf(h.past[pinned]) && SlotSound(h.table, pid);
    var proven, a, b := ProveMember(h, pid, pgid, token);
    if !proven {
      return false;
    }
    assert Later(h.past[pinned], h.past[b]);
    ok := h.SendSignal(pin.value, sig);
    if ok {
      DeliveredOwned(h, h.log[|old(h.log)|], pid, pinned, a, b, pgid, token);
    }
  }

  /** Every signal logged from `start` on was proven owned within the call. */
  ghost predicate AllOwned(past: seq<Table>, from: nat, log: seq<Delivery>, start: nat,
                           sig: int, pgid: nat, token: string) {
    forall i :: start <= i < |log| ==> log[i].sig == sig && Owned(past, from, log[i], pgid, token)
  }

  lemma AllOwnedOn(past: seq<Table>, more: seq<Table>, from: nat, log: seq<Delivery>, longer: seq<Delivery>,
                   start: nat, sig: int, pgid: nat, token: string)
    requires AllOwned(past, from, log, start, sig, pgid, token) && past <= more && from <= |past|
    requires log <= longer && |longer| <= |log| + 1
    requires |longer| > |log| ==> longer[|log|].sig == sig && Owned(more, |past|, longer[|log|], pgid, token)
    ensures AllOwned(more, from, longer, start, sig, pgid, token)
  {
    forall i | start <= i < |longer|
      ensures longer[i].sig == sig && Owned(more, from, longer[i], pgid, token)
    {
      if i < |log| {
        assert longer[i] == log[i];
        OwnedOn(past, more, from, from, longer[i], pgid, token);
      } else {
        OwnedOn(more, more, |past|, from, longer[i], pgid, token);
      }
    }
  }

  ghost predicate Delivered(log: seq<Delivery>, start: nat, x: nat) {
    exists i :: start <= i < |log| && log[i].target == x
  }

  /** Every owned candidate got a signal. */
  ghost predicate AllReached(t: Table, candidates: seq<nat>, log: seq<Delivery>, start: nat, pgid: nat, token: string) {
    forall pid :: pid in candidates && OwnedNow(t, pid, pgid, token) ==> Delivered(log, start, t.slots[pid])
  }

  lemma AllReachedOn(t: Table, candidates: seq<nat>, n: nat, log: seq<Delivery>, longer: seq<Delivery>,
                     start: nat, pgid: nat, token: string)
    requires n < |candidates| && start <= |log| && log <= longer
    requires AllReached(t, candidates[..n], log, start, pgid, token)
    requires OwnedNow(t, candidates[n], pgid, token) ==>
               |longer| == |log| + 1 && longer[|log|].target == t.slots[candidates[n]]
    ensures AllReached(t, candidates[..n + 1], longer, start, pgid, token)
  {
    forall pid | pid in candidates[..n + 1] && OwnedNow(t, pid, pgid, token)
      ensures Delivered(longer, start, t.slots[pid])
    {
      if pid in candidates[..n] {
        var i :| start <= i < |log| && log[i].target == t.slots[pid];
        assert longer[i] == log[i];
      } else {
        assert pid == candidates[n];
      }
    }
  }

  /** Signal every provably owned member of a group, from any candidate list however stale.
      Whatever exits and whatever numbers are recycled in between, each delivered signal reached
      an instance proven to be in the group and to carry the token during this very call; and on
      an otherwise idle host every owned candidate is reached. */
  method SignalExactGroup(h: Host, pgid: nat, sig: int, token: Option<string>, candidates: seq<nat>)
    returns (attempted: bool)
    requires h.Valid()
    modifies h
    ensures h.Valid() && old(h.past) <= h.past && old(h.log) <= h.log
    ensures attempted <==> |h.log| > |old(h.log)|
    ensures token.None? ==> !attempted
    ensures token.Some? ==>
            AllOwned(h.past, |old(h.past)|, h.log, |old(h.log)|, sig, pgid, token.value)
    ensures old(h.Quiet()) ==> h.table == old(h.table)
    ensures old(h.Quiet()) && token.Some? ==>
            AllReached(h.table, candidates, h.log, |old(h.log)|, pgid, token.value)
  {
    attempted := false;
    if token.None? {
      return;
    }
    for n := 0 to |candidates|
      invariant h.Valid() && old(h.past) <= h.past && old(h.log) <= h.log
      invariant attempted <==> |h.log| > |old(h.log)|
      invariant AllOwned(h.past, |old(h.past)|, h.log, |old(h.log)|, sig, pgid, token.value)
      invariant old(h.Quiet()) ==> h.table == old(h.table)
      invariant old(h.Quiet()) ==> AllReached(h.table, candidates[..n], h.log, |old(h.log)|, pgid, token.value)
    {
      ghost var past, log := h.past, h.log;
      var ok := SignalMember(h, candidates[n], pgid, sig, token.value);
      if ok {
        attempted := true;
      }
      AllOwnedOn(past, h.past, |old(h.past)|, log, h.log, |old(h.log)|, sig, pgid, token.value);
      if old(h.Quiet()) {
        AllReachedOn(h.table, candidates, n, log, h.log, |old(h.log)|, pgid, token.value);
      }
    }
    assert candidates[..|candidates|] == candidates;
  }

  /** Every signal logged from `start` on reached an instance with this number and start time. */
  ghost predicate Reached(t: Table, log: seq<Delivery>, start: nat, pid: nat, ticks: nat) {
    forall i :: start <= i < |log| ==>
      && log[i].target in t.instances
      && t.instances[log[i].target].pid == pid && t.instances[log[i].target].ticks == ticks
  }

  lemma ReachedOn(t: Table, later: Table, log: seq<Delivery>, start: nat, pid: nat, ticks: nat)
    requires Reached(t, log, start, pid, ticks) && Later(t, later)
    ensures Reached(later, log, start, pid, ticks)
  {
    forall i | start <= i < |log|
      ensures log[i].target in later.instances
              && later.instances[log[i].target].pid == pid && later.instances[log[i].target].ticks == ticks
    {
      assert Same(t.instances[log[i].target], later.instances[log[i].target]);
    }
  }

  /** Deliver to a pinned process only while its number still shows the anchored start time. The
      instance reached is the one the pin was opened on, and it carries the anchor's ticks. */
  method SignalPinnedAnchor(h: Host, pin: nat, pid: nat, ticks: nat, sig: int, ghost pinned: nat)
    requires h.Valid() && pinned < |h.past| && pid in h.past[pinned].slots && h.past[pinned].slots[pid] == pin
    requires pin in h.table.instances
    modifies h
    ensures h.Valid() && old(h.past) <= h.past && Later(old(h.table), h.table)
    ensures pin in h.table.instances
    ensures h.log == old(h.log) ||
            (|h.log| == |old(h.log)| + 1 && old(h.log) <= h.log && h.log[|old(h.log)|].target == pin
             && h.log[|old(h.log)|].sig == sig
             && h.table.instances[pin].pid == pid && h.table.instances[pin].ticks == ticks)
    ensures old(h.Quiet()) ==> h.table == old(h.table)
    ensures old(h.Quiet()) && RunsAs(old(h.table), pid, ticks) && old(h.table).slots[pid] == pin ==> h.log != old(h.log)
  {
    var identity, _, timed, _, _ := h.ProcessIdentity(pid);
    assert Later(h.past[|old(h.past)| - 1], h.past[|h.past| - 1]);
    if identity.None? || identity.value.ticks != ticks {
      return;
    }
    ghost var before := |h.past| - 1;
    var ok := h.SendSignal(pin, sig);
    assert Later(h.past[before], h.past[|h.past| - 1]);
    if ok {
      Pinned(h, pin, pid, pinned, timed);
    }
  }

  /** Wait for a direct child at most `polls` times: true only when it has exited. */
  method WaitChild(h: Host, child: nat, polls: nat) returns (exited: bool)
    requires h.Valid() && child in h.table.instances
    modifies h`table, h`clock, h`past
    ensures h.Valid() && old(h.past) <= h.past && Later(old(h.table), h.table)
    ensures exited ==> h.table.instances[child].life != Running
    ensures !exited && polls > 0 ==> Alive(h.table, child)
    ensures old(h.Quiet()) ==> h.table == old(h.table)
  {
    exited := false;
    var n := polls;
    while n > 0 && !exited
      invariant h.Valid() && old(h.past) <= h.past && Later(old(h.table), h.table)
      invariant n <= polls && (!exited && n < polls ==> Alive(h.table, child))
      invariant old(h.Quiet()) ==> h.table == old(h.table)
      invariant exited ==> h.table.instances[child].life != Running
      decreases n
    {
      var _ := h.Pass();
      assert Later(h.past[|old(h.past)| - 1], h.past[|h.past| - 1]);
      exited := h.table.instances[child].life != Running;
      n := n - 1;
    }
  }

  /** Pin the anchored number, then TERM, wait and KILL through the pin. */
  method Escalate(h: Host, child: nat, pid: nat, ticks: nat, grace: nat) returns (exited: bool)
    requires h.Valid() && child in h.table.instances
    modifies h
    ensures h.Valid() && old(h.past) <= h.past && old(h.log) <= h.log && child in h.table.instances
    ensures exited ==> h.table.instances[child].life != Running
    ensures Reached(h.table, h.log, |old(h.log)|, pid, ticks) && TermFirst(h.log, |old(h.log)|)
    ensures old(h.Quiet()) ==> h.table == old(h.table)
    ensures old(h.Quiet()) && RunsAs(old(h.table), pid, ticks) && old(h.table).slots[pid] == child ==>
            !exited && BothSent(h.log, |old(h.log)|, child)
  {
    exited := false;
    var pin := h.OpenPidfd(pid);
    assert Later(h.past[|old(h.past)| - 1], h.past[|h.past| - 1]);
    if pin.Some? {
      ghost var pinned := |h.past| - 1;
      assert Wf(h.past[pinned]) && SlotSound(h.table, pid);
      exited := TermThenKill(h, child, pin.value, pid, ticks, grace, pinned);
    }
  }

  /** At most one termination signal and then at most one kill. */
  ghost predicate TermFirst(log: seq<Delivery>, start: nat) {
    && |log| <= start + 2
    && (|log| == start + 1 ==> log[start].sig == 15 || log[start].sig == 9)
    && (|log| == start + 2 ==> log[start].sig == 15 && log[start + 1].sig == 9)
  }

  /** Both of them reached this instance. */
  ghost predicate BothSent(log: seq<Delivery>, start: nat, x: nat) {
    |log| == start + 2 && log[start].target == x && log[start + 1].target == x
  }

  method TermThenKill(h: Host, child: nat, pin: nat, pid: nat, ticks: nat, grace: nat, ghost pinned: nat)
    returns (exited: bool)
    requires h.Valid() && pinned < |h.past| && pid in h.past[pinned].slots && h.past[pinned].slots[pid] == pin
    requires pin in h.table.instances && child in h.table.instances
    modifies h
    ensures h.Valid() && old(h.past) <= h.past && old(h.log) <= h.log && child in h.table.instances
    ensures exited ==> h.table.instances[child].life != Running
    ensures Reached(h.table, h.log, |old(h.log)|, pid, ticks) && TermFirst(h.log, |old(h.log)|)
    ensures old(h.Quiet()) ==> h.table == old(h.table)
    ensures old(h.Quiet()) && RunsAs(old(h.table), pid, ticks) && old(h.table).slots[pid] == pin == child ==>
            !exited && BothSent(h.log, |old(h.log)|, child)
  {
    Deliver(h, pin, pid, ticks, 15, pinned, |old(h.log)|);
    ghost var termed := h.table;
    exited := WaitChild(h, child, grace);
    ReachedOn(termed, h.table, h.log, |old(h.log)|, pid, ticks);
    if !exited {
      Deliver(h, pin, pid, ticks, 9, pinned, |old(h.log)|);
    }
  }

  /** One more signal through the pin, on top of those delivered since `start`. */
  method Deliver(h: Host, pin: nat, pid: nat, ticks: nat, sig: int, ghost pinned: nat, ghost start: nat)
    requires h.Valid() && pinned < |h.past| && pid in h.past[pinned].slots && h.past[pinned].slots[pid] == pin
    requires pin in h.table.instances && Reached(h.table, h.log, start, pid, ticks)
    modifies h
    ensures h.Valid() && old(h.past) <= h.past && old(h.log) <= h.log && Later(old(h.table), h.table)
    ensures Reached(h.table, h.log, start, pid, ticks)
    ensures h.log == old(h.log) ||
            (|h.log| == |old(h.log)| + 1 && h.log[|old(h.log)|].target == pin && h.log[|old(h.log)|].sig == sig)
    ensures old(h.Quiet()) ==> h.table == old(h.table)
    ensures old(h.Quiet()) && RunsAs(old(h.table), pid, ticks) && old(h.table).slots[pid] == pin ==> h.log != old(h.log)
  {
    SignalPinnedAnchor(h, pin, pid, ticks, sig, pinned);
    ReachedOn(old(h.table), h.table, old(h.log), start, pid, ticks);
  }

  /** Converge a spawned child whose identity was never proven. It returns only once the child is
      gone (`returned` is false while it is still blocked), and every signal it delivered on the
      way reached an instance with the anchor's exact number and start time: a termination first and
      then a kill, both of which an anchored child that stays does get on an idle host. */
  method ConvergeUnprovenSpawn(h: Host, child: nat, pid: nat, anchor: Option<nat>, grace: nat, forever: nat)
    returns (returned: bool)
    requires h.Valid() && child in h.table.instances
    modifies h
    ensures h.Valid() && old(h.past) <= h.past && old(h.log) <= h.log && child in h.table.instances
    ensures returned ==> h.table.instances[child].life != Running
    ensures anchor.None? ==> h.log == old(h.log)
    ensures anchor.Some? ==> Reached(h.table, h.log, |old(h.log)|, pid, anchor.value)
    ensures TermFirst(h.log, |old(h.log)|)
    ensures old(h.Quiet()) && anchor.Some? && RunsAs(old(h.table), pid, anchor.value)
            && old(h.table).slots[pid] == child
            ==> !returned && BothSent(h.log, |old(h.log)|, child)
    ensures !Alive(old(h.table), child) ==> returned && h.log == old(h.log)
    ensures !returned && grace + forever > 0 ==> Alive(h.table, child)
  {
    returned := WaitChild(h, child, 1);
    assert Alive(h.table, child) ==> Alive(old(h.table), child);
    if returned {
      return;
    }
    if anchor.Some? {
      returned := Escalate(h, child, pid, anchor.value, grace);
      if returned {
        return;
      }
    }
    ghost var before := h.table;
    returned := WaitChild(h, child, grace + forever);
    if anchor.Some? {
      ReachedOn(before, h.table, h.log, |old(h.log)|, pid, anchor.value);
    }
  }

  /** Read a number's start time, then its state; the ghost results are the two instants. */
  method StartedAndRunning(h: Host, pid: nat, ticks: nat) returns (ok: bool, ghost timed: nat, ghost checked: nat)
    requires h.Valid()
    modifies h`table, h`clock, h`past
    ensures h.Valid() && old(h.past) <= h.past
    ensures ok ==>
            && |old(h.past)| <= timed <= checked == |h.past| - 1
            && pid in h.past[timed].slots && h.past[timed].slots[pid] in h.past[timed].instances
            && h.past[timed].instances[h.past[timed].slots[pid]].ticks == ticks
            && pid in h.past[checked].slots && Alive(h.past[checked], h.past[checked].slots[pid])
    ensures old(h.Quiet()) ==> h.table == old(h.table) && (RunsAs(h.table, pid, ticks) ==> ok)
  {
    ok, timed, checked := false, 0, 0;
    var first := h.Stat(pid);
    timed := |h.past| - 1;
    if !first.Found? || first.ticks != ticks {
      return;
    }
    var second := h.Stat(pid);
    checked := |h.past| - 1;
    ok := second.Found? && second.life == Running;
  }

  /** A worker snapshot is live only of one instance: the pinned one bore the snapshot's number
      and start time, occupied that number from the pin to the verdict, was running when
      checked, and was still unreaped at the end. */
  method SnapshotLive(h: Host, pid: nat, ticks: nat, claimed: bool) returns (live: bool, ghost subject: nat)
    requires h.Valid()
    modifies h
    ensures h.Valid() && old(h.past) <= h.past
    ensures live ==>
            && claimed && Unreaped(h.table, subject)
            && h.table.instances[subject].pid == pid && h.table.instances[subject].ticks == ticks
            && OccupiedSince(h.past, |old(h.past)|, pid, subject) && RanSince(h.past, |old(h.past)|, subject)
    ensures old(h.Quiet()) && RunsAs(old(h.table), pid, ticks) ==> live == claimed
  {
    live, subject := false, 0;
    var pin := h.OpenPidfd(pid);
    if pin.None? {
      return;
    }
    ghost var pinned := |h.past| - 1;
    assert Wf(h.past[pinned]) && SlotSound(h.table, pid);
    var alive, timed, checked := StartedAndRunning(h, pid, ticks);
    if !alive {
      return;
    }
    assert Later(h.past[pinned], h.past[checked]);
    var ok := h.SendSignal(pin.value, 0);
    if !ok {
      return;
    }
    live, subject := claimed, pin.value;
    PinnedSince(h, subject, pid, pinned);
    Pinned(h, subject, pid, pinned, timed);
    assert Alive(h.past[checked], subject);
  }
}
