/** The process-facing system calls, each an instant of its own: before every call the
    environment may do anything at all. Models src/lubko/_exact_signal.py and the process
    observations of src/lubko/lifecycle.py. */
module Kernel {
  import opened Common
  import opened ProcessTable

  datatype StatRead = Missing | Unreadable | Found(life: Life, ticks: nat, pgrp: nat)

  /** A delivered signal: the instance it reached and the instant it did. */
  datatype Delivery = Delivery(target: nat, sig: int, at: nat)

  /** An observed identity; the number itself is known to the caller. */
  datatype Identity = Identity(pgid: nat, sid: nat, ticks: nat)

  ghost predicate Ordered(past: seq<Table>) {
    && (forall i :: 0 <= i < |past| ==> Wf(past[i]))
    && (forall i, j :: 0 <= i <= j < |past| ==> Later(past[i], past[j]))
  }

  ghost predicate KeepsGroup(past: seq<Table>, x: nat) {
    forall i, j :: 0 <= i <= j < |past| && x in past[i].instances ==> GroupKept(past[i], past[j], x)
  }

  lemma OrderedOn(past: seq<Table>, t: Table)
    requires Ordered(past) && past != [] && Wf(t) && Later(past[|past| - 1], t)
    ensures Ordered(past + [t])
  {
    var more := past + [t];
    forall i, j | 0 <= i <= j < |more|
      ensures Later(more[i], more[j])
    {
      if j == |past| && i < |past| {
        var last := past[|past| - 1];
        assert Later(past[i], last);
        forall k | k in past[i].instances
          ensures k in t.instances && Same(past[i].instances[k], t.instances[k])
        {
          assert Same(past[i].instances[k], last.instances[k]);
          assert Same(last.instances[k], t.instances[k]);
        }
      } else if j == |past| {
        assert Later(t, t);
      }
    }
  }

  lemma KeepsGroupOn(past: seq<Table>, t: Table, x: nat)
    requires Ordered(past) && past != [] && KeepsGroup(past, x)
    requires x in past[|past| - 1].instances ==> GroupKept(past[|past| - 1], t, x)
    ensures KeepsGroup(past + [t], x)
  {
    var more := past + [t];
    forall i, j | 0 <= i <= j < |more| && x in more[i].instances
      ensures GroupKept(more[i], more[j], x)
    {
      if j == |past| && i < |past| {
        assert Later(past[i], past[|past| - 1]);
        assert GroupKept(past[i], past[|past| - 1], x);
      }
    }
  }

  class Host {
    var table: Table
    var clock: nat
    var log: seq<Delivery>
    /** What the environment does before each call, and which calls fail for their own reasons. */
    const env: nat -> seq<Event>
    const blocked: nat -> bool
    /** A clock from which the host may be idle. */
    ghost const calm: nat
    /** The table at every instant so far. */
    ghost var past: seq<Table>

    ghost predicate Valid()
      reads this`table, this`past, this`clock
    {
      && |past| == clock + 1 && past[|past| - 1] == table && Ordered(past)
      && (forall x :: Steady(env, x) ==> KeepsGroup(past, x))
    }

    /** No call since the given clock failed for its own reasons. */
    ghost predicate Clean(from: nat)
      reads this`clock
    {
      forall n :: from <= n < clock ==> !blocked(n)
    }

    /** From the clock `calm` on nothing happens and nothing fails. */
    ghost predicate Calms() {
      forall n :: n >= calm ==> env(n) == [] && !blocked(n)
    }

    /** Nothing happens and nothing fails any more. */
    ghost predicate Quiet()
      reads this`clock
    {
      Calms() && calm <= clock
    }

    constructor (table: Table, env: nat -> seq<Event>, blocked: nat -> bool, ghost calm: nat)
      requires Wf(table)
      ensures Valid() && this.table == table && this.env == env && this.blocked == blocked && log == []
      ensures this.calm == calm && clock == 0 && past == [table]
    {
      this.table, this.env, this.blocked, this.calm := table, env, blocked, calm;
      clock, log, past := 0, [], [table];
    }

    method Pass() returns (failed: bool)
      requires Valid()
      modifies this`table, this`clock, this`past
      ensures Valid() && past == old(past) + [table]
      ensures failed == blocked(old(clock)) && clock == old(clock) + 1
      ensures table == HappenAll(old(table), env(old(clock)))
      ensures old(Quiet()) ==> !failed && table == old(table)
    {
      assert Quiet() ==> env(clock) == [];
      var events := env(clock);
      ghost var before := past;
      table := HappenAll(table, events);
      failed := blocked(clock);
      clock := clock + 1;
      past := past + [table];
      HappenAllKeeps(old(table), events, 0);
      OrderedOn(before, table);
      forall x | Steady(env, x)
        ensures KeepsGroup(past, x)
      {
        assert SteadyIn(events, x);
        HappenAllKeeps(old(table), events, x);
        KeepsGroupOn(before, table, x);
      }
    }

    /** Pin the occupant of a number: the descriptor names the instance. */
    method OpenPidfd(pid: nat) returns (pin: Option<nat>)
      requires Valid()
      modifies this`table, this`clock, this`past
      ensures Valid() && past == old(past) + [table]
      ensures pin.Some? ==> pid in table.slots && table.slots[pid] == pin.value
      ensures table == HappenAll(old(table), env(old(clock)))
              && (pin.None? ==> blocked(old(clock)) || pid !in table.slots)
      ensures old(Quiet()) ==> table == old(table) && (pin.Some? <==> pid in table.slots)
    {
      var failed := Pass();
      pin := if failed || pid !in table.slots then None else Some(table.slots[pid]);
    }

    /** One snapshot of a number's stat line. */
    method Stat(pid: nat) returns (s: StatRead)
      requires Valid()
      modifies this`table, this`clock, this`past
      ensures Valid() && past == old(past) + [table]
      ensures s.Missing? <==> pid !in table.slots
      ensures (s.Unreadable? ==> blocked(old(clock))) && (s.Found? ==> !blocked(old(clock)))
      ensures clock == old(clock) + 1
      ensures s.Found? ==> pid in table.slots && table.slots[pid] in table.instances &&
                           var p := table.instances[table.slots[pid]]; s == Found(p.life, p.ticks, p.pgid)
      ensures old(Quiet()) ==> table == old(table) && !s.Unreadable?
    {
      var failed := Pass();
      if pid !in table.slots {
        return Missing;
      }
      assert Wf(past[|past| - 1]) && SlotSound(table, pid);
      var p := table.instances[table.slots[pid]];
      s := if failed then Unreadable else Found(p.life, p.ticks, p.pgid);
    }

    /** The group and session system calls. */
    method Group(pid: nat) returns (r: Option<(nat, nat)>)
      requires Valid()
      modifies this`table, this`clock, this`past
      ensures Valid() && past == old(past) + [table]
      ensures clock == old(clock) + 1 && (r.None? <==> pid !in table.slots)
      ensures r.Some? ==> table.slots[pid] in table.instances &&
                          var p := table.instances[table.slots[pid]]; r.value == (p.pgid, p.sid)
      ensures old(Quiet()) ==> table == old(table)
    {
      var _ := Pass();
      if pid !in table.slots {
        return None;
      }
      assert Wf(past[|past| - 1]) && SlotSound(table, pid);
      var p := table.instances[table.slots[pid]];
      r := Some((p.pgid, p.sid));
    }

    /** Whether the environment of a number's occupant carries the lifecycle token. */
    method HasToken(pid: nat, token: string) returns (r: bool)
      requires Valid()
      modifies this`table, this`clock, this`past
      ensures Valid() && past == old(past) + [table]
      ensures r ==> pid in table.slots && table.slots[pid] in table.instances
                    && table.instances[table.slots[pid]].token == Some(token)
      ensures (!r && !blocked(old(clock)) && pid in table.slots && table.slots[pid] in table.instances)
              ==> table.instances[table.slots[pid]].token != Some(token)
      ensures old(Quiet()) ==> table == old(table)
    {
      var failed := Pass();
      if failed || pid !in table.slots {
        return false;
      }
      assert Wf(past[|past| - 1]) && SlotSound(table, pid);
      r := table.instances[table.slots[pid]].token == Some(token);
    }

    /** Deliver through a pin: fails once the pinned instance is reaped, whatever occupies its
        number by then. */
    method SendSignal(pin: nat, sig: int) returns (ok: bool)
      requires Valid() && pin in table.instances
      modifies this`table, this`clock, this`past, this`log
      ensures Valid() && past == old(past) + [table]
      ensures ok ==> Unreaped(table, pin)
      ensures old(Quiet()) && Unreaped(table, pin) ==> ok
      ensures log == if ok then old(log) + [Delivery(pin, sig, |past| - 1)] else old(log)
      ensures old(Quiet()) ==> table == old(table)
    {
      var failed := Pass();
      assert Later(past[|past| - 2], past[|past| - 1]);
      if failed || table.instances[pin].life == Reaped {
        return false;
      }
      log := log + [Delivery(pin, sig, clock)];
      ok := true;
    }

    /** The running process group of a number, from one snapshot. */
    method ProcessPgrp(pid: nat) returns (r: Option<nat>)
      requires Valid()
      modifies this`table, this`clock, this`past
      ensures Valid() && past == old(past) + [table]
      ensures r.Some? ==> pid in table.slots && Alive(table, table.slots[pid])
                          && table.instances[table.slots[pid]].pgid == r.value
      ensures old(Quiet()) ==> table == old(table)
      ensures old(Quiet()) && pid in table.slots && Alive(table, table.slots[pid]) ==> r.Some?
    {
      var s := Stat(pid);
      r := if s.Found? && s.life == Running then Some(s.pgrp) else None;
    }

    /** The group, then the session, of a number; without an answer, the second ghost result is an
        instant at which there was no such number. */
    method GroupThenSession(pid: nat) returns (r: Option<(nat, nat)>, ghost grouped: nat, ghost sessioned: nat)
      requires Valid()
      modifies this`table, this`clock, this`past
      ensures Valid() && old(past) <= past && old(clock) <= clock
      ensures |old(past)| <= grouped <= sessioned < |past|
      ensures r.None? ==> pid !in past[sessioned].slots
      ensures r.Some? ==>
              && pid in past[grouped].slots && past[grouped].slots[pid] in past[grouped].instances
              && past[grouped].instances[past[grouped].slots[pid]].pgid == r.value.0
              && pid in past[sessioned].slots && past[sessioned].slots[pid] in past[sessioned].instances
              && past[sessioned].instances[past[sessioned].slots[pid]].sid == r.value.1
      ensures old(Quiet()) ==> table == old(table)
      ensures old(Quiet()) && pid in table.slots && table.slots[pid] in table.instances ==>
              var p := table.instances[table.slots[pid]]; r == Some((p.pgid, p.sid))
    {
      var first := Group(pid);
      grouped := |past| - 1;
      if first.None? {
        return None, grouped, grouped;
      }
      var second := Group(pid);
      sessioned := |past| - 1;
      r := if second.Some? then Some((first.value.0, second.value.1)) else None;
    }

    /** The identity of a live process: four separate observations of one number. The ghost
        results are the instants of the liveness, start-time, group and session observations; when
        there is no identity, the first is the instant at which there was none to read. */
    method ProcessIdentity(pid: nat)
      returns (r: Option<Identity>, ghost alive: nat, ghost timed: nat, ghost grouped: nat, ghost sessioned: nat)
      requires Valid()
      modifies this`table, this`clock, this`past
      ensures Valid() && old(past) <= past && |past| > |old(past)| && old(clock) <= clock
      ensures r.Some? ==>
              && |old(past)| <= alive <= timed <= grouped <= sessioned < |past|
              && pid in past[alive].slots && Alive(past[alive], past[alive].slots[pid])
              && pid in past[timed].slots && past[timed].slots[pid] in past[timed].instances
              && past[timed].instances[past[timed].slots[pid]].ticks == r.value.ticks
              && pid in past[grouped].slots && past[grouped].slots[pid] in past[grouped].instances
              && past[grouped].instances[past[grouped].slots[pid]].pgid == r.value.pgid
              && pid in past[sessioned].slots && past[sessioned].slots[pid] in past[sessioned].instances
              && past[sessioned].instances[past[sessioned].slots[pid]].sid == r.value.sid
      ensures old(Quiet()) ==> table == old(table)
      ensures r.None? && Clean(old(clock)) ==>
              |old(past)| <= alive < |past| &&
              (pid in past[alive].slots ==> !Alive(past[alive], past[alive].slots[pid]))
      ensures old(Quiet()) && pid in table.slots && Alive(table, table.slots[pid]) ==>
              var p := table.instances[table.slots[pid]]; r == Some(Identity(p.pgid, p.sid, p.ticks))
    {
      alive, timed, grouped, sessioned := 0, 0, 0, 0;
      var first := Stat(pid);
      alive := |past| - 1;
      if !first.Found? || first.life != Running {
        return None, alive, 0, 0, 0;
      }
      var second := Stat(pid);
      timed := |past| - 1;
      if !second.Found? {
        return None, timed, 0, 0, 0;
      }
      var where;
      where, grouped, sessioned := GroupThenSession(pid);
      if where.None? {
        return None, sessioned, 0, 0, 0;
      }
      r := Some(Identity(where.value.0, where.value.1, second.ticks));
    }
  }
}
