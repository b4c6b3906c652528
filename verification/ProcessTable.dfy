/** The kernel's process table under an adversarial environment. A process instance keeps its
    PID until it is reaped; only then may another instance take the number. A pidfd names an
    instance, never a number. Models what src/lubko/_exact_signal.py rests on. */
module ProcessTable {
  import opened Common

  datatype Life = Running | Zombie | Reaped

  datatype Instance = Instance(pid: nat, ticks: nat, pgid: nat, sid: nat, token: Option<string>, life: Life)

  /** Every instance there ever was, and the instance occupying each PID. */
  datatype Table = Table(instances: map<nat, Instance>, slots: map<nat, nat>)

  /** What anything outside the modelled code may do. */
  datatype Event =
    | Exit(i: nat)
    | Reap(i: nat)
    | Spawn(i: nat, born: Instance)
    | Regroup(i: nat, pgid: nat, sid: nat)
    | Exec(i: nat, token: Option<string>)

  ghost predicate SlotSound(t: Table, pid: nat) {
    pid in t.slots ==>
      t.slots[pid] in t.instances && t.instances[t.slots[pid]].pid == pid
      && t.instances[t.slots[pid]].life != Reaped
  }

  ghost predicate Seated(t: Table, i: nat) {
    i in t.instances && t.instances[i].life != Reaped ==>
      t.instances[i].pid in t.slots && t.slots[t.instances[i].pid] == i
  }

  ghost predicate Distinct(t: Table, i: nat, j: nat) {
    i in t.instances && j in t.instances && i != j && t.instances[i].pid == t.instances[j].pid ==>
      t.instances[i].ticks != t.instances[j].ticks
  }

  /** Occupied slots and unreaped instances correspond one to one, and a start time never
      repeats on one PID. */
  ghost predicate Wf(t: Table) {
    && (forall pid :: SlotSound(t, pid)) && (forall i :: Seated(t, i))
    && (forall i, j :: Distinct(t, i, j))
  }

  predicate CanSpawn(t: Table, i: nat, born: Instance) {
    && i !in t.instances && born.pid !in t.slots && born.life == Running
    && (forall j :: j in t.instances && t.instances[j].pid == born.pid ==> t.instances[j].ticks != born.ticks)
  }

  function Happen(t: Table, e: Event): Table {
    match e
    case Exit(i) =>
      if i in t.instances && t.instances[i].life == Running
      then t.(instances := t.instances[i := t.instances[i].(life := Zombie)]) else t
    case Reap(i) =>
      if i in t.instances && t.instances[i].life == Zombie
      then Table(t.instances[i := t.instances[i].(life := Reaped)], t.slots - {t.instances[i].pid}) else t
    case Spawn(i, born) =>
      if CanSpawn(t, i, born) then Table(t.instances[i := born], t.slots[born.pid := i]) else t
    case Regroup(i, pgid, sid) =>
      if i in t.instances && t.instances[i].life == Running
      then t.(instances := t.instances[i := t.instances[i].(pgid := pgid, sid := sid)]) else t
    case Exec(i, token) =>
      if i in t.instances && t.instances[i].life == Running
      then t.(instances := t.instances[i := t.instances[i].(token := token)]) else t
  }

  function HappenAll(t: Table, events: seq<Event>): Table {
    if events == [] then t
    else Happen(HappenAll(t, events[..|events| - 1]), events[|events| - 1])
  }

  function Rank(l: Life): nat { if l.Running? then 0 else if l.Zombie? then 1 else 2 }

  /** The environment moves no instance `x` to another group or session. */
  ghost predicate Steady(env: nat -> seq<Event>, x: nat) {
    forall n :: forall e :: e in env(n) && e.Regroup? ==> e.i != x
  }

  ghost predicate SteadyIn(events: seq<Event>, x: nat) {
    forall e :: e in events && e.Regroup? ==> e.i != x
  }

  /** What time keeps of an instance: identity for good, life only onwards. */
  ghost predicate Same(a: Instance, b: Instance) {
    a.pid == b.pid && a.ticks == b.ticks && Rank(a.life) <= Rank(b.life)
  }

  ghost predicate Later(a: Table, b: Table) {
    forall i :: i in a.instances ==> i in b.instances && Same(a.instances[i], b.instances[i])
  }

  ghost predicate GroupKept(a: Table, b: Table, x: nat) {
    x in a.instances && x in b.instances ==>
      a.instances[x].pgid == b.instances[x].pgid && a.instances[x].sid == b.instances[x].sid
  }

  lemma HappenKeepsWf(t: Table, e: Event)
    requires Wf(t)
    ensures Wf(Happen(t, e))
  {
    var t' := Happen(t, e);
    assert Seated(t, e.i);
    forall pid ensures SlotSound(t', pid) { assert SlotSound(t, pid); }
    forall i ensures Seated(t', i) {
      assert Seated(t, i);
      if i in t.instances { assert SlotSound(t, t.instances[i].pid); }
    }
    forall i, j ensures Distinct(t', i, j) { assert Distinct(t, i, j); }
  }

  lemma HappenKeeps(t: Table, e: Event, x: nat)
    requires Wf(t)
    ensures Later(t, Happen(t, e))
    ensures x in t.instances && SteadyIn([e], x) ==> GroupKept(t, Happen(t, e), x)
  {
    assert e in [e];
  }

  lemma {:induction false} HappenAllKeeps(t: Table, events: seq<Event>, x: nat)
    requires Wf(t)
    ensures Wf(HappenAll(t, events)) && Later(t, HappenAll(t, events))
    ensures x in t.instances && SteadyIn(events, x) ==> GroupKept(t, HappenAll(t, events), x)
  {
    if events != [] {
      var rest, last := events[..|events| - 1], events[|events| - 1];
      HappenAllKeeps(t, rest, x);
      HappenKeepsWf(HappenAll(t, rest), last);
      HappenKeeps(HappenAll(t, rest), last, x);
      assert SteadyIn(events, x) ==> SteadyIn(rest, x) && SteadyIn([last], x);
    }
  }

  predicate Alive(t: Table, x: nat) { x in t.instances && t.instances[x].life == Running }
  ghost predicate Unreaped(t: Table, x: nat) { x in t.instances && t.instances[x].life != Reaped }

  /** The heart of pinning: an instance that is still unreaped later occupied its PID all along,
      so whatever was read from that number in between was read from this instance. */
  lemma PinHolds(was: Table, later: Table, x: nat)
    requires Wf(was) && Later(was, later) && x in was.instances && Unreaped(later, x)
    ensures was.instances[x].pid in was.slots && was.slots[was.instances[x].pid] == x
  {
    assert Same(was.instances[x], later.instances[x]) && Seated(was, x);
  }

  /** A recycled or empty slot proves the instance is reaped, for good. */
  lemma RecycledMeansReaped(was: Table, later: Table, x: nat)
    requires Wf(was) && Later(was, later) && x in was.instances
    requires was.instances[x].pid in was.slots ==> was.slots[was.instances[x].pid] != x
    ensures x in later.instances && later.instances[x].life == Reaped
  {
    assert Same(was.instances[x], later.instances[x]) && Seated(was, x);
  }
}
