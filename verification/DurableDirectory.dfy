/** A directory holding one authoritative destination, as seen by readers and as a crash may
    reveal it. Models the storage steps that src/lubko/durable.py takes: each may fail, and
    each is a point at which the host may crash. */
module DurableDirectory {
  import opened Common

  type Bytes = seq<bv8>

  /** The destination, and the uniquely named temporary files written next to it. */
  datatype Name = Dest | Temp(n: nat)

  datatype Entry = File(ino: nat) | Link(target: string)

  /** File contents; only fsynced contents survive a crash whole. */
  datatype Inode = Inode(data: Bytes, synced: bool)

  type Listing = map<Name, Entry>

  /** What can be found at the destination. */
  datatype Outcome = Absent | Whole(data: Bytes) | Points(target: string) | Torn

  /** What a crash finds at the destination, given a listing that reached the disk. */
  function AfterCrash(m: Listing, inodes: map<nat, Inode>): Outcome {
    if Dest !in m then Absent
    else match m[Dest]
      case Link(t) => Points(t)
      case File(i) => if i in inodes && inodes[i].synced then Whole(inodes[i].data) else Torn
  }

  /** What a reader finds at the destination now. */
  function Seen(m: Listing, inodes: map<nat, Inode>): Outcome {
    if Dest !in m then Absent
    else match m[Dest]
      case Link(t) => Points(t)
      case File(i) => if i in inodes then Whole(inodes[i].data) else Torn
  }

  ghost function Recover(listings: set<Listing>, inodes: map<nat, Inode>): set<Outcome> {
    set m | m in listings :: AfterCrash(m, inodes)
  }

  lemma RecoverAdd(listings: set<Listing>, m: Listing, inodes: map<nat, Inode>)
    ensures Recover(listings + {m}, inodes) == Recover(listings, inodes) + {AfterCrash(m, inodes)}
  {
    forall o | o in Recover(listings, inodes) + {AfterCrash(m, inodes)}
      ensures o in Recover(listings + {m}, inodes)
    {
      if o == AfterCrash(m, inodes) {
        assert m in listings + {m};
      } else {
        var k :| k in listings && o == AfterCrash(k, inodes);
        assert k in listings + {m};
      }
    }
  }

  lemma RecoverOne(m: Listing, inodes: map<nat, Inode>)
    ensures Recover({m}, inodes) == {AfterCrash(m, inodes)}
  {
    assert m in {m};
  }

  /** Changing one inode that no listing puts at the destination changes no outcome. */
  lemma RecoverFrame(listings: set<Listing>, inodes: map<nat, Inode>, ino: nat, node: Inode)
    requires forall m :: m in listings && Dest in m ==> m[Dest] != File(ino)
    ensures Recover(listings, inodes[ino := node]) == Recover(listings, inodes)
  {
    forall m | m in listings
      ensures AfterCrash(m, inodes[ino := node]) == AfterCrash(m, inodes)
    {}
  }

  /** One instant of an operation: what readers see and what a crash could reveal. */
  datatype Moment = Moment(seen: Outcome, recoverable: set<Outcome>)

  /** Every instant from the k-th on shows readers one of `seen`, and would reveal one of
      `possible` after a crash. */
  ghost predicate Stayed(moments: seq<Moment>, k: nat, seen: set<Outcome>, possible: set<Outcome>) {
    forall i :: k <= i < |moments| ==> moments[i].seen in seen && moments[i].recoverable <= possible
  }

  lemma StayedOn(moments: seq<Moment>, more: seq<Moment>, k: nat,
                 seen: set<Outcome>, possible: set<Outcome>, seen': set<Outcome>, possible': set<Outcome>)
    requires k <= |moments| && moments <= more
    requires Stayed(moments, k, seen, possible) && Stayed(more, |moments|, seen', possible')
    requires seen <= seen' && possible <= possible'
    ensures Stayed(more, k, seen', possible')
  {
    forall i | k <= i < |more|
      ensures more[i].seen in seen' && more[i].recoverable <= possible'
    {
      if i < |moments| { assert more[i] == moments[i]; }
    }
  }

  class Directory {
    var entries: Listing
    var inodes: map<nat, Inode>
    var nextTemp: nat
    var nextIno: nat
    var clock: nat
    /** Which storage steps fail, which directory fsyncs do, and how many bytes each write transfers:
        arbitrary. */
    const fault: nat -> bool
    const syncFault: nat -> bool
    const moved: nat -> int
    /** What reading through a link at the destination gives, if it leads anywhere. */
    const through: string -> Option<Bytes>
    /** The listings a crash may reveal: all since the last confirmed directory fsync. */
    ghost var listings: set<Listing>
    ghost var moments: seq<Moment>

    ghost predicate Fits(m: Listing)
      reads this`inodes, this`nextTemp, this`nextIno
    {
      && (forall n :: n in m && n.Temp? ==> n.n < nextTemp)
      && (forall n :: n in m && m[n].File? ==> m[n].ino < nextIno && m[n].ino in inodes)
      && (Dest in m && m[Dest].File? ==> inodes[m[Dest].ino].synced)
    }

    /** The visible listing is one a crash may reveal, and no listing a crash may reveal puts
        unsynced contents at the destination. */
    ghost predicate Valid()
      reads this`entries, this`listings, this`inodes, this`nextTemp, this`nextIno
    {
      && entries in listings
      && (forall m :: m in listings ==> Fits(m))
      && (forall i :: i in inodes ==> i < nextIno)
    }

    ghost function Visible(): Outcome
      reads this`entries, this`inodes
    {
      Seen(entries, inodes)
    }

    ghost function Recoverable(): set<Outcome>
      reads this`listings, this`inodes
    {
      Recover(listings, inodes)
    }

    /** A crash may always reveal what is visible, because nothing unsynced is ever visible at
        the destination; and it never reveals torn contents. */
    lemma VisibleIsRecoverable()
      requires Valid()
      ensures Visible() in Recoverable() && Torn !in Recoverable() && Visible() != Torn
    {
      assert Fits(entries);
      forall m | m in listings
        ensures AfterCrash(m, inodes) != Torn
      {
        assert Fits(m);
      }
    }

    /** An empty directory, durably so. */
    constructor (fault: nat -> bool, syncFault: nat -> bool, moved: nat -> int, through: string -> Option<Bytes>)
      ensures Valid() && Visible() == Absent && Recoverable() == {Absent} && moments == []
      ensures this.fault == fault && this.syncFault == syncFault && this.moved == moved && this.through == through
    {
      this.fault, this.syncFault, this.moved, this.through := fault, syncFault, moved, through;
      entries, inodes, nextTemp, nextIno, clock := map[], map[], 0, 0, 0;
      listings, moments := {map[]}, [];
      new;
      RecoverOne(map[], map[]);
    }

    /** A directory whose destination durably holds these bytes. */
    constructor Holding(
      data: Bytes, fault: nat -> bool, syncFault: nat -> bool, moved: nat -> int, through: string -> Option<Bytes>)
      ensures Valid() && Visible() == Whole(data) && Recoverable() == {Whole(data)} && moments == []
      ensures this.fault == fault && this.syncFault == syncFault && this.moved == moved && this.through == through
    {
      this.fault, this.syncFault, this.moved, this.through := fault, syncFault, moved, through;
      var only: Listing := map[Dest := File(0)];
      var held := map[0 := Inode(data, true)];
      entries, inodes, nextTemp, nextIno, clock := only, held, 0, 1, 0;
      listings, moments := {only}, [];
      new;
      RecoverOne(only, held);
    }

    /** A directory whose destination is durably a link. */
    constructor Pointing(
      target: string, fault: nat -> bool, syncFault: nat -> bool, moved: nat -> int, through: string -> Option<Bytes>)
      ensures Valid() && Visible() == Points(target) && Recoverable() == {Points(target)} && moments == [] && clock == 0
      ensures this.fault == fault && this.syncFault == syncFault && this.moved == moved && this.through == through
    {
      this.fault, this.syncFault, this.moved, this.through := fault, syncFault, moved, through;
      var only: Listing := map[Dest := Link(target)];
      entries, inodes, nextTemp, nextIno, clock := only, map[], 0, 0, 0;
      listings, moments := {only}, [];
      new;
      RecoverOne(only, map[]);
    }

    /** The bytes a snapshot of the destination keeps: a file's own, or what a link leads to. */
    function Kept(o: Outcome): Option<Bytes> {
      match o
      case Whole(data) => Some(data)
      case Points(target) => through(target)
      case _ => None
    }

    /** What putting those bytes back amounts to. */
    function Restored(o: Outcome): Outcome { if Kept(o).Some? then Whole(Kept(o).value) else Absent }

    /** It is the prior value itself exactly when that was not a link. */
    lemma RestoredIsPrior(o: Outcome)
      requires o != Torn
      ensures Restored(o) == o <==> !o.Points?
    {}

    ghost method Record()
      requires Valid()
      modifies this`moments
      ensures moments == old(moments) + [Moment(Visible(), Recoverable())]
    {
      moments := moments + [Moment(Visible(), Recoverable())];
    }

    /** A step that, unless it is a directory fsync, goes well. */
    ghost predicate Sure(n: nat) { !fault(n) && moved(n) > 0 }

    /** A step that goes well whatever it is. */
    ghost predicate Smooth(n: nat) { Sure(n) && !syncFault(n) }

    /** Some ordinary step in the interval may have failed. */
    ghost predicate Stumbled(from: nat, to: nat) { exists n :: from <= n < to && !Sure(n) }

    /** Some step in the interval was not smooth. */
    ghost predicate Tripped(from: nat, to: nat) { exists n :: from <= n < to && !Smooth(n) }

    /** When, if ever, so many bytes begun at a clock are all transferred. */
    ghost function Written(c: nat, left: nat): Option<nat>
      decreases left
    {
      if left == 0 then Some(c)
      else if moved(c) <= 0 then None
      else Written(c + 1, if moved(c) >= left then 0 else left - moved(c))
    }

    /** When, if ever, a temporary file begun at a clock is written, synced and can be renamed. */
    ghost function SetAside(c: nat, size: nat): Option<nat> {
      if fault(c) then None
      else
        match Written(c + 1, size)
        case None => None
        case Some(e) => if fault(e) || fault(e + 1) then None else Some(e + 2)
    }

    /** When, if ever, a write begun at a clock is ready to be confirmed by the directory fsync. */
    ghost function Prepared(c: nat, size: nat, present: bool): Option<nat> {
      if fault(c) || fault(c + 1) || (present && fault(c + 2)) then None else SetAside(c + 3, size)
    }

    /** A write begun at a clock is confirmed. */
    ghost predicate Confirms(c: nat, size: nat, present: bool) {
      Prepared(c, size, present).Some? && !syncFault(Prepared(c, size, present).value)
    }

    /** A removal begun at a clock is confirmed; only a regular file is read before. */
    ghost predicate Removes(c: nat, regular: bool) {
      !fault(c) && !(regular && fault(c + 1)) && !fault(c + 2) && !syncFault(c + 3)
    }

    /** A write begun at a clock is not confirmed, and neither is its cleanup: the kept bytes written
        back or, without any, the destination removed. */
    ghost predicate LeavesOpen(c: nat, size: nat, present: bool, kept: Option<Bytes>) {
      && Prepared(c, size, present).Some? && syncFault(Prepared(c, size, present).value)
      && var next := Prepared(c, size, present).value + 1;
         !(if kept.Some? then Confirms(next, |kept.value|, true) else Removes(next, true))
    }

    lemma {:induction false} SureWritten(c: nat, left: nat)
      requires forall n :: Sure(n)
      ensures Written(c, left).Some?
      decreases left
    {
      assert Sure(c);
      if left > 0 {
        SureWritten(c + 1, if moved(c) >= left then 0 else left - moved(c));
      }
    }

    lemma SurePrepared(c: nat, size: nat, present: bool)
      requires forall n :: Sure(n)
      ensures Prepared(c, size, present).Some?
    {
      SureWritten(c + 4, size);
      var e := Written(c + 4, size).value;
      assert Sure(c) && Sure(c + 1) && Sure(c + 2) && Sure(c + 3) && Sure(e) && Sure(e + 1);
    }

    /** When nothing but directory fsyncs fails, and they all do, every write is left open. */
    lemma OnlySyncsLeaveOpen(c: nat, size: nat, present: bool, kept: Option<Bytes>)
      requires OnlySyncsFail()
      ensures LeavesOpen(c, size, present, kept)
    {
      assert forall n :: Sure(n) && syncFault(n);
      SurePrepared(c, size, present);
    }

    lemma TrippedOn(from: nat, to: nat, later: nat)
      requires to <= later
      ensures Tripped(from, to) ==> Tripped(from, later)
    {
      if Tripped(from, to) {
        var n :| from <= n < to && !Smooth(n);
      }
    }

    lemma StumbledTrips(from: nat, to: nat)
      ensures Stumbled(from, to) ==> Tripped(from, to)
    {
      if Stumbled(from, to) {
        var n :| from <= n < to && !Sure(n);
        assert !Smooth(n);
      }
    }

    /** Nothing but directory fsyncs ever fails, and they always do. */
    ghost predicate OnlySyncsFail() { forall n :: Sure(n) && syncFault(n) }

    method Fails() returns (failed: bool)
      modifies this`clock
      ensures clock == old(clock) + 1 && failed == fault(old(clock))
      ensures failed ==> !Sure(old(clock))
    {
      failed := fault(clock);
      clock := clock + 1;
    }

    /** No listing a crash may reveal has these contents at the destination. */
    ghost predicate Aside(ino: nat)
      reads this`listings
    {
      forall m :: m in listings && Dest in m ==> m[Dest] != File(ino)
    }

    ghost predicate Unmoved(visible: Outcome, recoverable: set<Outcome>, before: seq<Moment>)
      reads this`entries, this`listings, this`inodes, this`nextTemp, this`nextIno, this`moments
    {
      && Valid() && Visible() == visible && Recoverable() == recoverable
      && before <= moments && Stayed(moments, |before|, {visible}, recoverable)
    }

    /** Allocate empty contents that nothing refers to yet. */
    method Allocate() returns (ino: nat)
      requires Valid()
      modifies this`inodes, this`nextIno
      ensures Valid() && Visible() == old(Visible()) && Recoverable() == old(Recoverable())
      ensures inodes == old(inodes)[ino := Inode([], false)] && Aside(ino) && ino < nextIno
    {
      ino := nextIno;
      RecoverFrame(listings, inodes, ino, Inode([], false));
      assert Fits(entries);
      assert Aside(ino) by {
        forall m | m in listings && Dest in m ensures m[Dest] != File(ino) { assert Fits(m); }
      }
      inodes := inodes[ino := Inode([], false)];
      nextIno := nextIno + 1;
      forall m | m in listings ensures Fits(m) { assert old(Fits(m)); }
    }

    /** Give an entry a temporary name never used before. */
    method NameTemp(entry: Entry) returns (t: nat)
      requires Valid()
      requires entry.File? ==> entry.ino in inodes && Aside(entry.ino)
      modifies this
      ensures Unmoved(old(Visible()), old(Recoverable()), old(moments)) && inodes == old(inodes) && clock == old(clock)
      ensures Temp(t) in entries && entries[Temp(t)] == entry
      ensures entry.File? ==> Aside(entry.ino)
    {
      VisibleIsRecoverable();
      assert Fits(entries);
      t := nextTemp;
      nextTemp := nextTemp + 1;
      entries := entries[Temp(t) := entry];
      forall m | m in listings ensures Fits(m) { assert old(Fits(m)); }
      RecoverAdd(listings, entries, inodes);
      listings := listings + {entries};
      assert Fits(entries);
      Record();
    }

    /** Replace the contents of a file that is not at the destination. */
    method Store(ino: nat, node: Inode)
      requires Valid() && ino in inodes && Aside(ino)
      modifies this
      ensures Unmoved(old(Visible()), old(Recoverable()), old(moments))
      ensures entries == old(entries) && listings == old(listings) && Aside(ino)
      ensures inodes == old(inodes)[ino := node] && clock == old(clock)
    {
      RecoverFrame(listings, inodes, ino, node);
      inodes := inodes[ino := node];
      assert forall m :: m in listings ==> Fits(m) by {
        forall m | m in listings ensures Fits(m) { assert old(Fits(m)); }
      }
      Record();
    }

    /** Put a new entry, or none, at the destination, dropping one temporary name. */
    method Place(entry: Option<Entry>, temp: Option<nat>)
      requires Valid()
      requires entry.Some? && entry.value.File? ==>
               entry.value.ino in inodes && inodes[entry.value.ino].synced && temp.Some?
      requires temp.Some? ==> Temp(temp.value) in entries && entry == Some(entries[Temp(temp.value)])
      modifies this
      ensures Valid() && inodes == old(inodes) && clock == old(clock)
      ensures Visible() == OutcomeOf(entry, inodes)
      ensures Recoverable() == old(Recoverable()) + {Visible()}
      ensures moments == old(moments) + [Moment(Visible(), Recoverable())]
    {
      assert Fits(entries);
      var names := if temp.Some? then entries - {Temp(temp.value)} else entries;
      entries := if entry.Some? then names[Dest := entry.value] else names - {Dest};
      RecoverAdd(listings, entries, inodes);
      listings := listings + {entries};
      assert Fits(entries);
      Record();
    }

    /** Remove a temporary name. */
    method DropTemp(t: nat)
      requires Valid()
      modifies this
      ensures Unmoved(old(Visible()), old(Recoverable()), old(moments)) && inodes == old(inodes) && clock == old(clock)
    {
      VisibleIsRecoverable();
      assert Fits(entries);
      entries := entries - {Temp(t)};
      RecoverAdd(listings, entries, inodes);
      listings := listings + {entries};
      assert Fits(entries);
      Record();
    }

    /** Confirm the directory: only the visible listing survives a crash from now on. A failed
        confirmation leaves open which listing does. */
    method SyncDirectory() returns (ok: bool)
      requires Valid()
      modifies this
      ensures Valid() && inodes == old(inodes) && entries == old(entries) && Visible() == old(Visible())
      ensures Recoverable() == if ok then {Visible()} else old(Recoverable())
      ensures clock == old(clock) + 1 && ok == !syncFault(old(clock))
      ensures moments == old(moments) + [Moment(Visible(), Recoverable())]
    {
      var failed := syncFault(clock);
      clock := clock + 1;
      if !failed {
        assert Fits(entries);
        listings := {entries};
        RecoverOne(entries, inodes);
      }
      ok := !failed;
      Record();
    }
  }

  ghost function OutcomeOf(entry: Option<Entry>, inodes: map<nat, Inode>): Outcome {
    match entry
    case None => Absent
    case Some(Link(t)) => Points(t)
    case Some(File(i)) => if i in inodes then Whole(inodes[i].data) else Torn
  }
}
