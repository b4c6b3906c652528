/** Confirming a deployment and activating its startup artifacts: snapshot, stage, terminal write,
    promotion, receipt and cleanup. Every change to the host may fail or be the last one before a
    crash, with or without its effect. Models _confirm_locked and _confirmed_idempotent_response
    in src/lubko/deployctl.py and promotion in src/lubko/startup_contract.py. */
module Confirmation {
  import opened Common

  type Bytes = seq<bv8>

  datatype Kind = Contract | Definition | Launcher

  const LAUNCHER_MODE := 0x1ED   // 0o755
  const FRESH_MODE := 0x1A4      // 0o644, the mode of a file just renamed into place

  datatype Digest = Digest(hash: string, size: nat)

  /** A staging manifest or a confirmation receipt: a commit and the digests found in it. */
  datatype Manifest = Manifest(commit: string, digests: map<Kind, Digest>)

  datatype Files = Files(
    active: map<Kind, Bytes>, mode: int, staged: map<Kind, Bytes>,
    manifest: Option<Manifest>, receipt: Option<Manifest>, snapshot: bool)

  /** The content hash, and what reading and rewriting a JSON file makes of its bytes. */
  datatype Site = Site(hash: Bytes -> string, reprint: Bytes -> Option<Bytes>)

  /** What becomes of one change: done, failed, or cut off by a crash; the latter two with or
      without its effect on the disk. */
  datatype Fate = Go | FailOld | FailNew | CrashOld | CrashNew

  predicate Lands(x: Fate) { x.Go? || x.FailNew? || x.CrashNew? }
  predicate Crashes(x: Fate) { x.CrashOld? || x.CrashNew? }

  datatype Answer = Success | Failure | Crashed

  predicate Fits(s: Site, b: Bytes, d: Digest) { |b| == d.size && s.hash(b) == d.hash }

  predicate ActiveMatches(s: Site, f: Files, m: Manifest, k: Kind) {
    k in m.digests && k in f.active && Fits(s, f.active[k], m.digests[k])
  }

  predicate WellFormed(m: Manifest) { Contract in m.digests && Definition in m.digests && Launcher in m.digests }

  /** All three active artifacts and the launcher mode are as the authority says. */
  predicate Verified(s: Site, f: Files, m: Manifest) {
    && ActiveMatches(s, f, m, Contract) && ActiveMatches(s, f, m, Definition)
    && ActiveMatches(s, f, m, Launcher) && f.mode == LAUNCHER_MODE
  }

  /** What promotion would write for this artifact: JSON artifacts are re-serialized. */
  function Product(s: Site, f: Files, k: Kind): Option<Bytes> {
    if k !in f.staged then None
    else if k == Launcher then Some(f.staged[k])
    else s.reprint(f.staged[k])
  }

  /** The staged artifact is the manifest's, and writing it yields the manifest's bytes. */
  predicate StagedMatches(s: Site, f: Files, m: Manifest, k: Kind) {
    && k in m.digests && k in f.staged && s.hash(f.staged[k]) == m.digests[k].hash
    && Product(s, f, k).Some? && Fits(s, Product(s, f, k).value, m.digests[k])
  }

  predicate Promotable(s: Site, f: Files, m: Manifest, k: Kind) {
    ActiveMatches(s, f, m, k) || StagedMatches(s, f, m, k)
  }

  /** A receipt bound to the commit that the active artifacts satisfy. */
  predicate Receipted(s: Site, f: Files, commit: string) {
    f.receipt.Some? && f.receipt.value.commit == commit && Verified(s, f, f.receipt.value)
  }

  /** A retained manifest bound to the commit from which every artifact can still be produced. */
  predicate Retained(s: Site, f: Files, commit: string) {
    && f.manifest.Some? && WellFormed(f.manifest.value) && f.manifest.value.commit == commit
    && Promotable(s, f, f.manifest.value, Contract) && Promotable(s, f, f.manifest.value, Definition)
    && Promotable(s, f, f.manifest.value, Launcher)
  }

  /** The launcher's bytes are in place but its mode is not: promotion skips it for good. */
  predicate ModeStuck(s: Site, f: Files) {
    f.manifest.Some? && Misplaced(s, f, f.manifest.value)
  }

  predicate Complete(staged: map<Kind, Bytes>) { Contract in staged && Definition in staged && Launcher in staged }

  /** The manifest that binds what was staged to the commit. */
  function Bound(s: Site, commit: string, staged: map<Kind, Bytes>): Manifest
    requires Complete(staged)
  {
    Manifest(commit, map k | k in {Contract, Definition, Launcher} :: Digest(s.hash(staged[k]), |staged[k]|))
  }

  /** Rewriting what was staged gives the manifest's bytes, as when the candidate wrote its JSON with the
      printer that promotion uses. */
  predicate Rewrites(s: Site, m: Manifest, staged: map<Kind, Bytes>, k: Kind) {
    && k in staged && k in m.digests
    && s.reprint(staged[k]).Some? && Fits(s, s.reprint(staged[k]).value, m.digests[k])
  }

  /** Every artifact the manifest binds is in place or can be produced from what was staged. */
  predicate Producible(s: Site, f: Files, m: Manifest, staged: map<Kind, Bytes>) {
    && (ActiveMatches(s, f, m, Contract) || Rewrites(s, m, staged, Contract))
    && (ActiveMatches(s, f, m, Definition) || Rewrites(s, m, staged, Definition))
  }

  /** Nothing of the confirmation is left lying about. */
  predicate Tidy(f: Files) {
    Contract !in f.staged && Definition !in f.staged && Launcher !in f.staged && f.manifest.None? && !f.snapshot
  }

  /** No crash in the `n` steps from step `c` on. */
  predicate Survives(fate: nat -> Fate, c: nat, n: nat) {
    n == 0 || (Survives(fate, c, n - 1) && !Crashes(fate(c + n - 1)))
  }

  /** Counting from step `c`, step `i` is reached and takes effect. */
  predicate Cut(fate: nat -> Fate, c: nat, i: nat) { Survives(fate, c, i) && Lands(fate(c + i)) }

  /** The staged files a cleanup begun at step `c` removes. */
  function Dropped(fate: nat -> Fate, c: nat): set<Kind> {
    (if Cut(fate, c, 0) then {Contract} else {}) + (if Cut(fate, c, 1) then {Definition} else {})
    + if Cut(fate, c, 2) then {Launcher} else {}
  }

  /** A cleanup from step `c` on takes something that promotion would still need. */
  predicate Spent(s: Site, f: Files, m: Manifest, fate: nat -> Fate, c: nat) {
    || (Cut(fate, c, 0) && !ActiveMatches(s, f, m, Contract))
    || (Cut(fate, c, 1) && !ActiveMatches(s, f, m, Definition))
    || (Cut(fate, c, 2) && !ActiveMatches(s, f, m, Launcher))
    || Cut(fate, c, 3)
  }

  /** The terminal write, the third step of a confirmation begun at step `c`, takes effect. */
  predicate Commits(fate: nat -> Fate, c: nat, staged: map<Kind, Bytes>, authorized: bool) {
    fate(c) == Go && authorized && Complete(staged) && fate(c + 1) == Go && Lands(fate(c + 2))
  }

  /** The one losing confirmation: its terminal write raised although it took effect, reading the
      mission back failed, no receipt was satisfied already, and the cleanup that followed took
      what was needed. */
  predicate Loses(
    s: Site, commit: string, f: Files, fate: nat -> Fate, c: nat, staged: map<Kind, Bytes>, authorized: bool,
    readable: bool)
  {
    && Commits(fate, c, staged, authorized) && fate(c + 2) == FailNew && !readable
    && !Receipted(s, f, commit) && Spent(s, f, Bound(s, commit, staged), fate, c + 3)
  }

  /** The launcher is in place already, with a wrong mode. */
  predicate Misplaced(s: Site, f: Files, m: Manifest) {
    ActiveMatches(s, f, m, Launcher) && f.mode != LAUNCHER_MODE
  }

  /** The step, of a promotion begun at step `c`, at which the launcher is renamed into place. */
  function LauncherStep(s: Site, f: Files, m: Manifest, c: nat): nat {
    c + (if ActiveMatches(s, f, m, Contract) then 0 else 1) + if ActiveMatches(s, f, m, Definition) then 0 else 1
  }

  /** A promotion begun at step `c` goes well until the launcher is renamed, and its mode is not set. */
  predicate CutAtMode(s: Site, f: Files, m: Manifest, fate: nat -> Fate, c: nat) {
    && !ActiveMatches(s, f, m, Launcher)
    && (forall n :: c <= n <= LauncherStep(s, f, m, c) ==> fate(n) == Go)
    && !Lands(fate(LauncherStep(s, f, m, c) + 1))
  }

  /** None of these look at anything but the active artifacts, the mode and the receipt. */
  lemma Unaffected(s: Site, commit: string, f: Files, g: Files, m: Manifest, fate: nat -> Fate, c: nat,
                   staged: map<Kind, Bytes>)
    requires f.active == g.active && f.mode == g.mode && f.receipt == g.receipt
    ensures Receipted(s, f, commit) == Receipted(s, g, commit) && Misplaced(s, f, m) == Misplaced(s, g, m)
    ensures Spent(s, f, m, fate, c) == Spent(s, g, m, fate, c)
    ensures CutAtMode(s, f, m, fate, c) == CutAtMode(s, g, m, fate, c)
    ensures Producible(s, f, m, staged) == Producible(s, g, m, staged)
  {
    assert LauncherStep(s, f, m, c) == LauncherStep(s, g, m, c);
  }

  class Host {
    var f: Files
    var confirmed: bool
    var clock: nat
    const site: Site
    const commit: string
    const fate: nat -> Fate

    constructor (site: Site, commit: string, fate: nat -> Fate, f: Files)
      ensures this.site == site && this.commit == commit && this.fate == fate && this.f == f && !confirmed && clock == 0
    {
      this.site, this.commit, this.fate, this.f := site, commit, fate, f;
      confirmed, clock := false, 0;
    }

    /** Nothing fails any more. */
    ghost predicate Calm()
      reads this`clock
    {
      forall n :: n >= clock ==> fate(n) == Go
    }

    /** Confirmed is always recoverable: the mission is terminal only while a receipt is satisfied
        or everything needed to satisfy one is retained. */
    ghost predicate Recoverable()
      reads this`f, this`confirmed
    {
      confirmed ==> Receipted(site, f, commit) || Retained(site, f, commit)
    }

    method Next() returns (x: Fate)
      modifies this`clock
      ensures clock == old(clock) + 1 && x == fate(old(clock))
      ensures old(Calm()) ==> Calm() && x == Go
    {
      x := fate(clock);
      clock := clock + 1;
    }

    /** Put the manifest's bytes of one artifact in place, skipping an artifact that is already
        right. The launcher's mode is a separate, later change. */
    method Promote(m: Manifest, k: Kind) returns (a: Answer)
      requires f.manifest == Some(m) && WellFormed(m) && m.commit == commit
      modifies this`f, this`clock
      ensures f.manifest == old(f).manifest && f.receipt == old(f).receipt && f.staged == old(f).staged
      ensures f.snapshot == old(f).snapshot && (forall j :: j != k ==> (j in f.active <==> j in old(f).active))
      ensures forall j :: j != k && j in f.active ==> f.active[j] == old(f).active[j]
      ensures Promotable(site, old(f), m, k) <==> Promotable(site, f, m, k)
      ensures k != Launcher ==> f.mode == old(f).mode
      ensures a == Success ==> ActiveMatches(site, f, m, k)
      ensures ActiveMatches(site, old(f), m, k) ==> f == old(f) && a == Success
      ensures (k == Launcher && a == Success && !ActiveMatches(site, old(f), m, k)) ==> f.mode == LAUNCHER_MODE
      ensures old(Calm()) ==> Calm() && (a == Success <==> Promotable(site, old(f), m, k)) && a != Crashed
      ensures ActiveMatches(site, old(f), m, k) ==> clock == old(clock)
      ensures (!ActiveMatches(site, old(f), m, k) && StagedMatches(site, old(f), m, k) && fate(old(clock)) == Go
               && k != Launcher)
              ==> a == Success && clock == old(clock) + 1
      ensures (!ActiveMatches(site, old(f), m, k) && StagedMatches(site, old(f), m, k) && fate(old(clock)) == Go
               && k == Launcher
               && !Lands(fate(old(clock) + 1)))
              ==> a != Success && ActiveMatches(site, f, m, k) && f.mode == FRESH_MODE
    {
      if ActiveMatches(site, f, m, k) {
        return Success;
      }
      if k !in f.staged || site.hash(f.staged[k]) != m.digests[k].hash {
        return Failure;
      }
      var product := Product(site, f, k);
      if product.None? {
        return Failure;
      }
      var x := Next();
      if Lands(x) {
        f := f.(active := f.active[k := product.value], mode := if k == Launcher then FRESH_MODE else f.mode);
      }
      if x != Go {
        return if Crashes(x) then Crashed else Failure;
      }
      if k == Launcher {
        x := Next();
        if Lands(x) {
          f := f.(mode := LAUNCHER_MODE);
        }
        if x != Go {
          return if Crashes(x) then Crashed else Failure;
        }
      }
      a := if ActiveMatches(site, f, m, k) then Success else Failure;
    }

    /** Promote the two JSON artifacts; the launcher and its mode are left alone. */
    method PromoteDocuments(m: Manifest) returns (a: Answer)
      requires f.manifest == Some(m) && WellFormed(m) && m.commit == commit
      modifies this`f, this`clock
      ensures f.manifest == old(f).manifest && f.receipt == old(f).receipt && f.staged == old(f).staged
      ensures f.snapshot == old(f).snapshot && f.mode == old(f).mode
      ensures (Launcher in f.active <==> Launcher in old(f).active)
              && (Launcher in f.active ==> f.active[Launcher] == old(f).active[Launcher])
      ensures Promotable(site, old(f), m, Contract) <==> Promotable(site, f, m, Contract)
      ensures Promotable(site, old(f), m, Definition) <==> Promotable(site, f, m, Definition)
      ensures a == Success ==> ActiveMatches(site, f, m, Contract) && ActiveMatches(site, f, m, Definition)
      ensures old(Calm()) ==>
              && Calm() && a != Crashed
              && (a == Success <==> Promotable(site, old(f), m, Contract) && Promotable(site, old(f), m, Definition))
      ensures (Promotable(site, old(f), m, Contract) && Promotable(site, old(f), m, Definition)
               && (forall n :: old(clock) <= n < LauncherStep(site, old(f), m, old(clock)) ==> fate(n) == Go))
              ==> a == Success && clock == LauncherStep(site, old(f), m, old(clock))
    {
      a := Promote(m, Contract);
      if a != Success {
        return;
      }
      a := Promote(m, Definition);
    }

    /** Promote all three artifacts from a manifest bound to the commit, then verify them together.
        With nothing failing it succeeds exactly when every artifact can be produced and the
        launcher is not in place with a wrong mode. Cut off between the launcher's rename and its
        mode it is stuck, and a stuck one stays so. */
    method PromoteStaged() returns (a: Answer)
      modifies this`f, this`clock
      ensures f.manifest == old(f).manifest && f.receipt == old(f).receipt && f.staged == old(f).staged
      ensures f.snapshot == old(f).snapshot
      ensures Retained(site, old(f), commit) <==> Retained(site, f, commit)
      ensures a == Success ==> Retained(site, f, commit)
      ensures a == Success ==>
              f.manifest.Some? && f.manifest.value.commit == commit && Verified(site, f, f.manifest.value)
      ensures old(Calm()) ==>
              && Calm() && a != Crashed
              && (a == Success <==> Retained(site, old(f), commit) && !ModeStuck(site, old(f)))
      ensures ModeStuck(site, old(f)) ==> ModeStuck(site, f) && a != Success
      ensures (Retained(site, old(f), commit) && CutAtMode(site, old(f), old(f).manifest.value, fate, old(clock)))
              ==> ModeStuck(site, f) && a != Success
    {
      if f.manifest.None? || !WellFormed(f.manifest.value) || f.manifest.value.commit != commit {
        return Failure;
      }
      var m := f.manifest.value;
      a := PromoteDocuments(m);
      if a != Success {
        return;
      }
      a := Promote(m, Launcher);
      if a != Success {
        return;
      }
      a := if Verified(site, f, m) then Success else Failure;
    }

    /** Remove one staged file; failures are ignored. */
    method DropStaged(k: Kind) returns (a: Answer)
      modifies this`f, this`clock
      ensures f == if Lands(fate(old(clock))) then old(f).(staged := old(f).staged - {k}) else old(f)
      ensures clock == old(clock) + 1 && a == (if Crashes(fate(old(clock))) then Crashed else Success)
      ensures old(Calm()) ==> Calm() && a == Success
    {
      var x := Next();
      if Lands(x) {
        f := f.(staged := f.staged - {k});
      }
      a := if Crashes(x) then Crashed else Success;
    }

    /** Remove the staged files: exactly those whose removal is reached and takes effect. */
    method CleanupFiles() returns (a: Answer)
      modifies this`f, this`clock
      ensures f == old(f).(staged := old(f).staged - Dropped(fate, old(clock)))
      ensures a == (if Survives(fate, old(clock), 3) then Success else Crashed)
      ensures a == Success ==> clock == old(clock) + 3
      ensures old(Calm()) ==> Calm() && a == Success
    {
      ghost var c := clock;
      assert Survives(fate, c, 1) <==> !Crashes(fate(c));
      assert Survives(fate, c, 2) <==> Survives(fate, c, 1) && !Crashes(fate(c + 1));
      assert Survives(fate, c, 3) <==> Survives(fate, c, 2) && !Crashes(fate(c + 2));
      a := DropStaged(Contract);
      if a != Success {
        return;
      }
      a := DropStaged(Definition);
      if a != Success {
        return;
      }
      a := DropStaged(Launcher);
    }

    /** Remove the staged files and, last, the manifest: exactly those whose removal is reached and
        takes effect. */
    method CleanupStaging() returns (a: Answer)
      modifies this`f, this`clock
      ensures f.active == old(f).active && f.mode == old(f).mode && f.receipt == old(f).receipt
      ensures f.snapshot == old(f).snapshot
      ensures f.manifest == if Cut(fate, old(clock), 3) then None else old(f).manifest
      ensures f.staged == old(f).staged - Dropped(fate, old(clock))
      ensures a != Failure && (old(Calm()) ==> Calm() && a == Success)
      ensures a == Success ==> clock == old(clock) + 4
      ensures a == Success <==> Survives(fate, old(clock), 4)
    {
      assert Survives(fate, clock, 4) <==> Survives(fate, clock, 3) && !Crashes(fate(clock + 3));
      a := CleanupFiles();
      if a != Success {
        return;
      }
      var x := Next();
      if Lands(x) {
        f := f.(manifest := None);
      }
      a := if Crashes(x) then Crashed else Success;
    }

    /** With nothing failing a cleanup removes everything. */
    lemma CalmRemoves(c: nat)
      ensures Calm() && c >= clock ==>
              Dropped(fate, c) == {Contract, Definition, Launcher} && Cut(fate, c, 3) && Lands(fate(c + 4))
    {
      if Calm() && c >= clock {
        assert fate(c) == Go && fate(c + 1) == Go && fate(c + 2) == Go && fate(c + 3) == Go && fate(c + 4) == Go;
        assert Survives(fate, c, 0);
        assert Survives(fate, c, 1);
        assert Survives(fate, c, 2);
        assert Survives(fate, c, 3);
      }
    }

    /** Record what was promoted, then and only then clean up: staging, manifest and snapshot, each as far as
        its removal takes effect. */
    method Finish(m: Manifest) returns (a: Answer)
      requires confirmed && m.commit == commit && Verified(site, f, m) && f.manifest == Some(m)
      requires Retained(site, f, commit)
      modifies this`f, this`clock
      ensures Recoverable() && f.active == old(f).active && f.mode == old(f).mode
      ensures a == Success ==> Receipted(site, f, commit)
      ensures a == Success ==>
              var c := old(clock) + 1;
              f == old(f).(receipt := Some(Manifest(commit, m.digests)), staged := old(f).staged - Dropped(fate, c),
                           manifest := if Cut(fate, c, 3) then None else old(f).manifest,
                           snapshot := old(f).snapshot && !Lands(fate(c + 4)))
      ensures old(Calm()) ==> Calm() && a == Success && Tidy(f)
      ensures a == Success <==> fate(old(clock)) == Go && Survives(fate, old(clock) + 1, 5)
    {
      ghost var c := clock + 1;
      CalmRemoves(c);
      assert Survives(fate, c, 5) <==> Survives(fate, c, 4) && !Crashes(fate(c + 4));
      var x := Next();
      if Lands(x) {
        f := f.(receipt := Some(Manifest(commit, m.digests)));
      }
      if x != Go {
        return if Crashes(x) then Crashed else Failure;
      }
      a := CleanupStaging();
      if a != Success {
        return;
      }
      x := Next();
      if Lands(x) {
        f := f.(snapshot := false);
      }
      a := if Crashes(x) then Crashed else Success;
    }

    /** Promote what is staged for a confirmed deployment and record it: with everything retained it stays
        recoverable, and with less it changes no receipt and fails. */
    method Activate() returns (a: Answer)
      requires confirmed
      modifies this`f, this`clock
      ensures Retained(site, old(f), commit) ==> Recoverable()
      ensures !Retained(site, old(f), commit) ==>
              !Retained(site, f, commit) && f.receipt == old(f).receipt && a != Success
      ensures a == Success ==> Receipted(site, f, commit)
      ensures ModeStuck(site, old(f)) ==> ModeStuck(site, f) && a != Success
      ensures (Retained(site, old(f), commit) && CutAtMode(site, old(f), old(f).manifest.value, fate, old(clock)))
              ==> ModeStuck(site, f) && a != Success
      ensures old(Calm()) ==>
              Calm() && (a == Success <==> Retained(site, old(f), commit) && !ModeStuck(site, old(f)))
      ensures old(Calm()) && a == Success ==> Tidy(f)
    {
      a := PromoteStaged();
      if a != Success {
        return;
      }
      a := Finish(f.manifest.value);
    }

    /** Retry a confirmed deployment. Success means that the active artifacts and the launcher mode
        satisfy a receipt bound to the commit. It never makes the mission unrecoverable; and with
        nothing failing it succeeds from every recoverable state except the one left by a crash
        between the launcher's rename and its durable mode. That one it never leaves, whatever
        fails. */
    method RetryConfirm() returns (a: Answer)
      requires confirmed && Recoverable()
      modifies this`f, this`clock
      ensures Recoverable()
      ensures a == Success ==> Receipted(site, f, commit)
      ensures old(Calm()) ==>
              && Calm()
              && (a == Success <==> Receipted(site, old(f), commit) || !ModeStuck(site, old(f)))
      ensures ModeStuck(site, old(f)) ==> ModeStuck(site, f) && a != Success
    {
      if Receipted(site, f, commit) {
        return Success;
      }
      a := Activate();
    }

    /** Retry again and again, until it succeeds or `n` attempts are spent. */
    method Retries(n: nat) returns (done: bool)
      requires confirmed && Recoverable()
      modifies this`f, this`clock
      ensures Recoverable() && (done ==> Receipted(site, f, commit))
      ensures ModeStuck(site, old(f)) ==> ModeStuck(site, f) && !done
      ensures old(Calm()) && n > 0 && !ModeStuck(site, old(f)) ==> done
    {
      done := false;
      var i := 0;
      while i < n && !done
        invariant i <= n && Recoverable() && (done ==> Receipted(site, f, commit))
        invariant ModeStuck(site, old(f)) ==> ModeStuck(site, f) && !done
        invariant i > 0 && old(Calm()) && !ModeStuck(site, old(f)) ==> done
        invariant i == 0 ==> f == old(f) && clock == old(clock)
      {
        var a := RetryConfirm();
        done := a == Success;
        i := i + 1;
      }
    }

    /** Confirm a pending deployment. `staged` is what the candidate's own staging command leaves
        behind. The mission is terminal exactly when its terminal write takes effect. If every artifact
        can be produced it is recoverable afterwards exactly when this is not the losing confirmation;
        if not, and no receipt was satisfied before, exactly when it is not terminal. With nothing
        failing it succeeds exactly when it is authorized, staging is complete, every artifact can be
        produced and the launcher is not already in place with a wrong mode. */
    method Confirm(staged: map<Kind, Bytes>, authorized: bool, readable: bool) returns (a: Answer)
      requires !confirmed
      modifies this`f, this`clock, this`confirmed
      ensures confirmed <==> Commits(fate, old(clock), staged, authorized)
      ensures Complete(staged) ==>
              Ending(old(f), Producible(site, old(f), Bound(site, commit, staged), staged), old(clock) + 2,
                     Loses(site, commit, old(f), fate, old(clock), staged, authorized, readable))
      ensures a == Success ==> confirmed && Receipted(site, f, commit)
      ensures (Commits(fate, old(clock), staged, authorized) && fate(old(clock) + 2) == Go
               && Producible(site, old(f), Bound(site, commit, staged), staged)
               && CutAtMode(site, old(f), Bound(site, commit, staged), fate, old(clock) + 3))
              ==> ModeStuck(site, f) && a != Success
      ensures old(Calm()) ==>
              && Calm()
              && (a == Success <==>
                  authorized && Complete(staged) && Producible(site, old(f), Bound(site, commit, staged), staged)
                  && !Misplaced(site, old(f), Bound(site, commit, staged)))
      ensures old(Calm()) && a == Success ==> Tidy(f)
    {
      a := Stage(staged, authorized);
      if a != Success {
        assert !Commits(fate, old(clock), staged, authorized);
      } else {
        Unaffected(site, commit, old(f), f, Bound(site, commit, staged), fate, old(clock) + 3, staged);
        assert Retained(site, f, commit) == Producible(site, old(f), Bound(site, commit, staged), staged);
        assert ModeStuck(site, f) == Misplaced(site, old(f), Bound(site, commit, staged));
        a := Terminalize(readable);
      }
    }

    /** Everything before the terminal write, cleaned up if it fails. */
    method Stage(staged: map<Kind, Bytes>, authorized: bool) returns (a: Answer)
      modifies this`f, this`clock
      ensures f.active == old(f).active && f.mode == old(f).mode && f.receipt == old(f).receipt
      ensures a == Success <==>
              fate(old(clock)) == Go && authorized && Complete(staged) && fate(old(clock) + 1) == Go
      ensures a == Success ==>
              && clock == old(clock) + 2
              && f.manifest == Some(Bound(site, commit, staged)) && WellFormed(f.manifest.value)
              && (Retained(site, f, commit) <==> Producible(site, f, f.manifest.value, staged))
      ensures old(Calm()) ==> Calm()
    {
      a := Snapshot();
      if a != Success {
        return;
      }
      a := Prepare(staged, authorized);
      if a == Failure {
        Discard();
      }
    }

    /** Which endings are recoverable, for a terminal write at step `c`: if every artifact can be produced,
        all but the losing one; if not, a receipt from before is all that is left. */
    ghost predicate Ending(before: Files, able: bool, c: nat, loses: bool)
      reads this`f, this`confirmed
    {
      if able then Recoverable() <==> !loses
      else
        && f.receipt == before.receipt
        && (Recoverable() <==> (confirmed ==> Receipted(site, f, commit)))
        && (Receipted(site, before, commit) && fate(c) != Go ==> Recoverable())
    }

    /** Keep the artifacts in place now, for a later rollback. */
    method Snapshot() returns (a: Answer)
      modifies this`f, this`clock
      ensures f == if Lands(fate(old(clock))) then old(f).(snapshot := true) else old(f)
      ensures clock == old(clock) + 1 && (a == Success <==> fate(old(clock)) == Go)
      ensures old(Calm()) ==> Calm()
    {
      var x := Next();
      if Lands(x) {
        f := f.(snapshot := true);
      }
      a := if x == Go then Success else if Crashes(x) then Crashed else Failure;
    }

    /** The terminal write and everything after it. */
    method Terminalize(readable: bool) returns (a: Answer)
      requires !confirmed && f.manifest.Some? && WellFormed(f.manifest.value) && f.manifest.value.commit == commit
      modifies this`f, this`clock, this`confirmed
      ensures confirmed <==> Lands(fate(old(clock)))
      ensures Ending(old(f), Retained(site, old(f), commit), old(clock),
                     fate(old(clock)) == FailNew && !readable && !Receipted(site, old(f), commit)
                     && Spent(site, old(f), old(f).manifest.value, fate, old(clock) + 1))
      ensures a == Success ==> confirmed && Receipted(site, f, commit) && Retained(site, old(f), commit)
      ensures (fate(old(clock)) == Go && Retained(site, old(f), commit)
               && CutAtMode(site, old(f), old(f).manifest.value, fate, old(clock) + 1))
              ==> ModeStuck(site, f) && a != Success
      ensures old(Calm()) ==>
              Calm() && (a == Success <==> Retained(site, old(f), commit) && !ModeStuck(site, old(f)))
      ensures old(Calm()) && a == Success ==> Tidy(f)
    {
      var x := Next();
      confirmed := Lands(x);
      if Crashes(x) {
        return Crashed;
      }
      if x != Go {
        if !(confirmed && readable) {
          DiscardManifest();
        }
        return Failure;
      }
      a := Activate();
    }

    /** Drop the staged files, the manifest and the snapshot of a confirmation that did not happen. */
    method Discard()
      modifies this`f, this`clock
      ensures f.active == old(f).active && f.mode == old(f).mode && f.receipt == old(f).receipt
      ensures f.manifest == if Cut(fate, old(clock), 3) then None else old(f).manifest
      ensures f.staged == old(f).staged - Dropped(fate, old(clock))
      ensures f.snapshot == (old(f).snapshot && !Cut(fate, old(clock), 4))
      ensures old(Calm()) ==> Calm()
    {
      var a := CleanupStaging();
      if a == Crashed {
        return;
      }
      var x := Next();
      if Lands(x) {
        f := f.(snapshot := false);
      }
    }

    /** Discarding loses what was retained exactly if it takes something that promotion would still need, and
        brings nothing back. */
    method DiscardManifest()
      requires f.manifest.Some? && WellFormed(f.manifest.value) && f.manifest.value.commit == commit
      modifies this`f, this`clock
      ensures f.active == old(f).active && f.mode == old(f).mode && f.receipt == old(f).receipt
      ensures Retained(site, f, commit) <==>
              Retained(site, old(f), commit) && !Spent(site, old(f), old(f).manifest.value, fate, old(clock))
      ensures old(Calm()) ==> Calm()
    {
      Discard();
    }

    /** The steps before the terminal write: staging by the candidate and the manifest binding the
        staged bytes to the commit. It succeeds exactly when it is authorized, staging is complete and
        the manifest is written; everything is then retained exactly if every artifact can be
        produced. */
    method Prepare(staged: map<Kind, Bytes>, authorized: bool) returns (a: Answer)
      modifies this`f, this`clock
      ensures f.active == old(f).active && f.mode == old(f).mode && f.receipt == old(f).receipt
      ensures a == Success <==> authorized && Complete(staged) && fate(old(clock)) == Go
      ensures a == Success ==>
              && clock == old(clock) + 1 && f.staged == staged
              && f.manifest == Some(Bound(site, commit, staged)) && WellFormed(f.manifest.value)
              && (Retained(site, f, commit) <==> Producible(site, f, f.manifest.value, staged))
      ensures old(Calm()) ==> Calm() && a != Crashed
    {
      if !authorized {
        return Failure;
      }
      f := f.(staged := staged);
      if Contract !in staged || Definition !in staged || Launcher !in staged {
        return Failure;
      }
      var m := Manifest(commit, map k | k in {Contract, Definition, Launcher} ::
                          Digest(site.hash(staged[k]), |staged[k]|));
      var x := Next();
      if Lands(x) {
        f := f.(manifest := Some(m));
      }
      a := if x == Go then Success else if Crashes(x) then Crashed else Failure;
    }
  }

  const NOTHING := Files(map[], FRESH_MODE, map[], None, None, false)

  /** For any complete staging: when the terminal write raises although it took effect and the mission
      cannot be read back, the deployment ends confirmed and beyond recovery. */
  method ConfirmedBeyondRecovery(site: Site, commit: string, staged: map<Kind, Bytes>) returns (h: Host)
    requires Complete(staged)
    ensures h.confirmed && !h.Recoverable()
  {
    h := new Host(site, commit, (n: nat) => if n == 2 then FailNew else Go, NOTHING);
    var _ := h.Confirm(staged, true, false);
  }

  /** For any complete staging that promotion cannot reproduce, because the candidate prints its JSON
      otherwise: a confirmation in which nothing fails ends confirmed and beyond recovery. */
  method OtherPrinterLost(site: Site, commit: string, staged: map<Kind, Bytes>) returns (h: Host, a: Answer)
    requires Complete(staged) && !Producible(site, NOTHING, Bound(site, commit, staged), staged)
    ensures h.confirmed && !h.Recoverable() && a != Success
  {
    h := new Host(site, commit, (n: nat) => Go, NOTHING);
    a := h.Confirm(staged, true, true);
  }

  /** For any complete staging, any later failures and any number of retries: a crash between the
      launcher's rename and its mode leaves the deployment confirmed and never to succeed. */
  method StuckForever(site: Site, commit: string, staged: map<Kind, Bytes>, later: nat -> Fate, retries: nat)
    returns (h: Host, done: bool)
    requires Complete(staged) && Producible(site, NOTHING, Bound(site, commit, staged), staged)
    ensures h.confirmed && ModeStuck(h.site, h.f) && !done
  {
    h := new Host(site, commit, (n: nat) => if n < 6 then Go else if n == 6 then CrashOld else later(n), NOTHING);
    var _ := h.Confirm(staged, true, true);
    done := h.Retries(retries);
  }
}
