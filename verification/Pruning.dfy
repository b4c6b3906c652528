/** Bounded retention of superseded incarnation evidence (health.py): a greedy walk from the
    newest artifact to the oldest under a file-count and a byte budget. */
module Pruning {
  import opened Common

  datatype Stat = Stat(mtimeNs: int, size: nat)

  /** What a directory entry answers: whether it is a regular file, and its later `stat`,
      which may fail. */
  datatype File = File(regular: bool, stat: Option<Stat>)

  datatype Window = Window(now: real, retentionSeconds: real, maxFiles: int, maxBytes: int)

  /** One superseded file as collected. */
  datatype Artifact = Artifact(name: string, mtimeNs: int, size: nat)

  predicate IsPrefix(p: string, s: string) { |p| <= |s| && s[..|p|] == p }

  /** The current incarnation's own file or one of its rotation backups. */
  predicate Current(keep: string, name: string) { name == keep || IsPrefix(keep + ".", name) }

  /** The current incarnation's names are its own and that name with a dot and anything behind it. */
  lemma CurrentNames(keep: string, name: string)
    ensures Current(keep, name) <==> name == keep || exists rest :: name == keep + "." + rest
  {
    if Current(keep, name) && name != keep {
      var rest := name[|keep + "."|..];
      assert name == keep + "." + rest;
    }
    forall rest | name == keep + "." + rest ensures IsPrefix(keep + ".", name) {
      assert name[..|keep + "."|] == keep + ".";
    }
  }

  predicate Superseded(files: map<string, File>, keep: string, name: string) {
    name in files && files[name].regular && !Current(keep, name)
  }

  /** A file that cannot be examined counts as dating from the epoch and holding nothing. */
  function Collected(files: map<string, File>, name: string): Artifact
    requires name in files
  {
    match files[name].stat
    case Some(s) => Artifact(name, s.mtimeNs, s.size)
    case None => Artifact(name, 0, 0)
  }

  /** The superseded artifacts in scan order. */
  function Collect(files: map<string, File>, keep: string, names: seq<string>): seq<Artifact> {
    if names == [] then []
    else
      var n := |names| - 1;
      Collect(files, keep, names[..n])
      + if Superseded(files, keep, names[n]) then [Collected(files, names[n])] else []
  }

  ghost predicate Distinct(names: seq<string>) {
    forall i, j :: 0 <= i < j < |names| ==> names[i] != names[j]
  }

  /** `names` is one scan of the directory: every entry matching the pattern, once, in any order. */
  ghost predicate Scan(files: map<string, File>, matches: string -> bool, names: seq<string>) {
    Distinct(names) && forall name :: name in names <==> name in files && matches(name)
  }

  // ---- newest first ----------------------------------------------------------------------

  predicate NewestFirst(order: seq<Artifact>) {
    forall i, j :: 0 <= i < j < |order| ==> order[i].mtimeNs >= order[j].mtimeNs
  }

  lemma AppendOldest(front: seq<Artifact>, last: Artifact)
    requires NewestFirst(front) && forall x :: x in front ==> x.mtimeNs >= last.mtimeNs
    ensures NewestFirst(front + [last]) && multiset(front + [last]) == multiset(front) + multiset{last}
  {
    assert forall i :: 0 <= i < |front| ==> front[i] in front;
  }

  lemma LastIsOldest(order: seq<Artifact>)
    requires NewestFirst(order) && order != []
    ensures var n := |order| - 1;
            && (forall x :: x in order ==> x.mtimeNs >= order[n].mtimeNs)
            && NewestFirst(order[..n]) && multiset(order) == multiset(order[..n]) + multiset{order[n]}
  {
    var n := |order| - 1;
    assert order == order[..n] + [order[n]];
  }

  /** Places `a` after everything at least as new: the sort is stable. */
  function Insert(a: Artifact, order: seq<Artifact>): (r: seq<Artifact>)
    requires NewestFirst(order)
    ensures NewestFirst(r) && multiset(r) == multiset(order) + multiset{a}
    ensures forall x :: x in r ==> x == a || x in order
  {
    if order == [] then [a]
    else
      var n := |order| - 1;
      LastIsOldest(order);
      if order[n].mtimeNs >= a.mtimeNs then
        AppendOldest(order, a);
        order + [a]
      else
        var front := Insert(a, order[..n]);
        AppendOldest(front, order[n]);
        front + [order[n]]
  }

  function Sorted(found: seq<Artifact>): (r: seq<Artifact>)
    ensures NewestFirst(r) && multiset(r) == multiset(found)
  {
    if found == [] then []
    else
      var n := |found| - 1;
      assert found == found[..n] + [found[n]];
      Insert(found[n], Sorted(found[..n]))
  }

  // ---- what the walk keeps ---------------------------------------------------------------

  function Bytes(kept: seq<Artifact>): nat {
    if kept == [] then 0 else Bytes(kept[..|kept| - 1]) + kept[|kept| - 1].size
  }

  predicate Recent(w: Window, a: Artifact) {
    w.now - a.mtimeNs as real / 1_000_000_000.0 < w.retentionSeconds
  }

  /** `a` fits in both budgets beside `kept`. */
  predicate Fits(w: Window, kept: seq<Artifact>, a: Artifact) {
    |kept| < w.maxFiles && Bytes(kept) + a.size <= w.maxBytes
  }

  /** A whole set of artifacts needs no pruning. */
  predicate Settled(w: Window, kept: seq<Artifact>) {
    (forall a :: a in kept ==> Recent(w, a))
    && (kept == [] || (|kept| <= w.maxFiles && Bytes(kept) <= w.maxBytes))
  }

  /** The greedy choice along one order. */
  function Retained(w: Window, order: seq<Artifact>): seq<Artifact> {
    if order == [] then []
    else
      var a := order[|order| - 1];
      var kept := Retained(w, order[..|order| - 1]);
      if Recent(w, a) && Fits(w, kept, a) then kept + [a] else kept
  }

  /** Everything kept is recent and the kept set is within both budgets. */
  lemma {:induction false} RetainedSettled(w: Window, order: seq<Artifact>)
    ensures Settled(w, Retained(w, order))
    ensures forall a :: a in Retained(w, order) ==> a in order
  {
    if order != [] {
      var n := |order| - 1;
      RetainedSettled(w, order[..n]);
      var kept := Retained(w, order[..n]);
      assert (kept + [order[n]])[..|kept|] == kept;
    }
  }

  lemma {:induction false} RetainedGrows(w: Window, order: seq<Artifact>, i: nat)
    requires i <= |order|
    ensures forall a :: a in Retained(w, order[..i]) ==> a in Retained(w, order)
    decreases |order|
  {
    if i < |order| {
      var front := order[..|order| - 1];
      RetainedGrows(w, front, i);
      assert front[..i] == order[..i];
    } else {
      assert order[..i] == order;
    }
  }

  /** No artifact occurs twice. */
  ghost predicate Distinguished(order: seq<Artifact>) {
    forall a :: multiset(order)[a] <= 1
  }

  lemma PrefixDistinguished(order: seq<Artifact>, i: nat)
    requires Distinguished(order) && i < |order|
    ensures Distinguished(order[..i]) && order[i] !in order[..i]
  {
    assert order == order[..i] + [order[i]] + order[i + 1..];
    assert multiset(order) == multiset(order[..i]) + multiset{order[i]} + multiset(order[i + 1..]);
    forall a ensures multiset(order[..i])[a] <= 1 {
      assert multiset(order)[a] <= 1;
    }
    assert multiset(order)[order[i]] <= 1;
  }

  lemma AddDistinguished(order: seq<Artifact>, a: Artifact)
    requires Distinguished(order) && a !in order
    ensures Distinguished(order + [a])
  {
    assert a !in multiset(order);
    forall b ensures multiset(order + [a])[b] <= 1 {
      assert multiset(order)[b] <= 1;
    }
  }

  /** The exact rule: an artifact is kept if and only if it is recent and fits beside the kept
      artifacts ahead of it, all of which are at least as new. */
  lemma {:induction false} KeptIffFits(w: Window, order: seq<Artifact>, i: nat)
    requires NewestFirst(order) && Distinguished(order) && i < |order|
    ensures order[i] in Retained(w, order)
            <==> Recent(w, order[i]) && Fits(w, Retained(w, order[..i]), order[i])
    ensures forall a :: a in Retained(w, order[..i]) ==>
      a in Retained(w, order) && a.mtimeNs >= order[i].mtimeNs
    decreases |order|
  {
    var n := |order| - 1;
    RetainedSettled(w, order[..i]);
    RetainedGrows(w, order, i);
    RetainedSettled(w, order[..n]);
    PrefixDistinguished(order, n);
    PrefixDistinguished(order, i);
    if i < n {
      KeptIffFits(w, order[..n], i);
      assert order[..n][..i] == order[..i];
    }
  }

  lemma {:induction false} BytesOfParts(a: seq<Artifact>, b: seq<Artifact>)
    ensures Bytes(a + b) == Bytes(a) + Bytes(b)
  {
    if b == [] {
      assert a + b == a;
    } else {
      var n := |b| - 1;
      BytesOfParts(a, b[..n]);
      assert (a + b)[..|a + b| - 1] == a + b[..n];
    }
  }

  lemma TakeOut(s: seq<Artifact>, k: nat)
    requires k < |s|
    ensures var rest := s[..k] + s[k + 1..];
            multiset(s) == multiset(rest) + multiset{s[k]} && Bytes(s) == Bytes(rest) + s[k].size
  {
    var head, tail := s[..k], s[k + 1..];
    assert s == head + [s[k]] + tail;
    BytesOfParts(head + [s[k]], tail);
    assert (head + [s[k]])[..k] == head;
    BytesOfParts(head, tail);
  }

  lemma Cancel(a: multiset<Artifact>, b: multiset<Artifact>, x: Artifact)
    requires a + multiset{x} == b + multiset{x}
    ensures a == b
  {
    assert a == (a + multiset{x}) - multiset{x};
    assert b == (b + multiset{x}) - multiset{x};
  }

  lemma Locate(s: seq<Artifact>, x: Artifact) returns (k: nat)
    requires x in multiset(s)
    ensures k < |s| && s[k] == x
  {
    k :| 0 <= k < |s| && s[k] == x;
  }

  /** Reordering changes neither the number of artifacts nor their bytes. */
  lemma {:induction false} BytesOfPermutation(a: seq<Artifact>, b: seq<Artifact>)
    requires multiset(a) == multiset(b)
    ensures |a| == |b| && Bytes(a) == Bytes(b)
    decreases |a|
  {
    assert |a| == |multiset(a)| == |multiset(b)| == |b|;
    if a != [] {
      var n := |a| - 1;
      TakeOut(a, n);
      assert a[..n] + a[n + 1..] == a[..n];
      var k := Locate(b, a[n]);
      TakeOut(b, k);
      var rest := b[..k] + b[k + 1..];
      Cancel(multiset(a[..n]), multiset(rest), a[n]);
      BytesOfPermutation(a[..n], rest);
    }
  }

  lemma {:induction false} PrefixBytes(order: seq<Artifact>, i: nat)
    requires i <= |order|
    ensures Bytes(order[..i]) <= Bytes(order)
  {
    BytesOfParts(order[..i], order[i..]);
    assert order == order[..i] + order[i..];
  }

  lemma {:induction false} RetainedLength(w: Window, order: seq<Artifact>)
    ensures |Retained(w, order)| <= |order|
  {
    if order != [] {
      RetainedLength(w, order[..|order| - 1]);
    }
  }

  /** In whatever order they are met, artifacts are all kept if and only if they are settled. */
  lemma {:induction false} AllKeptIffSettled(w: Window, order: seq<Artifact>)
    ensures Retained(w, order) == order <==> Settled(w, order)
  {
    RetainedSettled(w, order);
    if order != [] {
      var n := |order| - 1;
      RetainedLength(w, order[..n]);
      if Settled(w, order) {
        PrefixBytes(order, n);
        AllKeptIffSettled(w, order[..n]);
        assert order == order[..n] + [order[n]];
      }
    }
  }

  lemma SettledInAnyOrder(w: Window, kept: seq<Artifact>, order: seq<Artifact>)
    requires Settled(w, kept) && multiset(order) == multiset(kept)
    ensures Retained(w, order) == order
  {
    BytesOfPermutation(order, kept);
    forall a | a in order ensures Recent(w, a) {
      assert a in multiset(kept);
    }
    AllKeptIffSettled(w, order);
  }

  // ---- the directory ---------------------------------------------------------------------

  lemma {:induction false} CollectMembers(files: map<string, File>, keep: string, names: seq<string>, a: Artifact)
    ensures a in Collect(files, keep, names)
            <==> a.name in names && Superseded(files, keep, a.name) && a == Collected(files, a.name)
  {
    if names != [] {
      CollectMembers(files, keep, names[..|names| - 1], a);
    }
  }

  lemma {:induction false} CollectDistinct(files: map<string, File>, keep: string, names: seq<string>)
    requires Distinct(names)
    ensures Distinguished(Collect(files, keep, names))
  {
    if names != [] {
      var n := |names| - 1;
      CollectDistinct(files, keep, names[..n]);
      if Superseded(files, keep, names[n]) {
        CollectMembers(files, keep, names[..n], Collected(files, names[n]));
        AddDistinguished(Collect(files, keep, names[..n]), Collected(files, names[n]));
      }
    }
  }

  lemma {:induction false} RetainedDistinguished(w: Window, order: seq<Artifact>)
    requires Distinguished(order)
    ensures Distinguished(Retained(w, order))
  {
    if order != [] {
      var n := |order| - 1;
      PrefixDistinguished(order, n);
      RetainedDistinguished(w, order[..n]);
      RetainedSettled(w, order[..n]);
      var kept := Retained(w, order[..n]);
      AddDistinguished(kept, order[n]);
    }
  }

  lemma SameMembersSameBag(a: seq<Artifact>, b: seq<Artifact>)
    requires Distinguished(a) && Distinguished(b)
    requires forall x :: x in a <==> x in b
    ensures multiset(a) == multiset(b)
  {
    forall x ensures multiset(a)[x] == multiset(b)[x] {
      assert x in a <==> x in b;
      assert multiset(a)[x] <= 1 && multiset(b)[x] <= 1;
    }
  }

  /** The artifacts the walk over one scan keeps. */
  function Choice(files: map<string, File>, keep: string, names: seq<string>, w: Window): seq<Artifact> {
    Retained(w, Sorted(Collect(files, keep, names)))
  }

  predicate Dropped(files: map<string, File>, keep: string, names: seq<string>, w: Window, name: string) {
    name in names && Superseded(files, keep, name)
    && Collected(files, name) !in Choice(files, keep, names, w)
  }

  /** The directory after one scan: dropped files are gone, except those that cannot be removed. */
  function Pruned(files: map<string, File>, keep: string, names: seq<string>, w: Window, stuck: set<string>)
    : map<string, File>
  {
    map name | name in files && (!Dropped(files, keep, names, w, name) || name in stuck) :: files[name]
  }

  /** When every removal succeeds: the superseded files left are exactly the chosen ones, recent
      and within both budgets; and a recent file that went did not fit beside chosen files at
      least as new. */
  lemma PruneKeepsTheNewest(
    files: map<string, File>, matches: string -> bool, keep: string, names: seq<string>, w: Window)
    requires Scan(files, matches, names)
    ensures var after := Pruned(files, keep, names, w, {});
            var kept := Choice(files, keep, names, w);
            && Settled(w, kept)
            && (forall a :: a in kept <==>
                  matches(a.name) && Superseded(after, keep, a.name) && a == Collected(after, a.name))
            && (forall name :: name in files && name !in after ==>
                  && matches(name) && Superseded(files, keep, name)
                  && (Recent(w, Collected(files, name)) ==>
                        exists ahead :: CrowdedOut(w, kept, ahead, Collected(files, name))))
  {
    var found := Collect(files, keep, names);
    var order := Sorted(found);
    CollectDistinct(files, keep, names);
    RetainedSettled(w, order);
    RetainedDistinguished(w, order);
    forall a ensures a in order <==> a in found {
      assert a in multiset(order) <==> a in multiset(found);
    }
    var after := Pruned(files, keep, names, w, {});
    var kept := Choice(files, keep, names, w);
    forall a
      ensures a in kept <==> matches(a.name) && Superseded(after, keep, a.name) && a == Collected(after, a.name)
    {
      CollectMembers(files, keep, names, a);
    }
    forall name | name in files && name !in after && Recent(w, Collected(files, name))
      ensures exists ahead :: CrowdedOut(w, kept, ahead, Collected(files, name))
    {
      var a := Collected(files, name);
      CollectMembers(files, keep, names, a);
      var i :| 0 <= i < |order| && order[i] == a;
      KeptIffFits(w, order, i);
      PrefixDistinguished(order, i);
      RetainedDistinguished(w, order[..i]);
      assert CrowdedOut(w, kept, Retained(w, order[..i]), a);
    }
  }

  /** Distinct kept artifacts, all at least as new as `a`, leave no room for it. */
  ghost predicate CrowdedOut(w: Window, kept: seq<Artifact>, ahead: seq<Artifact>, a: Artifact) {
    && Distinguished(ahead)
    && (forall x :: x in ahead ==> x in kept && x.mtimeNs >= a.mtimeNs)
    && !Fits(w, ahead, a)
  }

  /** Pruning again at the same time removes nothing, whatever order the second scan meets the
      files in and however it breaks ties between equal timestamps. */
  lemma PruneSettles(
    files: map<string, File>, matches: string -> bool, keep: string, names: seq<string>, again: seq<string>,
    w: Window, stuck: set<string>)
    requires Scan(files, matches, names)
    requires Scan(Pruned(files, keep, names, w, {}), matches, again)
    ensures var after := Pruned(files, keep, names, w, {}); Pruned(after, keep, again, w, stuck) == after
  {
    var after := Pruned(files, keep, names, w, {});
    PruneKeepsTheNewest(files, matches, keep, names, w);
    var kept := Choice(files, keep, names, w);
    CollectDistinct(files, keep, names);
    RetainedDistinguished(w, Sorted(Collect(files, keep, names)));
    var found := Collect(after, keep, again);
    CollectDistinct(after, keep, again);
    forall a ensures a in found <==> a in kept {
      CollectMembers(after, keep, again, a);
    }
    SameMembersSameBag(found, kept);
    var order := Sorted(found);
    SettledInAnyOrder(w, kept, order);
    NothingDropped(after, keep, again, w, stuck);
  }

  lemma NothingDropped(files: map<string, File>, keep: string, names: seq<string>, w: Window, stuck: set<string>)
    requires var order := Sorted(Collect(files, keep, names)); Retained(w, order) == order
    ensures Pruned(files, keep, names, w, stuck) == files
  {
    var found := Collect(files, keep, names);
    forall name | name in files ensures !Dropped(files, keep, names, w, name) {
      if name in names && Superseded(files, keep, name) {
        var a := Collected(files, name);
        CollectMembers(files, keep, names, a);
        assert a in multiset(found);
        assert a in multiset(Sorted(found));
      }
    }
  }

  /** One artifact directory. `stuck` names the files whose removal fails. */
  class EvidenceDir {
    var files: map<string, File>
    const present: bool
    const stuck: set<string>

    constructor (files: map<string, File>, present: bool, stuck: set<string>)
      ensures this.files == files && this.present == present && this.stuck == stuck
    {
      this.files, this.present, this.stuck := files, present, stuck;
    }

    /** Lists the superseded files of one scan with their times and sizes. */
    method Find(keep: string, names: seq<string>) returns (superseded: seq<Artifact>)
      requires forall name :: name in names ==> name in files
      ensures superseded == Collect(files, keep, names)
    {
      superseded := [];
      for i := 0 to |names|
        invariant superseded == Collect(files, keep, names[..i])
      {
        assert names[..i + 1][..i] == names[..i];
        if files[names[i]].regular && !Current(keep, names[i]) {
          superseded := superseded + [match files[names[i]].stat
                                      case Some(s) => Artifact(names[i], s.mtimeNs, s.size)
                                      case None => Artifact(names[i], 0, 0)];
        }
      }
      assert names[..|names|] == names;
    }

    /** Walks the artifacts with running budgets and unlinks those it does not keep. */
    method Walk(order: seq<Artifact>, w: Window)
      requires Distinguished(order)
      modifies this
      ensures files == Without(old(files), order, Retained(w, order), stuck)
    {
      ghost var start := files;
      var retainedFiles, retainedBytes := 0, 0;
      for i := 0 to |order|
        invariant retainedFiles == |Retained(w, order[..i])| && retainedBytes == Bytes(Retained(w, order[..i]))
        invariant files == Without(start, order[..i], Retained(w, order[..i]), stuck)
      {
        var a := order[i];
        RetainedStep(w, order, i);
        WalkStep(start, w, order, i, stuck);
        var recent := w.now - a.mtimeNs as real / 1_000_000_000.0 < w.retentionSeconds;
        var withinBudget := retainedFiles < w.maxFiles && retainedBytes + a.size <= w.maxBytes;
        if recent && withinBudget {
          retainedFiles, retainedBytes := retainedFiles + 1, retainedBytes + a.size;
        } else if a.name !in stuck {
          files := files - {a.name};
        }
      }
      assert order[..|order|] == order;
    }

    /** Applies the retention window to one scan: what it leaves is `Pruned`, and the current
        incarnation's files, entries outside the scan and non-files are as they were. */
    method Prune(keep: string, names: seq<string>, w: Window)
      requires forall name :: name in names ==> name in files
      requires Distinct(names)
      modifies this
      ensures files == if present then Pruned(old(files), keep, names, w, stuck) else old(files)
      ensures forall name ::
              name in old(files) && (Current(keep, name) || name !in names || !old(files)[name].regular) ==>
        name in files && files[name] == old(files)[name]
    {
      if !present {
        return;
      }
      var superseded := Find(keep, names);
      superseded := Sorted(superseded);
      CollectDistinct(files, keep, names);
      Walk(superseded, w);
      forall name | name in old(files)
        ensures Gone(superseded, Choice(old(files), keep, names, w), stuck, name)
                <==> Dropped(old(files), keep, names, w, name) && name !in stuck
      {
        GoneIsDropped(old(files), keep, names, superseded, Choice(old(files), keep, names, w), stuck, name);
      }
    }
  }

  /** `name` belongs to an artifact of `order` that was neither kept nor stuck. */
  ghost predicate Gone(order: seq<Artifact>, kept: seq<Artifact>, stuck: set<string>, name: string) {
    name !in stuck && exists i :: 0 <= i < |order| && order[i].name == name && order[i] !in kept
  }

  ghost function Without(files: map<string, File>, order: seq<Artifact>, kept: seq<Artifact>, stuck: set<string>)
    : map<string, File>
  {
    map name | name in files && !Gone(order, kept, stuck, name) :: files[name]
  }

  /** One step of the walk keeps the artifact or does not. */
  lemma RetainedStep(w: Window, order: seq<Artifact>, i: nat)
    requires i < |order|
    ensures var kept, more := Retained(w, order[..i]), Retained(w, order[..i + 1]);
            if Recent(w, order[i]) && Fits(w, kept, order[i])
            then more == kept + [order[i]] && Bytes(more) == Bytes(kept) + order[i].size
            else more == kept
  {
    assert order[..i + 1][..i] == order[..i];
    var kept := Retained(w, order[..i]);
    assert (kept + [order[i]])[..|kept|] == kept;
  }

  lemma WalkStep(files: map<string, File>, w: Window, order: seq<Artifact>, i: nat, stuck: set<string>)
    requires Distinguished(order) && i < |order|
    ensures var kept := Retained(w, order[..i]);
            Without(files, order[..i + 1], Retained(w, order[..i + 1]), stuck) ==
            Without(files, order[..i], kept, stuck)
            - (if !(Recent(w, order[i]) && Fits(w, kept, order[i])) && order[i].name !in stuck
               then {order[i].name} else {})
  {
    RetainedStep(w, order, i);
    RetainedSettled(w, order[..i]);
    WithoutStep(files, order, i, Retained(w, order[..i]), Retained(w, order[..i + 1]), stuck);
  }

  lemma WithoutStep(
    files: map<string, File>, order: seq<Artifact>, i: nat, before: seq<Artifact>, kept: seq<Artifact>,
    stuck: set<string>)
    requires Distinguished(order) && i < |order|
    requires forall a :: a in before ==> a in order[..i]
    requires kept == before || kept == before + [order[i]]
    ensures Without(files, order[..i + 1], kept, stuck) ==
            Without(files, order[..i], before, stuck)
              - (if kept == before && order[i].name !in stuck then {order[i].name} else {})
  {
    GoneStep(order, i, before, kept, stuck);
  }

  lemma GoneStep(
    order: seq<Artifact>, i: nat, before: seq<Artifact>, kept: seq<Artifact>, stuck: set<string>)
    requires Distinguished(order) && i < |order|
    requires forall a :: a in before ==> a in order[..i]
    requires kept == before || kept == before + [order[i]]
    ensures forall name :: Gone(order[..i + 1], kept, stuck, name) <==>
      Gone(order[..i], before, stuck, name) || (kept == before && name == order[i].name && name !in stuck)
  {
    var ahead, through := order[..i], order[..i + 1];
    PrefixDistinguished(order, i);
    assert order[i] !in before;
    forall name ensures Gone(through, kept, stuck, name) <==>
        Gone(ahead, before, stuck, name) || (kept == before && name == order[i].name && name !in stuck)
    {
      if Gone(ahead, before, stuck, name) {
        var k :| 0 <= k < |ahead| && ahead[k].name == name && ahead[k] !in before;
        assert through[k] == ahead[k] && ahead[k] != order[i];
      }
      if Gone(through, kept, stuck, name) {
        var k :| 0 <= k < |through| && through[k].name == name && through[k] !in kept;
        if k < i {
          assert ahead[k] == through[k];
        }
      }
      assert through[i] == order[i];
    }
  }

  lemma GoneIsDropped(
    files: map<string, File>, keep: string, names: seq<string>, order: seq<Artifact>, kept: seq<Artifact>,
    stuck: set<string>, name: string)
    requires name in files
    requires forall a :: a in multiset(order) <==> a in multiset(Collect(files, keep, names))
    ensures Gone(order, kept, stuck, name) <==>
      name in names && Superseded(files, keep, name) && Collected(files, name) !in kept && name !in stuck
  {
    var a := Collected(files, name);
    CollectMembers(files, keep, names, a);
    if Gone(order, kept, stuck, name) {
      var i :| 0 <= i < |order| && order[i].name == name && order[i] !in kept;
      assert order[i] in multiset(order);
      CollectMembers(files, keep, names, order[i]);
    }
    if name in names && Superseded(files, keep, name) && a !in kept {
      assert a in multiset(order);
    }
  }
}
