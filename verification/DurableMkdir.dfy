/** Creating a directory hierarchy so that every level survives a crash.
    Models make_directory_durable in src/lubko/durable.py. */
module DurableMkdir {

  /** A path as its components from the root; the root is its own parent. */
  type Path = seq<string>

  function Parent(p: Path): Path { if p == [] then [] else p[..|p| - 1] }

  /** The directories that exist, and those whose entry is recorded in their parent on disk. */
  datatype Tree = Tree(dirs: set<Path>, recorded: set<Path>)

  function Mkdir(t: Tree, p: Path): Tree { t.(dirs := t.dirs + {p}) }

  /** Fsyncing a directory records every entry in it. */
  function Sync(t: Tree, d: Path): Tree {
    t.(recorded := t.recorded + set c | c in t.dirs && c != [] && Parent(c) == d)
  }

  /** The nearest existing ancestor, the path itself included. */
  function FirstExisting(dirs: set<Path>, p: Path): (r: Path)
    ensures |r| <= |p| && r == p[..|r|]
    ensures [] in dirs ==> r in dirs
    ensures forall n :: |r| < n <= |p| ==> p[..n] !in dirs
  {
    if p in dirs || p == [] then p else
      assert forall n :: 0 <= n < |p| ==> p[..n] == Parent(p)[..n];
      assert p[..|p|] == p;
      FirstExisting(dirs, Parent(p))
  }

  /** Every level down to the path is recorded; every level strictly above it is. */
  ghost predicate ChainRecorded(recorded: set<Path>, p: Path) {
    forall n :: 0 <= n <= |p| ==> p[..n] in recorded
  }

  ghost predicate AncestorsRecorded(recorded: set<Path>, p: Path) {
    forall n :: 0 <= n < |p| ==> p[..n] in recorded
  }

  class Hierarchy {
    var tree: Tree
    var clock: nat
    const fault: nat -> bool

    ghost predicate Valid()
      reads this
    {
      [] in tree.dirs && [] in tree.recorded
    }

    constructor (tree: Tree, fault: nat -> bool)
      requires [] in tree.dirs && [] in tree.recorded
      ensures Valid() && this.tree == tree && this.fault == fault
    {
      this.tree, this.fault, clock := tree, fault, 0;
    }

    method Fails() returns (failed: bool)
      modifies this`clock
      ensures clock == old(clock) + 1 && failed == fault(old(clock))
    {
      failed := fault(clock);
      clock := clock + 1;
    }

    /** The missing levels, deepest first, and the existing level above them. */
    method FindMissing(p: Path) returns (missing: seq<Path>, first: Path)
      requires Valid()
      ensures first == FirstExisting(tree.dirs, p)
      ensures |missing| == |p| - |first|
      ensures forall i :: 0 <= i < |missing| ==> missing[i] == p[..|p| - i]
    {
      missing, first := [], p;
      while first !in tree.dirs
        invariant |missing| <= |p| && first == p[..|p| - |missing|]
        invariant FirstExisting(tree.dirs, first) == FirstExisting(tree.dirs, p)
        invariant forall i :: 0 <= i < |missing| ==> missing[i] == p[..|p| - i]
        decreases |first|
      {
        missing := missing + [first];
        first := Parent(first);
      }
    }

    /** Creates the missing levels downwards, recording each in its parent. */
    method MakeLevels(p: Path, missing: seq<Path>, first: Path) returns (ok: bool)
      requires Valid() && |missing| + |first| == |p| && first == p[..|first|] && first in tree.dirs
      requires forall i :: 0 <= i < |missing| ==> missing[i] == p[..|p| - i]
      modifies this
      ensures Valid() && old(tree).dirs <= tree.dirs && old(tree).recorded <= tree.recorded
      ensures forall q :: q in tree.dirs && q !in old(tree).dirs ==> first < q <= p
      ensures forall q :: q in tree.recorded && q !in old(tree).recorded ==> |q| > |first|
      ensures ok ==> forall n :: |first| < n <= |p| ==> p[..n] in tree.dirs && p[..n] in tree.recorded
      ensures old(clock) <= clock && (!ok ==> exists n :: old(clock) <= n < clock && fault(n))
      ensures ok ==> clock == old(clock) + 2 * |missing| && forall n :: old(clock) <= n < clock ==> !fault(n)
    {
      var i := |missing|;
      while i > 0
        invariant 0 <= i <= |missing| && Valid() && old(clock) <= clock
        invariant old(tree).dirs <= tree.dirs && old(tree).recorded <= tree.recorded
        invariant forall q :: q in tree.dirs && q !in old(tree).dirs ==> first < q <= p
        invariant forall q :: q in tree.recorded && q !in old(tree).recorded ==> |q| > |first|
        invariant forall n :: |first| < n <= |p| - i ==> p[..n] in tree.dirs && p[..n] in tree.recorded
        invariant clock == old(clock) + 2 * (|missing| - i) && forall n :: old(clock) <= n < clock ==> !fault(n)
      {
        i := i - 1;
        var child := missing[i];
        var failed := Fails();
        if failed {
          return false;
        }
        tree := Mkdir(tree, child);
        failed := Fails();
        if failed {
          return false;
        }
        tree := Sync(tree, Parent(child));
      }
      ok := true;
    }

    /** One successful call leaves the whole chain down to the target recorded exactly when every
        level strictly above the first existing one was recorded before; it never unrecords
        anything, creates no other directory, and fails only if a step of it fails. */
    method MakeDirectoryDurable(p: Path) returns (ok: bool)
      requires Valid()
      modifies this
      ensures Valid() && old(tree).dirs <= tree.dirs && old(tree).recorded <= tree.recorded
      ensures forall q :: q in tree.dirs && q !in old(tree).dirs ==> FirstExisting(old(tree).dirs, p) < q <= p
      ensures ok ==> forall n :: |FirstExisting(old(tree).dirs, p)| <= n <= |p| ==>
                p[..n] in tree.dirs && p[..n] in tree.recorded
      ensures ok ==>
              (ChainRecorded(tree.recorded, p) <==>
               AncestorsRecorded(old(tree).recorded, FirstExisting(old(tree).dirs, p)))
      ensures !ok ==> exists n :: old(clock) <= n < clock && fault(n)
      ensures ok ==>
              && clock == old(clock) + 2 * (|p| - |FirstExisting(old(tree).dirs, p)|) + 1
              && forall n :: old(clock) <= n < clock ==> !fault(n)
    {
      var missing, first := FindMissing(p);
      ok := MakeLevels(p, missing, first);
      if !ok {
        return;
      }
      var failed := Fails();
      if failed {
        return false;
      }
      tree := Sync(tree, Parent(first));
      assert first in tree.recorded && first == p[..|first|];
      assert forall n :: 0 <= n < |first| ==> first[..n] == p[..n];
    }
  }

  /** The induction the documentation appeals to fails with three concurrent creators: the first
      has made a level but not recorded it, the second has made a level below and recorded only
      that, and the third then finds its target present, records it again, and returns while
      the first level can still be lost in a crash. */
  lemma ThreeCreatorsDefeatInduction(a: string, b: string)
    ensures var empty := Tree({[]}, {[]});
            var first := Mkdir(empty, [a]);                  // creator 1: made, not yet recorded
            var second := Sync(Mkdir(first, [a, b]), [a]);   // creator 2: records only its child
            var third := Sync(second, Parent(FirstExisting(second.dirs, [a, b])));
            && FirstExisting(first.dirs, [a, b]) == [a]
            && FirstExisting(second.dirs, [a, b]) == [a, b]
            && [a, b] in third.recorded && !ChainRecorded(third.recorded, [a, b])
  {
    var empty := Tree({[]}, {[]});
    var first := Mkdir(empty, [a]);
    var second := Sync(Mkdir(first, [a, b]), [a]);
    var third := Sync(second, Parent(FirstExisting(second.dirs, [a, b])));
    assert Parent([a, b]) == [a] && Parent([a]) == [];
    assert [a] in first.dirs && [a, b] !in first.dirs && [a, b] in second.dirs;
    assert FirstExisting(first.dirs, [a, b]) == [a] && FirstExisting(second.dirs, [a, b]) == [a, b];
    assert [a, b][..1] == [a] && [a] !in third.recorded;
  }
}
