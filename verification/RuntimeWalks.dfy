/** The walks over one runtime tree, as the program performs them: listing by listing, entry by
    entry, with listings in any order and with failures. */
module RuntimeWalks {
  import opened Common
  import opened Unicode
  import opened TreeEncoding
  import opened RuntimeTree
  import opened RuntimeDigest

  lemma OnceAppend(a: seq<Path>, b: seq<Path>)
    requires Once(a) && Once(b) && forall p :: p in a ==> p !in b
    ensures Once(a + b)
  {
    var s := a + b;
    forall i, j | 0 <= i < j < |s| ensures s[i] != s[j] {
      assert i < |a| ==> s[i] == a[i] && a[i] in a;
      assert j >= |a| ==> s[j] == b[j - |a|] && b[j - |a|] in b;
      assert j < |a| ==> s[j] == a[j];
      assert i >= |a| ==> s[i] == b[i - |a|];
    }
  }

  lemma {:induction false} AllFramablePrefix(a: seq<Bytes>, b: seq<Bytes>)
    ensures AllFramable(a + b) <==> AllFramable(a) && AllFramable(b)
  {
    if AllFramable(a + b) {
      forall f | f in a ensures Framable(f) { assert f in a + b; }
      forall f | f in b ensures Framable(f) { assert f in a + b; }
    }
  }

  /** A collected entry lies below `dir`, in one of the named entries, and is visible. */
  ghost predicate Found(nodes: Nodes, dir: Path, names: seq<string>, p: Path) {
    p in nodes && Extends(p, dir) && Visible(p) && p[|dir|] in names
  }

  ghost function Reach(nodes: Nodes, dir: Path): set<Path> { Under(nodes, dir) + {dir} }

  ghost function Entries(dir: Path, names: seq<string>): set<Path> { set name | name in names :: dir + [name] }

  /** What the system answers during one walk: the listings, and the entries that cannot be examined or
      read. */
  datatype Replies = Replies(order: Listings, broken: Path -> bool)

  /** The entries that can be examined and have no write bit. */
  ghost function Sealed(nodes: Nodes, broken: Path -> bool): set<Path> {
    set p | p in nodes && !Writable(nodes[p]) && !broken(p)
  }

  /** Every entry the digest sees can be examined and read. */
  ghost predicate Intact(nodes: Nodes, broken: Path -> bool) {
    forall p :: p in nodes && Visible(p) ==> !broken(p)
  }

  ghost predicate HasRoot(nodes: Nodes) { [] in nodes && nodes[[]].Dir? }

  /** What the sealed walk can tell. */
  ghost predicate LooksSealed(nodes: Nodes, x: Replies) {
    HasRoot(nodes) && Visited(nodes, x.order, []) <= Sealed(nodes, x.broken)
  }

  /** No directory the walk failed to list hides a writable entry. */
  ghost predicate NothingHidden(nodes: Nodes, order: Listings) {
    forall p :: p in nodes && p !in Visited(nodes, order, []) ==> !Writable(nodes[p])
  }

  /** A digest walk succeeds and finds the expected digest. */
  ghost predicate Digests(nodes: Nodes, x: Replies, content: Bytes -> Bytes, hash: Bytes -> Bytes, expected: Bytes)
    requires ValidView(Seen(nodes, content))
  {
    && HasRoot(nodes) && Listable(nodes, x.order) && Intact(nodes, x.broken)
    && DigestOf(nodes, content, hash) == Ok(expected)
  }

  /** Every directory from `dir` down to the one that holds `p` is listed. */
  ghost predicate ListedTo(order: Listings, dir: Path, p: Path) {
    forall d: Path :: |dir| <= |d| < |p| && d == p[..|d|] ==> order(d).Some?
  }

  /** What a walk from `dir` looks at: the directories it can list, and the entries of those. */
  ghost predicate Inspected(order: Listings, dir: Path, p: Path) {
    if p == dir then order(dir).Some? else ListedTo(order, dir, p)
  }

  ghost function Visited(nodes: Nodes, order: Listings, dir: Path): set<Path> {
    set p | p in Reach(nodes, dir) && Inspected(order, dir, p)
  }

  /** The part of it seen by descending into the named entries. */
  ghost function Below(nodes: Nodes, order: Listings, dir: Path, names: seq<string>): set<Path> {
    set p | p in Under(nodes, dir) && p[|dir|] in names && EntryVisited(nodes, order, dir + [p[|dir|]], p)
  }

  ghost predicate EntryVisited(nodes: Nodes, order: Listings, child: Path, p: Path) {
    child in nodes && nodes[child].Dir? && p in Visited(nodes, order, child)
  }

  lemma BelowMore(nodes: Nodes, order: Listings, dir: Path, names: seq<string>, name: string)
    requires dir + [name] in nodes
    ensures Below(nodes, order, dir, names + [name]) ==
            Below(nodes, order, dir, names)
            + if nodes[dir + [name]].Dir? then Visited(nodes, order, dir + [name]) else {}
  {
    var child := dir + [name];
    forall p | p in Reach(nodes, child) ensures p in Under(nodes, dir) && p[|dir|] == name {
      assert child[..|dir|] == dir && child[|dir|] == name;
      assert p[..|dir|] == p[..|child|][..|dir|] && p[|dir|] == p[..|child|][|dir|];
    }
  }

  /** A listed directory: itself, its entries, and what lies below the directories among them. */
  lemma VisitedSplits(nodes: Nodes, order: Listings, dir: Path, names: seq<string>)
    requires Wf(nodes) && dir in nodes && Lists(nodes, dir, names) && order(dir) == Some(names)
    ensures Visited(nodes, order, dir) == Entries(dir, names) + {dir} + Below(nodes, order, dir, names)
  {
    EntriesReached(nodes, dir, names);
    forall p | p in Under(nodes, dir)
      ensures p in Visited(nodes, order, dir) <==> p in Entries(dir, names) || p in Below(nodes, order, dir, names)
    {
      UnderSplits(nodes, dir, p);
      var child := dir + [p[|dir|]];
      assert p[|dir|] in names && child in Entries(dir, names);
      if p == child {
        assert forall d: Path :: |dir| <= |d| < |p| && d == p[..|d|] ==> d == dir;
      } else {
        DeeperVisited(order, dir, child, p);
      }
    }
  }

  lemma DeeperVisited(order: Listings, dir: Path, child: Path, p: Path)
    requires |child| == |dir| + 1 && child[..|dir|] == dir && Extends(p, child) && order(dir).Some?
    ensures Inspected(order, dir, p) <==> Inspected(order, child, p)
  {
    assert p[..|dir|] == p[..|child|][..|dir|] == dir;
    if ListedTo(order, child, p) {
      forall d: Path | |dir| <= |d| < |p| && d == p[..|d|] ensures order(d).Some? {
        if |d| == |dir| { assert d == dir; }
      }
    }
  }

  lemma NothingVisited(nodes: Nodes, order: Listings, dir: Path)
    requires order(dir).None?
    ensures Visited(nodes, order, dir) == {}
  {
    forall p | p in Reach(nodes, dir) ensures !Inspected(order, dir, p) {
      if p != dir { assert dir == p[..|dir|]; }
    }
  }

  /** When every directory can be listed a walk from the root looks at everything. */
  lemma AllVisited(nodes: Nodes, order: Listings)
    requires Wf(nodes) && Listable(nodes, order) && [] in nodes && nodes[[]].Dir?
    ensures Visited(nodes, order, []) == nodes.Keys
  {
    forall p | p in nodes ensures p in Visited(nodes, order, []) {
      forall d: Path | |d| < |p| && d == p[..|d|] ensures order(d).Some? {
        WfAncestor(nodes, p, |d|);
      }
    }
  }

  lemma BelowGrows(nodes: Nodes, order: Listings, dir: Path, names: seq<string>, n: nat)
    requires n <= |names|
    ensures Below(nodes, order, dir, names[..n]) <= Below(nodes, order, dir, names)
  {}

  lemma BelowSame(nodes: Nodes, c: Change, at: set<Path>, order: Listings, dir: Path, names: seq<string>)
    ensures Below(Touch(nodes, c, at), order, dir, names) == Below(nodes, order, dir, names)
  {
    var touched := Touch(nodes, c, at);
    assert forall p :: p in touched <==> p in nodes;
    assert forall p :: p in nodes ==> (touched[p].Dir? <==> nodes[p].Dir?);
    assert forall d :: Visited(touched, order, d) == Visited(nodes, order, d);
  }

  lemma EntriesReached(nodes: Nodes, dir: Path, names: seq<string>)
    requires Lists(nodes, dir, names)
    ensures Entries(dir, names) <= Under(nodes, dir)
  {
    forall p | p in Entries(dir, names) ensures p in Under(nodes, dir) {
      var name :| name in names && p == dir + [name];
      assert p[..|dir|] == dir;
    }
  }

  lemma TouchKeeps(nodes: Nodes, c: Change, at: set<Path>, order: Listings, dir: Path)
    requires Wf(nodes) && Answers(nodes, order)
    ensures var after := Touch(nodes, c, at);
            && Wf(after) && Answers(after, order)
            && (Listable(nodes, order) ==> Listable(after, order))
            && (forall d :: Under(after, d) == Under(nodes, d) && Visited(after, order, d) == Visited(nodes, order, d))
            && (forall names :: Lists(nodes, dir, names) ==> Lists(after, dir, names))
  {
    TouchInvisible(nodes, c, at, (x: Bytes) => x);
    TouchListings(nodes, c, at, order);
  }

  /** Every directory among the collected entries was listed. */
  ghost predicate AllListed(nodes: Nodes, order: Listings, entries: seq<Path>) {
    forall p :: p in entries && p in nodes && nodes[p].Dir? ==> order(p).Some?
  }

  class Runtime {
    var nodes: Nodes
    const frozen: set<Path>

    constructor (nodes: Nodes, frozen: set<Path>)
      ensures this.nodes == nodes && this.frozen == frozen
    {
      this.nodes, this.frozen := nodes, frozen;
    }

    /** `chmod` of one entry, never through a link; a failure is ignored. */
    method ChmodAt(c: Change, p: Path)
      requires p in nodes
      modifies this
      ensures nodes == Touch(old(nodes), c, {p} - frozen)
    {
      if p !in frozen && !nodes[p].Link? {
        nodes := nodes[p := nodes[p].(mode := ChangedMode(c, nodes[p].mode))];
      }
    }

    /** The entries of one directory, then the directory itself. */
    method ChmodEntries(c: Change, dir: Path, names: seq<string>) returns (ghost touched: set<Path>)
      requires dir in nodes && forall name :: name in names ==> dir + [name] in nodes
      modifies this
      ensures nodes == Touch(old(nodes), c, touched)
      ensures touched == Entries(dir, names) + {dir} - frozen
    {
      touched := {};
      ghost var start := nodes;
      for i := 0 to |names|
        invariant nodes == Touch(start, c, touched)
        invariant touched == Entries(dir, names[..i]) - frozen
      {
        var p := dir + [names[i]];
        assert names[i] in names;
        assert names[..i + 1] == names[..i] + [names[i]];
        assert Entries(dir, names[..i + 1]) == Entries(dir, names[..i]) + {p};
        TouchTwice(start, c, touched, {p} - frozen);
        ChmodAt(c, p);
        touched := touched + ({p} - frozen);
      }
      assert names[..|names|] == names;
      TouchTwice(start, c, touched, {dir} - frozen);
      ChmodAt(c, dir);
      touched := touched + ({dir} - frozen);
    }

    /** Seals or unseals what a walk from `dir` looks at, links and refusals aside. */
    method ChmodTree(c: Change, dir: Path, order: Listings)
      requires Wf(nodes) && Answers(nodes, order) && dir in nodes && nodes[dir].Dir?
      modifies this
      decreases |Under(nodes, dir)|, 1
      ensures nodes == Touch(old(nodes), c, Visited(old(nodes), order, dir) - frozen)
    {
      ghost var start := nodes;
      var listing := order(dir);
      if listing.None? {
        NothingVisited(start, order, dir);
        return;
      }
      var names := listing.value;
      assert Lists(start, dir, names);
      ghost var entries := ChmodEntries(c, dir, names);
      TouchKeeps(start, c, entries, order, dir);
      ghost var below := ChmodBelow(c, dir, names, order);
      TouchTwice(start, c, entries, below);
      VisitedSplits(start, order, dir, names);
      BelowSame(start, c, entries, order, dir, names);
      assert entries + below == Visited(start, order, dir) - frozen;
    }

    /** The walk's descent into the directories among the entries. */
    method ChmodBelow(c: Change, dir: Path, names: seq<string>, order: Listings) returns (ghost touched: set<Path>)
      requires Wf(nodes) && Answers(nodes, order) && Lists(nodes, dir, names)
      modifies this
      decreases |Under(nodes, dir)|, 0
      ensures nodes == Touch(old(nodes), c, touched)
      ensures touched == Below(old(nodes), order, dir, names) - frozen
    {
      touched := {};
      ghost var start := nodes;
      for i := 0 to |names|
        invariant nodes == Touch(start, c, touched)
        invariant touched == Below(start, order, dir, names[..i]) - frozen
      {
        var p := dir + [names[i]];
        assert names[i] in names;
        assert names[..i + 1] == names[..i] + [names[i]];
        UnderShrinks(start, dir, names[i]);
        BelowMore(start, order, dir, names[..i], names[i]);
        if nodes[p].Dir? {
          TouchKeeps(start, c, touched, order, p);
          ChmodTree(c, p, order);
          ghost var sub := Visited(start, order, p) - frozen;
          TouchTwice(start, c, touched, sub);
          touched := touched + sub;
        }
      }
      assert names[..|names|] == names;
    }

    /** Whether all that a walk from `dir` looks at can be examined and has no write bit, links aside. */
    method NoneWritable(dir: Path, x: Replies) returns (ok: bool)
      requires Wf(nodes) && Answers(nodes, x.order) && dir in nodes && nodes[dir].Dir?
      decreases |Under(nodes, dir)|, 1
      ensures ok <==> Visited(nodes, x.order, dir) <= Sealed(nodes, x.broken)
    {
      var listing := x.order(dir);
      if listing.None? {
        NothingVisited(nodes, x.order, dir);
        return true;
      }
      var names := listing.value;
      assert Lists(nodes, dir, names);
      var entries := EntriesSealed(dir, names, x.broken);
      VisitedSplits(nodes, x.order, dir, names);
      if !entries || x.broken(dir) || Writable(nodes[dir]) {
        assert dir in Visited(nodes, x.order, dir);
        return false;
      }
      ok := NoneWritableBelow(dir, names, x);
    }

    method EntriesSealed(dir: Path, names: seq<string>, broken: Path -> bool) returns (ok: bool)
      requires forall name :: name in names ==> dir + [name] in nodes
      ensures ok <==> Entries(dir, names) <= Sealed(nodes, broken)
    {
      for i := 0 to |names|
        invariant Entries(dir, names[..i]) <= Sealed(nodes, broken)
      {
        var p := dir + [names[i]];
        assert names[i] in names && p in Entries(dir, names);
        assert names[..i + 1] == names[..i] + [names[i]];
        if broken(p) || Writable(nodes[p]) {
          return false;
        }
      }
      assert names[..|names|] == names;
      ok := true;
    }

    method NoneWritableBelow(dir: Path, names: seq<string>, x: Replies) returns (ok: bool)
      requires Wf(nodes) && Answers(nodes, x.order) && Lists(nodes, dir, names)
      decreases |Under(nodes, dir)|, 0
      ensures ok <==> Below(nodes, x.order, dir, names) <= Sealed(nodes, x.broken)
    {
      for i := 0 to |names|
        invariant Below(nodes, x.order, dir, names[..i]) <= Sealed(nodes, x.broken)
      {
        var p := dir + [names[i]];
        assert names[i] in names;
        assert names[..i + 1] == names[..i] + [names[i]];
        UnderShrinks(nodes, dir, names[i]);
        BelowMore(nodes, x.order, dir, names[..i], names[i]);
        if nodes[p].Dir? {
          var below := NoneWritable(p, x);
          if !below {
            BelowGrows(nodes, x.order, dir, names, i + 1);
            return false;
          }
        }
      }
      assert names[..|names|] == names;
      ok := true;
    }

    /** Whether the tree is sealed, as far as the walk can tell: yes exactly when the root is a
        directory and everything in a listed directory, and every listed directory itself, can be
        examined and is not writable. */
    method TreeIsReadOnly(x: Replies) returns (ok: bool)
      requires Wf(nodes) && Answers(nodes, x.order)
      ensures ok <==> LooksSealed(nodes, x)
      ensures ok ==> (ReadOnly(nodes) <==> NothingHidden(nodes, x.order))
      ensures Listable(nodes, x.order) && ok ==> ReadOnly(nodes)
    {
      if [] !in nodes || !nodes[[]].Dir? {
        return false;
      }
      ok := NoneWritable([], x);
      if ok {
        SealedReadOnly(nodes, x);
      }
    }

    /** Every visible path below `dir`, once; a directory that cannot be listed refuses. */
    method Collect(dir: Path, order: Listings) returns (r: Result<seq<Path>>)
      requires Wf(nodes) && Answers(nodes, order) && dir in nodes && nodes[dir].Dir?
      requires dir == [] || Visible(dir)
      decreases |Under(nodes, dir)|
      ensures Listable(nodes, order) ==> r.Ok?
      ensures r.Ok? ==> Once(r.value) && forall p :: p in r.value <==> p in Under(nodes, dir) && Visible(p)
      ensures r.Ok? ==> order(dir).Some? && AllListed(nodes, order, r.value)
    {
      var listing := order(dir);
      if listing.None? {
        return Refused;
      }
      var names := listing.value;
      assert Lists(nodes, dir, names);
      var entries: seq<Path> := [];
      for i := 0 to |names|
        invariant Once(entries)
        invariant forall p :: p in entries <==> Found(nodes, dir, names[..i], p)
        invariant AllListed(nodes, order, entries)
      {
        var name := names[i];
        var p := dir + [name];
        assert name in names && Extends(p, dir) && p[|dir|] == name;
        assert names[..i + 1] == names[..i] + [name] && name !in names[..i];
        if dir != [] || name != ManifestName {
          assert Visible(p);
          var found := [p];
          if nodes[p].Dir? {
            UnderShrinks(nodes, dir, name);
            var below := Collect(p, order);
            if below.Refused? {
              return Refused;
            }
            OnceAppend(found, below.value);
            found := found + below.value;
          } else {
            NothingUnder(nodes, p);
          }
          FoundStep(nodes, dir, names[..i], name, found);
          OnceAppend(entries, found);
          entries := entries + found;
        } else {
          ManifestSkipped(nodes, names[..i]);
        }
      }
      assert names[..|names|] == names;
      forall p ensures p in entries <==> p in Under(nodes, dir) && Visible(p) {
        if p in Under(nodes, dir) {
          UnderSplits(nodes, dir, p);
        }
      }
      r := Ok(entries);
    }

    /** Digests the tree. Nothing in the result depends on the order of the listings; it is refused
        exactly when the root is no directory, a listing or a read fails, or the tree cannot be
        streamed. A manifest that is a directory is skipped with all below it. */
    method Digest(x: Replies, content: Bytes -> Bytes, hash: Bytes -> Bytes) returns (r: Result<Bytes>)
      requires Wf(nodes) && Answers(nodes, x.order)
      ensures ValidView(Seen(nodes, content))
      ensures r.Ok? ==> r == DigestOf(nodes, content, hash)
      ensures HasRoot(nodes) && Listable(nodes, x.order) && Intact(nodes, x.broken) ==>
              r == DigestOf(nodes, content, hash)
      ensures r.Ok? ==> HasRoot(nodes) && Intact(nodes, x.broken)
      ensures r.Ok? && !ManifestIsDir(nodes) ==> Listable(nodes, x.order)
    {
      SeenValid(nodes, content);
      ghost var view := Seen(nodes, content);
      if [] !in nodes || !nodes[[]].Dir? {
        return Refused;
      }
      var collected := Collect([], x.order);
      if collected.Refused? {
        return Refused;
      }
      forall p ensures p in collected.value <==> p in view {}
      if !ManifestIsDir(nodes) {
        VisibleListed(nodes, x.order, collected.value);
      }
      var entries := Sorted(collected.value);
      OrderedUnique(entries, InOrder(view.Keys));
      var readable := Examine(entries, x.broken);
      assert Intact(nodes, x.broken) <==> forall p :: p in entries ==> !x.broken(p);
      if !readable {
        return Refused;
      }
      var stream := Absorb(entries, content);
      r := if stream.Ok? then Ok(hash(stream.value)) else Refused;
    }

    /** Whether every entry can be examined and read. */
    method Examine(entries: seq<Path>, broken: Path -> bool) returns (ok: bool)
      ensures ok <==> forall p :: p in entries ==> !broken(p)
    {
      for i := 0 to |entries|
        invariant forall k :: 0 <= k < i ==> !broken(entries[k])
      {
        if broken(entries[i]) {
          return false;
        }
      }
      ok := true;
    }

    /** Feeds the sorted entries to the hasher. */
    method Absorb(entries: seq<Path>, content: Bytes -> Bytes) returns (r: Result<Bytes>)
      requires forall p :: p in entries ==> p in nodes && Visible(p)
      ensures r == Stream(Items(Seen(nodes, content), entries))
    {
      ghost var items := Items(Seen(nodes, content), entries);
      var stream: Bytes := [];
      for i := 0 to |entries|
        invariant AllFramable(AllFields(items[..i]))
        invariant stream == Frames(AllFields(items[..i]))
      {
        var p := entries[i];
        assert p in entries;
        var fields := Fields(Item(Join(p), KindOf(nodes[p], content)));
        assert fields == Fields(items[i]);
        var framed := Update(stream, fields);
        StreamStep(items, i);
        if framed.Refused? {
          StreamFails(items, i);
          return Refused;
        }
        FramesAppend(AllFields(items[..i]), fields);
        stream := framed.value;
      }
      assert items[..|entries|] == items;
      r := Ok(stream);
    }

    /** Seals the runtime. Whatever fails, the digest sees the same tree; when nothing fails, no
        entry is left writable. */
    method SealRuntime(order: Listings)
      requires Wf(nodes) && Answers(nodes, order)
      modifies this
      ensures Rechmod(old(nodes), nodes, Seal)
      ensures [] in old(nodes) && old(nodes)[[]].Dir? ==>
        nodes == Touch(old(nodes), Seal, Visited(old(nodes), order, []) - frozen)
      ensures [] in nodes && nodes[[]].Dir? && Listable(nodes, order) && frozen == {} ==> ReadOnly(nodes)
    {
      ghost var start := nodes;
      if [] !in nodes || !nodes[[]].Dir? {
        assert nodes == Touch(start, Seal, {});
        return;
      }
      ChmodTree(Seal, [], order);
      if Listable(nodes, order) {
        forall dir | dir in start && start[dir].Dir? ensures order(dir).Some? {
          assert dir in nodes && nodes[dir].Dir?;
        }
        AllVisited(start, order);
      }
    }

    /** Makes the runtime writable by its owner again, invisibly to the digest. */
    method UnsealRuntime(order: Listings)
      requires Wf(nodes) && Answers(nodes, order)
      modifies this
      ensures Rechmod(old(nodes), nodes, Unseal)
      ensures [] in old(nodes) && old(nodes)[[]].Dir? ==>
        nodes == Touch(old(nodes), Unseal, Visited(old(nodes), order, []) - frozen)
      ensures [] in nodes && nodes[[]].Dir? && Listable(nodes, order) && frozen == {} ==>
        forall p :: p in nodes && !nodes[p].Link? ==> nodes[p].mode.owner.write
    {
      ghost var start := nodes;
      if [] !in nodes || !nodes[[]].Dir? {
        assert nodes == Touch(start, Unseal, {});
        return;
      }
      ChmodTree(Unseal, [], order);
      if Listable(nodes, order) {
        forall dir | dir in start && start[dir].Dir? ensures order(dir).Some? {
          assert dir in nodes && nodes[dir].Dir?;
        }
        AllVisited(start, order);
      }
    }

    /** Whether a commit runtime may be launched. `complete` stands for the entry-point checks,
        `expected` for the digest found in a readable manifest that binds the commit, `current` for
        the commit being the confirmed one; a manifest that is missing or a directory cannot be read.
        Each walk is answered anew. The decision is exact: only a confirmed runtime whose digest
        matches is resealed in place, and looked at and digested again. A yes means that the tree is
        read-only exactly as far as the answering walk's listings reached. */
    method Usable(
      complete: bool, expected: Option<Bytes>, current: bool, content: Bytes -> Bytes, hash: Bytes -> Bytes,
      digest: Replies, walk: Replies, seal: Listings, rewalk: Replies, redigest: Replies)
      returns (ok: bool, ghost last: Replies)
      requires Wf(nodes) && Answers(nodes, digest.order) && Answers(nodes, walk.order) && Answers(nodes, seal)
      requires Answers(nodes, rewalk.order) && Answers(nodes, redigest.order)
      modifies this
      ensures Wf(nodes) && ValidView(Seen(nodes, content)) && ValidView(Seen(old(nodes), content))
      ensures Resealed(old(nodes), seal, frozen) == nodes || nodes == old(nodes)
      ensures ValidView(Seen(Resealed(old(nodes), seal, frozen), content))
      ensures var bound := complete && HasManifest(old(nodes)) && expected.Some?
                           && Digests(old(nodes), digest, content, hash, expected.value);
              var after := Resealed(old(nodes), seal, frozen);
              && (nodes == if bound && !LooksSealed(old(nodes), walk) && current then after else old(nodes))
              && (ok <==> bound && (LooksSealed(old(nodes), walk)
                                    || (current && LooksSealed(after, rewalk)
                                       && Digests(after, redigest, content, hash, expected.value))))
      ensures ok ==>
              && (last == walk || last == rewalk) && LooksSealed(nodes, last)
              && (ReadOnly(nodes) <==> NothingHidden(nodes, last.order))
      ensures ok && (last.order == digest.order || Listable(nodes, last.order)) ==> ReadOnly(nodes)
    {
      last := walk;
      ghost var start := nodes;
      SeenValid(start, content);
      ResealedSame(start, seal, frozen, digest.order, content);
      if !complete || [ManifestName] !in nodes || nodes[[ManifestName]].Dir? || expected.None? {
        return false, last;
      }
      var first := Digest(digest, content, hash);
      if first != Ok(expected.value) {
        return false, last;
      }
      var sealed := TreeIsReadOnly(walk);
      if sealed {
        return true, last;
      }
      if !current {
        return false, last;
      }
      last := rewalk;
      SealRuntime(seal);
      ResealedSame(start, seal, frozen, rewalk.order, content);
      ResealedSame(start, seal, frozen, redigest.order, content);
      sealed := TreeIsReadOnly(rewalk);
      if !sealed {
        return false, last;
      }
      var again := Digest(redigest, content, hash);
      ok := again == Ok(expected.value);
    }
  }

  ghost predicate HasManifest(nodes: Nodes) { [ManifestName] in nodes && !nodes[[ManifestName]].Dir? }

  /** The tree after a sealing walk. */
  ghost function Resealed(nodes: Nodes, seal: Listings, frozen: set<Path>): Nodes {
    Touch(nodes, Seal, Visited(nodes, seal, []) - frozen)
  }

  lemma ResealedSame(nodes: Nodes, seal: Listings, frozen: set<Path>, order: Listings, content: Bytes -> Bytes)
    requires Wf(nodes) && Answers(nodes, order)
    ensures var after := Resealed(nodes, seal, frozen);
            && Wf(after) && Answers(after, order) && (Listable(nodes, order) <==> Listable(after, order))
            && Seen(after, content) == Seen(nodes, content)
            && (HasRoot(nodes) <==> HasRoot(after)) && (HasManifest(nodes) <==> HasManifest(after))
  {
    SealedSame(nodes, Resealed(nodes, seal, frozen), order, content);
  }

  lemma SealedReadOnly(nodes: Nodes, x: Replies)
    requires Wf(nodes) && LooksSealed(nodes, x)
    ensures ReadOnly(nodes) <==> NothingHidden(nodes, x.order)
    ensures Listable(nodes, x.order) ==> ReadOnly(nodes)
  {
    if Listable(nodes, x.order) {
      AllVisited(nodes, x.order);
    }
    forall p | p in nodes && p in Visited(nodes, x.order, []) ensures !Writable(nodes[p]) {
      assert p in Sealed(nodes, x.broken);
    }
  }

  // ---- a deceived launch -----------------------------------------------------------------

  lemma {:induction false} Utf8Short(text: string)
    ensures |Utf8(text)| <= 4 * |text|
  {
    if text != "" {
      Utf8Short(text[1..]);
    }
  }

  /** Small enough for any length prefix. */
  predicate Short(item: Item) {
    |item.path| <= 60 && (item.kind.Symlink? ==> |item.kind.target| <= 60)
      && (item.kind.Regular? ==> |item.kind.digest| <= 240)
  }

  lemma ShortFramable(item: Item)
    requires Short(item)
    ensures AllFramable(Fields(item))
  {
    assert Power256(8) == 256 * Power256(7);
    Utf8Short(item.path);
    if item.kind.Symlink? {
      Utf8Short(item.kind.target);
    }
  }

  lemma {:induction false} ShortStreams(items: seq<Item>)
    requires forall item :: item in items ==> Short(item)
    ensures AllFramable(AllFields(items))
  {
    if items != [] {
      var n := |items| - 1;
      ShortStreams(items[..n]);
      ShortFramable(items[n]);
      AllFramablePrefix(AllFields(items[..n]), Fields(items[n]));
    }
  }

  lemma ShortDigest(nodes: Nodes, content: Bytes -> Bytes, hash: Bytes -> Bytes)
    requires ValidView(Seen(nodes, content))
    requires forall p :: p in Seen(nodes, content) ==> Short(Item(Join(p), Seen(nodes, content)[p]))
    ensures DigestOf(nodes, content, hash).Ok?
  {
    var view := Seen(nodes, content);
    var paths := InOrder(view.Keys);
    var items := Items(view, paths);
    forall item | item in items ensures Short(item) {
      var i :| 0 <= i < |items| && items[i] == item;
      assert paths[i] in paths;
    }
    ShortStreams(items);
  }

  const SHUT := Access(true, false, true)
  const OPEN := Access(true, true, true)

  /** A runtime with a writable file in a directory. */
  function Exposed(): Nodes {
    map[
      [] := Dir(Mode(SHUT, SHUT, SHUT, 0)),
      [ManifestName] := RegFile(Mode(SHUT, SHUT, SHUT, 0), []),
      ["lib"] := Dir(Mode(SHUT, SHUT, SHUT, 0)),
      ["lib", "x"] := RegFile(Mode(OPEN, SHUT, SHUT, 0), [])]
  }

  /** Its listings, with or without that directory's. */
  function Shows(lib: bool): Listings {
    (dir: Path) =>
      if dir == [] then Some(["lib", ManifestName]) else if dir == ["lib"] && lib then Some(["x"]) else None
  }

  lemma ExposedRooted()
    ensures Wf(Exposed())
  {
    var nodes := Exposed();
    forall p | p in nodes ensures Rooted(nodes, p) {
      assert ["lib", "x"][..1] == ["lib"] && ["lib"][..0] == [] && [ManifestName][..0] == [];
    }
  }

  lemma ExposedRootListed()
    ensures Lists(Exposed(), [], ["lib", ManifestName])
  {
    forall name ensures name in ["lib", ManifestName] <==> [] + [name] in Exposed() {
      assert [] + [name] == [name] && |[name]| == 1;
      assert [name][0] == name;
    }
  }

  lemma ExposedLibListed()
    ensures Lists(Exposed(), ["lib"], ["x"])
  {
    forall name ensures name in ["x"] <==> ["lib"] + [name] in Exposed() {
      assert ["lib"] + [name] == ["lib", name] && |["lib", name]| == 2;
      assert ["lib", name][1] == name;
    }
  }

  lemma ExposedSound(lib: bool)
    ensures Wf(Exposed()) && Answers(Exposed(), Shows(lib)) && (lib ==> Listable(Exposed(), Shows(lib)))
  {
    ExposedRooted();
    ExposedRootListed();
    ExposedLibListed();
  }

  lemma ExposedHidden()
    ensures LooksSealed(Exposed(), Replies(Shows(false), (p: Path) => false))
  {
    var nodes, order := Exposed(), Shows(false);
    assert ["lib"] == ["lib", "x"][..1];
    assert !ListedTo(order, [], ["lib", "x"]);
  }

  lemma ExposedDigest(content: Bytes -> Bytes, hash: Bytes -> Bytes)
    requires forall b :: content(b) == []
    ensures ValidView(Seen(Exposed(), content)) && DigestOf(Exposed(), content, hash).Ok?
  {
    ExposedSound(true);
    SeenValid(Exposed(), content);
    var view := Seen(Exposed(), content);
    forall p | p in view ensures Short(Item(Join(p), view[p])) {
      assert Join(["lib"]) == "lib";
      assert ["lib", "x"][..1] == ["lib"] && Join(["lib", "x"]) == "lib/x";
    }
    ShortDigest(Exposed(), content, hash);
  }

  /** The decision to launch can be deceived: the digest walk lists everything, the sealed walk then
      fails to list one directory, and the answer is yes over a writable file. */
  method DeceivedLaunch(hash: Bytes -> Bytes) returns (r: Runtime, ok: bool)
    ensures ok && !ReadOnly(r.nodes)
  {
    var content: Bytes -> Bytes := (b: Bytes) => [];
    r := new Runtime(Exposed(), {});
    ExposedSound(true);
    ExposedSound(false);
    ExposedHidden();
    ExposedDigest(content, hash);
    var listed, blind := Replies(Shows(true), (p: Path) => false), Replies(Shows(false), (p: Path) => false);
    var recorded := r.Digest(listed, content, hash);
    assert Writable(Exposed()[["lib", "x"]]);
    ghost var last;
    ok, last := r.Usable(true, Some(recorded.value), false, content, hash, listed, blind, Shows(true), listed, listed);
  }

  /** The sealed check can be deceived: a directory that cannot be listed hides a writable file. */
  method UnlistedHidesWritable() returns (r: Runtime, ok: bool)
    ensures ok && !ReadOnly(r.nodes)
  {
    r := new Runtime(Exposed(), {});
    ExposedSound(false);
    ExposedHidden();
    assert Writable(Exposed()[["lib", "x"]]);
    ok := r.TreeIsReadOnly(Replies(Shows(false), (p: Path) => false));
  }

  /** `after` differs from `before` in modes only, by applying `c` at some set of paths. */
  ghost predicate Rechmod(before: Nodes, after: Nodes, c: Change) {
    exists at :: after == Touch(before, c, at)
  }

  lemma SealedSame(before: Nodes, after: Nodes, order: Listings, content: Bytes -> Bytes)
    requires Wf(before) && Answers(before, order) && Rechmod(before, after, Seal)
    ensures Wf(after) && Answers(after, order)
    ensures Listable(before, order) <==> Listable(after, order)
    ensures Seen(after, content) == Seen(before, content)
    ensures [] in before && before[[]].Dir? <==> [] in after && after[[]].Dir?
  {
    var at :| after == Touch(before, Seal, at);
    TouchInvisible(before, Seal, at, content);
    TouchListings(before, Seal, at, order);
    assert forall p :: p in before ==> (after[p].Dir? <==> before[p].Dir?);
    if Listable(after, order) {
      forall dir | dir in before && before[dir].Dir? ensures order(dir).Some? {
        assert dir in after && after[dir].Dir?;
      }
    }
  }

  /** Absorbs one entry's fields, each behind its eight-byte length. */
  method Update(stream: Bytes, fields: seq<Bytes>) returns (r: Result<Bytes>)
    ensures r == if AllFramable(fields) then Ok(stream + Frames(fields)) else Refused
  {
    var absorbed := stream;
    for i := 0 to |fields|
      invariant AllFramable(fields[..i])
      invariant absorbed == stream + Frames(fields[..i])
    {
      assert fields[..i + 1] == fields[..i] + [fields[i]];
      if !Framable(fields[i]) {
        assert fields[i] in fields;
        return Refused;
      }
      absorbed := absorbed + BigEndian(|fields[i]|, 8) + fields[i];
      assert fields[..i + 1][..i] == fields[..i];
    }
    assert fields[..|fields|] == fields;
    r := Ok(absorbed);
  }

  predicate ManifestIsDir(nodes: Nodes) { [ManifestName] in nodes && nodes[[ManifestName]].Dir? }

  /** A directory the digest does not see is the manifest or lies below it. */
  lemma HiddenBelowManifest(nodes: Nodes, dir: Path)
    requires Wf(nodes) && dir in nodes && nodes[dir].Dir? && dir != [] && !Visible(dir)
    ensures ManifestIsDir(nodes)
  {
    assert dir[..1] == [ManifestName];
    if |dir| == 1 {
      assert dir == dir[..1];
    } else {
      WfAncestor(nodes, dir, 1);
    }
  }

  /** Nothing lies hidden below a manifest that is no directory. */
  lemma VisibleListed(nodes: Nodes, order: Listings, entries: seq<Path>)
    requires Wf(nodes) && !ManifestIsDir(nodes) && order([]).Some? && AllListed(nodes, order, entries)
    requires forall p :: p in nodes && Visible(p) ==> p in entries
    ensures Listable(nodes, order)
  {
    forall dir | dir in nodes && nodes[dir].Dir? ensures order(dir).Some? {
      if dir != [] && !Visible(dir) {
        HiddenBelowManifest(nodes, dir);
      }
    }
  }

  lemma StreamStep(items: seq<Item>, i: nat)
    requires i < |items|
    ensures AllFields(items[..i + 1]) == AllFields(items[..i]) + Fields(items[i])
    ensures AllFramable(AllFields(items[..i + 1])) <==>
            AllFramable(AllFields(items[..i])) && AllFramable(Fields(items[i]))
  {
    assert items[..i + 1][..i] == items[..i];
    AllFramablePrefix(AllFields(items[..i]), Fields(items[i]));
  }

  lemma StreamFails(items: seq<Item>, i: nat)
    requires i < |items| && !AllFramable(AllFields(items[..i + 1]))
    ensures Stream(items) == Refused
  {
    assert items == items[..i + 1] + items[i + 1..];
    FieldsAppend(items[..i + 1], items[i + 1..]);
    AllFramablePrefix(AllFields(items[..i + 1]), AllFields(items[i + 1..]));
  }

  lemma NothingUnder(nodes: Nodes, p: Path)
    requires Wf(nodes) && p in nodes && !nodes[p].Dir?
    ensures Under(nodes, p) == {}
  {
    forall q | q in nodes && Extends(q, p) ensures false {
      WfAncestor(nodes, q, |p|);
    }
  }

  lemma FoundStep(nodes: Nodes, dir: Path, names: seq<string>, name: string, found: seq<Path>)
    requires Wf(nodes) && dir + [name] in nodes && Visible(dir + [name]) && name !in names
    requires forall p :: p in found <==> p == dir + [name] || p in Under(nodes, dir + [name])
    ensures forall p :: Found(nodes, dir, names + [name], p) <==> Found(nodes, dir, names, p) || p in found
    ensures forall p :: p in found ==> !Found(nodes, dir, names, p)
  {
    var child := dir + [name];
    forall p ensures p in found <==> p in nodes && Extends(p, dir) && Visible(p) && p[|dir|] == name {
      if p in nodes && Extends(p, dir) && p[|dir|] == name {
        UnderSplits(nodes, dir, p);
      }
      if p in Under(nodes, child) {
        assert p[..|dir|] == p[..|child|][..|dir|] == dir;
        assert p[|dir|] == p[..|child|][|dir|] == name;
      }
      if p in found {
        assert p[0] == child[0];
      }
    }
  }

  lemma ManifestSkipped(nodes: Nodes, names: seq<string>)
    ensures forall p :: Found(nodes, [], names + [ManifestName], p) <==> Found(nodes, [], names, p)
  {}
}
