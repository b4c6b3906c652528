/** Materialized commit runtimes (cli.py): the tree walks that seal, unseal and inspect a runtime,
    the content digest that binds it to a commit, and the usability decision made from both. */
module RuntimeTree {
  import opened Common
  import opened Unicode
  import opened TreeEncoding

  /** Names from the root down; the root itself is the empty path. */
  type Path = seq<string>

  datatype Access = Access(read: bool, write: bool, exec: bool)

  /** Permission bits; `special` stands for set-id and sticky. */
  datatype Mode = Mode(owner: Access, group: Access, other: Access, special: nat)

  datatype Node =
    | RegFile(mode: Mode, content: Bytes)
    | Link(target: string)
    | Dir(mode: Mode)
    | Device(mode: Mode)

  type Nodes = map<Path, Node>

  const ManifestName := "lubko-runtime.json"

  predicate ValidName(name: string) { name != "" && '/' !in name }

  /** An entry has a valid name and sits in a directory. */
  ghost predicate Rooted(nodes: Nodes, p: Path) {
    p != [] ==> ValidName(p[|p| - 1]) && p[..|p| - 1] in nodes && nodes[p[..|p| - 1]].Dir?
  }

  ghost predicate Wf(nodes: Nodes) {
    forall p {:trigger Rooted(nodes, p)} :: p in nodes ==> Rooted(nodes, p)
  }

  /** One answer to every directory listing: the children in any order, or a failure. */
  type Listings = Path -> Option<seq<string>>

  ghost predicate Lists(nodes: Nodes, dir: Path, names: seq<string>) {
    && (forall i, j :: 0 <= i < j < |names| ==> names[i] != names[j])
    && (forall name :: name in names <==> dir + [name] in nodes)
  }

  ghost predicate Answers(nodes: Nodes, order: Listings) {
    forall dir :: dir in nodes && nodes[dir].Dir? && order(dir).Some? ==> Lists(nodes, dir, order(dir).value)
  }

  /** No directory listing fails. */
  ghost predicate Listable(nodes: Nodes, order: Listings) {
    forall dir :: dir in nodes && nodes[dir].Dir? ==> order(dir).Some?
  }

  // ---- what the digest sees --------------------------------------------------------------

  function Octal(a: Access): nat {
    (if a.read then 4 else 0) + (if a.write then 2 else 0) + if a.exec then 1 else 0
  }

  function NoWrite(a: Access): Access { a.(write := false) }

  /** `mode & ~WRITE_BITS & 0o777`. */
  function Masked(m: Mode): nat {
    Octal(NoWrite(m.owner)) * 64 + Octal(NoWrite(m.group)) * 8 + Octal(NoWrite(m.other))
  }

  /** What an octal digit of a mode allows. */
  function AccessOf(digit: nat): Access { Access(digit / 4 % 2 == 1, digit / 2 % 2 == 1, digit % 2 == 1) }

  /** A digit without its write bit. */
  function Cleared(digit: nat): int { digit - digit / 2 % 2 * 2 }

  lemma DigitCleared(digit: nat)
    requires digit < 8
    ensures Octal(AccessOf(digit)) == digit && Octal(NoWrite(AccessOf(digit))) == Cleared(digit)
  {}

  /** Masking takes the write bit out of every octal digit, and whatever is above them. */
  lemma MaskedClearsWrites(owner: nat, group: nat, other: nat, special: nat)
    requires owner < 8 && group < 8 && other < 8
    ensures Masked(Mode(AccessOf(owner), AccessOf(group), AccessOf(other), special)) ==
            Cleared(owner) * 64 + Cleared(group) * 8 + Cleared(other)
  {
    DigitCleared(owner);
    DigitCleared(group);
    DigitCleared(other);
  }

  /** The number distinguishes every read and execute bit and nothing else. */
  lemma MaskedReadsBack(m: Mode, n: Mode)
    ensures Masked(m) == Masked(n) <==>
      NoWrite(m.owner) == NoWrite(n.owner) && NoWrite(m.group) == NoWrite(n.group)
        && NoWrite(m.other) == NoWrite(n.other)
    ensures Masked(m) < 512
  {}

  function KindOf(node: Node, digest: Bytes -> Bytes): Kind {
    match node
    case RegFile(mode, content) => Regular(Masked(mode), digest(content))
    case Link(target) => Symlink(target)
    case Dir(_) => Directory
    case Device(mode) => Special(Masked(mode))
  }

  /** Everything but the root itself and the binding manifest. */
  predicate Visible(p: Path) { p != [] && p[0] != ManifestName }

  type View = map<Path, Kind>

  function Seen(nodes: Nodes, digest: Bytes -> Bytes): View {
    map p | p in nodes && Visible(p) :: KindOf(nodes[p], digest)
  }

  function Join(p: Path): string {
    if p == [] then ""
    else if |p| == 1 then p[0]
    else Join(p[..|p| - 1]) + "/" + p[|p| - 1]
  }

  predicate ValidPath(p: Path) { p != [] && forall name :: name in p ==> ValidName(name) }

  lemma {:induction false} WfPathsValid(nodes: Nodes, p: Path)
    requires Wf(nodes) && p in nodes && p != []
    ensures ValidPath(p)
    decreases |p|
  {
    assert Rooted(nodes, p);
    var front := p[..|p| - 1];
    assert p == front + [p[|p| - 1]];
    if front != [] {
      WfPathsValid(nodes, front);
    }
  }

  lemma TailAfterSlash(a: string, m: string, b: string, n: string)
    requires a + "/" + m == b + "/" + n
    requires '/' !in m && '/' !in n
    ensures a == b && m == n
  {
    var s := a + "/" + m;
    assert s[|a|] == '/' && s[|b|] == '/';
    assert s[|a| + 1..] == m && s[|b| + 1..] == n;
    assert forall i :: |a| < i < |s| ==> s[i] == m[i - |a| - 1] && s[i] in m;
    assert forall i :: |b| < i < |s| ==> s[i] == n[i - |b| - 1] && s[i] in n;
    assert s[..|a|] == a && s[..|a|] == b;
    assert s[|a| + 1..] == m && s[|a| + 1..] == n;
  }

  /** Joined paths of valid names are never confused. */
  lemma {:induction false} JoinInjective(p: Path, q: Path)
    requires ValidPath(p) && ValidPath(q) && Join(p) == Join(q)
    ensures p == q
    decreases |p|
  {
    var m, n := p[|p| - 1], q[|q| - 1];
    assert m in p && n in q;
    assert |p| == 1 <==> '/' !in Join(p);
    assert |q| == 1 <==> '/' !in Join(q);
    if |p| > 1 {
      TailAfterSlash(Join(p[..|p| - 1]), m, Join(q[..|q| - 1]), n);
      JoinInjective(p[..|p| - 1], q[..|q| - 1]);
      assert p == p[..|p| - 1] + [m] && q == q[..|q| - 1] + [n];
    }
  }

  // ---- sorting by relative path ----------------------------------------------------------

  predicate Less(a: string, b: string) {
    b != "" && (a == "" || a[0] < b[0] || (a[0] == b[0] && Less(a[1..], b[1..])))
  }

  lemma {:induction false} LessTotal(a: string, b: string)
    ensures Less(a, b) || Less(b, a) || a == b
    ensures !(Less(a, b) && Less(b, a)) && !Less(a, a)
  {
    if a != "" {
      if b != "" {
        LessTotal(a[1..], b[1..]);
        assert a == [a[0]] + a[1..] && b == [b[0]] + b[1..];
      } else {
        LessTotal(a[1..], b);
      }
    }
  }

  lemma {:induction false} LessTransitive(a: string, b: string, c: string)
    requires Less(a, b) && Less(b, c)
    ensures Less(a, c)
  {
    if a != "" && a[0] == b[0] == c[0] {
      LessTransitive(a[1..], b[1..], c[1..]);
    }
  }

  ghost predicate Ordered(paths: seq<Path>) {
    forall i, j :: 0 <= i < j < |paths| ==> Less(Join(paths[i]), Join(paths[j]))
  }

  /** Adds a path after every smaller one. */
  function Insert(p: Path, paths: seq<Path>): (r: seq<Path>)
    requires ValidPath(p) && p !in paths && Ordered(paths) && forall q :: q in paths ==> ValidPath(q)
    ensures Ordered(r) && forall q :: q in r <==> q == p || q in paths
  {
    if paths == [] then [p]
    else
      var n := |paths| - 1;
      var last := paths[n];
      LessTotal(Join(last), Join(p));
      assert Join(last) == Join(p) ==> last == p by { if Join(last) == Join(p) { JoinInjective(last, p); } }
      if Less(Join(last), Join(p)) then
        AllBelow(paths, p);
        paths + [p]
      else
        assert last !in paths[..n] by { LessTotal(Join(last), Join(last)); }
        var front := Insert(p, paths[..n]);
        assert forall i :: 0 <= i < |front| ==> front[i] in front;
        front + [last]
  }

  lemma AllBelow(paths: seq<Path>, p: Path)
    requires Ordered(paths) && paths != [] && Less(Join(paths[|paths| - 1]), Join(p))
    ensures forall i :: 0 <= i < |paths| ==> Less(Join(paths[i]), Join(p))
  {
    var n := |paths| - 1;
    forall i | 0 <= i < n ensures Less(Join(paths[i]), Join(p)) {
      LessTransitive(Join(paths[i]), Join(paths[n]), Join(p));
    }
  }

  ghost predicate Once(paths: seq<Path>) {
    forall i, j :: 0 <= i < j < |paths| ==> paths[i] != paths[j]
  }

  ghost predicate AllValid(paths: seq<Path>) { forall p :: p in paths ==> ValidPath(p) }

  function Sorted(paths: seq<Path>): (r: seq<Path>)
    requires Once(paths) && AllValid(paths)
    ensures Ordered(r) && forall p :: p in r <==> p in paths
  {
    if paths == [] then []
    else
      var n := |paths| - 1;
      assert paths == paths[..n] + [paths[n]];
      Insert(paths[n], Sorted(paths[..n]))
  }

  lemma {:induction false} OrderedLeast(a: seq<Path>, b: seq<Path>)
    requires a != [] && b != [] && Ordered(a) && Ordered(b)
    requires forall p :: p in a <==> p in b
    ensures a[0] == b[0]
  {
    assert a[0] in a && b[0] in b;
    var i :| 0 <= i < |b| && b[i] == a[0];
    var j :| 0 <= j < |a| && a[j] == b[0];
    LessTotal(Join(a[0]), Join(b[0]));
  }

  /** A set of paths has one sorted listing. */
  lemma {:induction false} OrderedUnique(a: seq<Path>, b: seq<Path>)
    requires Ordered(a) && Ordered(b)
    requires forall p :: p in a <==> p in b
    ensures a == b
    decreases |a|
  {
    assert b == [] || b[0] in a;
    if a != [] {
      assert a[0] in a;
      OrderedLeast(a, b);
      LessTotal(Join(a[0]), Join(a[0]));
      forall p ensures p in a[1..] <==> p in b[1..] {
        if p in a[1..] { assert p in a && p != a[0]; }
        if p in b[1..] { assert p in b && p != b[0]; }
      }
      OrderedUnique(a[1..], b[1..]);
      assert a == [a[0]] + a[1..] && b == [b[0]] + b[1..];
    }
  }

  ghost function InOrder(paths: set<Path>): (r: seq<Path>)
    requires forall p :: p in paths ==> ValidPath(p)
    ensures Ordered(r) && forall p :: p in r <==> p in paths
  {
    if paths == {} then []
    else
      var p :| p in paths;
      Insert(p, InOrder(paths - {p}))
  }

  // ---- the canonical stream --------------------------------------------------------------

  function Items(view: View, paths: seq<Path>): (r: seq<Item>)
    requires forall p :: p in paths ==> p in view
    ensures |r| == |paths| && forall i :: 0 <= i < |paths| ==> r[i] == Item(Join(paths[i]), view[paths[i]])
  {
    seq(|paths|, i requires 0 <= i < |paths| => Item(Join(paths[i]), view[paths[i]]))
  }

  ghost predicate ValidView(view: View) {
    forall p :: p in view ==> ValidPath(p) && SmallBits(view[p])
  }

  ghost function TreeStream(view: View): Result<Bytes>
    requires ValidView(view)
  {
    Stream(Items(view, InOrder(view.Keys)))
  }

  lemma SeenValid(nodes: Nodes, digest: Bytes -> Bytes)
    requires Wf(nodes)
    ensures ValidView(Seen(nodes, digest))
  {
    forall p | p in Seen(nodes, digest) ensures ValidPath(p) && SmallBits(Seen(nodes, digest)[p]) {
      WfPathsValid(nodes, p);
      match nodes[p]
      case RegFile(mode, _) => MaskedReadsBack(mode, mode);
      case Device(mode) => MaskedReadsBack(mode, mode);
      case _ =>
    }
  }

  lemma ItemsDetermineView(a: View, p: seq<Path>, b: View, q: seq<Path>)
    requires ValidView(a) && ValidView(b)
    requires forall x :: x in p <==> x in a
    requires forall x :: x in q <==> x in b
    requires Items(a, p) == Items(b, q)
    ensures a == b
  {
    var items := Items(a, p);
    forall i | 0 <= i < |p| ensures p[i] == q[i] && a[p[i]] == b[q[i]] {
      assert p[i] in p && q[i] in q;
      assert items[i] == Item(Join(p[i]), a[p[i]]);
      assert items[i] == Item(Join(q[i]), b[q[i]]);
      JoinInjective(p[i], q[i]);
    }
    assert p == q;
  }

  /** Two trees are streamed alike exactly when they agree on every visible path: its kind, masked
      mode, content digest or link target. */
  lemma StreamIdentifiesView(a: View, b: View)
    requires ValidView(a) && ValidView(b) && TreeStream(a).Ok?
    ensures TreeStream(a) == TreeStream(b) <==> a == b
  {
    if TreeStream(a) == TreeStream(b) {
      var p, q := InOrder(a.Keys), InOrder(b.Keys);
      StreamRoundTrip(Items(a, p));
      StreamRoundTrip(Items(b, q));
      ItemsDetermineView(a, p, b, q);
    }
  }

  // ---- changing modes --------------------------------------------------------------------

  datatype Change = Seal | Unseal

  function ChangedMode(c: Change, m: Mode): Mode {
    match c
    case Seal => Mode(NoWrite(m.owner), NoWrite(m.group), NoWrite(m.other), m.special)
    case Unseal => m.(owner := m.owner.(write := true))
  }

  function Changed(c: Change, node: Node): Node {
    if node.Link? then node else node.(mode := ChangedMode(c, node.mode))
  }

  function Touch(nodes: Nodes, c: Change, at: set<Path>): Nodes {
    map p | p in nodes :: if p in at then Changed(c, nodes[p]) else nodes[p]
  }

  predicate Writable(node: Node) {
    !node.Link? && (node.mode.owner.write || node.mode.group.write || node.mode.other.write)
  }

  ghost predicate ReadOnly(nodes: Nodes) { forall p :: p in nodes ==> !Writable(nodes[p]) }

  /** Sealing and unsealing, of any part of the tree and with any failures, never change what the
      digest sees. */
  lemma TouchInvisible(nodes: Nodes, c: Change, at: set<Path>, digest: Bytes -> Bytes)
    ensures Seen(Touch(nodes, c, at), digest) == Seen(nodes, digest)
    ensures Wf(nodes) ==> Wf(Touch(nodes, c, at))
  {
    var after := Touch(nodes, c, at);
    forall p | p in nodes ensures KindOf(after[p], digest) == KindOf(nodes[p], digest) {}
    if Wf(nodes) {
      forall p | p in after ensures Rooted(after, p) {
        assert Rooted(nodes, p);
      }
    }
  }

  lemma TouchTwice(nodes: Nodes, c: Change, a: set<Path>, b: set<Path>)
    ensures Touch(Touch(nodes, c, a), c, b) == Touch(nodes, c, a + b)
  {}

  lemma TouchListings(nodes: Nodes, c: Change, at: set<Path>, order: Listings)
    ensures Answers(nodes, order) ==> Answers(Touch(nodes, c, at), order)
    ensures Listable(nodes, order) ==> Listable(Touch(nodes, c, at), order)
  {
    var after := Touch(nodes, c, at);
    assert forall p :: p in after <==> p in nodes;
    assert forall p :: p in nodes ==> (after[p].Dir? <==> nodes[p].Dir?);
    if Answers(nodes, order) {
      forall dir | dir in after && after[dir].Dir? && order(dir).Some?
        ensures Lists(after, dir, order(dir).value)
      {
        assert Lists(nodes, dir, order(dir).value);
      }
    }
  }

  /** Writing the binding manifest at the root leaves what the digest sees unchanged. */
  lemma ManifestInvisible(nodes: Nodes, mode: Mode, text: Bytes, digest: Bytes -> Bytes)
    ensures Seen(nodes[[ManifestName] := RegFile(mode, text)], digest) == Seen(nodes, digest)
  {
    var after := nodes[[ManifestName] := RegFile(mode, text)];
    assert forall p :: Visible(p) ==> (p in after <==> p in nodes);
  }

  // ---- subtrees --------------------------------------------------------------------------

  predicate Extends(p: Path, dir: Path) { |dir| < |p| && p[..|dir|] == dir }

  ghost function Under(nodes: Nodes, dir: Path): set<Path> {
    set p | p in nodes && Extends(p, dir)
  }

  lemma UnderShrinks(nodes: Nodes, dir: Path, name: string)
    requires dir + [name] in nodes
    ensures Under(nodes, dir + [name]) < Under(nodes, dir)
    ensures |Under(nodes, dir + [name])| < |Under(nodes, dir)|
  {
    var child := dir + [name];
    assert child[..|dir|] == dir;
    forall p | p in Under(nodes, child) ensures p in Under(nodes, dir) {
      assert p[..|dir|] == p[..|child|][..|dir|];
    }
    assert child in Under(nodes, dir) && child !in Under(nodes, child);
    Smaller(Under(nodes, child), Under(nodes, dir));
  }

  lemma Smaller(a: set<Path>, b: set<Path>)
    requires a < b
    ensures |a| < |b|
  {
    assert b == a + (b - a);
    assert |b| == |a| + |b - a|;
  }

  lemma {:induction false} WfAncestor(nodes: Nodes, p: Path, i: nat)
    requires Wf(nodes) && p in nodes && i < |p|
    ensures p[..i] in nodes && nodes[p[..i]].Dir?
    decreases |p| - i
  {
    if i + 1 == |p| {
      assert Rooted(nodes, p);
    } else {
      WfAncestor(nodes, p, i + 1);
      assert Rooted(nodes, p[..i + 1]);
      assert p[..i + 1][..i] == p[..i];
    }
  }

  /** Whatever lies below a directory is one of its entries or lies below one. */
  lemma UnderSplits(nodes: Nodes, dir: Path, p: Path)
    requires Wf(nodes) && p in nodes && Extends(p, dir)
    ensures var child := dir + [p[|dir|]];
            && child in nodes
            && (p == child || (Extends(p, child) && nodes[child].Dir?))
  {
    var child := dir + [p[|dir|]];
    assert p[..|dir| + 1] == child;
    if |p| > |dir| + 1 {
      WfAncestor(nodes, p, |dir| + 1);
    } else {
      assert p == child;
    }
  }
}
