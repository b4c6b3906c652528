/** What the digest of a runtime tree identifies. */
module RuntimeDigest {
  import opened Common
  import opened Unicode
  import opened RuntimeTree

  /** The digest a tree has, independently of any walk. */
  ghost function DigestOf(nodes: Nodes, content: Bytes -> Bytes, hash: Bytes -> Bytes): Result<Bytes>
    requires ValidView(Seen(nodes, content))
  {
    match TreeStream(Seen(nodes, content))
    case Ok(stream) => Ok(hash(stream))
    case Refused => Refused
  }

  predicate SameBits(m: Mode, n: Mode) {
    NoWrite(m.owner) == NoWrite(n.owner) && NoWrite(m.group) == NoWrite(n.group) && NoWrite(m.other) == NoWrite(n.other)
  }

  /** Two entries nobody can tell apart but by write, set-id and sticky bits, or by the mode of a
      directory. */
  predicate Alike(a: Node, b: Node) {
    match (a, b)
    case (RegFile(m, c), RegFile(n, d)) => SameBits(m, n) && c == d
    case (Link(s), Link(t)) => s == t
    case (Dir(_), Dir(_)) => true
    case (Device(m), Device(n)) => SameBits(m, n)
    case _ => false
  }

  ghost predicate AlikeAt(a: Nodes, b: Nodes, p: Path) {
    (p in a <==> p in b) && (p in a ==> Alike(a[p], b[p]))
  }

  /** The two trees hold alike entries at every path the digest sees. */
  ghost predicate AllAlike(a: Nodes, b: Nodes) { forall p :: Visible(p) ==> AlikeAt(a, b, p) }

  predicate Collides(f: Bytes -> Bytes, x: Bytes, y: Bytes) { x != y && f(x) == f(y) }

  /** Two different contents of one path have the same content digest. */
  ghost predicate CollidesAt(a: Nodes, b: Nodes, content: Bytes -> Bytes, p: Path) {
    && p in a && p in b && a[p].RegFile? && b[p].RegFile?
    && Collides(content, a[p].content, b[p].content)
  }

  ghost predicate ContentsCollide(a: Nodes, b: Nodes, content: Bytes -> Bytes) {
    exists p :: Visible(p) && CollidesAt(a, b, content, p)
  }

  /** The two trees are streamed differently and the streams have the same digest. */
  ghost predicate StreamsCollide(a: Nodes, b: Nodes, content: Bytes -> Bytes, hash: Bytes -> Bytes)
    requires ValidView(Seen(a, content)) && ValidView(Seen(b, content))
  {
    var s, t := TreeStream(Seen(a, content)), TreeStream(Seen(b, content));
    s.Ok? && t.Ok? && Collides(hash, s.value, t.value)
  }

  lemma AlikeSameKind(a: Node, b: Node, content: Bytes -> Bytes)
    ensures Alike(a, b) ==> KindOf(a, content) == KindOf(b, content)
    ensures KindOf(a, content) == KindOf(b, content) ==>
      Alike(a, b) || (a.RegFile? && b.RegFile? && Collides(content, a.content, b.content))
  {
    if (a.RegFile? && b.RegFile?) || (a.Device? && b.Device?) {
      MaskedReadsBack(a.mode, b.mode);
    }
  }

  lemma AlikeSeen(a: Nodes, b: Nodes, content: Bytes -> Bytes)
    requires AllAlike(a, b)
    ensures Seen(a, content) == Seen(b, content)
  {
    var s, t := Seen(a, content), Seen(b, content);
    forall p | Visible(p) ensures (p in s <==> p in t) && (p in s ==> s[p] == t[p]) {
      assert AlikeAt(a, b, p);
      if p in a { AlikeSameKind(a[p], b[p], content); }
    }
  }

  lemma SeenAlike(a: Nodes, b: Nodes, content: Bytes -> Bytes)
    requires Seen(a, content) == Seen(b, content)
    ensures AllAlike(a, b) || ContentsCollide(a, b, content)
  {
    var s, t := Seen(a, content), Seen(b, content);
    if !ContentsCollide(a, b, content) {
      forall p | Visible(p) ensures AlikeAt(a, b, p) {
        assert p in s <==> p in t;
        assert !CollidesAt(a, b, content, p);
        if p in a { AlikeSameKind(a[p], b[p], content); }
      }
    }
  }

  /** The digest binds the whole visible tree: alike trees have one digest, and two trees with one
      digest are alike at every visible path - unless two file contents of one path, or the two
      streams, are a collision. So an added, removed, renamed or altered entry changes the digest
      or exhibits a collision of the hash. */
  lemma DigestIdentifiesTree(a: Nodes, b: Nodes, content: Bytes -> Bytes, hash: Bytes -> Bytes)
    requires Wf(a) && Wf(b)
    ensures ValidView(Seen(a, content)) && ValidView(Seen(b, content))
    ensures AllAlike(a, b) ==> DigestOf(a, content, hash) == DigestOf(b, content, hash)
    ensures (DigestOf(a, content, hash).Ok? && DigestOf(a, content, hash) == DigestOf(b, content, hash)) ==>
      AllAlike(a, b) || ContentsCollide(a, b, content) || StreamsCollide(a, b, content, hash)
  {
    SeenValid(a, content);
    SeenValid(b, content);
    var s, t := Seen(a, content), Seen(b, content);
    if AllAlike(a, b) {
      AlikeSeen(a, b, content);
    }
    if DigestOf(a, content, hash).Ok? && DigestOf(a, content, hash) == DigestOf(b, content, hash)
       && !StreamsCollide(a, b, content, hash) {
      StreamIdentifiesView(s, t);
      SeenAlike(a, b, content);
    }
  }

  /** A runtime carries its recorded digest while it holds, path by path, the tree its manifest was
      written from; and as long as it carries it, however it was unsealed, changed and resealed
      since, it holds that tree or a collision. */
  lemma UsableMeansUnchanged(
    materialized: Nodes, now: Nodes, recorded: Bytes, content: Bytes -> Bytes, hash: Bytes -> Bytes)
    requires Wf(materialized) && Wf(now)
    ensures ValidView(Seen(materialized, content)) && ValidView(Seen(now, content))
    ensures DigestOf(materialized, content, hash) == Ok(recorded) ==>
      && (AllAlike(materialized, now) ==> DigestOf(now, content, hash) == Ok(recorded))
      && (DigestOf(now, content, hash) == Ok(recorded) ==>
            || AllAlike(materialized, now)
            || ContentsCollide(materialized, now, content) || StreamsCollide(materialized, now, content, hash))
  {
    DigestIdentifiesTree(materialized, now, content, hash);
  }
}
