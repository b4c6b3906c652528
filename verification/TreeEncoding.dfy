/** The length-prefixed byte stream a runtime tree is digested as (cli.py), and a decoder for it.
    The program only ever encodes; the decoder is what shows that nothing is lost. */
module TreeEncoding {
  import opened Common
  import opened Unicode

  // ---- big-endian numbers ----------------------------------------------------------------

  function Power256(width: nat): (p: nat)
    ensures p > 0
  {
    if width == 0 then 1 else 256 * Power256(width - 1)
  }

  function BigEndian(n: nat, width: nat): (r: Bytes)
    ensures |r| == width
  {
    if width == 0 then [] else BigEndian(n / 256, width - 1) + [n % 256]
  }

  function FromBigEndian(data: Bytes): nat {
    if data == [] then 0 else FromBigEndian(data[..|data| - 1]) * 256 + data[|data| - 1]
  }

  lemma {:induction false} BigEndianRoundTrip(n: nat, width: nat)
    requires n < Power256(width)
    ensures FromBigEndian(BigEndian(n, width)) == n
  {
    if width > 0 {
      BigEndianRoundTrip(n / 256, width - 1);
    }
  }

  // ---- entries ---------------------------------------------------------------------------

  /** What the stream says of one entry. `bits` is a permission mode without its write bits. */
  datatype Kind =
    | Regular(bits: nat, digest: Bytes)
    | Symlink(target: string)
    | Directory
    | Special(bits: nat)

  datatype Item = Item(path: string, kind: Kind)

  const F: byte := 'f' as int
  const L: byte := 'l' as int
  const D: byte := 'd' as int
  const O: byte := 'o' as int

  /** The fields hashed for one entry, in order. */
  function Fields(item: Item): seq<Bytes> {
    [Utf8(item.path)] +
    match item.kind
    case Regular(bits, digest) => [[F], BigEndian(bits, 2), digest]
    case Symlink(target) => [[L], Utf8(target)]
    case Directory => [[D]]
    case Special(bits) => [[O], BigEndian(bits, 2)]
  }

  /** Eight bytes must hold the field's length; the program raises otherwise. */
  predicate Framable(data: Bytes) { |data| < Power256(8) }

  function Frame(data: Bytes): Bytes { BigEndian(|data|, 8) + data }

  function Frames(fields: seq<Bytes>): Bytes {
    if fields == [] then [] else Frames(fields[..|fields| - 1]) + Frame(fields[|fields| - 1])
  }

  function AllFields(items: seq<Item>): seq<Bytes> {
    if items == [] then [] else AllFields(items[..|items| - 1]) + Fields(items[|items| - 1])
  }

  predicate AllFramable(fields: seq<Bytes>) { forall f :: f in fields ==> Framable(f) }

  /** Modes come from a nine-bit mask, so two bytes hold them. */
  predicate SmallBits(kind: Kind) { (kind.Regular? || kind.Special?) ==> kind.bits < 512 }

  function Stream(items: seq<Item>): Result<Bytes> {
    if AllFramable(AllFields(items)) then Ok(Frames(AllFields(items))) else Refused
  }

  // ---- decoding --------------------------------------------------------------------------

  /** Splits a stream back into its fields. */
  function Unframe(data: Bytes): Option<seq<Bytes>>
    decreases |data|
  {
    if data == [] then Some([])
    else if |data| < 8 then None
    else
      var size := FromBigEndian(data[..8]);
      if |data| < 8 + size then None
      else
        match Unframe(data[8 + size..])
        case None => None
        case Some(rest) => Some([data[8..8 + size]] + rest)
  }

  /** Reads one entry off a list of fields; the second part is how many fields it took. */
  function ReadItem(fields: seq<Bytes>): Option<(Item, nat)> {
    if |fields| < 2 then None
    else
      match FromUtf8(fields[0])
      case None => None
      case Some(path) =>
        if fields[1] == [D] then Some((Item(path, Directory), 2))
        else if |fields| < 3 then None
        else if fields[1] == [O] then Some((Item(path, Special(FromBigEndian(fields[2]))), 3))
        else if fields[1] == [L] then
          (match FromUtf8(fields[2])
           case None => None
           case Some(target) => Some((Item(path, Symlink(target)), 3)))
        else if fields[1] == [F] && |fields| >= 4 then
          Some((Item(path, Regular(FromBigEndian(fields[2]), fields[3])), 4))
        else None
  }

  function ReadItems(fields: seq<Bytes>): Option<seq<Item>>
    decreases |fields|
  {
    if fields == [] then Some([])
    else
      match ReadItem(fields)
      case None => None
      case Some((item, used)) =>
        if used == 0 || |fields| < used then None
        else
          match ReadItems(fields[used..])
          case None => None
          case Some(rest) => Some([item] + rest)
  }

  function Decode(data: Bytes): Option<seq<Item>> {
    match Unframe(data)
    case None => None
    case Some(fields) => ReadItems(fields)
  }

  lemma Associate<T>(a: seq<T>, b: seq<T>, c: seq<T>)
    ensures (a + b) + c == a + (b + c)
  {}

  lemma {:induction false} FramesAppend(a: seq<Bytes>, b: seq<Bytes>)
    ensures Frames(a + b) == Frames(a) + Frames(b)
  {
    if b == [] {
      assert a + b == a;
    } else {
      var n := |b| - 1;
      FramesAppend(a, b[..n]);
      assert (a + b)[..|a + b| - 1] == a + b[..n] && (a + b)[|a + b| - 1] == b[n];
      Associate(Frames(a), Frames(b[..n]), Frame(b[n]));
    }
  }

  lemma {:induction false} FieldsAppend(a: seq<Item>, b: seq<Item>)
    ensures AllFields(a + b) == AllFields(a) + AllFields(b)
  {
    if b == [] {
      assert a + b == a;
    } else {
      var n := |b| - 1;
      FieldsAppend(a, b[..n]);
      assert (a + b)[..|a + b| - 1] == a + b[..n] && (a + b)[|a + b| - 1] == b[n];
      Associate(AllFields(a), AllFields(b[..n]), Fields(b[n]));
    }
  }

  /** Length prefixes mark every field boundary, whatever bytes the fields hold. */
  lemma {:induction false} UnframeRoundTrip(fields: seq<Bytes>)
    requires AllFramable(fields)
    ensures Unframe(Frames(fields)) == Some(fields)
    decreases |fields|
  {
    if fields != [] {
      var first, rest := fields[0], fields[1..];
      assert first in fields;
      FramesAppend([first], rest);
      assert fields == [first] + rest;
      var none: seq<Bytes> := [];
      assert [first][..0] == none;
      assert Frames([first]) == Frame(first);
      BigEndianRoundTrip(|first|, 8);
      var data := Frames(fields);
      assert data == BigEndian(|first|, 8) + first + Frames(rest);
      assert data[..8] == BigEndian(|first|, 8);
      assert data[8..8 + |first|] == first;
      assert data[8 + |first|..] == Frames(rest);
      UnframeRoundTrip(rest);
    }
  }

  lemma ReadItemRoundTrip(item: Item, rest: seq<Bytes>)
    requires SmallBits(item.kind)
    ensures ReadItem(Fields(item) + rest) == Some((item, |Fields(item)|))
  {
    Utf8RoundTrip(item.path);
    assert Power256(2) == 65536 by {
      assert Power256(1) == 256 * Power256(0);
    }
    match item.kind
    case Regular(bits, digest) => BigEndianRoundTrip(bits, 2);
    case Symlink(target) => Utf8RoundTrip(target);
    case Directory =>
    case Special(bits) => BigEndianRoundTrip(bits, 2);
  }

  lemma {:induction false} ReadItemsRoundTrip(items: seq<Item>)
    requires forall item :: item in items ==> SmallBits(item.kind)
    ensures ReadItems(AllFields(items)) == Some(items)
    decreases |items|
  {
    if items != [] {
      var first, rest := items[0], items[1..];
      assert first in items;
      assert items == [first] + rest;
      FieldsAppend([first], rest);
      var none: seq<Item> := [];
      assert [first][..0] == none;
      assert AllFields([first]) == Fields(first);
      ReadItemRoundTrip(first, AllFields(rest));
      assert AllFields(items)[|Fields(first)|..] == AllFields(rest);
      ReadItemsRoundTrip(rest);
    }
  }

  /** The stream of any entries is uniquely decodable: every path, kind, masked mode, content
      digest and link target comes back. */
  lemma StreamRoundTrip(items: seq<Item>)
    requires forall item :: item in items ==> SmallBits(item.kind)
    requires Stream(items).Ok?
    ensures Decode(Stream(items).value) == Some(items)
  {
    UnframeRoundTrip(AllFields(items));
    ReadItemsRoundTrip(items);
  }
}
