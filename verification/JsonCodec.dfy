/** One codec that meets the hypothesis the laws about stored texts make: everything printed reads
    back. It prints counts in unary, so that a short reader undoes it. */
module JsonCodec {
  import opened Common

  // ---- printing --------------------------------------------------------------------------

  function Count(n: nat): string { if n == 0 then "." else "1" + Count(n - 1) }

  function Signed(i: int): string { if i < 0 then "-" + Count(-i) else "+" + Count(i) }

  function Text(s: string): string { Count(|s|) + s }

  function Digits(bits: seq<bool>): string { seq(|bits|, i requires 0 <= i < |bits| => if bits[i] then '1' else '0') }

  ghost function Print(j: Json): string
    decreases j, 2, 0
  {
    match j
    case Null => "n"
    case Bool(b) => if b then "t" else "f"
    case Int(i) => "i" + Signed(i)
    case Float(d) => "d" + (Signed(d.floor) + Text(Digits(d.fraction)))
    case Str(s) => "s" + Text(s)
    case Arr(items) => "a" + (Count(|items|) + PrintItems(j, items))
    case Obj(fields) => "o" + (Count(|fields|) + PrintFields(j, fields))
  }

  ghost function PrintItems(j: Json, items: seq<Json>): string
    requires forall i :: 0 <= i < |items| ==> items[i] < j
    decreases j, 1, |items|
  {
    if items == [] then "" else Print(items[0]) + PrintItems(j, items[1..])
  }

  /** The entries in some order; the reader does not depend on which. */
  ghost function PrintFields(j: Json, fields: map<string, Json>): string
    requires forall key :: key in fields ==> fields[key] < j
    decreases j, 1, |fields|
  {
    if |fields| == 0 then ""
    else
      var key :| key in fields;
      Text(key) + (Print(fields[key]) + PrintFields(j, fields - {key}))
  }

  // ---- reading ---------------------------------------------------------------------------

  function ReadCount(s: string): (r: Option<(nat, string)>)
    ensures r.Some? ==> |r.value.1| < |s|
  {
    if s == "" then None
    else if s[0] == '.' then Some((0, s[1..]))
    else if s[0] == '1' then
      (match ReadCount(s[1..])
       case Some((n, rest)) => Some((n + 1, rest))
       case None => None)
    else None
  }

  function ReadSigned(s: string): (r: Option<(int, string)>)
    ensures r.Some? ==> |r.value.1| < |s|
  {
    if s == "" || (s[0] != '+' && s[0] != '-') then None
    else
      match ReadCount(s[1..])
      case Some((n, rest)) => Some((if s[0] == '-' then -(n as int) else n, rest))
      case None => None
  }

  function ReadText(s: string): (r: Option<(string, string)>)
    ensures r.Some? ==> |r.value.1| < |s|
  {
    match ReadCount(s)
    case Some((n, rest)) => if n <= |rest| then Some((rest[..n], rest[n..])) else None
    case None => None
  }

  function Bits(digits: string): seq<bool> { seq(|digits|, i requires 0 <= i < |digits| => digits[i] == '1') }

  function ReadFloat(s: string): (r: Option<(Json, string)>)
    ensures r.Some? ==> |r.value.1| < |s|
  {
    match ReadSigned(s)
    case None => None
    case Some((floor, rest)) =>
      match ReadText(rest)
      case None => None
      case Some((digits, more)) =>
        var bits := Bits(digits);
        if bits == [] || bits[|bits| - 1] then Some((Float(Double(floor, bits)), more)) else None
  }

  function Read(s: string): (r: Option<(Json, string)>)
    ensures r.Some? ==> |r.value.1| < |s|
    decreases |s|, 0
  {
    if s == "" then None
    else
      match s[0]
      case 'n' => Some((Null, s[1..]))
      case 't' => Some((Bool(true), s[1..]))
      case 'f' => Some((Bool(false), s[1..]))
      case 'i' => (match ReadSigned(s[1..]) case Some((i, rest)) => Some((Int(i), rest)) case None => None)
      case 'd' => ReadFloat(s[1..])
      case 's' => (match ReadText(s[1..]) case Some((t, rest)) => Some((Str(t), rest)) case None => None)
      case 'a' => ReadArr(s[1..])
      case 'o' => ReadObj(s[1..])
      case _ => None
  }

  function ReadArr(s: string): (r: Option<(Json, string)>)
    ensures r.Some? ==> |r.value.1| < |s|
    decreases |s|, 0
  {
    match ReadCount(s)
    case None => None
    case Some((n, rest)) =>
      match ReadItems(n, rest)
      case Some((items, more)) => Some((Arr(items), more))
      case None => None
  }

  function ReadObj(s: string): (r: Option<(Json, string)>)
    ensures r.Some? ==> |r.value.1| < |s|
    decreases |s|, 0
  {
    match ReadCount(s)
    case None => None
    case Some((n, rest)) =>
      match ReadFields(n, rest)
      case Some((fields, more)) => Some((Obj(fields), more))
      case None => None
  }

  function ReadItems(n: nat, s: string): (r: Option<(seq<Json>, string)>)
    ensures r.Some? ==> |r.value.1| <= |s|
    decreases |s|, 1
  {
    if n == 0 then Some(([], s))
    else
      match Read(s)
      case None => None
      case Some((j, rest)) =>
        match ReadItems(n - 1, rest)
        case Some((items, more)) => Some(([j] + items, more))
        case None => None
  }

  function ReadFields(n: nat, s: string): (r: Option<(map<string, Json>, string)>)
    ensures r.Some? ==> |r.value.1| <= |s|
    decreases |s|, 1
  {
    if n == 0 then Some((map[], s))
    else
      match ReadText(s)
      case None => None
      case Some((key, rest)) =>
        match Read(rest)
        case None => None
        case Some((j, more)) =>
          match ReadFields(n - 1, more)
          case Some((fields, end)) => Some((fields[key := j], end))
          case None => None
  }

  // ---- the round trip --------------------------------------------------------------------

  lemma {:induction false} CountReads(n: nat, rest: string)
    ensures ReadCount(Count(n) + rest) == Some((n, rest))
  {
    var s := Count(n) + rest;
    if n > 0 {
      CountReads(n - 1, rest);
      assert s[1..] == Count(n - 1) + rest;
    }
  }

  lemma SignedReads(i: int, rest: string)
    ensures ReadSigned(Signed(i) + rest) == Some((i, rest))
  {
    var n := if i < 0 then -i else i;
    CountReads(n, rest);
    assert (Signed(i) + rest)[1..] == Count(n) + rest;
  }

  lemma TextReads(t: string, rest: string)
    ensures ReadText(Text(t) + rest) == Some((t, rest))
  {
    CountReads(|t|, t + rest);
    assert Text(t) + rest == Count(|t|) + (t + rest);
    assert (t + rest)[..|t|] == t && (t + rest)[|t|..] == rest;
  }

  lemma FloatReads(d: Double, rest: string)
    ensures ReadFloat((Signed(d.floor) + Text(Digits(d.fraction))) + rest) == Some((Float(d), rest))
  {
    var digits := Digits(d.fraction);
    SignedReads(d.floor, Text(digits) + rest);
    assert (Signed(d.floor) + Text(digits)) + rest == Signed(d.floor) + (Text(digits) + rest);
    TextReads(digits, rest);
    assert Bits(digits) == d.fraction;
  }

  /** What follows the tag of a leaf. */
  lemma Tagged(tag: string, body: string, rest: string)
    requires |tag| == 1
    ensures ((tag + body) + rest)[0] == tag[0] && ((tag + body) + rest)[1..] == body + rest
  {}

  lemma LeafReads(j: Json, rest: string)
    requires !j.Arr? && !j.Obj?
    ensures Read(Print(j) + rest) == Some((j, rest))
  {
    match j
    case Null => assert (Print(j) + rest)[1..] == rest;
    case Bool(_) => assert (Print(j) + rest)[1..] == rest;
    case Int(i) =>
      SignedReads(i, rest);
      Tagged("i", Signed(i), rest);
    case Float(d) =>
      FloatReads(d, rest);
      Tagged("d", Signed(d.floor) + Text(Digits(d.fraction)), rest);
    case Str(t) =>
      TextReads(t, rest);
      Tagged("s", Text(t), rest);
    case _ =>
  }

  lemma {:induction false} PrintReads(j: Json, rest: string)
    ensures Read(Print(j) + rest) == Some((j, rest))
    decreases j, 2, 0
  {
    match j
    case Arr(items) =>
      ItemsRead(j, items, rest);
      Opened("a", |items|, PrintItems(j, items), rest);
      CountReads(|items|, PrintItems(j, items) + rest);
    case Obj(fields) =>
      FieldsRead(j, fields, rest);
      Opened("o", |fields|, PrintFields(j, fields), rest);
      CountReads(|fields|, PrintFields(j, fields) + rest);
    case _ => LeafReads(j, rest);
  }

  /** What follows the tag of an array or object. */
  lemma Opened(tag: string, n: nat, body: string, rest: string)
    requires |tag| == 1
    ensures ((tag + (Count(n) + body)) + rest)[0] == tag[0]
    ensures ((tag + (Count(n) + body)) + rest)[1..] == Count(n) + (body + rest)
  {}

  lemma {:induction false} ItemsRead(j: Json, items: seq<Json>, rest: string)
    requires forall i :: 0 <= i < |items| ==> items[i] < j
    ensures ReadItems(|items|, PrintItems(j, items) + rest) == Some((items, rest))
    decreases j, 1, |items|
  {
    var s := PrintItems(j, items) + rest;
    if items == [] {
      assert s == rest;
    } else {
      var more := PrintItems(j, items[1..]) + rest;
      PrintReads(items[0], more);
      assert s == Print(items[0]) + more;
      ItemsRead(j, items[1..], rest);
      assert items == [items[0]] + items[1..];
    }
  }

  ghost predicate Inside(j: Json, fields: map<string, Json>) { forall key :: key in fields ==> fields[key] < j }

  /** The printed entries begin with this one. */
  ghost predicate SplitsAt(j: Json, fields: map<string, Json>, key: string) {
    && Inside(j, fields) && key in fields && |fields - {key}| == |fields| - 1
    && PrintFields(j, fields) == Text(key) + (Print(fields[key]) + PrintFields(j, fields - {key}))
  }

  /** The printed entries read back, before any other text. */
  ghost predicate ReadBack(j: Json, fields: map<string, Json>, rest: string) {
    Inside(j, fields) && ReadFields(|fields|, PrintFields(j, fields) + rest) == Some((fields, rest))
  }

  lemma Picked(j: Json, fields: map<string, Json>) returns (key: string)
    requires |fields| > 0 && forall key :: key in fields ==> fields[key] < j
    ensures SplitsAt(j, fields, key)
  {
    key :| key in fields && PrintFields(j, fields) == Text(key) + (Print(fields[key]) + PrintFields(j, fields - {key}));
    assert fields.Keys == (fields - {key}).Keys + {key};
  }

  /** One entry is read, then the others. */
  lemma FieldReads(key: string, j: Json, others: map<string, Json>, more: string, rest: string)
    requires Read(Print(j) + more) == Some((j, more)) && ReadFields(|others|, more) == Some((others, rest))
    ensures ReadFields(|others| + 1, Text(key) + (Print(j) + more)) == Some((others[key := j], rest))
  {
    TextReads(key, Print(j) + more);
  }

  lemma Regroup(a: string, b: string, c: string, d: string)
    ensures (a + (b + c)) + d == a + (b + (c + d))
  {}

  lemma NoFields(j: Json, fields: map<string, Json>, rest: string)
    requires |fields| == 0
    ensures ReadBack(j, fields, rest)
  {
    assert fields == map[];
    assert PrintFields(j, fields) + rest == rest;
  }

  lemma {:induction false} FieldsRead(j: Json, fields: map<string, Json>, rest: string)
    requires Inside(j, fields)
    ensures ReadBack(j, fields, rest)
    decreases j, 1, |fields|
  {
    if |fields| == 0 {
      NoFields(j, fields, rest);
    } else {
      var key := Picked(j, fields);
      FieldsRead(j, fields - {key}, rest);
      OneMore(j, fields, key, rest);
    }
  }

  lemma OneMore(j: Json, fields: map<string, Json>, key: string, rest: string)
    requires SplitsAt(j, fields, key) && ReadBack(j, fields - {key}, rest)
    ensures ReadBack(j, fields, rest)
    decreases j, 0, 0
  {
    var others := fields - {key};
    var more := PrintFields(j, others) + rest;
    PrintReads(fields[key], more);
    FieldReads(key, fields[key], others, more, rest);
    Regroup(Text(key), Print(fields[key]), PrintFields(j, others), rest);
    assert fields == others[key := fields[key]];
  }

  /** The hypothesis `Faithful` can be met. */
  ghost function Reference(): (c: Codec)
    ensures Faithful(c)
  {
    var c := Codec((j: Json) => Print(j),
                   (s: string) => match Read(s)
                                  case Some((j, rest)) => if rest == "" then Some(j) else None
                                  case None => None);
    assert Faithful(c) by {
      forall j: Json ensures c.parse(c.write(j)) == Some(j) {
        PrintReads(j, "");
        assert Print(j) + "" == Print(j);
      }
    }
    c
  }
}
