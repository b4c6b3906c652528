/** Values shared by every component: optional and failing results, decoded JSON
    documents, and the text form those documents are stored in. */
module Common {

  datatype Option<+T> = None | Some(value: T)

  /** `Refused` stands for every error a reader or writer raises instead of returning. */
  datatype Result<+T> = Ok(value: T) | Refused

  /** Binary digits after the point; the last one, if there is any, is a one. */
  type Fraction = bits: seq<bool> | bits == [] || bits[|bits| - 1]

  /** A finite double, exactly: its floor and the fraction above it. */
  datatype Double = Double(floor: int, fraction: Fraction)

  function FromInt(i: int): Double { Double(i, []) }

  predicate NotNegative(d: Double) { d.floor >= 0 }
  predicate Positive(d: Double) { d.floor > 0 || (d.floor == 0 && d.fraction != []) }

  /** A decoded JSON document. Integers and floats are kept apart because the readers do; a float
      is held exactly. */
  datatype Json =
    | Null
    | Bool(b: bool)
    | Int(i: int)
    | Float(d: Double)
    | Str(s: string)
    | Arr(items: seq<Json>)
    | Obj(fields: map<string, Json>)

  /** `dict.get`: an absent key reads as null. */
  function Get(fields: map<string, Json>, key: string): Json {
    if key in fields then fields[key] else Null
  }

  /** The JSON library: a sorted-key printer and a reader. */
  datatype Codec = Codec(write: Json -> string, parse: string -> Option<Json>)

  /** Everything printed reads back as the document that was printed. */
  ghost predicate Faithful(c: Codec) {
    forall j: Json :: c.parse(c.write(j)) == Some(j)
  }
}
