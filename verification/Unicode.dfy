/** The UTF-8 form of texts, and its decoder. */
module Unicode {
  import opened Common

  type byte = x: int | 0 <= x < 256
  type Bytes = seq<byte>

  function CharBytes(ch: char): Bytes {
    var n := ch as int;
    if n < 0x80 then [n]
    else if n < 0x800 then [0xC0 + n / 64, 0x80 + n % 64]
    else if n < 0x1_0000 then [0xE0 + n / 4096, 0x80 + n / 64 % 64, 0x80 + n % 64]
    else [0xF0 + n / 262144, 0x80 + n / 4096 % 64, 0x80 + n / 64 % 64, 0x80 + n % 64]
  }

  function Utf8(text: string): Bytes {
    if text == "" then [] else CharBytes(text[0]) + Utf8(text[1..])
  }

  predicate IsScalar(n: int) { 0 <= n < 0xD800 || 0xE000 <= n < 0x11_0000 }

  /** Length of the character a lead byte announces. */
  function LeadWidth(b: byte): nat {
    if b < 0x80 then 1 else if b < 0xE0 then 2 else if b < 0xF0 then 3 else 4
  }

  function CharAt(data: Bytes): int
    requires data != [] && LeadWidth(data[0]) <= |data|
  {
    match LeadWidth(data[0])
    case 1 => data[0]
    case 2 => (data[0] as int - 0xC0) * 64 + (data[1] as int - 0x80)
    case 3 => (data[0] as int - 0xE0) * 4096 + (data[1] as int - 0x80) * 64 + (data[2] as int - 0x80)
    case _ =>
      (data[0] as int - 0xF0) * 262144 + (data[1] as int - 0x80) * 4096 + (data[2] as int - 0x80) * 64
      + (data[3] as int - 0x80)
  }

  function FromUtf8(data: Bytes): Option<string>
    decreases |data|
  {
    if data == [] then Some("")
    else
      var width := LeadWidth(data[0]);
      if |data| < width || !IsScalar(CharAt(data)) then None
      else
        match FromUtf8(data[width..])
        case None => None
        case Some(text) => Some([CharAt(data) as char] + text)
  }

  lemma SplitDigits(n: nat)
    ensures n == n / 64 * 64 + n % 64
    ensures n == n / 4096 * 4096 + n / 64 % 64 * 64 + n % 64
    ensures n == n / 262144 * 262144 + n / 4096 % 64 * 4096 + n / 64 % 64 * 64 + n % 64
  {
    assert n / 64 / 64 == n / 4096;
    assert n / 4096 / 64 == n / 262144;
  }

  lemma CharReadsBack(ch: char, rest: Bytes)
    ensures var data := CharBytes(ch) + rest;
            && LeadWidth(data[0]) == |CharBytes(ch)|
            && CharAt(data) == ch as int
            && data[|CharBytes(ch)|..] == rest
  {
    SplitDigits(ch as int);
  }

  lemma {:induction false} Utf8RoundTrip(text: string)
    ensures FromUtf8(Utf8(text)) == Some(text)
  {
    if text != "" {
      Utf8RoundTrip(text[1..]);
      CharReadsBack(text[0], Utf8(text[1..]));
      assert text == [text[0]] + text[1..];
    }
  }
}
