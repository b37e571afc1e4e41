/** The base64 encoding of section 4 of RFC 4648, without line breaks. */
module Base64 {
  import opened Wrappers

  type Byte = x: int | 0 <= x < 256

  // The character of a six-bit group.
  function Symbol(n: nat): (c: char)
    requires n < 64
  {
    if n < 26 then (n + 'A' as int) as char
    else if n < 52 then (n - 26 + 'a' as int) as char
    else if n < 62 then (n - 52 + '0' as int) as char
    else if n == 62 then '+'
    else '/'
  }

  /** The characters are those of table 1 of RFC 4648, in its order. */
  lemma Alphabet(n: nat)
    requires n < 64
    ensures n < 26 ==> Symbol(n) == "ABCDEFGHIJKLMNOPQRSTUVWXYZ"[n]
    ensures 26 <= n < 52 ==> Symbol(n) == "abcdefghijklmnopqrstuvwxyz"[n - 26]
    ensures 52 <= n ==> Symbol(n) == "0123456789+/"[n - 52]
  {
    match if n < 26 then n else if n < 52 then n - 26 else n - 52
    case 0 => case 1 => case 2 => case 3 => case 4 => case 5 => case 6 => case 7 => case 8 =>
    case 9 => case 10 => case 11 => case 12 => case 13 => case 14 => case 15 => case 16 => case 17 =>
    case 18 => case 19 => case 20 => case 21 => case 22 => case 23 => case 24 => case _ =>
  }

  function Value(c: char): (v: Option<nat>)
    ensures v.Some? ==> v.value < 64 && c == Symbol(v.value)
  {
    if 'A' <= c <= 'Z' then Some(c as int - 'A' as int)
    else if 'a' <= c <= 'z' then Some(c as int - 'a' as int + 26)
    else if '0' <= c <= '9' then Some(c as int - '0' as int + 52)
    else if c == '+' then Some(62)
    else if c == '/' then Some(63)
    else None
  }

  function EncodeThree(a: Byte, b: Byte, c: Byte): string {
    [Symbol(a / 4), Symbol(a % 4 * 16 + b / 16), Symbol(b % 16 * 4 + c / 64), Symbol(c % 64)]
  }

  function Encode(data: seq<Byte>): (text: string) {
    if |data| == 0 then ""
    else if |data| == 1 then
      [Symbol(data[0] / 4), Symbol(data[0] % 4 * 16), '=', '=']
    else if |data| == 2 then
      [Symbol(data[0] / 4), Symbol(data[0] % 4 * 16 + data[1] / 16), Symbol(data[1] % 16 * 4), '=']
    else EncodeThree(data[0], data[1], data[2]) + Encode(data[3..])
  }

  // Four characters; padding may stand only at the very end.
  function DecodeFour(text: string): (r: Option<seq<Byte>>)
    requires |text| == 4
  {
    var v0, v1, v2, v3 := Value(text[0]), Value(text[1]), Value(text[2]), Value(text[3]);
    if v0.None? || v1.None? then None
    else
      var first := v0.value * 4 + v1.value / 16;
      if text[2] == '=' && text[3] == '=' then
        if v1.value % 16 == 0 then Some([first]) else None
      else if v2.None? then None
      else
        var second := v1.value % 16 * 16 + v2.value / 4;
        if text[3] == '=' then
          if v2.value % 4 == 0 then Some([first, second]) else None
        else if v3.None? then None
        else Some([first, second, v2.value % 4 * 64 + v3.value])
  }

  function Decode(text: string): (r: Option<seq<Byte>>) {
    if text == "" then Some([])
    else if |text| < 4 then None
    else
      match DecodeFour(text[..4])
      case None => None
      case Some(data) =>
        if |text| == 4 then Some(data)
        else if |data| < 3 then None
        else
          match Decode(text[4..])
          case None => None
          case Some(rest) => Some(data + rest)
  }

  lemma ValueOfSymbol(n: nat)
    requires n < 64
    ensures Value(Symbol(n)) == Some(n)
    ensures Symbol(n) != '='
  {
  }

  lemma DecodeOne(a: Byte)
    ensures DecodeFour(Encode([a])) == Some([a])
  {
    ValueOfSymbol(a / 4);
    ValueOfSymbol(a % 4 * 16);
  }

  lemma DecodeTwo(a: Byte, b: Byte)
    ensures DecodeFour(Encode([a, b])) == Some([a, b])
  {
    var n1, n2 := a % 4 * 16 + b / 16, b % 16 * 4;
    ValueOfSymbol(a / 4);
    ValueOfSymbol(n1);
    ValueOfSymbol(n2);
    assert n1 / 16 == a % 4 && n1 % 16 == b / 16 && n2 / 4 == b % 16 && n2 % 4 == 0;
    assert Encode([a, b]) == [Symbol(a / 4), Symbol(n1), Symbol(n2), '='];
  }

  lemma DecodeThree(a: Byte, b: Byte, c: Byte)
    ensures DecodeFour(EncodeThree(a, b, c)) == Some([a, b, c])
  {
    var n1, n2 := a % 4 * 16 + b / 16, b % 16 * 4 + c / 64;
    ValueOfSymbol(a / 4);
    ValueOfSymbol(n1);
    ValueOfSymbol(n2);
    ValueOfSymbol(c % 64);
    assert n1 / 16 == a % 4 && n1 % 16 == b / 16 && n2 / 4 == b % 16 && n2 % 4 == c / 64;
  }

  /** Decoding undoes encoding, for all data. */
  lemma {:induction false} DecodeEncode(data: seq<Byte>)
    ensures Decode(Encode(data)) == Some(data)
  {
    var text := Encode(data);
    if |data| == 1 {
      assert text[..4] == text && data == [data[0]];
      DecodeOne(data[0]);
    } else if |data| == 2 {
      assert text[..4] == text && data == [data[0], data[1]];
      DecodeTwo(data[0], data[1]);
    } else if |data| > 2 {
      DecodeEncode(data[3..]);
      DecodeFirstThree(data);
    }
  }

  lemma DecodeStep(head: string, three: seq<Byte>, tail: string, rest: seq<Byte>)
    requires |head| == 4 && DecodeFour(head) == Some(three) && |three| == 3
    requires Decode(tail) == Some(rest)
    ensures Decode(head + tail) == Some(three + rest)
  {
    var text := head + tail;
    assert text[..4] == head && text[4..] == tail;
    if tail == "" {
      assert three + rest == three;
    }
  }

  // The first four characters of an encoding stand for the first three bytes.
  lemma FirstFour(data: seq<Byte>) returns (head: string)
    requires |data| > 2
    ensures |head| == 4 && DecodeFour(head) == Some(data[..3]) && Encode(data) == head + Encode(data[3..])
  {
    head := EncodeThree(data[0], data[1], data[2]);
    DecodeThree(data[0], data[1], data[2]);
    assert data[..3] == [data[0], data[1], data[2]];
  }

  lemma DecodeFirstThree(data: seq<Byte>)
    requires |data| > 2 && Decode(Encode(data[3..])) == Some(data[3..])
    ensures Decode(Encode(data)) == Some(data)
  {
    var head := FirstFour(data);
    DecodeStep(head, data[..3], Encode(data[3..]), data[3..]);
    assert data == data[..3] + data[3..];
  }

  function ByteAt(data: seq<Byte>, i: nat): Byte {
    if i < |data| then data[i] else 0
  }

  function SixBits(c: char): nat {
    if Value(c).Some? then Value(c).value else 0
  }

  // The 24 bits of a group, as three bytes and as four characters.
  predicate SameBits(a: Byte, b: Byte, c: Byte, group: string)
    requires |group| == 4
  {
    a * 65536 + b * 256 + c ==
    SixBits(group[0]) * 262144 + SixBits(group[1]) * 4096 + SixBits(group[2]) * 64 + SixBits(group[3])
  }

  // Four characters hold the bytes from a place on: bytes beyond the end count as 0, and a
  // character without bits of data is padding.
  predicate Holds(group: string, data: seq<Byte>, at: nat) {
    && |group| == 4
    && SameBits(ByteAt(data, at), ByteAt(data, at + 1), ByteAt(data, at + 2), group)
    && group[0] != '=' && group[1] != '='
    && (group[2] == '=' <==> |data| < at + 2) && (group[3] == '=' <==> |data| < at + 3)
  }

  lemma GroupBits(data: seq<Byte>)
    requires |data| > 2
    ensures Holds(EncodeThree(data[0], data[1], data[2]), data, 0)
  {
    var a, b, c := data[0], data[1], data[2];
    ValueOfSymbol(a / 4);
    ValueOfSymbol(a % 4 * 16 + b / 16);
    ValueOfSymbol(b % 16 * 4 + c / 64);
    ValueOfSymbol(c % 64);
  }

  lemma LastBits(data: seq<Byte>)
    requires 1 <= |data| <= 2
    ensures Holds(Encode(data), data, 0)
  {
    var a, b := data[0], ByteAt(data, 1);
    ValueOfSymbol(a / 4);
    ValueOfSymbol(a % 4 * 16 + b / 16);
    ValueOfSymbol(b % 16 * 4);
  }

  lemma HoldsLater(group: string, data: seq<Byte>, at: nat)
    requires |data| > 2 && Holds(group, data[3..], at)
    ensures Holds(group, data, at + 3)
  {
    assert forall i :: i >= 0 ==> ByteAt(data[3..], i) == ByteAt(data, i + 3);
  }

  // The groups of four characters.
  function GroupAt(text: string, g: nat): string {
    if 4 * g + 4 <= |text| then [text[4 * g], text[4 * g + 1], text[4 * g + 2], text[4 * g + 3]] else ""
  }

  // The text has a group for every three bytes begun, and the group holds them.
  predicate GroupOk(text: string, data: seq<Byte>, g: nat) {
    if 3 * g < |data| then Holds(GroupAt(text, g), data, 3 * g) else GroupAt(text, g) == ""
  }

  lemma GroupsShift(head: string, tail: string, g: nat)
    requires |head| == 4
    ensures GroupAt(head + tail, 0) == head && GroupAt(head + tail, g + 1) == GroupAt(tail, g)
  {
  }

  lemma GroupOkLater(head: string, tail: string, data: seq<Byte>, g: nat)
    requires |data| > 2 && |head| == 4 && GroupOk(tail, data[3..], g)
    ensures GroupOk(head + tail, data, g + 1)
  {
    GroupsShift(head, tail, g);
    if 3 * g < |data[3..]| {
      HoldsLater(GroupAt(tail, g), data, 3 * g);
    }
  }

  lemma EncodeFront(data: seq<Byte>) returns (head: string)
    requires |data| > 2
    ensures Encode(data) == head + Encode(data[3..]) && |head| == 4 && GroupOk(Encode(data), data, 0)
  {
    head := EncodeThree(data[0], data[1], data[2]);
    GroupBits(data);
    GroupsShift(head, Encode(data[3..]), 0);
  }

  lemma EncodeLater(data: seq<Byte>, g: nat)
    requires |data| > 2 && GroupOk(Encode(data[3..]), data[3..], g)
    ensures GroupOk(Encode(data), data, g + 1)
  {
    var head := EncodeFront(data);
    GroupOkLater(head, Encode(data[3..]), data, g);
  }

  lemma EncodeShort(data: seq<Byte>, g: nat)
    requires |data| <= 2
    ensures GroupOk(Encode(data), data, g)
  {
    if data != [] {
      LastBits(data);
      OnlyGroup(Encode(data), data, g);
    }
  }

  lemma OnlyGroup(text: string, data: seq<Byte>, g: nat)
    requires 1 <= |data| <= 2 && Holds(text, data, 0)
    ensures GroupOk(text, data, g)
  {
    assert GroupAt(text, 0) == text;
  }

  /** Every group of four characters holds the bits of three bytes, the first in the highest
      place. */
  lemma {:induction false} EncodedBits(data: seq<Byte>, g: nat)
    ensures GroupOk(Encode(data), data, g)
  {
    if |data| <= 2 {
      EncodeShort(data, g);
    } else if g == 0 {
      var _ := EncodeFront(data);
    } else {
      EncodedBits(data[3..], g - 1);
      EncodeLater(data, g - 1);
    }
  }

  lemma EncodeInjective(a: seq<Byte>, b: seq<Byte>)
    requires Encode(a) == Encode(b)
    ensures a == b
  {
    DecodeEncode(a);
    DecodeEncode(b);
  }

  // The characters of an encoded text.
  predicate InAlphabet(c: char) {
    Value(c).Some? || c == '='
  }

  lemma {:induction false} EncodedAlphabet(data: seq<Byte>)
    ensures forall c :: c in Encode(data) ==> InAlphabet(c)
  {
    if |data| > 2 {
      EncodedAlphabet(data[3..]);
    }
  }
}
