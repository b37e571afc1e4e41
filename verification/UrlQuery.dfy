/** Percent-escaping (section 2.3 of RFC 3986) and the splitting of query strings. */
module UrlQuery {
  import opened Wrappers
  import Ascii

  // The characters of a C string of bytes.
  predicate IsText(s: string) {
    forall i :: 0 <= i < |s| ==> 0 < s[i] as int < 256
  }

  predicate Unreserved(c: char) {
    'A' <= c <= 'Z' || 'a' <= c <= 'z' || '0' <= c <= '9' || c == '.' || c == '_' || c == '~' || c == '-'
  }

  function HexDigit(n: nat): (c: char)
    requires n < 16
    ensures HexValue(c) == Some(n) && c != '%' && !Separator(c)
  {
    if n > 9 then ('A' as int + n - 10) as char else ('0' as int + n) as char
  }

  /** The digits of an escape sequence. */
  lemma HexDigits(n: nat)
    requires n < 16
    ensures HexDigit(n) == "0123456789ABCDEF"[n]
  {
    match n
    case 0 => case 1 => case 2 => case 3 => case 4 => case 5 => case 6 => case 7 => case 8 => case _ =>
  }

  function HexValue(c: char): (v: Option<nat>)
    ensures v.Some? ==> v.value < 16
  {
    if '0' <= c <= '9' then Some(c as int - '0' as int)
    else if 'a' <= c <= 'f' then Some(c as int - 'a' as int + 10)
    else if 'A' <= c <= 'F' then Some(c as int - 'A' as int + 10)
    else None
  }

  function EscapeChar(c: char): string {
    if Unreserved(c) then [c] else ['%', HexDigit(c as int / 16 % 16), HexDigit(c as int % 16)]
  }

  /** A byte stands for itself exactly if it is a letter, a digit or one of four signs; any other is
      written as a percent sign and two hexadecimal digits. */
  lemma EscapedExactly(c: char)
    requires c as int < 256
    ensures EscapeChar(c) == [c] <==>
            Ascii.Upper(c) || Ascii.Lower(c) || c in "0123456789" || c in "._~-"
    ensures EscapeChar(c) == [c] || EscapeChar(c) == ['%', HexDigit(c as int / 16), HexDigit(c as int % 16)]
  {
    var digits := "0123456789";
    if '0' <= c <= '9' {
      assert digits[c as int - '0' as int] == c by {
        match c as int - '0' as int
        case 0 => case 1 => case 2 => case 3 => case 4 => case 5 => case 6 => case 7 => case 8 => case _ =>
      }
    }
  }

  function Escape(s: string): string {
    if s == "" then "" else EscapeChar(s[0]) + Escape(s[1..])
  }

  function Unescape(s: string): string {
    if s == "" then ""
    else if |s| > 2 && s[0] == '%' && HexValue(s[1]).Some? && HexValue(s[2]).Some? then
      [(HexValue(s[1]).value * 16 + HexValue(s[2]).value) as char] + Unescape(s[3..])
    else [s[0]] + Unescape(s[1..])
  }

  // A character before anything else in an escaped text unescapes on its own.
  lemma UnescapeChar(c: char, rest: string)
    requires 0 < c as int < 256
    ensures Unescape(EscapeChar(c) + rest) == [c] + Unescape(rest)
  {
    var s := EscapeChar(c) + rest;
    if Unreserved(c) {
      assert s[0] == c && s[1..] == rest;
    } else {
      var high, low := c as int / 16, c as int % 16;
      assert s[0] == '%' && s[1] == HexDigit(high) && s[2] == HexDigit(low) && s[3..] == rest;
      assert (high * 16 + low) as char == c;
    }
  }

  /** Unescaping undoes escaping. */
  lemma {:induction false} UnescapeEscape(s: string)
    requires IsText(s)
    ensures Unescape(Escape(s)) == s
  {
    if s != "" {
      UnescapeEscape(s[1..]);
      UnescapeChar(s[0], Escape(s[1..]));
    }
  }

  // Text without a percent sign unescapes to itself.
  lemma {:induction false} UnescapePlain(plain: string, rest: string)
    requires '%' !in plain
    ensures Unescape(plain + rest) == plain + Unescape(rest)
  {
    if plain == "" {
      assert plain + rest == rest;
    } else {
      var s, c := plain + rest, plain[0];
      assert s[0] == c && s[1..] == plain[1..] + rest;
      UnescapePlain(plain[1..], rest);
      assert Unescape(s) == [c] + Unescape(s[1..]);
      assert [c] + (plain[1..] + Unescape(rest)) == plain + Unescape(rest);
    }
  }

  /* ----- fields ----- */

  predicate Separator(c: char) {
    c == '&' || c == ';'
  }

  predicate NoSeparator(s: string) {
    forall i :: 0 <= i < |s| ==> !Separator(s[i])
  }

  lemma {:induction false} EscapedHasNoSeparator(s: string)
    ensures NoSeparator(Escape(s))
  {
    if s != "" {
      EscapedHasNoSeparator(s[1..]);
    }
  }

  // What is left of a buffer when it is read as a C string.
  function CString(s: string): string {
    if s == "" || s[0] == '\0' then "" else [s[0]] + CString(s[1..])
  }

  lemma {:induction false} TextIsCString(s: string)
    requires IsText(s)
    ensures CString(s) == s
  {
    if s != "" {
      TextIsCString(s[1..]);
    }
  }

  function Field(piece: string): string {
    CString(Unescape(piece))
  }

  // The pieces between separators; there is always a last one, which may be empty.
  function Pieces(s: string): (r: seq<string>)
    ensures r != []
  {
    if s == "" then [""]
    else
      var rest := Pieces(s[1..]);
      if Separator(s[0]) then [""] + rest else [[s[0]] + rest[0]] + rest[1..]
  }

  function Fields(s: string): (r: seq<string>)
    ensures |r| == |Pieces(s)| && forall k :: 0 <= k < |r| ==> r[k] == Field(Pieces(s)[k])
  {
    seq(|Pieces(s)|, i requires 0 <= i < |Pieces(s)| => Field(Pieces(s)[i]))
  }

  lemma {:induction false} PiecesOfPlain(p: string)
    requires NoSeparator(p)
    ensures Pieces(p) == [p]
  {
    if p != "" {
      PiecesOfPlain(p[1..]);
      assert [p[0]] + p[1..] == p;
    }
  }

  lemma {:induction false} PiecesSplit(p: string, sep: char, rest: string)
    requires NoSeparator(p) && Separator(sep)
    ensures Pieces(p + [sep] + rest) == [p] + Pieces(rest)
  {
    var s := p + [sep] + rest;
    if p == "" {
      assert s[1..] == rest;
    } else {
      assert s[1..] == p[1..] + [sep] + rest;
      PiecesSplit(p[1..], sep, rest);
      assert [s[0]] + p[1..] == p;
    }
  }

  function Separators(s: string): nat {
    if s == "" then 0 else (if Separator(s[0]) then 1 else 0) + Separators(s[1..])
  }

  lemma {:induction false} PieceCount(s: string)
    ensures |Pieces(s)| == Separators(s) + 1
  {
    if s != "" {
      PieceCount(s[1..]);
    }
  }

  /* ----- the loops over character buffers ----- */

  method EscapedLength(from: string) returns (len: nat)
    ensures len == |Escape(from)|
  {
    len := 0;
    var fp := 0;
    while fp < |from|
      invariant 0 <= fp <= |from|
      invariant len + |Escape(from[fp..])| == |Escape(from)|
    {
      assert from[fp..][1..] == from[fp + 1..];
      len := len + if Unreserved(from[fp]) then 1 else 3;
      fp := fp + 1;
    }
  }

  lemma EscapeNext(done: string, from: string, fp: nat)
    requires fp < |from| && done + Escape(from[fp..]) == Escape(from)
    ensures done + EscapeChar(from[fp]) + Escape(from[fp + 1..]) == Escape(from)
    ensures |done| + |EscapeChar(from[fp])| <= |Escape(from)|
  {
    EscapeFrom(from, fp);
    Regroup(done, EscapeChar(from[fp]), Escape(from[fp + 1..]));
  }

  lemma EscapeFrom(from: string, fp: nat)
    requires fp < |from|
    ensures Escape(from[fp..]) == EscapeChar(from[fp]) + Escape(from[fp + 1..])
  {
    assert from[fp..][1..] == from[fp + 1..];
  }

  lemma Regroup(a: string, b: string, c: string)
    ensures a + (b + c) == a + b + c
  {
  }

  method PutEscaped(result: array<char>, at: nat, c: char) returns (next: nat)
    requires at + |EscapeChar(c)| <= result.Length
    modifies result
    ensures next == at + |EscapeChar(c)|
    ensures result[..next] == old(result[..at]) + EscapeChar(c)
  {
    if Unreserved(c) {
      result[at] := c;
      next := at + 1;
    } else {
      var msb, lsb := c as int / 16 % 16, c as int % 16;
      result[at] := '%';
      result[at + 1] := HexDigit(msb);
      result[at + 2] := HexDigit(lsb);
      next := at + 3;
    }
  }

  /** Escaping in two passes: the length, then the characters and the final NUL of a buffer of
      exactly that size. */
  method EscapeString(from: string) returns (result: array<char>)
    requires IsText(from)
    ensures fresh(result)
    ensures result[..] == Escape(from) + ['\0']
  {
    var len := EscapedLength(from);
    result := new char[len + 1](_ => '\0');
    var ri, fp := 0, 0;
    while fp < |from|
      invariant 0 <= fp <= |from| && 0 <= ri <= len
      invariant result[..ri] + Escape(from[fp..]) == Escape(from)
    {
      EscapeNext(result[..ri], from, fp);
      ri := PutEscaped(result, ri, from[fp]);
      fp := fp + 1;
    }
    assert ri == len;
    result[ri] := '\0';
    assert result[..] == result[..ri] + ['\0'];
  }

  method CountFields(str: string) returns (n: nat)
    ensures n == |Pieces(str)|
  {
    n := 1;
    var st := 0;
    while st < |str|
      invariant 0 <= st <= |str|
      invariant n + Separators(str[st..]) == Separators(str) + 1
    {
      assert str[st..][1..] == str[st + 1..];
      if Separator(str[st]) {
        n := n + 1;
      }
      st := st + 1;
    }
    PieceCount(str);
  }

  // Between two separators: i fields have been cut, and the next one starts at st2 and has
  // been scanned up to st.
  ghost predicate Scanning(str: string, i: nat, st2: nat, st: nat) {
    && st2 <= st <= |str| && i < |Pieces(str)|
    && Pieces(str)[i..] == Pieces(str[st2..])
    && forall k :: st2 <= k < st ==> !Separator(str[k])
  }

  lemma ScanStarts(str: string)
    ensures Scanning(str, 0, 0, 0)
  {
    assert str[0..] == str && Pieces(str)[0..] == Pieces(str);
  }

  lemma ScanMoves(str: string, i: nat, st2: nat, st: nat)
    requires Scanning(str, i, st2, st) && st < |str| && !Separator(str[st])
    ensures Scanning(str, i, st2, st + 1)
  {
  }

  lemma ScanCuts(str: string, i: nat, st2: nat, st: nat)
    requires Scanning(str, i, st2, st)
    requires st == |str| || Separator(str[st])
    ensures Pieces(str)[i] == str[st2..st]
    ensures if st == |str| then |Pieces(str)| == i + 1 else Scanning(str, i + 1, st + 1, st + 1)
  {
    var piece := str[st2..st];
    var pieces := Pieces(str);
    assert pieces[i] == pieces[i..][0];
    assert pieces[i + 1..] == pieces[i..][1..];
    if st == |str| {
      assert str[st2..] == piece;
      PiecesOfPlain(piece);
    } else {
      assert str[st2..] == piece + [str[st]] + str[st + 1..];
      PiecesSplit(piece, str[st], str[st + 1..]);
    }
  }

  // An array of fields that ends with NULL.
  predicate Terminated(list: seq<Option<string>>, fields: seq<string>) {
    && |list| == |fields| + 1 && list[|fields|] == None
    && forall k :: 0 <= k < |fields| ==> list[k] == Some(fields[k])
  }

  method CutField(str: string, st2: nat, st: nat) returns (field: string)
    requires st2 <= st <= |str|
    ensures field == Field(str[st2..st])
  {
    if st > st2 {
      field := CString(Unescape(str[st2..st]));
    } else {
      field := "";
    }
  }

  /** Splitting a query string: count the fields, then cut and unescape them into an array of
      that many entries and a final NULL. */
  method UrlencodedToStrings(str: string) returns (result: array<Option<string>>)
    ensures fresh(result) && Terminated(result[..], Fields(str))
  {
    ghost var fields := Fields(str);
    var n := CountFields(str);
    result := new Option<string>[n + 1](_ => None);
    var st2, st, i := 0, 0, 0;
    ScanStarts(str);
    while true
      invariant Scanning(str, i, st2, st) && i < n == |fields|
      invariant forall k :: 0 <= k < i ==> result[k] == Some(fields[k])
      invariant result[n] == None
      decreases |str| - st
    {
      if st == |str| || Separator(str[st]) {
        ScanCuts(str, i, st2, st);
        var field := CutField(str, st2, st);
        result[i] := Some(field);
        i := i + 1;
        if st == |str| {
          break;
        }
        st2 := st + 1;
      } else {
        ScanMoves(str, i, st2, st);
      }
      st := st + 1;
    }
  }
}
