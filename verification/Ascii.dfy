/** Letters and their cases, in ASCII. */
module Ascii {
  predicate Upper(c: char) {
    'A' <= c <= 'Z'
  }

  predicate Lower(c: char) {
    'a' <= c <= 'z'
  }

  function LowerChar(c: char): char {
    if Upper(c) then (c as int - 'A' as int + 'a' as int) as char else c
  }

  function LowerCase(s: string): (r: string)
    ensures |r| == |s|
  {
    seq(|s|, i requires 0 <= i < |s| => LowerChar(s[i]))
  }

  /** The letters and their cases, one by one. */
  lemma Letters(n: nat)
    requires n < 26
    ensures var c := "ABCDEFGHIJKLMNOPQRSTUVWXYZ"[n];
            Upper(c) && !Lower(c) && Lower(LowerChar(c)) && LowerChar(c) == "abcdefghijklmnopqrstuvwxyz"[n]
  {
    match n
    case 0 => case 1 => case 2 => case 3 => case 4 => case 5 => case 6 => case 7 => case 8 => case 9 =>
    case 10 => case 11 => case 12 => case 13 => case 14 => case 15 => case 16 => case 17 =>
    case 18 => case 19 => case 20 => case 21 => case 22 => case 23 => case 24 => case _ =>
  }
}
