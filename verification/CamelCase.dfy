/** Splitting a camel-case identifier into words, in one pass that backtracks by one character. */
module CamelCase {
  import opened Ascii

  /* ----- the lookahead specification ----- */

  // A word starts at an upper-case letter that does not follow an upper-case letter, or that
  // is followed by a lower-case one.
  predicate Boundary(s: string, i: nat)
    requires i < |s|
  {
    i > 0 && Upper(s[i]) && (!Upper(s[i - 1]) || (i + 1 < |s| && Lower(s[i + 1])))
  }

  function Append(words: seq<string>, c: char): seq<string>
    requires words != []
  {
    words[|words| - 1 := words[|words| - 1] + [c]]
  }

  // The words of the first n characters, cut at the boundaries of the whole identifier.
  function Cut(s: string, n: nat): (words: seq<string>)
    requires n <= |s|
    ensures words != []
  {
    if n == 0 then [""]
    else if Boundary(s, n - 1) then Cut(s, n - 1) + [[s[n - 1]]]
    else Append(Cut(s, n - 1), s[n - 1])
  }

  function Words(s: string): seq<string> {
    Cut(s, |s|)
  }

  function Flatten(words: seq<string>): string {
    if words == [] then "" else words[0] + Flatten(words[1..])
  }

  lemma FlattenConcat(a: seq<string>, b: seq<string>)
    ensures Flatten(a + b) == Flatten(a) + Flatten(b)
  {
    if a == [] {
      assert a + b == b;
    } else {
      assert (a + b)[1..] == a[1..] + b;
      FlattenConcat(a[1..], b);
    }
  }

  lemma FlattenSnoc(front: seq<string>, w: string)
    ensures Flatten(front + [w]) == Flatten(front) + w
  {
    FlattenConcat(front, [w]);
    assert [w][1..] == [];
  }

  lemma FlattenAppend(words: seq<string>, c: char)
    requires words != []
    ensures Flatten(Append(words, c)) == Flatten(words) + [c]
  {
    var front, last := words[..|words| - 1], words[|words| - 1];
    assert words == front + [last];
    assert Append(words, c) == front + [last + [c]];
    FlattenSnoc(front, last);
    FlattenSnoc(front, last + [c]);
  }

  // The position at which the k-th word starts.
  function StartOf(words: seq<string>, k: nat): nat
    requires k <= |words|
  {
    |Flatten(words[..k])|
  }

  // A word starts at position i.
  predicate StartsAt(words: seq<string>, i: nat) {
    exists k :: 0 < k < |words| && StartOf(words, k) == i
  }

  lemma {:induction false} CutFlattens(s: string, n: nat)
    requires n <= |s|
    ensures Flatten(Cut(s, n)) == s[..n]
  {
    if n == 0 {
      FlattenSnoc([], "");
      assert [""] == [] + [""];
    } else {
      CutFlattens(s, n - 1);
      assert s[..n] == s[..n - 1] + [s[n - 1]];
      if Boundary(s, n - 1) {
        FlattenSnoc(Cut(s, n - 1), [s[n - 1]]);
      } else {
        FlattenAppend(Cut(s, n - 1), s[n - 1]);
      }
    }
  }

  lemma {:induction false} CutHasNoEmptyWord(s: string, n: nat)
    requires 0 < n <= |s|
    ensures forall k :: 0 <= k < |Cut(s, n)| ==> Cut(s, n)[k] != ""
  {
    if n == 1 {
      assert Cut(s, 0) == [""];
    } else {
      CutHasNoEmptyWord(s, n - 1);
    }
  }

  // The words after the first start exactly at the boundaries.
  lemma {:induction false} CutStartsAtBoundaries(s: string, n: nat, i: nat)
    requires n <= |s| && i < |s|
    ensures StartsAt(Cut(s, n), i) <==> i < n && Boundary(s, i)
  {
    if n == 0 {
      assert |Cut(s, 0)| == 1;
    } else {
      var words := Cut(s, n - 1);
      CutStartsAtBoundaries(s, n - 1, i);
      CutFlattens(s, n - 1);
      if Boundary(s, n - 1) {
        NewWordStarts(words, [s[n - 1]], i);
      } else {
        AppendKeepsStarts(words, s[n - 1], i);
      }
    }
  }

  lemma AppendKeepsStarts(words: seq<string>, c: char, i: nat)
    requires words != []
    ensures StartsAt(Append(words, c), i) <==> StartsAt(words, i)
  {
    forall k | 0 < k < |words|
      ensures StartOf(Append(words, c), k) == StartOf(words, k)
    {
      assert Append(words, c)[..k] == words[..k];
    }
  }

  lemma NewWordStarts(words: seq<string>, w: string, i: nat)
    requires words != []
    ensures StartsAt(words + [w], i) <==> StartsAt(words, i) || i == |Flatten(words)|
  {
    var next := words + [w];
    forall k | 0 < k < |words|
      ensures StartOf(next, k) == StartOf(words, k)
    {
      assert next[..k] == words[..k];
    }
    assert next[..|words|] == words;
    assert StartOf(next, |words|) == |Flatten(words)|;
  }

  /** The specification determines the words: they make up the identifier, none is empty, and
      they start exactly at the boundaries. */
  lemma WordsAreCut(s: string)
    ensures Flatten(Words(s)) == s
    ensures s != "" ==> forall w :: w in Words(s) ==> w != ""
    ensures forall i :: 0 <= i < |s| ==> (StartsAt(Words(s), i) <==> Boundary(s, i))
  {
    CutFlattens(s, |s|);
    assert s[..|s|] == s;
    if s != "" {
      CutHasNoEmptyWord(s, |s|);
    }
    forall i | 0 <= i < |s|
      ensures StartsAt(Words(s), i) <==> Boundary(s, i)
    {
      CutStartsAtBoundaries(s, |s|, i);
    }
  }

  /* ----- the one-pass splitter ----- */

  // A character beyond the lookahead does not move the earlier cuts.
  lemma {:induction false} CutIgnoresLater(p: string, x: char, n: nat)
    requires n < |p|
    ensures Cut(p, n) == Cut(p + [x], n)
  {
    if n > 0 {
      CutIgnoresLater(p, x, n - 1);
    }
  }

  // One more character: a new word, or the last word split before its last letter, or the
  // last word extended.
  function Grown(words: seq<string>, last: char, x: char): seq<string>
    requires words != [] && words[|words| - 1] != ""
  {
    var n := |words| - 1;
    var w := words[n];
    if !Upper(last) && Upper(x) then words + [[x]]
    else if Upper(last) && Lower(x) then
      (if |w| == 1 then words[..n] else words[n := w[..|w| - 1]]) + [[last, x]]
    else Append(words, x)
  }

  lemma {:induction false} NextWords(p: string, x: char)
    requires p != ""
    ensures var last := p[|p| - 1];
            var words := Words(p);
            var w := words[|words| - 1];
            w != "" && w[|w| - 1] == last && Words(p + [x]) == Grown(words, last, x)
  {
    var n := |p|;
    var q := p + [x];
    var last := p[n - 1];
    var before := Cut(p, n - 1);
    CutIgnoresLater(p, x, n - 1);
    assert q[n - 1] == last && q[n] == x;
    if Boundary(p, n - 1) {
      assert Words(p) == before + [[last]];
      assert Boundary(q, n - 1);
    } else {
      assert Words(p) == Append(before, last);
    }
    assert Words(q) == if Boundary(q, n) then Cut(q, n) + [[x]] else Append(Cut(q, n), x);
    if Upper(last) && Lower(x) {
      SplitLast(before, Words(p), q, last, x);
    }
  }

  lemma SplitLast(before: seq<string>, words: seq<string>, q: string, last: char, x: char)
    requires before != [] && |q| >= 2 && q[|q| - 2] == last && q[|q| - 1] == x
    requires Upper(last) && Lower(x)
    requires Cut(q, |q| - 2) == before
    requires |q| > 2 ==> before[|before| - 1] != ""
    requires |q| == 2 ==> before == [""]
    requires words == before + [[last]] || words == Append(before, last)
    requires words == before + [[last]] ==> |q| > 2
    ensures var w := words[|words| - 1];
            Words(q) == (if |w| == 1 then words[..|words| - 1] else words[|words| - 1 := w[..|w| - 1]]) + [[last, x]]
  {
    var w := words[|words| - 1];
    var b := before[|before| - 1];
    if |q| == 2 {
      assert "" + [last] == [last];
      assert words == [[last]];
      assert Cut(q, 0) == [""] && Cut(q, 1) == Append([""], last) == [[last]];
      assert [last] + [x] == [last, x];
      assert Cut(q, 2) == Append([[last]], x) == [[last, x]];
      assert words[..0] + [[last, x]] == [[last, x]];
    } else {
      assert Cut(q, |q| - 1) == before + [[last]];
      assert [last] + [x] == [last, x];
      assert Words(q) == Append(before + [[last]], x) == before + [[last, x]];
      if words == before + [[last]] {
        assert words[..|words| - 1] == before;
      } else {
        assert w[..|w| - 1] == b;
        assert words[|words| - 1 := b] == before;
      }
    }
  }

  lemma FirstWord(x: char)
    ensures Words([x]) == [[x]]
  {
    assert Cut([x], 0) == [""] && "" + [x] == [x];
  }

  /** One character read: it extends the last word, starts a new one, or moves the last letter of
      the last word to a new word when a lower-case letter follows it. */
  method AddChar(words: seq<string>, last: char, x: char) returns (l: seq<string>)
    requires words != []
    requires var w := words[|words| - 1]; w != "" && w[|w| - 1] == last
    ensures l == Grown(words, last, x)
  {
    l := words;
    if Upper(last) && Upper(x) {
      // still the same word
    } else if !Upper(last) && Upper(x) {
      l := l + [""];
    } else if Upper(last) && Lower(x) {
      var w := l[|l| - 1];
      var y := w[|w| - 1];
      l := l[|l| - 1 := w[..|w| - 1]];
      if l[|l| - 1] == "" {
        l := l[..|l| - 1];
      }
      l := l + [[y]];
    }
    ghost var shaped := l;
    l := l[|l| - 1 := l[|l| - 1] + [x]];
    assert "" + [x] == [x] && [last] + [x] == [last, x];
    assert l == shaped[..|shaped| - 1] + [shaped[|shaped| - 1] + [x]];
  }

  /** The splitter. */
  method CamelCaseToList(varname: string) returns (words: seq<string>)
    ensures |words| == |Words(varname)|
    ensures forall k :: 0 <= k < |words| ==> words[k] == LowerCase(Words(varname)[k])
  {
    var l := [""];
    var i := 0;
    while i < |varname|
      invariant 0 <= i <= |varname|
      invariant l == Words(varname[..i])
    {
      ghost var p := varname[..i];
      assert varname[..i + 1] == p + [varname[i]];
      if i > 0 {
        NextWords(p, varname[i]);
        assert p[|p| - 1] == varname[i - 1];
        l := AddChar(l, varname[i - 1], varname[i]);
      } else {
        FirstWord(varname[i]);
        assert p + [varname[i]] == [varname[i]];
        l := [[varname[i]]];
      }
      i := i + 1;
    }
    assert varname[..i] == varname;
    words := seq(|l|, k requires 0 <= k < |l| => LowerCase(l[k]));
  }

  lemma LowerCaseConcat(a: string, b: string)
    ensures LowerCase(a + b) == LowerCase(a) + LowerCase(b)
  {
  }

  /** The result of the splitter concatenates to the lower-cased identifier. */
  lemma {:induction false} LoweredWordsConcatenate(ws: seq<string>, lowered: seq<string>)
    requires |lowered| == |ws| && forall k :: 0 <= k < |ws| ==> lowered[k] == LowerCase(ws[k])
    ensures Flatten(lowered) == LowerCase(Flatten(ws))
  {
    if ws != [] {
      LoweredWordsConcatenate(ws[1..], lowered[1..]);
      LowerCaseConcat(ws[0], Flatten(ws[1..]));
    }
  }

  // A run of capitals ends before the capital that starts the next word.
  lemma WordsExample()
    ensures Words("aBCd") == ["a", "B", "Cd"]
  {
    var s := "aBCd";
    assert Cut(s, 0) == [""] && !Boundary(s, 0);
    assert "" + ['a'] == "a";
    assert Cut(s, 1) == ["a"];
    assert Boundary(s, 1) && Cut(s, 2) == ["a", "B"];
    assert Boundary(s, 2) && Cut(s, 3) == ["a", "B", "C"];
    assert !Boundary(s, 3) && "C" + ['d'] == "Cd";
  }
}
