/** What the groups of names and their printed lines are, said without the algorithm: the innermost
    group around two neighbours has the level of their common prefix, and the second is printed
    under that many blanks. */
module GroupShape {
  import opened NameGroups

  /* ----- neighbours ----- */

  // For each pair of neighbouring leaves, the level of the innermost group around both.
  function Joins(t: Tree): seq<nat>
    decreases t, 1
  {
    match t
    case Leaf(_) => []
    case Node(level, kids) => JoinsOf(kids, level)
  }

  function JoinsOf(kids: seq<Tree>, level: nat): seq<nat>
    decreases kids, 0
  {
    if kids == [] then []
    else if |kids| == 1 then Joins(kids[0])
    else Joins(kids[0]) + [level] + JoinsOf(kids[1..], level)
  }

  // What comes before the joins of a last kid.
  function Before(kids: seq<Tree>, level: nat): seq<nat> {
    if kids == [] then [] else JoinsOf(kids, level) + [level]
  }

  lemma {:induction false} JoinsSnoc(kids: seq<Tree>, t: Tree, level: nat)
    ensures JoinsOf(kids + [t], level) == Before(kids, level) + Joins(t)
  {
    var more := kids + [t];
    if kids == [] {
      assert more == [t];
    } else {
      assert more[0] == kids[0] && more[1..] == kids[1..] + [t];
      JoinsSnoc(kids[1..], t, level);
      if |kids| == 1 {
        assert kids[1..] == [];
      }
    }
  }

  // The names of a pile grow by one, and the joins by the level of the insertion.
  lemma {:induction false} AddJoins(z: Pile, r: Pile, x: string, u: nat)
    requires z != [] && Top(z).level <= u && Top(z).kids != []
    requires var n, top := |z|, Top(z);
             r == if u == top.level then z[n - 1 := Open(u, top.kids + [Leaf(x)])]
                  else z[n - 1 := Open(top.level, top.kids[..|top.kids| - 1])]
                       + [Open(u, [top.kids[|top.kids| - 1], Leaf(x)])]
    ensures Joins(TreeOf(r)) == Joins(TreeOf(z)) + [u]
    decreases |z|
  {
    var kids, level := z[0].kids, z[0].level;
    if |z| > 1 {
      AddJoins(z[1..], r[1..], x, u);
      JoinsSnoc(kids, TreeOf(z[1..]), level);
      JoinsSnoc(kids, TreeOf(r[1..]), level);
      Assoc3(Before(kids, level), Joins(TreeOf(z[1..])), [u]);
    } else if u == level {
      JoinsSnoc(kids, Leaf(x), level);
    } else {
      SplitJoins(kids, x, level, u);
      assert r[1..] == [Open(u, [kids[|kids| - 1], Leaf(x)])];
    }
  }

  lemma {:induction false} SplitJoins(kids: seq<Tree>, x: string, level: nat, u: nat)
    requires kids != []
    ensures var k := |kids| - 1;
            JoinsOf(kids[..k] + [Node(u, [kids[k], Leaf(x)])], level) == JoinsOf(kids, level) + [u]
  {
    var k := |kids| - 1;
    var front, last := kids[..k], kids[k];
    assert front + [last] == kids;
    JoinsSnoc(front, last, level);
    JoinsSnoc(front, Node(u, [last, Leaf(x)]), level);
    assert [last, Leaf(x)] == [last] + [Leaf(x)];
    JoinsSnoc([last], Leaf(x), u);
    Assoc3(Before(front, level), Joins(last), [u]);
  }

  lemma Assoc3(a: seq<nat>, b: seq<nat>, c: seq<nat>)
    ensures a + (b + c) == (a + b) + c
  {
  }

  lemma {:induction false} InsertJoins(z: Pile, prev: string, x: string)
    requires PileOk(z, prev) && Top(z).kids != []
    ensures Joins(TreeOf(Insert(z, prev, x))) == Joins(TreeOf(z)) + [CommonPrefix(x, prev)]
  {
    var u := CommonPrefix(x, prev);
    InsertOk(z, prev, x);
    PopToKeepsTree(z, u);
    PoppedHasKids(z, u);
    AddJoins(PopTo(z, u), Insert(z, prev, x), x, u);
  }

  lemma {:induction false} PoppedHasKids(z: Pile, u: nat)
    requires z != [] && z[0].level == 0 && Top(z).kids != []
    ensures Top(PopTo(z, u)).kids != []
    decreases |z|
  {
    if u < Top(z).level {
      PoppedHasKids(Popped(z), u);
    }
  }

  lemma {:induction false} InsertHasKids(z: Pile, prev: string, x: string)
    requires PileOk(z, prev)
    ensures Top(Insert(z, prev, x)).kids != []
  {
    InsertOk(z, prev, x);
  }

  // The common prefixes of the first n names, each with the one before.
  function Prefixes(xs: seq<string>, n: nat): (r: seq<nat>)
    requires n <= |xs|
    ensures |r| == if n == 0 then 0 else n - 1
    ensures forall i :: 0 <= i < |r| ==> r[i] == CommonPrefix(xs[i + 1], xs[i])
  {
    if n <= 1 then [] else Prefixes(xs, n - 1) + [CommonPrefix(xs[n - 1], xs[n - 2])]
  }

  lemma {:induction false} PileJoins(xs: seq<string>, n: nat)
    requires n <= |xs|
    ensures Joins(TreeOf(PileAfter(xs, n))) == Prefixes(xs, n)
  {
    if n == 0 {
      EmptyJoins();
    } else if n == 1 {
      FirstJoins(xs);
    } else {
      PileJoins(xs, n - 1);
      NextJoins(xs, n - 1);
      SameEnd(Joins(TreeOf(PileAfter(xs, n - 1))), Joins(TreeOf(PileAfter(xs, n))), xs, n);
    }
  }

  lemma SameEnd(before: seq<nat>, after: seq<nat>, xs: seq<string>, n: nat)
    requires 1 < n <= |xs| && before == Prefixes(xs, n - 1)
    requires after == before + [CommonPrefix(xs[n - 1], xs[n - 2])]
    ensures after == Prefixes(xs, n)
  {
  }

  lemma EmptyJoins()
    ensures Joins(TreeOf([Open(0, [])])) == []
  {
  }

  lemma {:induction false} FirstJoins(xs: seq<string>)
    requires xs != []
    ensures Joins(TreeOf(PileAfter(xs, 1))) == []
  {
    var start := [Open(0, [])];
    assert CommonPrefix(xs[0], "") == 0;
    assert PopTo(start, 0) == start;
    FirstAdd(xs[0]);
    assert PileAfter(xs, 1) == Insert(PileAfter(xs, 0), "", xs[0]);
  }

  lemma FirstAdd(x: string)
    ensures Add([Open(0, [])], x, 0) == [Open(0, [Leaf(x)])]
    ensures Joins(TreeOf([Open(0, [Leaf(x)])])) == []
  {
    var none: seq<Tree> := [];
    assert none + [Leaf(x)] == [Leaf(x)];
    assert TreeOf([Open(0, [Leaf(x)])]) == Node(0, [Leaf(x)]);
    assert JoinsOf([Leaf(x)], 0) == Joins(Leaf(x));
  }

  lemma {:induction false} NextJoins(xs: seq<string>, n: nat)
    requires 0 < n < |xs|
    ensures Joins(TreeOf(PileAfter(xs, n + 1))) == Joins(TreeOf(PileAfter(xs, n))) + [CommonPrefix(xs[n], xs[n - 1])]
  {
    PileAfterOk(xs, n - 1);
    InsertHasKids(PileAfter(xs, n - 1), NameBefore(xs, n - 1), xs[n - 1]);
    PileAfterOk(xs, n);
    InsertJoins(PileAfter(xs, n), NameBefore(xs, n), xs[n]);
  }

  /** The shape of the tree, for every list: the innermost group around two neighbours of the
      sorted list has exactly the level of their common prefix. */
  lemma {:induction false} GroupJoinsNeighbours(xs: seq<string>)
    ensures var s, joins := Sorted(xs), Joins(Group(xs));
            && |joins| == (if s == [] then 0 else |s| - 1)
            && forall i :: 0 <= i < |joins| ==> IsCommonPrefix(s[i + 1], s[i], joins[i])
  {
    var s := Sorted(xs);
    PileJoins(s, |s|);
    var joins := Prefixes(s, |s|);
    forall i | 0 <= i < |joins|
      ensures IsCommonPrefix(s[i + 1], s[i], joins[i])
    {
      CommonPrefixIs(s[i + 1], s[i]);
    }
  }

  /* ----- printed lines ----- */

  // One line for each name, under its number of blanks.
  function LinesOf(names: seq<string>, blanks: seq<nat>): (r: seq<string>)
    requires |names| == |blanks|
    ensures |r| == |names| && forall i :: 0 <= i < |r| ==> r[i] == Line(names[i], blanks[i])
  {
    if names == [] then [] else [Line(names[0], blanks[0])] + LinesOf(names[1..], blanks[1..])
  }

  lemma LinesConcat(a: seq<string>, p: seq<nat>, b: seq<string>, q: seq<nat>)
    requires |a| == |p| && |b| == |q|
    ensures LinesOf(a + b, p + q) == LinesOf(a, p) + LinesOf(b, q)
  {
  }

  // A well-formed tree has one join less than leaves.
  lemma {:induction false} JoinsCount(t: Tree, above: nat)
    requires KidOk(t, above)
    ensures |Joins(t)| + 1 == |Leaves(t)|
    decreases t, 1
  {
    if t.Node? {
      JoinsOfCount(t.kids, t.level);
    }
  }

  lemma {:induction false} JoinsOfCount(kids: seq<Tree>, level: nat)
    requires KidsOk(kids, level) && kids != []
    ensures |JoinsOf(kids, level)| + 1 == |LeavesOf(kids)|
    decreases kids, 0
  {
    JoinsCount(kids[0], level);
    if |kids| == 1 {
      assert kids[1..] == [];
    } else {
      JoinsOfCount(kids[1..], level);
    }
  }

  function FirstLines(t: Tree, prefix: nat): seq<string> {
    match t
    case Leaf(name) => [Line(name, prefix)]
    case Node(_, _) => PrintGroup(t, prefix)
  }

  lemma {:induction false} KidsPrint(kids: seq<Tree>, prefix: nat, level: nat)
    requires KidsOk(kids, level) && kids != []
    ensures |JoinsOf(kids, level)| + 1 == |LeavesOf(kids)|
    ensures PrintKids(kids, prefix, level) == LinesOf(LeavesOf(kids), [prefix] + JoinsOf(kids, level))
    decreases kids, 0
  {
    JoinsOfCount(kids, level);
    var t, rest := kids[0], kids[1..];
    KidPrints(t, prefix, level);
    if rest == [] {
      OneKid(kids, prefix, level);
    } else {
      KidsPrint(rest, level, level);
      MoreKids(kids, prefix, level);
    }
  }

  lemma {:induction false} OneKid(kids: seq<Tree>, prefix: nat, level: nat)
    requires |kids| == 1
    ensures PrintKids(kids, prefix, level) == FirstLines(kids[0], prefix)
    ensures LeavesOf(kids) == Leaves(kids[0]) && JoinsOf(kids, level) == Joins(kids[0])
  {
    assert kids[1..] == [];
    LeavesOne(kids[0]);
    assert kids == [kids[0]];
  }

  lemma {:induction false} MoreKids(kids: seq<Tree>, prefix: nat, level: nat)
    requires |kids| > 1
    requires var t, rest := kids[0], kids[1..];
             && |Joins(t)| + 1 == |Leaves(t)| && FirstLines(t, prefix) == LinesOf(Leaves(t), [prefix] + Joins(t))
             && |JoinsOf(rest, level)| + 1 == |LeavesOf(rest)|
             && PrintKids(rest, level, level) == LinesOf(LeavesOf(rest), [level] + JoinsOf(rest, level))
    ensures |JoinsOf(kids, level)| + 1 == |LeavesOf(kids)|
    ensures PrintKids(kids, prefix, level) == LinesOf(LeavesOf(kids), [prefix] + JoinsOf(kids, level))
  {
    var t, rest := kids[0], kids[1..];
    var p, q := [prefix] + Joins(t), [level] + JoinsOf(rest, level);
    LinesConcat(Leaves(t), p, LeavesOf(rest), q);
    assert PrintKids(kids, prefix, level) == FirstLines(t, prefix) + PrintKids(rest, level, level);
    assert LeavesOf(kids) == Leaves(t) + LeavesOf(rest);
    Blanked(Joins(t), JoinsOf(rest, level), JoinsOf(kids, level), prefix, level);
  }

  lemma Blanked(first: seq<nat>, rest: seq<nat>, joins: seq<nat>, prefix: nat, level: nat)
    requires joins == first + [level] + rest
    ensures [prefix] + joins == ([prefix] + first) + ([level] + rest)
  {
  }

  lemma {:induction false} KidPrints(t: Tree, prefix: nat, above: nat)
    requires KidOk(t, above)
    ensures |Joins(t)| + 1 == |Leaves(t)|
    ensures FirstLines(t, prefix) == LinesOf(Leaves(t), [prefix] + Joins(t))
    decreases t, 1
  {
    JoinsCount(t, above);
    match t
    case Leaf(name) =>
      var none: seq<nat> := [];
      assert [prefix] + none == [prefix];
      assert [name][1..] == [] && [prefix][1..] == [];
    case Node(level, kids) => KidsPrint(kids, prefix, level);
  }

  // The line is the name with its common prefix with the name before replaced by spaces.
  ghost predicate BlanksPrefix(line: string, x: string, prev: string) {
    exists u: nat ::
      && IsCommonPrefix(x, prev, u) && |line| == |x|
      && (forall j :: 0 <= j < u ==> line[j] == ' ') && (forall j :: u <= j < |x| ==> line[j] == x[j])
  }

  lemma LineBlanks(line: string, x: string, prev: string)
    requires line == Line(x, CommonPrefix(x, prev))
    ensures BlanksPrefix(line, x, prev)
  {
    CommonPrefixIs(x, prev);
    var u := CommonPrefix(x, prev);
    assert IsCommonPrefix(x, prev, u) && line[u..] == x[u..];
    assert forall j :: u <= j < |x| ==> line[j] == line[u..][j - u] && x[j] == x[u..][j - u];
  }

  /** The order of the names: one comes before its extensions, and otherwise the first difference
      decides. */
  lemma {:induction false} AtMostIs(a: string, b: string)
    ensures AtMost(a, b) <==>
            a <= b || exists i :: 0 <= i < |a| && i < |b| && a[..i] == b[..i] && a[i] < b[i]
  {
    var d := Agreement(a, b);
    AtMostAt(a, b, d);
    if i :| 0 <= i < |a| && i < |b| && a[..i] == b[..i] && a[i] < b[i] {
      AgreementIs(a, b, i);
    }
    if a <= b {
      AgreementIs(a, b, |a|);
    }
  }

  // The comparison is decided where the names part.
  lemma {:induction false} AtMostAt(a: string, b: string, d: nat)
    requires d <= |a| && d <= |b| && a[..d] == b[..d] && (d < |a| && d < |b| ==> a[d] != b[d])
    ensures AtMost(a, b) <==> d == |a| || (d < |b| && a[d] < b[d])
  {
    if d > 0 {
      assert a[0] == a[..d][0] && b[0] == b[..d][0];
      assert a[1..][..d - 1] == a[..d][1..] && b[1..][..d - 1] == b[..d][1..];
      AtMostAt(a[1..], b[1..], d - 1);
    }
  }

  lemma {:induction false} TreePrints(s: seq<string>, t: Tree)
    requires RootOk(t) && Leaves(t) == s && s != [] && Joins(t) == Prefixes(s, |s|)
    ensures PrintGroup(t, 0) == LinesOf(s, [0] + Prefixes(s, |s|))
  {
    KidsPrint(t.kids, 0, t.level);
  }

  lemma {:induction false} LinesAre(s: seq<string>, lines: seq<string>)
    requires s != [] && lines == LinesOf(s, [0] + Prefixes(s, |s|))
    ensures lines[0] == s[0] && forall i :: 0 < i < |s| ==> BlanksPrefix(lines[i], s[i], s[i - 1])
  {
    var blanks := [0] + Prefixes(s, |s|);
    assert forall i :: 0 < i < |s| ==> blanks[i] == Prefixes(s, |s|)[i - 1];
    assert Line(s[0], 0) == s[0];
    forall i | 0 < i < |s|
      ensures BlanksPrefix(lines[i], s[i], s[i - 1])
    {
      LineBlanks(lines[i], s[i], s[i - 1]);
    }
  }

  lemma NothingPrinted(t: Tree)
    requires RootOk(t) && Leaves(t) == []
    ensures PrintGroup(t, 0) == []
  {
    if t.kids != [] {
      KidsPrint(t.kids, 0, t.level);
    }
  }

  /** The printed lines, for every list: the first name in full, and each other name with exactly
      its common prefix with the name before replaced by blanks. */
  lemma {:induction false} PrintedLines(xs: seq<string>)
    ensures var s, lines := Sorted(xs), PrintGroup(Group(xs), 0);
            && |lines| == |s|
            && (s != [] ==> lines[0] == s[0])
            && forall i :: 0 < i < |s| ==> BlanksPrefix(lines[i], s[i], s[i - 1])
  {
    var s, t := Sorted(xs), Group(xs);
    GroupIsPrefixTree(xs);
    PileJoins(s, |s|);
    if s == [] {
      NothingPrinted(t);
    } else {
      TreePrints(s, t);
      LinesAre(s, PrintGroup(t, 0));
    }
  }
}
