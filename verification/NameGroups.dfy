/** Grouping names by their common prefixes, and printing the groups so that each line blanks
    the prefix that it shares with the line before. */
module NameGroups {

  /* ----- common prefixes ----- */

  function Min(a: nat, b: nat): nat {
    if a <= b then a else b
  }

  // The length of the longest common prefix.
  function Agreement(x: string, y: string): (d: nat)
    ensures d <= |x| && d <= |y| && x[..d] == y[..d]
    ensures d < |x| && d < |y| ==> x[d] != y[d]
  {
    if x == "" || y == "" || x[0] != y[0] then 0 else 1 + Agreement(x[1..], y[1..])
  }

  // The position of the last underscore before n, or 0.
  function LastUnderscore(x: string, n: nat): (k: nat)
    requires n <= |x|
    ensures k <= n
  {
    if n == 0 then 0 else if x[n - 1] == '_' then n - 1 else LastUnderscore(x, n - 1)
  }

  // Names that differ share their prefix up to the last underscore in it; a name and its
  // extension share the whole name.
  function CommonPrefix(x: string, y: string): (u: nat)
    ensures u <= |x| && u <= |y| && x[..u] == y[..u]
  {
    var d := Agreement(x, y);
    if d == Min(|x|, |y|) then d
    else
      var u := Min(d, LastUnderscore(x, d) + 1);
      assert x[..u] == x[..d][..u] && y[..u] == y[..d][..u];
      u
  }

  lemma AgreementIs(x: string, y: string, d: nat)
    requires d <= |x| && d <= |y| && x[..d] == y[..d]
    requires d < |x| && d < |y| ==> x[d] != y[d]
    ensures Agreement(x, y) == d
  {
  }

  // A name may be cut at its beginning, after its first character, and after an underscore.
  predicate CutAt(x: string, u: nat)
    requires u <= |x|
  {
    u <= 1 || x[u - 1] == '_'
  }

  predicate Shares(x: string, y: string, u: nat) {
    u <= |x| && u <= |y| && x[..u] == y[..u]
  }

  /** The common prefix: of a name and its extension the whole name, and otherwise the longest
      shared prefix at which the name may be cut. */
  ghost predicate IsCommonPrefix(x: string, y: string, u: nat) {
    && Shares(x, y, u)
    && if x <= y || y <= x then u == Min(|x|, |y|)
       else CutAt(x, u) && forall v: nat :: u < v && Shares(x, y, v) ==> !CutAt(x, v)
  }

  lemma {:induction false} LastUnderscoreIs(x: string, n: nat)
    requires n <= |x|
    ensures var k := LastUnderscore(x, n);
            (k == 0 || x[k] == '_') && forall i :: k < i < n ==> x[i] != '_'
  {
    if n > 0 && x[n - 1] != '_' {
      LastUnderscoreIs(x, n - 1);
    }
  }

  lemma SharesAgreement(x: string, y: string, v: nat)
    ensures Shares(x, y, v) <==> v <= Agreement(x, y)
  {
    var d := Agreement(x, y);
    if v <= d {
      assert x[..v] == x[..d][..v] && y[..v] == y[..d][..v];
    } else if v <= |x| && v <= |y| {
      assert x[..v] != y[..v] by {
        assert x[..v][d] == x[d] && y[..v][d] == y[d];
      }
    }
  }

  lemma CommonPrefixIs(x: string, y: string)
    ensures IsCommonPrefix(x, y, CommonPrefix(x, y))
  {
    var d := Agreement(x, y);
    var u := CommonPrefix(x, y);
    SharesAgreement(x, y, Min(|x|, |y|));
    if d != Min(|x|, |y|) {
      LastUnderscoreIs(x, d);
      forall v: nat | u < v && Shares(x, y, v)
        ensures !CutAt(x, v)
      {
        SharesAgreement(x, y, v);
      }
    } else {
      assert if |x| <= |y| then x == y[..|x|] else y == x[..|y|];
    }
  }

  lemma OneCommonPrefix(x: string, y: string, u: nat, v: nat)
    requires IsCommonPrefix(x, y, u) && IsCommonPrefix(x, y, v)
    ensures u == v
  {
  }

  method ComputeCommonPrefix(x: string, y: string) returns (u: nat)
    ensures u == CommonPrefix(x, y) && IsCommonPrefix(x, y, u)
  {
    CommonPrefixIs(x, y);
    var max := Min(|x|, |y|);
    var last := 0;
    var i := 0;
    while i < max
      invariant 0 <= i <= max
      invariant x[..i] == y[..i]
      invariant last == LastUnderscore(x, i)
    {
      if x[i] != y[i] {
        AgreementIs(x, y, i);
        return Min(i, last + 1);
      }
      if x[i] == '_' {
        last := i;
      }
      assert x[..i + 1] == x[..i] + [x[i]] && y[..i + 1] == y[..i] + [y[i]];
      i := i + 1;
    }
    AgreementIs(x, y, max);
    return max;
  }

  /* ----- sorting ----- */

  predicate AtMost(a: string, b: string) {
    a == "" || (b != "" && (a[0] < b[0] || (a[0] == b[0] && AtMost(a[1..], b[1..]))))
  }

  lemma AtMostTotal(a: string, b: string)
    ensures AtMost(a, b) || AtMost(b, a)
  {
  }

  predicate Ordered(xs: seq<string>) {
    forall i :: 0 <= i < |xs| - 1 ==> AtMost(xs[i], xs[i + 1])
  }

  function Place(x: string, xs: seq<string>): (r: seq<string>)
    requires Ordered(xs)
    ensures Ordered(r) && multiset(r) == multiset{x} + multiset(xs)
    ensures r[0] == x || (xs != [] && r[0] == xs[0])
  {
    if xs == [] then [x]
    else if AtMost(x, xs[0]) then [x] + xs
    else
      AtMostTotal(x, xs[0]);
      assert xs == [xs[0]] + xs[1..];
      [xs[0]] + Place(x, xs[1..])
  }

  // The effect of list.sort().
  function Sorted(xs: seq<string>): (r: seq<string>)
    ensures Ordered(r) && multiset(r) == multiset(xs)
  {
    if xs == [] then []
    else
      assert xs == [xs[0]] + xs[1..];
      Place(xs[0], Sorted(xs[1..]))
  }

  /* ----- trees of names ----- */

  datatype Tree = Leaf(name: string) | Node(level: nat, kids: seq<Tree>)

  function Leaves(t: Tree): seq<string>
    decreases t, 1
  {
    match t
    case Leaf(name) => [name]
    case Node(_, kids) => LeavesOf(kids)
  }

  function LeavesOf(ts: seq<Tree>): seq<string>
    decreases ts, 0
  {
    if ts == [] then [] else Leaves(ts[0]) + LeavesOf(ts[1..])
  }

  predicate Agree(a: string, b: string, u: nat) {
    u <= |a| && u <= |b| && a[..u] == b[..u]
  }

  // Every name shares its first u characters with the given one.
  predicate AllAgree(names: seq<string>, x: string, u: nat) {
    forall n :: n in names ==> Agree(n, x, u)
  }

  // Levels strictly increase inwards, groups are not empty, and the names of a group of level
  // u share their first u characters.
  predicate KidOk(t: Tree, above: nat)
    decreases t, 1
  {
    t.Node? ==>
      && t.level > above && t.kids != []
      && KidsOk(t.kids, t.level)
      && (forall a, b :: a in Leaves(t) && b in Leaves(t) ==> Agree(a, b, t.level))
  }

  predicate KidsOk(ts: seq<Tree>, above: nat)
    decreases ts, 0
  {
    ts == [] || (KidOk(ts[0], above) && KidsOk(ts[1..], above))
  }

  // A root: level 0, with well-formed groups below it.
  predicate RootOk(t: Tree) {
    t.Node? && t.level == 0 && KidsOk(t.kids, 0)
  }

  lemma LeavesConcat(a: seq<Tree>, b: seq<Tree>)
    ensures LeavesOf(a + b) == LeavesOf(a) + LeavesOf(b)
  {
    if a == [] {
      assert a + b == b;
    } else {
      assert (a + b)[1..] == a[1..] + b;
      LeavesConcat(a[1..], b);
    }
  }

  lemma {:induction false} LeavesOne(t: Tree)
    ensures LeavesOf([t]) == Leaves(t)
  {
    assert [t][1..] == [];
  }

  lemma KidsConcat(a: seq<Tree>, b: seq<Tree>, above: nat)
    ensures KidsOk(a + b, above) <==> KidsOk(a, above) && KidsOk(b, above)
  {
    if a == [] {
      assert a + b == b;
    } else {
      assert (a + b)[1..] == a[1..] + b;
      KidsConcat(a[1..], b, above);
    }
  }

  lemma {:induction false} KidsOne(t: Tree, above: nat)
    ensures KidsOk([t], above) <==> KidOk(t, above)
  {
    assert [t][1..] == [];
  }

  /* ----- the pile of open groups ----- */

  // The open groups from the root inwards, each without the open group that is its last kid.
  datatype Open = Open(level: nat, kids: seq<Tree>)

  type Pile = seq<Open>

  function Top(z: Pile): Open
    requires z != []
  {
    z[|z| - 1]
  }

  function TreeOf(z: Pile): Tree
    requires z != []
    decreases |z|
  {
    if |z| == 1 then Node(z[0].level, z[0].kids)
    else Node(z[0].level, z[0].kids + [TreeOf(z[1..])])
  }

  function Close(o: Open): Tree {
    Node(o.level, o.kids)
  }

  // Popping a group leaves it where it was: as the last kid of the group around it.
  function Popped(z: Pile): (r: Pile)
    requires |z| >= 2
    ensures |r| == |z| - 1
  {
    var n := |z|;
    z[..n - 2] + [Open(z[n - 2].level, z[n - 2].kids + [Close(z[n - 1])])]
  }

  function PopTo(z: Pile, u: nat): (r: Pile)
    requires z != [] && z[0].level == 0
    ensures r != [] && r[0].level == 0 && Top(r).level <= u
    decreases |z|
  {
    if u < Top(z).level then PopTo(Popped(z), u) else z
  }

  function Add(z: Pile, x: string, u: nat): (r: Pile)
    requires z != [] && z[0].level == 0 && Top(z).level <= u
    requires u > Top(z).level ==> Top(z).kids != []
    ensures r != [] && r[0].level == 0
  {
    var n, top := |z|, Top(z);
    if u == top.level then z[n - 1 := Open(u, top.kids + [Leaf(x)])]
    else
      var k := |top.kids| - 1;
      z[n - 1 := Open(top.level, top.kids[..k])] + [Open(u, [top.kids[k], Leaf(x)])]
  }

  /* ----- popping and adding keep the leaves ----- */

  lemma {:induction false} PoppedKeepsTree(z: Pile)
    requires |z| >= 2
    ensures TreeOf(Popped(z)) == TreeOf(z)
    decreases |z|
  {
    if |z| == 2 {
      assert z[1..] == [z[1]];
    } else {
      var r := Popped(z);
      assert r[0] == z[0] && r[1..] == Popped(z[1..]);
      PoppedKeepsTree(z[1..]);
    }
  }

  lemma PopToKeepsTree(z: Pile, u: nat)
    requires z != [] && z[0].level == 0
    ensures TreeOf(PopTo(z, u)) == TreeOf(z)
    decreases |z|
  {
    if u < Top(z).level {
      PoppedKeepsTree(z);
      PopToKeepsTree(Popped(z), u);
    }
  }

  lemma {:induction false} AddAppends(z: Pile, x: string, u: nat)
    requires z != [] && Top(z).level <= u
    requires u > Top(z).level ==> Top(z).kids != []
    requires z[0].level == 0
    ensures Leaves(TreeOf(Add(z, x, u))) == Leaves(TreeOf(z)) + [x]
  {
    AddAppendsAt(z, Add(z, x, u), x, u);
  }

  lemma {:induction false} AddAppendsAt(z: Pile, r: Pile, x: string, u: nat)
    requires z != [] && Top(z).level <= u
    requires u > Top(z).level ==> Top(z).kids != []
    requires var n, top := |z|, Top(z);
             r == if u == top.level then z[n - 1 := Open(u, top.kids + [Leaf(x)])]
                  else z[n - 1 := Open(top.level, top.kids[..|top.kids| - 1])]
                       + [Open(u, [top.kids[|top.kids| - 1], Leaf(x)])]
    ensures Leaves(TreeOf(r)) == Leaves(TreeOf(z)) + [x]
    decreases |z|
  {
    var kids := z[0].kids;
    if |z| > 1 {
      AddAppendsAt(z[1..], r[1..], x, u);
      LeavesSnoc(kids, TreeOf(z[1..]));
      LeavesSnoc(kids, TreeOf(r[1..]));
      Assoc(LeavesOf(kids), Leaves(TreeOf(z[1..])), [x]);
    } else if u == Top(z).level {
      LeavesSnoc(kids, Leaf(x));
    } else {
      SplitLeaves(kids, x, u);
      assert r[1..] == [Open(u, [kids[|kids| - 1], Leaf(x)])];
    }
  }

  // A new group that takes over the last kid and the new name.
  lemma {:induction false} SplitLeaves(kids: seq<Tree>, x: string, u: nat)
    requires kids != []
    ensures var k := |kids| - 1;
            LeavesOf(kids[..k] + [Node(u, [kids[k], Leaf(x)])]) == LeavesOf(kids) + [x]
  {
    var k := |kids| - 1;
    var front, last := kids[..k], kids[k];
    assert front + [last] == kids;
    LeavesSnoc(front, last);
    LeavesSnoc(front, Node(u, [last, Leaf(x)]));
    PairLeaves(last, x);
    Assoc(LeavesOf(front), Leaves(last), [x]);
  }

  lemma {:induction false} LeavesSnoc(ts: seq<Tree>, t: Tree)
    ensures LeavesOf(ts + [t]) == LeavesOf(ts) + Leaves(t)
  {
    LeavesConcat(ts, [t]);
    LeavesOne(t);
  }

  lemma {:induction false} PairLeaves(t: Tree, x: string)
    ensures LeavesOf([t, Leaf(x)]) == Leaves(t) + [x]
  {
    assert [t, Leaf(x)] == [t] + [Leaf(x)];
    LeavesSnoc([t], Leaf(x));
    LeavesOne(t);
  }

  lemma Assoc(a: seq<string>, b: seq<string>, c: seq<string>)
    ensures a + (b + c) == (a + b) + c
  {
  }

  /* ----- what the pile keeps ----- */

  predicate LevelsIncrease(z: Pile) {
    forall i, j :: 0 <= i < j < |z| ==> z[i].level < z[j].level
  }

  // The kids of one open group are well formed and agree with the last name up to its level.
  predicate OpenOk(o: Open, prev: string) {
    KidsOk(o.kids, o.level) && AllAgree(LeavesOf(o.kids), prev, o.level)
  }

  predicate OpensOk(z: Pile, prev: string) {
    && z != [] && z[0].level == 0 && LevelsIncrease(z)
    && (forall i :: 0 <= i < |z| ==> OpenOk(z[i], prev))
    && (|z| > 1 ==> Top(z).kids != [])
  }

  // The last kid of the innermost group agrees with the last name up to u and beyond its
  // own group's level.
  predicate LastOk(o: Open, prev: string, u: nat) {
    o.kids != [] &&
    var last := o.kids[|o.kids| - 1];
    KidOk(last, u) && AllAgree(Leaves(last), prev, u)
  }

  ghost predicate PileOk(z: Pile, prev: string) {
    && OpensOk(z, prev)
    && (if Top(z).kids == [] then prev == ""
        else Top(z).kids[|Top(z).kids| - 1] == Leaf(prev))
  }

  lemma {:induction false} AgreeLess(names: seq<string>, x: string, u: nat, v: nat)
    requires AllAgree(names, x, u) && v <= u
    ensures AllAgree(names, x, v)
  {
    forall n | n in names
      ensures Agree(n, x, v)
    {
      assert n[..v] == n[..u][..v] && x[..v] == x[..u][..v];
    }
  }

  lemma {:induction false} AgreeVia(names: seq<string>, x: string, y: string, u: nat)
    requires AllAgree(names, x, u) && Agree(x, y, u)
    ensures AllAgree(names, y, u)
  {
  }

  lemma {:induction false} PoppedOk(z: Pile, prev: string, u: nat)
    requires OpensOk(z, prev) && u < Top(z).level
    ensures |z| >= 2
    ensures OpensOk(Popped(z), prev)
    ensures LastOk(Top(Popped(z)), prev, u)
  {
    var n := |z|;
    var r, outer, inner := Popped(z), z[n - 2], z[n - 1];
    var t := Close(inner);
    assert Leaves(t) == LeavesOf(inner.kids);
    assert KidOk(t, outer.level) && KidOk(t, u);
    AgreeLess(Leaves(t), prev, inner.level, outer.level);
    AgreeLess(Leaves(t), prev, inner.level, u);
    LeavesConcat(outer.kids, [t]);
    LeavesOne(t);
    KidsConcat(outer.kids, [t], outer.level);
    KidsOne(t, outer.level);
    assert OpenOk(Top(r), prev);
  }

  lemma PopToOk(z: Pile, prev: string, u: nat)
    requires OpensOk(z, prev) && (u > 0 ==> LastOk(Top(z), prev, u))
    ensures OpensOk(PopTo(z, u), prev)
    ensures u > 0 ==> LastOk(Top(PopTo(z, u)), prev, u)
    decreases |z|
  {
    if u < Top(z).level {
      PoppedOk(z, prev, u);
      PopToOk(Popped(z), prev, u);
    }
  }

  lemma {:induction false} OpenOkNext(o: Open, prev: string, x: string, u: nat)
    requires OpenOk(o, prev) && o.level <= u && Agree(prev, x, u)
    ensures OpenOk(o, x)
  {
    assert Agree(prev, x, o.level) by {
      assert prev[..o.level] == prev[..u][..o.level] && x[..o.level] == x[..u][..o.level];
    }
    AgreeVia(LeavesOf(o.kids), prev, x, o.level);
  }

  lemma {:induction false} AddOk(z: Pile, prev: string, x: string, u: nat)
    requires OpensOk(z, prev) && Top(z).level <= u && Agree(prev, x, u)
    requires u > Top(z).level ==> LastOk(Top(z), prev, u)
    ensures PileOk(Add(z, x, u), x)
  {
    var n, top := |z|, Top(z);
    forall i | 0 <= i < n
      ensures OpenOk(z[i], x)
    {
      OpenOkNext(z[i], prev, x, u);
    }
    if u == top.level {
      ExtendOk(top, x);
    } else {
      SplitOk(top, prev, x, u);
      var k := |top.kids| - 1;
      var below := z[n - 1 := Open(top.level, top.kids[..k])];
      OpensExtend(below, Open(u, [top.kids[k], Leaf(x)]), x);
    }
  }

  lemma {:induction false} OpensExtend(z: Pile, o: Open, x: string)
    requires z != [] && z[0].level == 0 && LevelsIncrease(z)
    requires forall i :: 0 <= i < |z| ==> OpenOk(z[i], x)
    requires OpenOk(o, x) && o.level > Top(z).level && o.kids != []
    ensures OpensOk(z + [o], x)
  {
  }

  lemma {:induction false} ExtendOk(top: Open, x: string)
    requires OpenOk(top, x) && top.level <= |x|
    ensures OpenOk(Open(top.level, top.kids + [Leaf(x)]), x)
  {
    LeavesConcat(top.kids, [Leaf(x)]);
    LeavesOne(Leaf(x));
    KidsConcat(top.kids, [Leaf(x)], top.level);
    KidsOne(Leaf(x), top.level);
  }

  lemma {:induction false} SplitOk(top: Open, prev: string, x: string, u: nat)
    requires OpenOk(top, x) && u > top.level && Agree(prev, x, u) && LastOk(top, prev, u)
    ensures var k := |top.kids| - 1;
            && OpenOk(Open(top.level, top.kids[..k]), x)
            && OpenOk(Open(u, [top.kids[k], Leaf(x)]), x)
  {
    var k := |top.kids| - 1;
    var last := top.kids[k];
    assert top.kids == top.kids[..k] + [last];
    LeavesConcat(top.kids[..k], [last]);
    KidsConcat(top.kids[..k], [last], top.level);
    assert [last, Leaf(x)] == [last] + [Leaf(x)];
    LeavesConcat([last], [Leaf(x)]);
    LeavesOne(last);
    LeavesOne(Leaf(x));
    KidsConcat([last], [Leaf(x)], u);
    KidsOne(last, u);
    KidsOne(Leaf(x), u);
    AgreeVia(Leaves(last), prev, x, u);
  }

  lemma {:induction false} PileLast(z: Pile, prev: string, u: nat)
    requires PileOk(z, prev) && 0 < u <= |prev|
    ensures LastOk(Top(z), prev, u)
  {
    assert Leaves(Leaf(prev)) == [prev];
  }

  // A well-formed pile is a well-formed tree.
  lemma {:induction false} PileIsTree(z: Pile, prev: string)
    requires z != [] && LevelsIncrease(z)
    requires forall i :: 0 <= i < |z| ==> OpenOk(z[i], prev)
    requires |z| > 1 ==> Top(z).kids != []
    ensures TreeOf(z).level == z[0].level && KidsOk(TreeOf(z).kids, z[0].level)
    ensures AllAgree(Leaves(TreeOf(z)), prev, z[0].level)
    ensures z[0].kids != [] ==> TreeOf(z).kids != []
    decreases |z|
  {
    if |z| > 1 {
      var rest := z[1..];
      PileIsTree(rest, prev);
      var t := TreeOf(rest);
      LeavesConcat(z[0].kids, [t]);
      LeavesOne(t);
      AgreeLess(Leaves(t), prev, rest[0].level, z[0].level);
      assert KidOk(t, z[0].level);
      KidsConcat(z[0].kids, [t], z[0].level);
      KidsOne(t, z[0].level);
    }
  }

  /* ----- grouping ----- */

  // The name can be inserted: a group that it splits off from has a last kid to take over.
  predicate Insertable(z: Pile, prev: string, x: string) {
    && z != [] && z[0].level == 0
    && var u := CommonPrefix(x, prev);
       var z' := PopTo(z, u);
       u > Top(z').level ==> Top(z').kids != []
  }

  // The last item of the innermost group is taken over only where there is one; PileAfterOk says
  // that this is always so.
  function Insert(z: Pile, prev: string, x: string): Pile {
    if Insertable(z, prev, x) then Add(PopTo(z, CommonPrefix(x, prev)), x, CommonPrefix(x, prev)) else z
  }

  function LastOf(names: seq<string>, prev: string): string {
    if names == [] then prev else names[|names| - 1]
  }

  /** One name: it can always be inserted, the leaves grow by it and the pile stays well formed. */
  lemma {:induction false} InsertOk(z: Pile, prev: string, x: string)
    requires PileOk(z, prev)
    ensures Insertable(z, prev, x)
    ensures PileOk(Insert(z, prev, x), x)
    ensures Leaves(TreeOf(Insert(z, prev, x))) == Leaves(TreeOf(z)) + [x]
  {
    var u := CommonPrefix(x, prev);
    if u > 0 {
      PileLast(z, prev, u);
    }
    PopToOk(z, prev, u);
    PopToKeepsTree(z, u);
    AddOk(PopTo(z, u), prev, x, u);
    AddAppends(PopTo(z, u), x, u);
  }

  // The name inserted before the n-th, or the empty name that the loop starts with.
  function NameBefore(xs: seq<string>, n: nat): string
    requires n <= |xs|
  {
    if n == 0 then "" else xs[n - 1]
  }

  // The pile after the first n names of a list.
  function PileAfter(xs: seq<string>, n: nat): (r: Pile)
    requires n <= |xs|
    ensures r != []
  {
    if n == 0 then [Open(0, [])] else Insert(PileAfter(xs, n - 1), NameBefore(xs, n - 1), xs[n - 1])
  }

  lemma {:induction false} PileAfterOk(xs: seq<string>, n: nat)
    requires n <= |xs|
    ensures PileOk(PileAfter(xs, n), NameBefore(xs, n))
  {
    if n > 0 {
      PileAfterOk(xs, n - 1);
      InsertOk(PileAfter(xs, n - 1), NameBefore(xs, n - 1), xs[n - 1]);
    }
  }

  lemma {:induction false} CanInsert(xs: seq<string>, n: nat)
    requires n < |xs|
    ensures Insertable(PileAfter(xs, n), NameBefore(xs, n), xs[n])
  {
    PileAfterOk(xs, n);
    InsertOk(PileAfter(xs, n), NameBefore(xs, n), xs[n]);
  }

  lemma {:induction false} LeavesNext(xs: seq<string>, n: nat)
    requires n < |xs|
    ensures Leaves(TreeOf(PileAfter(xs, n + 1))) == Leaves(TreeOf(PileAfter(xs, n))) + [xs[n]]
  {
    PileAfterOk(xs, n);
    InsertOk(PileAfter(xs, n), NameBefore(xs, n), xs[n]);
  }

  lemma {:induction false} PileAfterLeaves(xs: seq<string>, n: nat)
    requires n <= |xs|
    ensures Leaves(TreeOf(PileAfter(xs, n))) == xs[..n]
  {
    if n == 0 {
      EmptyPileLeaves();
    } else {
      PileAfterLeaves(xs, n - 1);
      LeavesNext(xs, n - 1);
      OneMore(xs, n, Leaves(TreeOf(PileAfter(xs, n - 1))), Leaves(TreeOf(PileAfter(xs, n))));
    }
  }

  lemma OneMore(xs: seq<string>, n: nat, before: seq<string>, after: seq<string>)
    requires 0 < n <= |xs| && before == xs[..n - 1] && after == before + [xs[n - 1]]
    ensures after == xs[..n]
  {
  }

  lemma EmptyPileLeaves()
    ensures Leaves(TreeOf([Open(0, [])])) == []
  {
  }

  function Group(xs: seq<string>): Tree {
    TreeOf(PileAfter(Sorted(xs), |Sorted(xs)|))
  }

  /** The tree of any list: its leaves, read left to right, are the sorted list; levels strictly
      increase inwards; and the names of a group of level u share their first u characters. */
  lemma {:induction false} GroupIsPrefixTree(xs: seq<string>)
    ensures Leaves(Group(xs)) == Sorted(xs)
    ensures RootOk(Group(xs))
  {
    var s := Sorted(xs);
    PileAfterLeaves(s, |s|);
    PileAfterOk(s, |s|);
    PileIsTree(PileAfter(s, |s|), NameBefore(s, |s|));
  }

  /* ----- printing and reading back ----- */

  function Spaces(n: nat): string {
    seq(n, _ => ' ')
  }

  function Line(x: string, prefix: nat): string {
    Spaces(prefix) + if prefix <= |x| then x[prefix..] else ""
  }

  // The lines of a group: the first is printed under the prefix of the surrounding line, the
  // others under the level of the group.
  function PrintGroup(t: Tree, prefix: nat): seq<string>
    requires t.Node?
    decreases t, 1
  {
    PrintKids(t.kids, prefix, t.level)
  }

  function PrintKids(ts: seq<Tree>, prefix: nat, level: nat): seq<string>
    decreases ts, 0
  {
    if ts == [] then []
    else
      (match ts[0]
       case Leaf(name) => [Line(name, prefix)]
       case Node(_, _) => PrintGroup(ts[0], prefix))
      + PrintKids(ts[1..], level, level)
  }

  function Blanks(line: string): (k: nat)
    ensures k <= |line|
  {
    if line != "" && line[0] == ' ' then 1 + Blanks(line[1..]) else 0
  }

  // Fills the blanks of a line from the name read before.
  function ReadLine(line: string, prev: string): string {
    var k := Blanks(line);
    (if k <= |prev| then prev[..k] else prev) + line[k..]
  }

  function ReadLines(lines: seq<string>, prev: string): seq<string> {
    if lines == [] then []
    else
      var name := ReadLine(lines[0], prev);
      [name] + ReadLines(lines[1..], name)
  }

  lemma ReadLinesConcat(a: seq<string>, b: seq<string>, prev: string)
    ensures ReadLines(a + b, prev) == ReadLines(a, prev) + ReadLines(b, LastOf(ReadLines(a, prev), prev))
  {
    if a == [] {
      assert a + b == b;
    } else {
      assert (a + b)[1..] == a[1..] + b;
      ReadLinesConcat(a[1..], b, ReadLine(a[0], prev));
    }
  }

  predicate SpaceFree(x: string) {
    ' ' !in x
  }

  lemma BlanksOfLine(n: nat, rest: string)
    requires rest == "" || rest[0] != ' '
    ensures Blanks(Spaces(n) + rest) == n
  {
    var line := Spaces(n) + rest;
    if n == 0 {
      assert line == rest;
    } else {
      assert line[0] == ' ' && line[1..] == Spaces(n - 1) + rest;
      BlanksOfLine(n - 1, rest);
    }
  }

  // A printed line blanks only what the name shares with the name before, so it reads back.
  lemma {:induction false} LineReadsBack(x: string, prev: string, prefix: nat)
    requires SpaceFree(x) && Agree(x, prev, prefix)
    ensures ReadLine(Line(x, prefix), prev) == x
  {
    BlanksOfLine(prefix, x[prefix..]);
    assert Line(x, prefix)[prefix..] == x[prefix..];
    assert x == x[..prefix] + x[prefix..];
  }

  // Every tree of a well-formed list of kids has a leaf.
  lemma {:induction false} KidHasLeaf(t: Tree, above: nat)
    requires KidOk(t, above)
    ensures Leaves(t) != []
    decreases t
  {
    if t.Node? {
      KidHasLeaf(t.kids[0], t.level);
    }
  }

  lemma {:induction false} KidsReadBack(ts: seq<Tree>, prefix: nat, level: nat, prev: string)
    requires KidsOk(ts, level)
    requires forall x :: x in LeavesOf(ts) ==> SpaceFree(x)
    requires forall a, b :: a in LeavesOf(ts) && b in LeavesOf(ts) ==> Agree(a, b, level)
    requires ts != [] ==> LeavesOf(ts) != [] && Agree(LeavesOf(ts)[0], prev, prefix)
    ensures ReadLines(PrintKids(ts, prefix, level), prev) == LeavesOf(ts)
    decreases ts, 0
  {
    if ts != [] {
      var t, rest := ts[0], ts[1..];
      KidHasLeaf(t, level);
      var first := if t.Leaf? then [Line(t.name, prefix)] else PrintGroup(t, prefix);
      assert LeavesOf(ts) == Leaves(t) + LeavesOf(rest);
      assert LeavesOf(ts)[0] == Leaves(t)[0];
      FirstReadsBack(t, first, prefix, level, prev);
      var last := LastOf(Leaves(t), prev);
      assert last in Leaves(t);
      if rest != [] {
        KidHasLeaf(rest[0], level);
        assert LeavesOf(rest)[0] in LeavesOf(ts);
      }
      KidsReadBack(rest, level, level, last);
      ReadLinesConcat(first, PrintKids(rest, level, level), prev);
    }
  }

  lemma {:induction false} FirstReadsBack(t: Tree, first: seq<string>, prefix: nat, level: nat, prev: string)
    requires KidOk(t, level) && Leaves(t) != []
    requires forall x :: x in Leaves(t) ==> SpaceFree(x)
    requires Agree(Leaves(t)[0], prev, prefix)
    requires first == if t.Leaf? then [Line(t.name, prefix)] else PrintGroup(t, prefix)
    ensures ReadLines(first, prev) == Leaves(t)
    decreases t, 1
  {
    match t
    case Leaf(name) =>
      LineReadsBack(name, prev, prefix);
      assert first[1..] == [];
    case Node(level', kids) =>
      KidsReadBack(kids, prefix, level', prev);
  }

  /** The printed groups are decodable: for names without spaces, filling the blanks of each line
      from the line before gives back the sorted names. */
  lemma {:induction false} PrintedGroupsReadBack(xs: seq<string>)
    requires forall x :: x in xs ==> SpaceFree(x)
    ensures ReadLines(PrintGroup(Group(xs), 0), "") == Sorted(xs)
  {
    GroupIsPrefixTree(xs);
    var t := Group(xs);
    forall x | x in Leaves(t)
      ensures SpaceFree(x)
    {
      assert x in multiset(Sorted(xs));
    }
    if t.kids != [] {
      KidHasLeaf(t.kids[0], 0);
    }
    KidsReadBack(t.kids, 0, 0, "");
  }
}
