/** Building the groups in place. The pile and the nested lists share the same group objects:
    appending to a group on the pile also changes the list that contains it. */
module GroupBuilder {
  import opened NameGroups

  datatype Item = Name(name: string) | Sub(group: GroupNode)

  class GroupNode {
    const level: nat
    var items: seq<Item>

    constructor (level: nat, items: seq<Item>)
      ensures this.level == level && this.items == items
    {
      this.level, this.items := level, items;
    }
  }

  // An item of the heap stands for a tree; 'nodes' are the objects it may reach.
  ghost predicate Rep(item: Item, t: Tree, nodes: set<GroupNode>)
    reads nodes
    decreases t, 1
  {
    match item
    case Name(n) => t == Leaf(n)
    case Sub(g) => g in nodes && t.Node? && t.level == g.level && RepAll(g.items, t.kids, nodes)
  }

  ghost predicate RepAll(items: seq<Item>, ts: seq<Tree>, nodes: set<GroupNode>)
    reads nodes
    decreases ts, 0
  {
    |items| == |ts| && forall i :: 0 <= i < |ts| ==> Rep(items[i], ts[i], nodes)
  }

  lemma {:induction false} RepMore(item: Item, t: Tree, nodes: set<GroupNode>, more: set<GroupNode>)
    requires Rep(item, t, nodes) && nodes <= more
    ensures Rep(item, t, more)
    decreases t, 1
  {
    if item.Sub? {
      RepAllMore(item.group.items, t.kids, nodes, more);
    }
  }

  lemma {:induction false} RepAllMore(items: seq<Item>, ts: seq<Tree>, nodes: set<GroupNode>, more: set<GroupNode>)
    requires RepAll(items, ts, nodes) && nodes <= more
    ensures RepAll(items, ts, more)
    decreases ts, 0
  {
    forall i | 0 <= i < |ts|
      ensures Rep(items[i], ts[i], more)
    {
      RepMore(items[i], ts[i], nodes, more);
    }
  }

  // The objects of the pile stand for the open groups. Each but the last holds the next one
  // as its last item; everything else is closed and is not touched again.
  ghost predicate PileRep(pile: seq<GroupNode>, z: Pile, closed: set<GroupNode>)
    reads pile, closed
  {
    && |pile| == |z| && |z| >= 1
    && (forall i, j :: 0 <= i < j < |pile| ==> pile[i] != pile[j])
    && (forall i :: 0 <= i < |pile| ==> pile[i] !in closed && pile[i].level == z[i].level)
    && (forall i :: 0 <= i < |pile| - 1 ==> Holds(pile[i], z[i].kids, pile[i + 1], closed))
    && RepAll(pile[|pile| - 1].items, z[|z| - 1].kids, closed)
  }

  // A group that is not the innermost one.
  ghost predicate Holds(g: GroupNode, kids: seq<Tree>, next: GroupNode, closed: set<GroupNode>)
    reads g, closed
  {
    && |g.items| == |kids| + 1
    && RepAll(g.items[..|kids|], kids, closed)
    && g.items[|kids|] == Sub(next)
  }

  lemma HoldsMore(g: GroupNode, kids: seq<Tree>, next: GroupNode, closed: set<GroupNode>, more: set<GroupNode>)
    requires Holds(g, kids, next, closed) && closed <= more
    ensures Holds(g, kids, next, more)
  {
    RepAllMore(g.items[..|kids|], kids, closed, more);
  }

  // Popping the innermost group closes it; it already is the last item of the one around it.
  lemma PopRep(pile: seq<GroupNode>, z: Pile, closed: set<GroupNode>)
    requires PileRep(pile, z, closed) && |pile| >= 2
    ensures var n := |pile|; PileRep(pile[..n - 1], Popped(z), closed + {pile[n - 1]})
  {
    var n := |pile|;
    var top, outer := pile[n - 1], pile[n - 2];
    var more := closed + {top};
    var kids := z[n - 2].kids;
    forall i | 0 <= i < n - 2
      ensures Holds(pile[i], z[i].kids, pile[i + 1], more)
    {
      HoldsMore(pile[i], z[i].kids, pile[i + 1], closed, more);
    }
    HoldsMore(outer, kids, top, closed, more);
    RepAllMore(top.items, z[n - 1].kids, closed, more);
    assert Rep(Sub(top), Close(z[n - 1]), more);
    assert RepAll(outer.items, kids + [Close(z[n - 1])], more) by {
      forall i | 0 <= i < |kids| + 1
        ensures Rep(outer.items[i], (kids + [Close(z[n - 1])])[i], more)
      {
        if i < |kids| {
          assert outer.items[..|kids|][i] == outer.items[i];
        }
      }
    }
  }

  // The whole pile stands for the tree of the open groups.
  lemma {:induction false} PileRepTree(pile: seq<GroupNode>, z: Pile, closed: set<GroupNode>, all: set<GroupNode>)
    requires PileRep(pile, z, closed) && closed <= all
    requires forall g :: g in pile ==> g in all
    ensures Rep(Sub(pile[0]), TreeOf(z), all)
    decreases |z|
  {
    if |z| == 1 {
      RepAllMore(pile[0].items, z[0].kids, closed, all);
    } else {
      var kids := z[0].kids;
      assert PileRep(pile[1..], z[1..], closed) by {
        forall i | 0 <= i < |pile| - 2
          ensures Holds(pile[1..][i], z[1..][i].kids, pile[1..][i + 1], closed)
        {
          assert Holds(pile[i + 1], z[i + 1].kids, pile[i + 2], closed);
        }
      }
      PileRepTree(pile[1..], z[1..], closed, all);
      HoldsMore(pile[0], kids, pile[1], closed, all);
      assert RepAll(pile[0].items, kids + [TreeOf(z[1..])], all) by {
        forall i | 0 <= i < |kids| + 1
          ensures Rep(pile[0].items[i], (kids + [TreeOf(z[1..])])[i], all)
        {
          if i < |kids| {
            assert pile[0].items[..|kids|][i] == pile[0].items[i];
          }
        }
      }
    }
  }

  /** Pops the pile until the innermost level is at most u. The root has level 0, so the loop
      always stops there at the latest. */
  method PopPile(pile: seq<GroupNode>, u: nat, ghost z: Pile, ghost closed: set<GroupNode>)
    returns (r: seq<GroupNode>, ghost closed': set<GroupNode>)
    requires PileRep(pile, z, closed) && z[0].level == 0
    ensures PileRep(r, PopTo(z, u), closed')
    ensures r != [] && |r| <= |pile| && r == pile[..|r|]
    ensures closed <= closed' && forall g :: g in closed' ==> g in closed || g in pile
  {
    r, closed' := pile, closed;
    ghost var zz := z;
    while u < r[|r| - 1].level
      invariant r != [] && |r| <= |pile| && r == pile[..|r|]
      invariant PileRep(r, zz, closed') && zz[0].level == 0
      invariant PopTo(zz, u) == PopTo(z, u)
      invariant closed <= closed' && forall g :: g in closed' ==> g in closed || g in pile
      decreases |r|
    {
      assert Top(zz).level == r[|r| - 1].level;
      PopRep(r, zz, closed');
      closed', zz := closed' + {r[|r| - 1]}, Popped(zz);
      r := r[..|r| - 1];
    }
  }

  // The groups around the innermost one are not touched by what happens to it.
  ghost predicate OuterRep(pile: seq<GroupNode>, z: Pile, closed: set<GroupNode>)
    reads pile, closed
    requires |pile| == |z| >= 1
  {
    forall i :: 0 <= i < |pile| - 1 ==> Holds(pile[i], z[i].kids, pile[i + 1], closed)
  }

  method AppendName(pile: seq<GroupNode>, x: string, ghost z: Pile, ghost closed: set<GroupNode>)
    requires PileRep(pile, z, closed) && z[0].level == 0
    modifies pile[|pile| - 1]
    ensures PileRep(pile, Add(z, x, Top(z).level), closed)
  {
    var top := pile[|pile| - 1];
    ghost var kids := Top(z).kids;
    ghost var before := top.items;
    top.items := top.items + [Name(x)];
    assert RepAll(before, kids, closed);
    assert RepAll(top.items, kids + [Leaf(x)], closed);
    assert OuterRep(pile, z, closed);
  }

  method SplitGroup(pile: seq<GroupNode>, x: string, u: nat, ghost z: Pile, ghost closed: set<GroupNode>)
    returns (r: seq<GroupNode>)
    requires PileRep(pile, z, closed) && z[0].level == 0 && u > Top(z).level && Top(z).kids != []
    modifies pile[|pile| - 1]
    ensures PileRep(r, Add(z, x, u), closed)
    ensures |r| == |pile| + 1 && r[..|pile|] == pile && fresh(r[|pile|])
  {
    var n := |pile|;
    var top := pile[n - 1];
    ghost var kids := Top(z).kids;
    ghost var before := top.items;
    var m := |top.items| - 1;
    var t := new GroupNode(u, [top.items[m], Name(x)]);
    top.items := top.items[..m] + [Sub(t)];
    r := pile + [t];
    assert RepAll(before, kids, closed);
    assert top.items[..m] == before[..m];
    assert Holds(top, kids[..m], t, closed);
    assert RepAll(t.items, [kids[m], Leaf(x)], closed);
    assert OuterRep(pile, z, closed);
    ghost var z' := Add(z, x, u);
    forall i | 0 <= i < n
      ensures Holds(r[i], z'[i].kids, r[i + 1], closed)
    {
      if i < n - 1 {
        assert Holds(pile[i], z[i].kids, pile[i + 1], closed);
      }
    }
  }

  /** Inserts a name: finds the level of insertion on the pile and puts the name in that group,
      or in a new group that takes over its last item. */
  method AddName(pile: seq<GroupNode>, prev: string, x: string, ghost z: Pile, ghost closed: set<GroupNode>,
                 ghost own: set<GroupNode>)
    returns (r: seq<GroupNode>, ghost closed': set<GroupNode>, ghost own': set<GroupNode>)
    requires PileRep(pile, z, closed) && Insertable(z, prev, x)
    requires forall g :: g in pile ==> g in own
    modifies own
    ensures PileRep(r, Insert(z, prev, x), closed')
    ensures r[0] == pile[0]
    ensures own <= own' && fresh(own' - own) && forall g :: g in r ==> g in own'
  {
    var u := ComputeCommonPrefix(x, prev);
    assert Insert(z, prev, x) == Add(PopTo(z, u), x, u);
    var popped;
    popped, closed' := PopPile(pile, u, z, closed);
    assert forall g :: g in popped ==> g in pile;
    r, own' := PlaceName(popped, x, u, PopTo(z, u), closed', own);
  }

  // The name goes into the innermost group, or into a new group below it.
  method PlaceName(pile: seq<GroupNode>, x: string, u: nat, ghost z: Pile, ghost closed: set<GroupNode>,
                   ghost own: set<GroupNode>)
    returns (r: seq<GroupNode>, ghost own': set<GroupNode>)
    requires PileRep(pile, z, closed) && z[0].level == 0 && Top(z).level <= u
    requires u > Top(z).level ==> Top(z).kids != []
    requires forall g :: g in pile ==> g in own
    modifies own
    ensures PileRep(r, Add(z, x, u), closed)
    ensures r[0] == pile[0]
    ensures own <= own' && fresh(own' - own) && forall g :: g in r ==> g in own'
  {
    assert pile[|pile| - 1] in pile;
    if u == pile[|pile| - 1].level {
      AppendName(pile, x, z, closed);
      r, own' := pile, own;
    } else {
      r := SplitGroup(pile, x, u, z, closed);
      assert r == pile + [r[|pile|]];
      own' := own + {r[|pile|]};
    }
  }

  /** The loop over the sorted names: the pile it ends with starts at the root. */
  method FillPile(sorted: seq<string>)
    returns (pile: seq<GroupNode>, ghost closed: set<GroupNode>, ghost own: set<GroupNode>)
    ensures PileRep(pile, PileAfter(sorted, |sorted|), closed)
    ensures forall g :: g in pile ==> g in own
  {
    var root := new GroupNode(0, []);
    var prev := "";
    pile, closed, own := [root], {}, {root};
    ghost var z: Pile := [Open(0, [])];
    for n := 0 to |sorted|
      invariant z == PileAfter(sorted, n) && prev == NameBefore(sorted, n)
      invariant PileRep(pile, z, closed)
      invariant fresh(own) && forall g :: g in pile ==> g in own
    {
      CanInsert(sorted, n);
      pile, closed, own := AddName(pile, prev, sorted[n], z, closed, own);
      z, prev := Insert(z, prev, sorted[n]), sorted[n];
    }
  }

  method BuildGroups(list: seq<string>) returns (root: GroupNode, ghost nodes: set<GroupNode>)
    ensures Rep(Sub(root), Group(list), nodes)
  {
    var pile;
    ghost var closed, own;
    pile, closed, own := FillPile(Sorted(list));
    root := pile[0];
    nodes := closed + own;
    PileRepTree(pile, PileAfter(Sorted(list), |Sorted(list)|), closed, nodes);
  }
}
