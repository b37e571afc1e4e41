/** Ordering the classes of the bindings so that every parent comes before its children. */
module ClassOrder {
  import opened Wrappers

  datatype Struct = Struct(name: string, parent: string)

  const ROOT := "GObject"

  predicate Named(structs: seq<Struct>, name: string) {
    exists i :: 0 <= i < |structs| && structs[i].name == name
  }

  predicate Candidate(c: Struct, done: seq<Struct>) {
    c.parent == ROOT || Named(done, c.parent)
  }

  /* ----- the greedy order as a function ----- */

  // The first struct, from index i on, whose parent is done.
  function FirstCandidate(structs: seq<Struct>, done: seq<Struct>, i: nat): (r: Option<nat>)
    requires i <= |structs|
    ensures r.Some? ==> i <= r.value < |structs| && Candidate(structs[r.value], done)
    ensures r.Some? ==> forall k :: i <= k < r.value ==> !Candidate(structs[k], done)
    ensures r.None? ==> forall k :: i <= k < |structs| ==> !Candidate(structs[k], done)
    decreases |structs| - i
  {
    if i == |structs| then None
    else if Candidate(structs[i], done) then Some(i)
    else FirstCandidate(structs, done, i + 1)
  }

  function Without(structs: seq<Struct>, i: nat): (r: seq<Struct>)
    requires i < |structs|
    ensures |r| == |structs| - 1
  {
    structs[..i] + structs[i + 1..]
  }

  // The order that the loop reaches, or None when a pass finds no candidate: such a pass
  // changes nothing, so the loop then never ends.
  function Order(structs: seq<Struct>, done: seq<Struct>): Option<seq<Struct>>
    decreases |structs|
  {
    if structs == [] then Some(done)
    else
      match FirstCandidate(structs, done, 0)
      case None => None
      case Some(i) => Order(Without(structs, i), done + [structs[i]])
  }

  /* ----- what a good order is ----- */

  ghost predicate ParentsFirst(order: seq<Struct>) {
    forall i :: 0 <= i < |order| ==> Candidate(order[i], order[..i])
  }

  ghost predicate GoodOrder(order: seq<Struct>, structs: seq<Struct>) {
    multiset(order) == multiset(structs) && ParentsFirst(order)
  }

  lemma MoveKeepsAll(structs: seq<Struct>, done: seq<Struct>, i: nat)
    requires i < |structs|
    ensures multiset(Without(structs, i)) + multiset(done + [structs[i]]) == multiset(structs) + multiset(done)
  {
    assert structs == structs[..i] + [structs[i]] + structs[i + 1..];
  }

  lemma MoveKeepsParentsFirst(done: seq<Struct>, c: Struct)
    requires ParentsFirst(done) && Candidate(c, done)
    ensures ParentsFirst(done + [c])
  {
    var next := done + [c];
    forall i | 0 <= i < |next|
      ensures Candidate(next[i], next[..i])
    {
      assert next[..i] == done[..i];
      if i == |done| {
        assert done[..i] == done;
      }
    }
  }

  /** The loop, when it ends, has permuted the structs and put every parent first. */
  lemma {:induction false} OrderIsGood(structs: seq<Struct>, done: seq<Struct>)
    requires ParentsFirst(done) && Order(structs, done).Some?
    ensures var r := Order(structs, done).value;
            ParentsFirst(r) && multiset(r) == multiset(structs) + multiset(done)
    decreases |structs|
  {
    if structs != [] {
      var i := FirstCandidate(structs, done, 0).value;
      MoveKeepsAll(structs, done, i);
      MoveKeepsParentsFirst(done, structs[i]);
      OrderIsGood(Without(structs, i), done + [structs[i]]);
    }
  }

  /** If there is a good order at all, the greedy loop finds one. */
  lemma {:induction false} OrderIsComplete(structs: seq<Struct>, done: seq<Struct>, good: seq<Struct>)
    requires ParentsFirst(good) && multiset(good) == multiset(structs) + multiset(done)
    ensures Order(structs, done).Some?
    decreases |structs|
  {
    if structs != [] {
      match FirstCandidate(structs, done, 0)
      case None => GoodOrderHasCandidate(structs, done, good);
      case Some(i) =>
        MoveKeepsAll(structs, done, i);
        OrderIsComplete(Without(structs, i), done + [structs[i]], good);
    }
  }

  lemma InMultiset(s: seq<Struct>, c: Struct)
    ensures c in s <==> c in multiset(s)
  {
  }

  // The first struct of a good order that is still waiting is a candidate.
  lemma GoodOrderHasCandidate(structs: seq<Struct>, done: seq<Struct>, good: seq<Struct>)
    requires structs != []
    requires ParentsFirst(good) && multiset(good) == multiset(structs) + multiset(done)
    ensures exists k :: 0 <= k < |structs| && Candidate(structs[k], done)
  {
    InMultiset(good, structs[0]);
    var i := FirstWaiting(structs, good, 0);
    var k :| 0 <= k < |structs| && structs[k] == good[i];
    if good[i].parent != ROOT {
      var j :| 0 <= j < i && good[..i][j].name == good[i].parent;
      InMultiset(good, good[j]);
      InMultiset(done, good[j]);
      InMultiset(structs, good[j]);
      assert good[j] in done;
    }
    assert Candidate(structs[k], done);
  }

  lemma {:induction false} FirstWaiting(structs: seq<Struct>, good: seq<Struct>, from: nat) returns (i: nat)
    requires from <= |good| && exists k :: from <= k < |good| && good[k] in structs
    ensures from <= i < |good| && good[i] in structs && forall k :: from <= k < i ==> good[k] !in structs
    decreases |good| - from
  {
    if good[from] in structs {
      i := from;
    } else {
      i := FirstWaiting(structs, good, from + 1);
    }
  }

  /** The loop ends if and only if the structs have a good order. */
  lemma OrderExactly(structs: seq<Struct>)
    ensures Order(structs, []).Some? <==> exists good :: GoodOrder(good, structs)
    ensures Order(structs, []).Some? ==> GoodOrder(Order(structs, []).value, structs)
  {
    if Order(structs, []).Some? {
      OrderIsGood(structs, []);
      assert GoodOrder(Order(structs, []).value, structs);
    }
    if good :| GoodOrder(good, structs) {
      OrderIsComplete(structs, [], good);
    }
  }

  /** Lists that the loop never finishes: a struct that is its own parent, and a struct whose
      parent is not listed. */
  lemma NeverOrdered(name: string, missing: string)
    requires name != ROOT && missing != ROOT && missing != name
    ensures Order([Struct(name, name)], []).None?
    ensures Order([Struct(name, missing)], []).None?
  {
  }

  /* ----- missing parents and cycles ----- */

  ghost predicate ParentsListed(structs: seq<Struct>, all: seq<Struct>) {
    forall i :: 0 <= i < |structs| ==> Candidate(structs[i], all)
  }

  // Every struct on the way has the next one as parent.
  ghost predicate Path(structs: seq<Struct>, path: seq<Struct>) {
    && (forall i :: 0 <= i < |path| ==> path[i] in structs && path[i].parent != ROOT)
    && (forall i, j :: 0 <= i < |path| && j == i + 1 && j < |path| ==> path[i].parent == path[j].name)
  }

  ghost predicate Cycle(structs: seq<Struct>, path: seq<Struct>) {
    path != [] && Path(structs, path) && path[|path| - 1].parent == path[0].name
  }

  lemma ParentIn(structs: seq<Struct>, c: Struct) returns (parent: Struct)
    requires Named(structs, c.parent)
    ensures parent in structs && parent.name == c.parent
  {
    var i :| 0 <= i < |structs| && structs[i].name == c.parent;
    parent := structs[i];
  }

  // Where every struct has a parent among the structs, a path of any length exists.
  lemma {:induction false} LongPath(structs: seq<Struct>, n: nat) returns (path: seq<Struct>)
    requires structs != []
    requires forall c :: c in structs ==> c.parent != ROOT && Named(structs, c.parent)
    ensures |path| == n + 1 && Path(structs, path)
  {
    if n == 0 {
      path := [structs[0]];
    } else {
      var front := LongPath(structs, n - 1);
      var next := ParentIn(structs, front[n - 1]);
      path := front + [next];
    }
  }

  lemma {:induction false} Distinct(path: seq<Struct>, structs: seq<Struct>)
    requires forall i :: 0 <= i < |path| ==> path[i] in structs
    requires forall i, j :: 0 <= i < j < |path| ==> path[i] != path[j]
    ensures |path| <= |structs|
    decreases |structs|
  {
    if path != [] {
      var n := |path| - 1;
      var last, front := path[n], path[..n];
      var k :| 0 <= k < |structs| && structs[k] == last;
      var rest := Without(structs, k);
      forall i | 0 <= i < n
        ensures front[i] in rest
      {
        var m :| 0 <= m < |structs| && structs[m] == path[i];
        assert m != k;
        assert structs[m] == rest[if m < k then m else m - 1];
      }
      Distinct(front, rest);
    }
  }

  /** A pass that finds no candidate: a parent is missing, or the structs that wait contain a
      cycle. */
  lemma StuckPass(structs: seq<Struct>, done: seq<Struct>) returns (cycle: seq<Struct>)
    requires structs != [] && FirstCandidate(structs, done, 0).None?
    requires ParentsListed(structs, structs + done)
    ensures Cycle(structs, cycle)
  {
    forall c | c in structs
      ensures c.parent != ROOT && Named(structs, c.parent)
    {
      WaitsForWaiting(structs, done, c);
    }
    var path := LongPath(structs, |structs|);
    var i, j := Repetition(path, structs);
    cycle := path[i..j];
    CycleInPath(structs, path, i, j);
  }

  lemma Repetition(path: seq<Struct>, structs: seq<Struct>) returns (i: nat, j: nat)
    requires |path| > |structs| && forall i :: 0 <= i < |path| ==> path[i] in structs
    ensures i < j < |path| && path[i] == path[j]
  {
    if forall i, j :: 0 <= i < j < |path| ==> path[i] != path[j] {
      Distinct(path, structs);
    }
    i, j :| 0 <= i < j < |path| && path[i] == path[j];
  }

  lemma CycleInPath(structs: seq<Struct>, path: seq<Struct>, i: nat, j: nat)
    requires Path(structs, path) && i < j < |path| && path[i] == path[j]
    ensures Cycle(structs, path[i..j])
  {
    var k := j - 1;
    assert path[k].parent == path[j].name;
  }

  lemma WaitsForWaiting(structs: seq<Struct>, done: seq<Struct>, c: Struct)
    requires FirstCandidate(structs, done, 0).None? && ParentsListed(structs, structs + done)
    requires c in structs
    ensures c.parent != ROOT && Named(structs, c.parent)
  {
    var k :| 0 <= k < |structs| && structs[k] == c;
    assert !Candidate(structs[k], done);
    var all := structs + done;
    assert Candidate(structs[k], all);
    var m :| 0 <= m < |all| && all[m].name == c.parent;
  }

  ghost predicate Cyclic(structs: seq<Struct>) {
    exists path :: Cycle(structs, path)
  }

  lemma NamedAnywhere(all1: seq<Struct>, all2: seq<Struct>, name: string)
    requires multiset(all1) == multiset(all2) && Named(all1, name)
    ensures Named(all2, name)
  {
    var i :| 0 <= i < |all1| && all1[i].name == name;
    InMultiset(all1, all1[i]);
    InMultiset(all2, all1[i]);
  }

  lemma {:induction false} NoCycleNoStop(structs: seq<Struct>, done: seq<Struct>)
    requires ParentsListed(structs, structs + done) && !Cyclic(structs)
    ensures Order(structs, done).Some?
    decreases |structs|
  {
    if structs != [] {
      match FirstCandidate(structs, done, 0)
      case None =>
        var cycle := StuckPass(structs, done);
        assert Cyclic(structs);
      case Some(i) =>
        MoveKeepsListed(structs, done, i);
        NoCycleNoStop(Without(structs, i), done + [structs[i]]);
    }
  }

  lemma MoveKeepsListed(structs: seq<Struct>, done: seq<Struct>, i: nat)
    requires i < |structs| && ParentsListed(structs, structs + done) && !Cyclic(structs)
    ensures ParentsListed(Without(structs, i), Without(structs, i) + (done + [structs[i]]))
    ensures !Cyclic(Without(structs, i))
  {
    var rest, next := Without(structs, i), done + [structs[i]];
    MoveKeepsAll(structs, done, i);
    forall k | 0 <= k < |rest|
      ensures rest[k] in structs && Candidate(rest[k], rest + next)
    {
      var m := if k < i then k else k + 1;
      assert rest[k] == structs[m];
      assert Candidate(structs[m], structs + done);
      if structs[m].parent != ROOT {
        NamedAnywhere(structs + done, rest + next, structs[m].parent);
      }
    }
    if path :| Cycle(rest, path) {
      assert Cycle(structs, path);
    }
  }

  /** When every parent is the root or listed and there is no cycle, the loop ends with a
      permutation in which every parent comes before its children. */
  lemma AcyclicIsOrdered(structs: seq<Struct>)
    requires ParentsListed(structs, structs) && !Cyclic(structs)
    ensures Order(structs, []).Some? && GoodOrder(Order(structs, []).value, structs)
  {
    assert structs + [] == structs;
    NoCycleNoStop(structs, []);
    OrderExactly(structs);
  }

  ghost predicate DistinctNames(structs: seq<Struct>) {
    forall c, d :: c in structs && d in structs && c.name == d.name ==> c == d
  }

  // In a good order, a path leads to earlier and earlier positions.
  lemma {:induction false} PathGoesUp(order: seq<Struct>, path: seq<Struct>, start: nat, n: nat) returns (at: nat)
    requires ParentsFirst(order) && DistinctNames(order) && Path(order, path)
    requires n < |path| && start < |order| && order[start] == path[0]
    ensures at + n <= start && order[at] == path[n]
  {
    if n == 0 {
      at := start;
    } else {
      var below := PathGoesUp(order, path, start, n - 1);
      at := ParentAbove(order, below);
      assert order[at] in order && path[n] in order && path[n - 1].parent == path[n].name;
    }
  }

  lemma ParentAbove(order: seq<Struct>, i: nat) returns (at: nat)
    requires ParentsFirst(order) && i < |order| && order[i].parent != ROOT
    ensures at < i && order[at].name == order[i].parent
  {
    assert Candidate(order[i], order[..i]);
    at :| 0 <= at < i && order[..i][at].name == order[i].parent;
  }

  lemma GoodOrderHasNoCycle(order: seq<Struct>, path: seq<Struct>)
    requires ParentsFirst(order) && DistinctNames(order)
    ensures !Cycle(order, path)
  {
    if Cycle(order, path) {
      var start := FirstWaiting([path[0]], order, 0);
      var last := PathGoesUp(order, path, start, |path| - 1);
      var again := ParentAbove(order, last);
    }
  }

  /** With distinct names: the loop ends if and only if every parent is the root or listed and
      there is no cycle. */
  lemma AcyclicExactly(structs: seq<Struct>)
    requires DistinctNames(structs)
    ensures Order(structs, []).Some? <==> ParentsListed(structs, structs) && !Cyclic(structs)
  {
    if ParentsListed(structs, structs) && !Cyclic(structs) {
      AcyclicIsOrdered(structs);
    }
    if Order(structs, []).Some? {
      OrderExactly(structs);
      var order := Order(structs, []).value;
      forall c
        ensures c in order <==> c in structs
      {
        InMultiset(order, c);
        InMultiset(structs, c);
      }
      OrderLists(order, structs);
      if path :| Cycle(structs, path) {
        GoodOrderHasNoCycle(order, path);
      }
    }
  }

  lemma OrderLists(order: seq<Struct>, structs: seq<Struct>)
    requires GoodOrder(order, structs)
    ensures ParentsListed(structs, structs)
  {
    forall i | 0 <= i < |structs|
      ensures Candidate(structs[i], structs)
    {
      InMultiset(structs, structs[i]);
      InMultiset(order, structs[i]);
      var k :| 0 <= k < |order| && order[k] == structs[i];
      if structs[i].parent != ROOT {
        var at := ParentAbove(order, k);
        NamedAnywhere(order, structs, structs[i].parent);
      }
    }
  }

  /* ----- the object ----- */

  class BindingData {
    var structs: seq<Struct>

    constructor (structs: seq<Struct>)
      ensures this.structs == structs
    {
      this.structs := structs;
    }

    /** One pass of the outer loop: the first candidate moves to the new order. A pass that
        finds none leaves everything as it was. */
    method Pass(newOrder: seq<Struct>) returns (next: seq<Struct>)
      modifies this
      ensures match FirstCandidate(old(structs), newOrder, 0)
              case None => structs == old(structs) && next == newOrder
              case Some(i) => structs == Without(old(structs), i) && next == newOrder + [old(structs)[i]]
    {
      next := newOrder;
      var i := 0;
      while i < |structs|
        invariant 0 <= i <= |structs| && structs == old(structs)
        invariant FirstCandidate(structs, newOrder, 0) == FirstCandidate(structs, newOrder, i)
      {
        var c := structs[i];
        if Candidate(c, newOrder) {
          structs := structs[..i] + structs[i + 1..];
          next := newOrder + [c];
          return;
        }
        i := i + 1;
      }
    }

    /** The whole loop, where it ends. */
    method OrderClassHierarchy()
      requires exists good :: GoodOrder(good, structs)
      modifies this
      ensures GoodOrder(structs, old(structs))
      ensures Some(structs) == Order(old(structs), [])
    {
      OrderExactly(structs);
      var newOrder: seq<Struct> := [];
      while structs != []
        invariant Order(structs, newOrder) == Order(old(structs), [])
        decreases |structs|
      {
        newOrder := Pass(newOrder);
      }
      structs := newOrder;
    }
  }
}
