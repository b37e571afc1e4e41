/** The registry of qualified names: two hash tables over interned strings, and the plain maps
    over strings that they implement. */
module Registry {
  import opened Wrappers
  import opened HashTable

  const PARAM_INVALID_VALUE := -502
  const REGISTRY_KEY_EXISTS := -1400

  // A translation function may give no answer; the name it is asked about may be NULL.
  type Translation = (string, Option<string>, string) -> Option<string>

  /* ----- interned strings ----- */

  // The quark of a string is its position in the table of interned strings, counted from 1.
  type Quarks = seq<string>

  predicate Interning(quarks: Quarks) {
    forall i, j :: 0 <= i < j < |quarks| ==> quarks[i] != quarks[j]
  }

  // The last of the first n strings that is the given one, counted from 1; zero if none is.
  function Position(quarks: Quarks, s: string, n: nat): (q: nat)
    requires n <= |quarks|
    ensures q <= n
    ensures q > 0 ==> quarks[q - 1] == s
    ensures q == 0 ==> forall i :: 0 <= i < n ==> quarks[i] != s
  {
    if n == 0 then 0 else if quarks[n - 1] == s then n else Position(quarks, s, n - 1)
  }

  // Zero for NULL and for strings that have never been interned.
  function TryString(quarks: Quarks, s: Option<string>): (q: nat)
    ensures q <= |quarks|
    ensures q > 0 ==> s == Some(quarks[q - 1])
    ensures q == 0 ==> s.None? || s.value !in quarks
  {
    if s.None? then 0 else Position(quarks, s.value, |quarks|)
  }

  function Intern(quarks: Quarks, s: string): (r: Quarks)
    ensures s in r
    ensures Interning(quarks) ==> Interning(r)
  {
    if s in quarks then quarks else quarks + [s]
  }

  function QuarkOf(quarks: Quarks, s: string): (q: nat)
    requires s in quarks
    ensures 0 < q <= |quarks| && quarks[q - 1] == s
  {
    TryString(quarks, Some(s))
  }

  // Interning moves no quark.
  ghost predicate Extends(quarks: Quarks, later: Quarks) {
    Interning(quarks) && Interning(later) && |quarks| <= |later| && later[..|quarks|] == quarks
  }

  lemma InternExtends(quarks: Quarks, s: string)
    requires Interning(quarks)
    ensures Extends(quarks, Intern(quarks, s))
  {
  }

  /* ----- keys and their hashes ----- */

  function Xor(a: nat, b: nat): nat
    decreases a + b
  {
    if a == 0 then b else if b == 0 then a else Xor(a / 2, b / 2) * 2 + (a + b) % 2
  }

  datatype DirectKey = DirectKey(fromNs: nat, fromName: nat, toNs: nat)

  datatype FunctionalKey = FunctionalKey(fromNs: nat, toNs: nat)

  function DirectHash(k: DirectKey): nat {
    Xor(Xor(k.fromNs, k.fromName), k.toNs)
  }

  function FunctionalHash(k: FunctionalKey): nat {
    Xor(k.fromNs, k.toNs)
  }

  type DirectTable = Table<DirectKey, nat>

  // The source accepts a NULL translation function.
  type FunctionalTable = Table<FunctionalKey, Option<Translation>>

  /* ----- the calls on the tables ----- */

  // A record is both key and value of its table, and the table frees the values it replaces.
  // An insertion that meets an equal key therefore keeps that key and frees its memory: from
  // then on the registry dangles, and what a call would answer is not defined.
  datatype State = State(quarks: Quarks, direct: DirectTable, functional: FunctionalTable, dangling: bool)

  // A new registry; other parts of the program may have interned strings before.
  function NewState(quarks: Quarks): State {
    State(quarks, Empty(DirectHash), Empty(FunctionalHash), false)
  }

  function ToString(quarks: Quarks, q: nat): Option<string> {
    if 0 < q <= |quarks| then Some(quarks[q - 1]) else None
  }

  function GetTranslation(functional: FunctionalTable, fromNs: nat, toNs: nat): Option<Translation> {
    match Lookup(functional, FunctionalKey(fromNs, toNs))
    case None => None
    case Some(f) => f
  }

  function GetFunctional(st: State, fromNs: nat, fromName: Option<string>, toNs: nat): Option<string>
    requires 0 < fromNs <= |st.quarks| && 0 < toNs <= |st.quarks|
  {
    match GetTranslation(st.functional, fromNs, toNs)
    case None => None
    case Some(f) => f(st.quarks[fromNs - 1], fromName, st.quarks[toNs - 1])
  }

  function GetDirect(st: State, fromNs: nat, fromName: Option<string>, toNs: nat): Option<string> {
    var name := TryString(st.quarks, fromName);
    if name == 0 then None
    else
      match Lookup(st.direct, DirectKey(fromNs, name, toNs))
      case None => None
      case Some(q) => ToString(st.quarks, q)
  }

  function GetMapping(st: State, fromNs: Option<string>, fromName: Option<string>, toNs: Option<string>): Option<string>
  {
    var from, to := TryString(st.quarks, fromNs), TryString(st.quarks, toNs);
    if from == 0 || to == 0 then None
    else
      var r := GetFunctional(st, from, fromName, to);
      if r.Some? then r else GetDirect(st, from, fromName, to)
  }

  function AddDirect(st: State, fromNs: Option<string>, fromName: Option<string>, toNs: Option<string>,
                     toName: Option<string>): (State, int)
  {
    if fromNs.None? || fromName.None? || toNs.None? || toName.None? then (st, PARAM_INVALID_VALUE)
    else if GetMapping(st, fromNs, fromName, toNs).Some? then (st, REGISTRY_KEY_EXISTS)
    else (InsertDirect(st, fromNs.value, fromName.value, toNs.value, toName.value), 0)
  }

  // The four strings are interned in this order.
  function InternAll(quarks: Quarks, fromNs: string, fromName: string, toNs: string, toName: string): (r: Quarks)
    ensures fromNs in r && fromName in r && toNs in r && toName in r
  {
    Intern(Intern(Intern(Intern(quarks, fromNs), fromName), toNs), toName)
  }

  function InsertDirect(st: State, fromNs: string, fromName: string, toNs: string, toName: string): State {
    var quarks := InternAll(st.quarks, fromNs, fromName, toNs, toName);
    var key := DirectKey(QuarkOf(quarks, fromNs), QuarkOf(quarks, fromName), QuarkOf(quarks, toNs));
    if Lookup(st.direct, key).Some? then st.(quarks := quarks, dangling := true)
    else st.(quarks := quarks, direct := Insert(st.direct, key, QuarkOf(quarks, toName)))
  }

  function AddFunctional(st: State, fromNs: Option<string>, toNs: Option<string>, f: Option<Translation>): (State, int)
  {
    if fromNs.None? || toNs.None? then (st, PARAM_INVALID_VALUE)
    else
      var quarks := Intern(Intern(st.quarks, fromNs.value), toNs.value);
      var key := FunctionalKey(QuarkOf(quarks, fromNs.value), QuarkOf(quarks, toNs.value));
      if GetTranslation(st.functional, key.fromNs, key.toNs).Some? then
        (st.(quarks := quarks), REGISTRY_KEY_EXISTS)
      else (InsertFunctional(st.(quarks := quarks), key, f), 0)
  }

  function InsertFunctional(st: State, key: FunctionalKey, f: Option<Translation>): State {
    if Lookup(st.functional, key).Some? then st.(dangling := true)
    else st.(functional := Insert(st.functional, key, f))
  }

  /* ----- the specification: maps over strings ----- */

  datatype Names = Names(
    direct: map<(string, string, string), string>, functional: map<(string, string), Option<Translation>>)

  const NO_NAMES := Names(map[], map[])

  ghost function TranslationOf(m: Names, fromNs: string, toNs: string): Option<Translation> {
    if (fromNs, toNs) in m.functional then m.functional[(fromNs, toNs)] else None
  }

  ghost function SpecGet(m: Names, fromNs: Option<string>, fromName: Option<string>,
                         toNs: Option<string>): Option<string>
  {
    if fromNs.None? || toNs.None? then None
    else
      var f := TranslationOf(m, fromNs.value, toNs.value);
      var r := if f.Some? then f.value(fromNs.value, fromName, toNs.value) else None;
      if r.Some? then r
      else if fromName.Some? && (fromNs.value, fromName.value, toNs.value) in m.direct then
        Some(m.direct[(fromNs.value, fromName.value, toNs.value)])
      else None
  }

  ghost function SpecAddDirect(m: Names, fromNs: Option<string>, fromName: Option<string>, toNs: Option<string>,
                               toName: Option<string>): (Names, int)
  {
    if fromNs.None? || fromName.None? || toNs.None? || toName.None? then (m, PARAM_INVALID_VALUE)
    else if SpecGet(m, fromNs, fromName, toNs).Some? then (m, REGISTRY_KEY_EXISTS)
    else (m.(direct := m.direct[(fromNs.value, fromName.value, toNs.value) := toName.value]), 0)
  }

  ghost function SpecAddFunctional(m: Names, fromNs: Option<string>, toNs: Option<string>, f: Option<Translation>):
    (Names, int)
  {
    if fromNs.None? || toNs.None? then (m, PARAM_INVALID_VALUE)
    else if TranslationOf(m, fromNs.value, toNs.value).Some? then (m, REGISTRY_KEY_EXISTS)
    else (m.(functional := m.functional[(fromNs.value, toNs.value) := f]), 0)
  }

  /* ----- refinement ----- */

  ghost predicate InQuarks(quarks: Quarks, q: nat) {
    0 < q <= |quarks|
  }

  // The quarks in the tables are quarks of interned strings.
  ghost predicate Bounded(st: State) {
    && (forall k :: Lookup(st.direct, k).Some? ==>
          && InQuarks(st.quarks, k.fromNs) && InQuarks(st.quarks, k.fromName) && InQuarks(st.quarks, k.toNs)
          && InQuarks(st.quarks, Lookup(st.direct, k).value))
    && (forall k :: Lookup(st.functional, k).Some? ==> InQuarks(st.quarks, k.fromNs) && InQuarks(st.quarks, k.toNs))
  }

  ghost function Try(quarks: Quarks, s: string): nat {
    TryString(quarks, Some(s))
  }

  ghost function DirectKeyOf(quarks: Quarks, a: string, b: string, c: string): DirectKey {
    DirectKey(Try(quarks, a), Try(quarks, b), Try(quarks, c))
  }

  ghost function FunctionalKeyOf(quarks: Quarks, a: string, b: string): FunctionalKey {
    FunctionalKey(Try(quarks, a), Try(quarks, b))
  }

  // What the tables hold under strings, interned or not.
  ghost function DirectAt(st: State, a: string, b: string, c: string): Option<string> {
    match Lookup(st.direct, DirectKeyOf(st.quarks, a, b, c))
    case None => None
    case Some(q) => ToString(st.quarks, q)
  }

  ghost function FunctionalAt(st: State, a: string, b: string): Option<Option<Translation>> {
    Lookup(st.functional, FunctionalKeyOf(st.quarks, a, b))
  }

  ghost function At<K, V>(m: map<K, V>, k: K): Option<V> {
    if k in m then Some(m[k]) else None
  }

  ghost predicate Refines(st: State, m: Names) {
    && Interning(st.quarks) && Bounded(st) && !st.dangling
    && (forall a, b, c :: DirectAt(st, a, b, c) == At(m.direct, (a, b, c)))
    && (forall a, b :: FunctionalAt(st, a, b) == At(m.functional, (a, b)))
  }

  lemma NewRefines(quarks: Quarks)
    requires Interning(quarks)
    ensures Refines(NewState(quarks), NO_NAMES)
  {
  }

  // The shortcuts: nothing is held under a string that has never been interned.
  lemma NeverInterned(st: State, a: string, b: string, c: string)
    requires Bounded(st)
    requires a !in st.quarks || b !in st.quarks || c !in st.quarks
    ensures DirectAt(st, a, b, c).None?
    ensures a !in st.quarks || c !in st.quarks ==> FunctionalAt(st, a, c).None?
  {
  }

  lemma TryExtends(quarks: Quarks, later: Quarks, s: string)
    requires Extends(quarks, later)
    ensures s in quarks ==> Try(later, s) == Try(quarks, s)
    ensures s !in quarks ==> Try(later, s) == 0 || Try(later, s) > |quarks|
  {
    assert forall i :: 0 <= i < |quarks| ==> later[i] == quarks[i];
  }

  // Nothing is held under a key with a quark that was not there.
  lemma NewQuark(st: State, later: Quarks, a: string, b: string, c: string)
    requires Bounded(st) && Extends(st.quarks, later)
    requires a !in st.quarks || b !in st.quarks || c !in st.quarks
    ensures Lookup(st.direct, DirectKeyOf(later, a, b, c)).None?
  {
    TryExtends(st.quarks, later, a);
    TryExtends(st.quarks, later, b);
    TryExtends(st.quarks, later, c);
  }

  lemma SameDirectKey(quarks: Quarks, later: Quarks, a: string, b: string, c: string)
    requires Extends(quarks, later) && a in quarks && b in quarks && c in quarks
    ensures DirectKeyOf(later, a, b, c) == DirectKeyOf(quarks, a, b, c)
  {
    TryExtends(quarks, later, a);
    TryExtends(quarks, later, b);
    TryExtends(quarks, later, c);
  }

  lemma InterningKeepsDirect(st: State, later: Quarks, a: string, b: string, c: string)
    requires Bounded(st) && Extends(st.quarks, later)
    ensures DirectAt(st.(quarks := later), a, b, c) == DirectAt(st, a, b, c)
  {
    if a !in st.quarks || b !in st.quarks || c !in st.quarks {
      NewQuark(st, later, a, b, c);
      NeverInterned(st, a, b, c);
    } else {
      SameDirectKey(st.quarks, later, a, b, c);
      match Lookup(st.direct, DirectKeyOf(st.quarks, a, b, c))
      case None =>
      case Some(q) => assert later[q - 1] == later[..|st.quarks|][q - 1];
    }
  }

  lemma InterningKeepsFunctional(st: State, later: Quarks, a: string, b: string)
    requires Bounded(st) && Extends(st.quarks, later)
    ensures FunctionalAt(st.(quarks := later), a, b) == FunctionalAt(st, a, b)
  {
    TryExtends(st.quarks, later, a);
    TryExtends(st.quarks, later, b);
  }

  /** Interning more strings changes nothing that the registry holds. */
  lemma InterningKeeps(st: State, later: Quarks, m: Names)
    requires Refines(st, m) && Extends(st.quarks, later)
    ensures Refines(st.(quarks := later), m)
  {
    var st' := st.(quarks := later);
    forall a, b, c
      ensures DirectAt(st', a, b, c) == At(m.direct, (a, b, c))
    {
      InterningKeepsDirect(st, later, a, b, c);
    }
    forall a, b
      ensures FunctionalAt(st', a, b) == At(m.functional, (a, b))
    {
      InterningKeepsFunctional(st, later, a, b);
    }
  }

  lemma OneDirectKey(quarks: Quarks, a: string, b: string, c: string, x: string, y: string, z: string)
    requires a in quarks && b in quarks && c in quarks
    ensures DirectKeyOf(quarks, x, y, z) == DirectKeyOf(quarks, a, b, c) <==> (x, y, z) == (a, b, c)
  {
    OneQuark(quarks, a, x);
    OneQuark(quarks, b, y);
    OneQuark(quarks, c, z);
  }

  lemma DirectInsertAt(st: State, a: string, b: string, c: string, d: string, x: string, y: string, z: string)
    requires a in st.quarks && b in st.quarks && c in st.quarks && d in st.quarks
    requires Lookup(st.direct, DirectKeyOf(st.quarks, a, b, c)).None?
    ensures var st' := st.(direct := Insert(st.direct, DirectKeyOf(st.quarks, a, b, c), Try(st.quarks, d)));
            DirectAt(st', x, y, z) == if (x, y, z) == (a, b, c) then Some(d) else DirectAt(st, x, y, z)
  {
    var key, other := DirectKeyOf(st.quarks, a, b, c), DirectKeyOf(st.quarks, x, y, z);
    InsertLookup(st.direct, key, Try(st.quarks, d));
    OneDirectKey(st.quarks, a, b, c, x, y, z);
    assert Lookup(Insert(st.direct, key, Try(st.quarks, d)), other)
        == if other == key then Some(Try(st.quarks, d)) else Lookup(st.direct, other);
  }

  lemma DirectInsertBounded(st: State, a: string, b: string, c: string, d: string)
    requires Bounded(st) && a in st.quarks && b in st.quarks && c in st.quarks && d in st.quarks
    requires Lookup(st.direct, DirectKeyOf(st.quarks, a, b, c)).None?
    ensures Bounded(st.(direct := Insert(st.direct, DirectKeyOf(st.quarks, a, b, c), Try(st.quarks, d))))
  {
    InsertLookup(st.direct, DirectKeyOf(st.quarks, a, b, c), Try(st.quarks, d));
  }

  lemma InsertDirectKeeps(st: State, m: Names, a: string, b: string, c: string, d: string)
    requires Refines(st, m) && (a, b, c) !in m.direct
    requires a in st.quarks && b in st.quarks && c in st.quarks && d in st.quarks
    ensures Lookup(st.direct, DirectKeyOf(st.quarks, a, b, c)).None?
    ensures Refines(st.(direct := Insert(st.direct, DirectKeyOf(st.quarks, a, b, c), Try(st.quarks, d))),
                    m.(direct := m.direct[(a, b, c) := d]))
  {
    var key := DirectKeyOf(st.quarks, a, b, c);
    assert DirectAt(st, a, b, c) == At(m.direct, (a, b, c));
    var st' := st.(direct := Insert(st.direct, key, Try(st.quarks, d)));
    var m' := m.(direct := m.direct[(a, b, c) := d]);
    DirectInsertBounded(st, a, b, c, d);
    forall x, y, z
      ensures DirectAt(st', x, y, z) == At(m'.direct, (x, y, z))
    {
      assert DirectAt(st, x, y, z) == At(m.direct, (x, y, z));
      DirectInsertAt(st, a, b, c, d, x, y, z);
    }
    forall x, y
      ensures FunctionalAt(st', x, y) == At(m'.functional, (x, y))
    {
      assert FunctionalAt(st, x, y) == At(m.functional, (x, y));
    }
  }

  lemma FunctionalInsertAt(st: State, a: string, b: string, f: Option<Translation>, x: string, y: string)
    requires a in st.quarks && b in st.quarks && FunctionalAt(st, a, b).None?
    ensures var st' := st.(functional := Insert(st.functional, FunctionalKeyOf(st.quarks, a, b), f));
            FunctionalAt(st', x, y) == if (x, y) == (a, b) then Some(f) else FunctionalAt(st, x, y)
  {
    InsertLookup(st.functional, FunctionalKeyOf(st.quarks, a, b), f);
    OneFunctionalKey(st.quarks, a, b, x, y);
  }

  lemma OneFunctionalKey(quarks: Quarks, a: string, b: string, x: string, y: string)
    requires a in quarks && b in quarks
    ensures FunctionalKeyOf(quarks, x, y) == FunctionalKeyOf(quarks, a, b) <==> (x, y) == (a, b)
  {
    OneQuark(quarks, a, x);
    OneQuark(quarks, b, y);
  }

  lemma OneQuark(quarks: Quarks, a: string, x: string)
    requires a in quarks
    ensures Try(quarks, x) == Try(quarks, a) <==> x == a
  {
  }

  lemma InsertFunctionalKeeps(st: State, m: Names, a: string, b: string, f: Option<Translation>)
    requires Refines(st, m) && (a, b) !in m.functional
    requires a in st.quarks && b in st.quarks
    ensures Lookup(st.functional, FunctionalKeyOf(st.quarks, a, b)).None?
    ensures Refines(st.(functional := Insert(st.functional, FunctionalKeyOf(st.quarks, a, b), f)),
                    m.(functional := m.functional[(a, b) := f]))
  {
    var key := FunctionalKeyOf(st.quarks, a, b);
    assert FunctionalAt(st, a, b) == At(m.functional, (a, b));
    var st' := st.(functional := Insert(st.functional, key, f));
    var m' := m.(functional := m.functional[(a, b) := f]);
    forall x, y, z
      ensures DirectAt(st', x, y, z) == At(m'.direct, (x, y, z))
    {
      assert DirectAt(st, x, y, z) == At(m.direct, (x, y, z));
    }
    forall x, y
      ensures FunctionalAt(st', x, y) == At(m'.functional, (x, y))
    {
      assert FunctionalAt(st, x, y) == At(m.functional, (x, y));
      FunctionalInsertAt(st, a, b, f, x, y);
    }
    InsertLookup(st.functional, key, f);
  }

  lemma GetFunctionalAgrees(st: State, m: Names, a: string, name: Option<string>, c: string)
    requires Refines(st, m) && a in st.quarks && c in st.quarks
    ensures GetFunctional(st, Try(st.quarks, a), name, Try(st.quarks, c)) ==
            var f := TranslationOf(m, a, c); if f.Some? then f.value(a, name, c) else None
  {
    assert FunctionalAt(st, a, c) == At(m.functional, (a, c));
  }

  lemma GetDirectAgrees(st: State, m: Names, a: string, b: string, c: string)
    requires Refines(st, m)
    ensures GetDirect(st, Try(st.quarks, a), Some(b), Try(st.quarks, c)) == At(m.direct, (a, b, c))
  {
    assert DirectAt(st, a, b, c) == At(m.direct, (a, b, c));
    if b !in st.quarks {
      NeverInterned(st, a, b, c);
    }
  }

  // The maps hold nothing between namespaces of which one has never been interned.
  lemma NotHeld(st: State, m: Names, a: string, b: string, c: string)
    requires Refines(st, m) && (a !in st.quarks || c !in st.quarks)
    ensures (a, c) !in m.functional && (a, b, c) !in m.direct
  {
    NeverInterned(st, a, b, c);
    assert FunctionalAt(st, a, c) == At(m.functional, (a, c));
    assert DirectAt(st, a, b, c) == At(m.direct, (a, b, c));
  }

  /** The tables answer a lookup as the maps do, shortcuts included. */
  lemma GetAgrees(st: State, m: Names, fromNs: Option<string>, fromName: Option<string>, toNs: Option<string>)
    requires Refines(st, m)
    ensures GetMapping(st, fromNs, fromName, toNs) == SpecGet(m, fromNs, fromName, toNs)
  {
    if fromNs.Some? && toNs.Some? {
      var a, c := fromNs.value, toNs.value;
      if a !in st.quarks || c !in st.quarks {
        NotHeld(st, m, a, if fromName.Some? then fromName.value else "", c);
      } else {
        GetFunctionalAgrees(st, m, a, fromName, c);
        if fromName.Some? {
          GetDirectAgrees(st, m, a, fromName.value, c);
        }
      }
    }
  }

  lemma AddDirectAgrees(st: State, m: Names, fromNs: Option<string>, fromName: Option<string>, toNs: Option<string>,
                        toName: Option<string>)
    requires Refines(st, m)
    ensures var (st', rc) := AddDirect(st, fromNs, fromName, toNs, toName);
            var (m', rc') := SpecAddDirect(m, fromNs, fromName, toNs, toName);
            Refines(st', m') && rc == rc'
  {
    GetAgrees(st, m, fromNs, fromName, toNs);
    if AddDirect(st, fromNs, fromName, toNs, toName).1 == 0 {
      var quarks := InternAll(st.quarks, fromNs.value, fromName.value, toNs.value, toName.value);
      InternAllExtends(st.quarks, fromNs.value, fromName.value, toNs.value, toName.value);
      InterningKeeps(st, quarks, m);
      InsertDirectKeeps(st.(quarks := quarks), m, fromNs.value, fromName.value, toNs.value, toName.value);
    }
  }

  lemma InternAllExtends(quarks: Quarks, a: string, b: string, c: string, d: string)
    requires Interning(quarks)
    ensures Extends(quarks, InternAll(quarks, a, b, c, d))
  {
    InternExtends(quarks, a);
    InternExtends(Intern(quarks, a), b);
    InternExtends(Intern(Intern(quarks, a), b), c);
  }

  lemma AddFunctionalAgrees(st: State, m: Names, fromNs: Option<string>, toNs: Option<string>, f: Option<Translation>)
    requires Refines(st, m)
    ensures var (st', rc) := AddFunctional(st, fromNs, toNs, f);
            var (m', rc') := SpecAddFunctional(m, fromNs, toNs, f);
            && rc == rc'
            && (if HasNull(m, fromNs, toNs) then st'.dangling else Refines(st', m'))
  {
    if fromNs.Some? && toNs.Some? {
      var a, b := fromNs.value, toNs.value;
      var quarks := Intern(Intern(st.quarks, a), b);
      InternExtends(st.quarks, a);
      InternExtends(Intern(st.quarks, a), b);
      InterningKeeps(st, quarks, m);
      RegisterAgrees(st.(quarks := quarks), m, a, b, f);
    }
  }

  // The registration once both namespaces are interned.
  lemma RegisterAgrees(st: State, m: Names, a: string, b: string, f: Option<Translation>)
    requires Refines(st, m) && a in st.quarks && b in st.quarks
    ensures var key := FunctionalKeyOf(st.quarks, a, b);
            && GetTranslation(st.functional, key.fromNs, key.toNs) == TranslationOf(m, a, b)
            && (At(m.functional, (a, b)) == Some(None) ==> InsertFunctional(st, key, f).dangling)
            && (At(m.functional, (a, b)) == None ==>
                  Refines(InsertFunctional(st, key, f), m.(functional := m.functional[(a, b) := f])))
  {
    assert FunctionalAt(st, a, b) == At(m.functional, (a, b));
    if (a, b) !in m.functional {
      InsertFunctionalKeeps(st, m, a, b, f);
    }
  }

  // A NULL translation function is registered between the namespaces.
  ghost predicate HasNull(m: Names, fromNs: Option<string>, toNs: Option<string>) {
    fromNs.Some? && toNs.Some? && At(m.functional, (fromNs.value, toNs.value)) == Some(None)
  }

  /* ----- every sequence of calls ----- */

  // The calls, and the interning of strings by any other part of the program.
  datatype Call =
    | Get(fromNs: Option<string>, fromName: Option<string>, toNs: Option<string>)
    | Direct(fromNs: Option<string>, fromName: Option<string>, toNs: Option<string>, toName: Option<string>)
    | Functional(fromNs: Option<string>, toNs: Option<string>, f: Option<Translation>)
    | Elsewhere(s: string)

  datatype Answer = Name(name: Option<string>) | Code(rc: int) | NoAnswer | Undefined

  function Apply(st: State, call: Call): (State, Answer) {
    if call.Elsewhere? then (st.(quarks := Intern(st.quarks, call.s)), NoAnswer)
    else if st.dangling then (st, Undefined)
    else
      match call
      case Get(fromNs, fromName, toNs) => (st, Name(GetMapping(st, fromNs, fromName, toNs)))
      case Direct(fromNs, fromName, toNs, toName) =>
        var (st', rc) := AddDirect(st, fromNs, fromName, toNs, toName);
        (st', Code(rc))
      case Functional(fromNs, toNs, f) =>
        var (st', rc) := AddFunctional(st, fromNs, toNs, f);
        (st', Code(rc))
  }

  ghost function SpecApply(m: Names, call: Call): (Names, Answer) {
    match call
    case Get(fromNs, fromName, toNs) => (m, Name(SpecGet(m, fromNs, fromName, toNs)))
    case Direct(fromNs, fromName, toNs, toName) =>
      var (m', rc) := SpecAddDirect(m, fromNs, fromName, toNs, toName);
      (m', Code(rc))
    case Functional(fromNs, toNs, f) =>
      var (m', rc) := SpecAddFunctional(m, fromNs, toNs, f);
      (m', Code(rc))
    case Elsewhere(_) => (m, NoAnswer)
  }

  function Run(st: State, calls: seq<Call>): (State, seq<Answer>)
    decreases |calls|
  {
    if calls == [] then (st, [])
    else
      var (st1, first) := Apply(st, calls[0]);
      var (st2, rest) := Run(st1, calls[1..]);
      (st2, [first] + rest)
  }

  ghost function SpecRun(m: Names, calls: seq<Call>): (Names, seq<Answer>)
    decreases |calls|
  {
    if calls == [] then (m, [])
    else
      var (m1, first) := SpecApply(m, calls[0]);
      var (m2, rest) := SpecRun(m1, calls[1..]);
      (m2, [first] + rest)
  }

  // The call registers a function again between two namespaces that have a NULL function.
  ghost predicate ReplacesNull(m: Names, call: Call) {
    call.Functional? && HasNull(m, call.fromNs, call.toNs)
  }

  ghost predicate NeverReplacesNull(m: Names, calls: seq<Call>)
    decreases |calls|
  {
    calls != [] ==> !ReplacesNull(m, calls[0]) && NeverReplacesNull(SpecApply(m, calls[0]).0, calls[1..])
  }

  /** One call on a sound registry answers as the maps do. It leaves the registry dangling if and
      only if it replaces a NULL translation function: only then does an insertion meet an equal
      key in its table. */
  lemma MeetsEqualKeyExactly(st: State, m: Names, call: Call)
    requires Refines(st, m)
    ensures Apply(st, call).1 == SpecApply(m, call).1
    ensures Apply(st, call).0.dangling <==> ReplacesNull(m, call)
    ensures !ReplacesNull(m, call) ==> Refines(Apply(st, call).0, SpecApply(m, call).0)
  {
    match call
    case Get(fromNs, fromName, toNs) => GetAgrees(st, m, fromNs, fromName, toNs);
    case Direct(fromNs, fromName, toNs, toName) => AddDirectAgrees(st, m, fromNs, fromName, toNs, toName);
    case Functional(fromNs, toNs, f) => AddFunctionalAgrees(st, m, fromNs, toNs, f);
    case Elsewhere(s) =>
      InternExtends(st.quarks, s);
      InterningKeeps(st, Intern(st.quarks, s), m);
  }

  lemma {:induction false} StaysDangling(st: State, calls: seq<Call>)
    requires st.dangling
    ensures Run(st, calls).0.dangling
    decreases |calls|
  {
    if calls != [] {
      StaysDangling(Apply(st, calls[0]).0, calls[1..]);
    }
  }

  /** Over every sequence of calls: the registry stays sound if and only if no call replaces a
      NULL translation function, and then it answers exactly as the maps do. */
  lemma {:induction false} RunAgrees(st: State, m: Names, calls: seq<Call>)
    requires Refines(st, m)
    ensures Run(st, calls).0.dangling <==> !NeverReplacesNull(m, calls)
    ensures NeverReplacesNull(m, calls) ==>
              Refines(Run(st, calls).0, SpecRun(m, calls).0) && Run(st, calls).1 == SpecRun(m, calls).1
    decreases |calls|
  {
    if calls != [] {
      MeetsEqualKeyExactly(st, m, calls[0]);
      if ReplacesNull(m, calls[0]) {
        StaysDangling(Apply(st, calls[0]).0, calls[1..]);
      } else {
        RunAgrees(Apply(st, calls[0]).0, SpecApply(m, calls[0]).0, calls[1..]);
      }
    }
  }

  lemma NewRegistryAgrees(quarks: Quarks, calls: seq<Call>)
    requires Interning(quarks)
    ensures Run(NewState(quarks), calls).0.dangling <==> !NeverReplacesNull(NO_NAMES, calls)
    ensures NeverReplacesNull(NO_NAMES, calls) ==> Run(NewState(quarks), calls).1 == SpecRun(NO_NAMES, calls).1
  {
    NewRefines(quarks);
    RunAgrees(NewState(quarks), NO_NAMES, calls);
  }

  ghost predicate NoNull(m: Names) {
    forall k :: k in m.functional ==> m.functional[k].Some?
  }

  predicate GivesFunction(call: Call) {
    call.Functional? ==> call.f.Some?
  }

  /** Where every registration gives a translation function, no call replaces a NULL one, so no
      insertion meets an equal key. */
  lemma {:induction false} InsertionsAreFresh(st: State, m: Names, calls: seq<Call>)
    requires Refines(st, m) && NoNull(m)
    requires forall i :: 0 <= i < |calls| ==> GivesFunction(calls[i])
    ensures NeverReplacesNull(m, calls) && !Run(st, calls).0.dangling
    decreases |calls|
  {
    NeverNull(m, calls);
    RunAgrees(st, m, calls);
  }

  lemma {:induction false} NeverNull(m: Names, calls: seq<Call>)
    requires NoNull(m) && forall i :: 0 <= i < |calls| ==> GivesFunction(calls[i])
    ensures NeverReplacesNull(m, calls)
    decreases |calls|
  {
    if calls != [] {
      assert GivesFunction(calls[0]);
      NeverNull(SpecApply(m, calls[0]).0, calls[1..]);
    }
  }

  /** The same pair registered twice with a NULL function: both calls are accepted, and the
      second leaves the registry dangling. */
  lemma NullTwice(quarks: Quarks, a: string, b: string)
    requires Interning(quarks)
    ensures var call := Functional(Some(a), Some(b), None);
            && Run(NewState(quarks), [call, call]).0.dangling
            && Run(NewState(quarks), [call, call]).1 == [Code(0), Code(0)]
  {
    var call := Functional(Some(a), Some(b), None);
    NewRefines(quarks);
    var st1, m1 := Apply(NewState(quarks), call).0, SpecApply(NO_NAMES, call).0;
    MeetsEqualKeyExactly(NewState(quarks), NO_NAMES, call);
    MeetsEqualKeyExactly(st1, m1, call);
    RunTwo(NewState(quarks), call, call);
  }

  lemma RunTwo(st: State, first: Call, second: Call)
    ensures var (st1, answer1) := Apply(st, first);
            var (st2, answer2) := Apply(st1, second);
            Run(st, [first, second]) == (st2, [answer1, answer2])
  {
    var st1 := Apply(st, first).0;
    var st2 := Apply(st1, second).0;
    var none: seq<Call> := [];
    assert [first, second][1..] == [second] && [second][1..] == none;
    assert Run(st2, none) == (st2, []);
    var answer2 := Apply(st1, second).1;
    assert [answer2] + [] == [answer2];
    assert Run(st1, [second]) == (st2, [answer2]);
    assert [Apply(st, first).1] + [answer2] == [Apply(st, first).1, answer2];
  }

  /* ----- what an accepted mapping is worth ----- */

  /** An accepted direct mapping is what the next lookup returns. */
  lemma AcceptedIsReturned(st: State, m: Names, fromNs: Option<string>, fromName: Option<string>, toNs: Option<string>,
                           toName: Option<string>)
    requires Refines(st, m)
    ensures var (st', rc) := AddDirect(st, fromNs, fromName, toNs, toName);
            rc == 0 ==> toName.Some? && GetMapping(st', fromNs, fromName, toNs) == toName
  {
    AddDirectAgrees(st, m, fromNs, fromName, toNs, toName);
    GetAgrees(AddDirect(st, fromNs, fromName, toNs, toName).0, SpecAddDirect(m, fromNs, fromName, toNs, toName).0,
              fromNs, fromName, toNs);
  }

  predicate RegistersFunction(call: Call, fromNs: Option<string>, toNs: Option<string>) {
    call.Functional? && call.fromNs == fromNs && call.toNs == toNs
  }

  /** A name that a lookup returns is returned as long as the registry is sound and no translation
      function is registered between the two namespaces. */
  lemma {:induction false} AnswersLast(st: State, m: Names, calls: seq<Call>, fromNs: Option<string>,
                                       fromName: Option<string>, toNs: Option<string>)
    requires Refines(st, m) && NeverReplacesNull(m, calls) && GetMapping(st, fromNs, fromName, toNs).Some?
    requires forall i :: 0 <= i < |calls| ==> !RegistersFunction(calls[i], fromNs, toNs)
    ensures GetMapping(Run(st, calls).0, fromNs, fromName, toNs) == GetMapping(st, fromNs, fromName, toNs)
    decreases |calls|
  {
    if calls != [] {
      var st1, m1 := Apply(st, calls[0]).0, SpecApply(m, calls[0]).0;
      MeetsEqualKeyExactly(st, m, calls[0]);
      GetAgrees(st, m, fromNs, fromName, toNs);
      GetAgrees(st1, m1, fromNs, fromName, toNs);
      SpecAnswerKept(m, calls[0], fromNs, fromName, toNs);
      AnswersLast(st1, m1, calls[1..], fromNs, fromName, toNs);
    }
  }

  lemma SpecAnswerKept(m: Names, call: Call, fromNs: Option<string>, fromName: Option<string>, toNs: Option<string>)
    requires SpecGet(m, fromNs, fromName, toNs).Some? && !RegistersFunction(call, fromNs, toNs)
    ensures SpecGet(SpecApply(m, call).0, fromNs, fromName, toNs) == SpecGet(m, fromNs, fromName, toNs)
  {
  }

  /* ----- the objects ----- */

  /** The program's table of interned strings. */
  class QuarkTable {
    var strings: Quarks

    constructor ()
      ensures strings == []
    {
      strings := [];
    }

    method TryQuark(s: Option<string>) returns (q: nat)
      ensures q == TryString(strings, s)
    {
      q := TryString(strings, s);
    }

    method FromString(s: string) returns (q: nat)
      modifies this
      ensures strings == Intern(old(strings), s) && q == QuarkOf(strings, s)
    {
      if s !in strings {
        strings := strings + [s];
      }
      q := QuarkOf(strings, s);
    }
  }

  /** The registry object, with the maps over strings that it stands for. */
  class LassoRegistry {
    const quarks: QuarkTable
    var direct: DirectTable
    var functional: FunctionalTable
    ghost var dangling: bool
    ghost var names: Names

    constructor (quarks: QuarkTable)
      requires Interning(quarks.strings)
      ensures this.quarks == quarks && View() == NewState(quarks.strings)
      ensures Valid() && names == NO_NAMES
    {
      this.quarks := quarks;
      direct, functional, dangling, names := Empty(DirectHash), Empty(FunctionalHash), false, NO_NAMES;
      new;
      NewRefines(quarks.strings);
    }

    ghost function View(): State
      reads this, quarks
    {
      State(quarks.strings, direct, functional, dangling)
    }

    ghost predicate Valid()
      reads this, quarks
    {
      Refines(View(), names)
    }

    method GetMappingOf(fromNs: Option<string>, fromName: Option<string>,
                        toNs: Option<string>) returns (r: Option<string>)
      requires Valid()
      ensures r == SpecGet(names, fromNs, fromName, toNs)
    {
      GetAgrees(View(), names, fromNs, fromName, toNs);
      r := LookUp(fromNs, fromName, toNs);
    }

    method LookUp(fromNs: Option<string>, fromName: Option<string>, toNs: Option<string>) returns (r: Option<string>)
      ensures r == GetMapping(View(), fromNs, fromName, toNs)
    {
      var from := quarks.TryQuark(fromNs);
      var to := quarks.TryQuark(toNs);
      if from == 0 || to == 0 {
        return None;
      }
      r := GetFunctionalMapping(from, fromName, to);
      if r.None? {
        r := GetDirectMapping(from, fromName, to);
      }
    }

    method GetFunctionalMapping(from: nat, fromName: Option<string>, to: nat) returns (r: Option<string>)
      requires 0 < from <= |quarks.strings| && 0 < to <= |quarks.strings|
      ensures r == GetFunctional(View(), from, fromName, to)
    {
      var f := GetTranslation(functional, from, to);
      if f.Some? {
        return f.value(quarks.strings[from - 1], fromName, quarks.strings[to - 1]);
      }
      return None;
    }

    method GetDirectMapping(from: nat, fromName: Option<string>, to: nat) returns (r: Option<string>)
      ensures r == GetDirect(View(), from, fromName, to)
    {
      var name := quarks.TryQuark(fromName);
      if name == 0 {
        return None;
      }
      var found := Lookup(direct, DirectKey(from, name, to));
      if found.Some? {
        return ToString(quarks.strings, found.value);
      }
      return None;
    }

    method AddDirectMapping(fromNs: Option<string>, fromName: Option<string>, toNs: Option<string>,
                            toName: Option<string>)
      returns (rc: int)
      requires Valid()
      modifies this, quarks
      ensures Valid() && (names, rc) == SpecAddDirect(old(names), fromNs, fromName, toNs, toName)
      ensures (View(), rc) == AddDirect(old(View()), fromNs, fromName, toNs, toName)
    {
      AddDirectAgrees(View(), names, fromNs, fromName, toNs, toName);
      names := SpecAddDirect(names, fromNs, fromName, toNs, toName).0;
      if fromNs.None? || fromName.None? || toNs.None? || toName.None? {
        return PARAM_INVALID_VALUE;
      }
      var known := LookUp(fromNs, fromName, toNs);
      if known.Some? {
        return REGISTRY_KEY_EXISTS;
      }
      InternAndInsert(fromNs.value, fromName.value, toNs.value, toName.value);
      return 0;
    }

    method InternAndInsert(fromNs: string, fromName: string, toNs: string, toName: string)
      requires Interning(quarks.strings)
      modifies `direct, `dangling, quarks
      ensures View() == InsertDirect(old(View()), fromNs, fromName, toNs, toName)
    {
      ghost var q0 := quarks.strings;
      var a := quarks.FromString(fromNs);
      ghost var q1 := quarks.strings;
      var b := quarks.FromString(fromName);
      ghost var q2 := quarks.strings;
      var c := quarks.FromString(toNs);
      ghost var q3 := quarks.strings;
      var d := quarks.FromString(toName);
      QuarksStay(q0, q1, q2, q3, fromNs, fromName, toNs, toName);
      if Lookup(direct, DirectKey(a, b, c)).Some? {
        dangling := true;
      } else {
        direct := Insert(direct, DirectKey(a, b, c), d);
      }
    }

    method AddFunctionalMapping(fromNs: Option<string>, toNs: Option<string>, f: Option<Translation>) returns (rc: int)
      requires Valid()
      modifies this, quarks
      ensures (names, rc) == SpecAddFunctional(old(names), fromNs, toNs, f)
      ensures if HasNull(old(names), fromNs, toNs) then dangling else Valid()
      ensures (View(), rc) == AddFunctional(old(View()), fromNs, toNs, f)
    {
      ghost var before, m := View(), names;
      AddFunctionalAgrees(before, m, fromNs, toNs, f);
      rc := Register(fromNs, toNs, f);
      names := SpecAddFunctional(m, fromNs, toNs, f).0;
      assert View() == AddFunctional(before, fromNs, toNs, f).0;
    }

    method Register(fromNs: Option<string>, toNs: Option<string>, f: Option<Translation>) returns (rc: int)
      requires Interning(quarks.strings)
      modifies `functional, `dangling, quarks
      ensures (View(), rc) == AddFunctional(old(View()), fromNs, toNs, f)
    {
      if fromNs.None? || toNs.None? {
        return PARAM_INVALID_VALUE;
      }
      var from := quarks.FromString(fromNs.value);
      ghost var q1 := quarks.strings;
      var to := quarks.FromString(toNs.value);
      InternExtends(q1, toNs.value);
      TryExtends(q1, quarks.strings, fromNs.value);
      if GetTranslation(functional, from, to).Some? {
        return REGISTRY_KEY_EXISTS;
      }
      if Lookup(functional, FunctionalKey(from, to)).Some? {
        dangling := true;
      } else {
        functional := Insert(functional, FunctionalKey(from, to), f);
      }
      return 0;
    }
  }

  // A quark taken early is still the quark of its string after later internings.
  lemma QuarksStay(q0: Quarks, q1: Quarks, q2: Quarks, q3: Quarks, a: string, b: string, c: string, d: string)
    requires Interning(q0) && q1 == Intern(q0, a) && q2 == Intern(q1, b) && q3 == Intern(q2, c)
    ensures var q4 := Intern(q3, d);
            Try(q1, a) == Try(q4, a) && Try(q2, b) == Try(q4, b) && Try(q3, c) == Try(q4, c)
  {
    var q4 := Intern(q3, d);
    QuarkStays(q3, c, d);
    QuarkStays(q2, b, c);
    QuarkStays(q3, b, d);
    QuarkStays(q1, a, b);
    QuarkStays(q2, a, c);
    QuarkStays(q3, a, d);
  }

  lemma QuarkStays(quarks: Quarks, s: string, later: string)
    requires Interning(quarks) && s in quarks
    ensures Try(Intern(quarks, later), s) == Try(quarks, s) && s in Intern(quarks, later)
    ensures Interning(Intern(quarks, later))
  {
    InternExtends(quarks, later);
    TryExtends(quarks, Intern(quarks, later), s);
  }
}
