/** Go's implicit interface satisfaction: which types get edges to which
    interfaces, found through the rarest method's list. */
module GoIface {
  import opened Types
  import opened Sorting
  import opened GoMethodSets

  const MAX_IMPLEMENTORS: nat := 50

  // --------------------------------------------------------- implementors

  /** A type or interface with its collected methods. */
  type Collected = (TypeKey, seq<MethodKey>)

  /** Every required method is matched by some method of the type. */
  predicate Satisfies(needs: seq<MethodKey>, haves: seq<MethodKey>) {
    forall need :: need in needs ==> exists have :: have in haves && Compatible(need, have)
  }

  /** Candidates live in the interface's package or in one that imports it. */
  predicate Near(importers: map<Text, set<Text>>, idir: Text, cdir: Text) {
    cdir == idir || (idir in importers && cdir in importers[idir])
  }

  predicate Implements(iface: Collected, c: Collected, importers: map<Text, set<Text>>) {
    Near(importers, iface.0.0, c.0.0) && Satisfies(iface.1, c.1)
  }

  /** Testing every type: the near types that cover the method set. */
  function AllImplementors(
    iface: Collected, concrete: seq<Collected>, n: nat, importers: map<Text, set<Text>>): (r: seq<nat>)
    requires n <= |concrete|
    ensures Ascending(r) && forall i: nat :: i in r <==> i < n && Implements(iface, concrete[i], importers)
  {
    if n == 0 then [] else
    var r := AllImplementors(iface, concrete, n - 1, importers);
    assert forall k :: 0 <= k < |r| ==> r[k] in r;
    r + (if Implements(iface, concrete[n - 1], importers) then [n - 1] else [])
  }

  /** An interface that too many types satisfy gets no edges. */
  function Implementors(iface: Collected, concrete: seq<Collected>, importers: map<Text, set<Text>>): seq<nat> {
    var all := AllImplementors(iface, concrete, |concrete|, importers);
    if 1 <= |all| <= MAX_IMPLEMENTORS then all else []
  }

  predicate HasMethod(c: Collected, name: Text) { exists m :: m in c.1 && m.name == name }

  /** Types with a method of some name, ascending. */
  function Posting(concrete: seq<Collected>, n: nat, name: Text): (r: seq<nat>)
    requires n <= |concrete|
    ensures Ascending(r) && forall i: nat :: i in r <==> i < n && HasMethod(concrete[i], name)
  {
    if n == 0 then [] else
    var r := Posting(concrete, n - 1, name);
    assert forall k :: 0 <= k < |r| ==> r[k] in r;
    r + (if HasMethod(concrete[n - 1], name) then [n - 1] else [])
  }

  ghost predicate PostingLists(concrete: seq<Collected>, n: nat, byMethod: map<Text, seq<nat>>)
    requires n <= |concrete|
  {
    forall m :: (m in byMethod <==> Posting(concrete, n, m) != [])
        && (m in byMethod ==> byMethod[m] == Posting(concrete, n, m))
  }

  method BuildPostings(concrete: seq<Collected>) returns (byMethod: map<Text, seq<nat>>)
    ensures PostingLists(concrete, |concrete|, byMethod)
  {
    byMethod := map[];
    for i := 0 to |concrete|
      invariant PostingLists(concrete, i, byMethod)
    {
      byMethod := PostOne(concrete, i, byMethod);
    }
  }

  method PostOne(
    concrete: seq<Collected>, i: nat, byMethod0: map<Text, seq<nat>>) returns (byMethod: map<Text, seq<nat>>)
    requires i < |concrete| && PostingLists(concrete, i, byMethod0)
    ensures PostingLists(concrete, i + 1, byMethod)
  {
    byMethod := byMethod0;
    var names := set m | m in concrete[i].1 :: m.name;
    var todo := names;
    while todo != {}
      invariant todo <= names && PostedTo(byMethod0, byMethod, names - todo, i)
      decreases todo
    {
      var m :| m in todo;
      PostedOne(byMethod0, byMethod, names, todo, m, i);
      todo := todo - {m};
      byMethod := byMethod[m := Listed(byMethod, m) + [i]];
    }
    assert names - todo == names;
    PostStep(concrete, i, byMethod0, byMethod, names);
  }

  function Listed(byMethod: map<Text, seq<nat>>, m: Text): seq<nat> { if m in byMethod then byMethod[m] else [] }

  /** The lists of these methods are one longer, the others as they were. */
  ghost predicate PostedTo(was: map<Text, seq<nat>>, now: map<Text, seq<nat>>, done: set<Text>, i: nat) {
    && (forall m :: m in done ==> m in now && now[m] == Listed(was, m) + [i])
    && (forall m :: m !in done ==> (m in now <==> m in was) && (m in now ==> now[m] == was[m]))
  }

  lemma PostedOne(
    was: map<Text, seq<nat>>, now: map<Text, seq<nat>>, names: set<Text>, todo: set<Text>, m: Text, i: nat)
    requires todo <= names && m in todo && PostedTo(was, now, names - todo, i)
    ensures PostedTo(was, now[m := Listed(now, m) + [i]], names - (todo - {m}), i)
  {}

  lemma PostStep(concrete: seq<Collected>, i: nat, was: map<Text, seq<nat>>, now: map<Text, seq<nat>>, names: set<Text>)
    requires i < |concrete| && PostingLists(concrete, i, was) && names == set m | m in concrete[i].1 :: m.name
    requires PostedTo(was, now, names, i)
    ensures PostingLists(concrete, i + 1, now)
  {
    forall m ensures HasMethod(concrete[i], m) <==> m in names {
      if m in names { var k :| k in concrete[i].1 && k.name == m; }
    }
    assert forall m :: Listed(was, m) == Posting(concrete, i, m);
  }

  /** The method name of an interface carried by the fewest types. */
  method Rarest(needs: seq<MethodKey>, byMethod: map<Text, seq<nat>>) returns (name: Text)
    requires needs != []
    ensures exists m :: m in needs && m.name == name
    ensures forall m :: m in needs ==> Count(byMethod, name) <= Count(byMethod, m.name)
  {
    name := needs[0].name;
    assert needs[0] in needs;
    for i := 1 to |needs|
      invariant exists m :: m in needs && m.name == name
      invariant forall m :: m in needs[..i] ==> Count(byMethod, name) <= Count(byMethod, m.name)
    {
      assert needs[..i + 1] == needs[..i] + [needs[i]];
      assert needs[i] in needs;
      if Count(byMethod, needs[i].name) < Count(byMethod, name) { name := needs[i].name; }
    }
    assert needs[..|needs|] == needs;
  }

  function Count(byMethod: map<Text, seq<nat>>, name: Text): nat { if name in byMethod then |byMethod[name]| else 0 }

  /** Whoever implements an interface is on the list of each of its methods. */
  lemma ImplementorsArePosted(
    iface: Collected, concrete: seq<Collected>, importers: map<Text, set<Text>>, name: Text, i: nat)
    requires i < |concrete| && Implements(iface, concrete[i], importers)
    requires exists m :: m in iface.1 && m.name == name
    ensures i in Posting(concrete, |concrete|, name)
  {
    var need :| need in iface.1 && need.name == name;
    var have :| have in concrete[i].1 && Compatible(need, have);
    assert HasMethod(concrete[i], name);
  }

  /** Looking only at the rarest method's list, and stopping past the cap,
      loses nothing against testing every type. */
  method FindImplementors(
    iface: Collected, concrete: seq<Collected>, byMethod: map<Text, seq<nat>>, importers: map<Text, set<Text>>)
    returns (found: seq<nat>)
    requires iface.1 != [] && PostingLists(concrete, |concrete|, byMethod)
    ensures found == Implementors(iface, concrete, importers)
  {
    var name := Rarest(iface.1, byMethod);
    ghost var all := AllImplementors(iface, concrete, |concrete|, importers);
    var cands := if name in byMethod then byMethod[name] else [];
    CandidatesHoldAll(iface, concrete, importers, name, all);
    assert cands == Posting(concrete, |concrete|, name);
    found := Filter(iface, concrete, importers, cands, all);
    FilterSettles(found, all);
    ImplementorsAre(iface, concrete, importers, all, found);
    if |found| > MAX_IMPLEMENTORS { found := []; }
  }

  lemma {:induction false} ImplementorsAre(
    iface: Collected, concrete: seq<Collected>, importers: map<Text, set<Text>>, all: seq<nat>, found: seq<nat>)
    requires all == AllImplementors(iface, concrete, |concrete|, importers)
    requires |found| > MAX_IMPLEMENTORS ==> |all| > MAX_IMPLEMENTORS
    requires |found| <= MAX_IMPLEMENTORS ==> found == all
    ensures Implementors(iface, concrete, importers) == if |found| > MAX_IMPLEMENTORS then [] else found
  {}

  lemma CandidatesHoldAll(
    iface: Collected, concrete: seq<Collected>, importers: map<Text, set<Text>>, name: Text, all: seq<nat>)
    requires exists m :: m in iface.1 && m.name == name
    requires all == AllImplementors(iface, concrete, |concrete|, importers)
    ensures forall i :: i in all ==> i in Posting(concrete, |concrete|, name)
  {
    forall i | i in all ensures i in Posting(concrete, |concrete|, name) {
      ImplementorsArePosted(iface, concrete, importers, name, i);
    }
  }

  /** A filtered list past the cap shows that there are too many; within the
      cap it is the whole list. */
  lemma FilterSettles(found: seq<nat>, all: seq<nat>)
    requires Ascending(found) && Ascending(all) && forall i :: i in found ==> i in all
    requires |found| <= MAX_IMPLEMENTORS ==> forall i :: i in all ==> i in found
    ensures |found| > MAX_IMPLEMENTORS ==> |all| > MAX_IMPLEMENTORS
    ensures |found| <= MAX_IMPLEMENTORS ==> found == all
  {
    if |found| > MAX_IMPLEMENTORS { AscendingSubset(found, all); } else { AscendingUnique(found, all); }
  }

  /** Test candidates in order, giving up one past the cap. */
  method Filter(
    iface: Collected, concrete: seq<Collected>, importers: map<Text, set<Text>>, cands: seq<nat>, ghost all: seq<nat>)
    returns (found: seq<nat>)
    requires all == AllImplementors(iface, concrete, |concrete|, importers)
    requires Ascending(cands) && forall i :: i in cands ==> i < |concrete|
    ensures Ascending(found) && forall i :: i in found ==> i in all
    ensures |found| <= MAX_IMPLEMENTORS ==> forall i :: i in cands && i in all ==> i in found
  {
    found := [];
    for k := 0 to |cands|
      invariant Ascending(found) && |found| <= MAX_IMPLEMENTORS
      invariant forall i :: i in found <==> i in cands[..k] && i in all
    {
      var ci := cands[k];
      assert cands[..k + 1] == cands[..k] + [ci];
      assert ci in cands;
      assert forall j :: 0 <= j < |found| ==> found[j] in found;
      if Implements(iface, concrete[ci], importers) {
        found := found + [ci];
        if |found| > MAX_IMPLEMENTORS { return; }
      }
    }
    assert cands[..|cands|] == cands;
  }

  lemma AscendingSubset(a: seq<nat>, b: seq<nat>)
    requires Ascending(a) && Ascending(b) && forall x :: x in a ==> x in b
    ensures |a| <= |b|
    decreases |b|
  {
    if a != [] {
      assert a[0] in a;
      forall x | x in a[1..] ensures x in b[1..] {
        TailOf(a, x);
        TailOf(b, x);
        var k :| 0 <= k < |b| && b[k] == a[0];
      }
      AscendingSubset(a[1..], b[1..]);
    }
  }

  // ---------------------------------------------------------------- edges

  ghost predicate ImportsDir(dirOf: map<nat, Text>, e: CodeEdge, from: Text, to: Text) {
    e.kind == Import && e.from in dirOf && e.to in dirOf && dirOf[e.from] == from && dirOf[e.to] == to
  }

  predicate Lists(importers: map<Text, set<Text>>, to: Text, from: Text) { to in importers && from in importers[to] }

  /** For each package, the packages with a file importing one of its files. */
  ghost predicate ImportersOf(dirOf: map<nat, Text>, edges: seq<CodeEdge>, importers: map<Text, set<Text>>) {
    forall to, from :: Lists(importers, to, from) <==> exists e :: e in edges && ImportsDir(dirOf, e, from, to)
  }

  function AddImporter(importers: map<Text, set<Text>>, dirOf: map<nat, Text>, e: CodeEdge): map<Text, set<Text>> {
    if e.kind == Import && e.from in dirOf && e.to in dirOf then
      var to := dirOf[e.to];
      importers[to := (if to in importers then importers[to] else {}) + {dirOf[e.from]}]
    else importers
  }

  method CollectImporters(dirOf: map<nat, Text>, edges: seq<CodeEdge>) returns (importers: map<Text, set<Text>>)
    ensures ImportersOf(dirOf, edges, importers)
  {
    importers := map[];
    for i := 0 to |edges|
      invariant ImportersOf(dirOf, edges[..i], importers)
    {
      assert edges[..i + 1] == edges[..i] + [edges[i]];
      ImportersGrow(dirOf, edges[..i], edges[i], importers);
      importers := AddImporter(importers, dirOf, edges[i]);
    }
    assert edges[..|edges|] == edges;
  }

  lemma ImportersGrow(dirOf: map<nat, Text>, edges: seq<CodeEdge>, e: CodeEdge, importers: map<Text, set<Text>>)
    requires ImportersOf(dirOf, edges, importers)
    ensures ImportersOf(dirOf, edges + [e], AddImporter(importers, dirOf, e))
  {
    var now := AddImporter(importers, dirOf, e);
    forall to, from
      ensures Lists(now, to, from) <==> exists x :: x in edges + [e] && ImportsDir(dirOf, x, from, to)
    {
      AnyOfMore(dirOf, edges, e, from, to);
      assert Lists(now, to, from) <==> Lists(importers, to, from) || ImportsDir(dirOf, e, from, to);
    }
  }

  lemma AnyOfMore(dirOf: map<nat, Text>, edges: seq<CodeEdge>, e: CodeEdge, from: Text, to: Text)
    ensures (exists x :: x in edges + [e] && ImportsDir(dirOf, x, from, to)) <==>
      (exists x :: x in edges && ImportsDir(dirOf, x, from, to)) || ImportsDir(dirOf, e, from, to)
  {
    if x :| x in edges && ImportsDir(dirOf, x, from, to) { assert x in edges + [e]; }
    if ImportsDir(dirOf, e, from, to) { assert e in edges + [e]; }
    if x :| x in edges + [e] && ImportsDir(dirOf, x, from, to) { assert x in edges || x == e; }
  }

  function InheritEdge(from: nat, to: nat): CodeEdge { CodeEdge(from, to, Inherit, 1, Syntactic) }

  function EdgesInto(from: nat, tos: seq<nat>): seq<CodeEdge> {
    if tos == [] then [] else [InheritEdge(from, tos[0])] + EdgesInto(from, tos[1..])
  }

  /** From each declaration of a type to each declaration of an interface. */
  function EdgesBetween(froms: seq<nat>, tos: seq<nat>): seq<CodeEdge> {
    if froms == [] then [] else EdgesInto(froms[0], tos) + EdgesBetween(froms[1..], tos)
  }

  function SymbolsOf(types: Table, key: TypeKey): seq<nat> { if key in types then types[key].symbols else [] }

  function EdgesFor(types: Table, iface: TypeKey, concrete: seq<Collected>, found: seq<nat>, n: nat): seq<CodeEdge>
    requires n <= |found| && forall ci :: ci in found ==> ci < |concrete|
  {
    if n == 0 then [] else
    assert found[n - 1] in found;
    EdgesFor(types, iface, concrete, found, n - 1)
    + EdgesBetween(SymbolsOf(types, concrete[found[n - 1]].0), SymbolsOf(types, iface))
  }

  lemma ImplementorsInRange(iface: Collected, concrete: seq<Collected>, importers: map<Text, set<Text>>)
    ensures forall ci :: ci in Implementors(iface, concrete, importers) ==> ci < |concrete|
  {}

  /** The edges testing every type would give, interface by interface. */
  function EdgesOf(
    types: Table, i: Collected, concrete: seq<Collected>, importers: map<Text, set<Text>>): seq<CodeEdge> {
    var found := Implementors(i, concrete, importers);
    ImplementorsInRange(i, concrete, importers);
    EdgesFor(types, i.0, concrete, found, |found|)
  }

  function AllEdges(
    types: Table, interfaces: seq<Collected>, n: nat, concrete: seq<Collected>,
    importers: map<Text, set<Text>>): seq<CodeEdge>
    requires n <= |interfaces|
  {
    if n == 0 then [] else
    AllEdges(types, interfaces, n - 1, concrete, importers) + EdgesOf(types, interfaces[n - 1], concrete, importers)
  }

  method InterfaceEdges(
    types: Table, iface: Collected, concrete: seq<Collected>, byMethod: map<Text, seq<nat>>,
    importers: map<Text, set<Text>>)
    returns (edges: seq<CodeEdge>)
    requires iface.1 != [] && PostingLists(concrete, |concrete|, byMethod)
    ensures edges == EdgesOf(types, iface, concrete, importers)
  {
    var found := FindImplementors(iface, concrete, byMethod, importers);
    ImplementorsInRange(iface, concrete, importers);
    edges := EmitEdges(types, iface.0, concrete, found);
  }

  method EmitEdges(
    types: Table, iface: TypeKey, concrete: seq<Collected>, found: seq<nat>) returns (edges: seq<CodeEdge>)
    requires forall ci :: ci in found ==> ci < |concrete|
    ensures edges == EdgesFor(types, iface, concrete, found, |found|)
  {
    edges := [];
    for m := 0 to |found|
      invariant edges == EdgesFor(types, iface, concrete, found, m)
    {
      assert found[m] in found;
      edges := edges + EdgesBetween(SymbolsOf(types, concrete[found[m]].0), SymbolsOf(types, iface));
    }
  }

  /** Edges of all the given interfaces, each found through the shortest list. */
  method EdgesAmong(
    types: Table, interfaces: seq<Collected>, concrete: seq<Collected>, importers: map<Text, set<Text>>)
    returns (edges: seq<CodeEdge>)
    requires forall k :: 0 <= k < |interfaces| ==> interfaces[k].1 != []
    ensures edges == AllEdges(types, interfaces, |interfaces|, concrete, importers)
  {
    var byMethod := BuildPostings(concrete);
    edges := [];
    for k := 0 to |interfaces|
      invariant edges == AllEdges(types, interfaces, k, concrete, importers)
    {
      var more := InterfaceEdges(types, interfaces[k], concrete, byMethod, importers);
      edges := edges + more;
    }
  }

  // ------------------------------------------------------- declared types

  /** Interfaces take part if their method set is complete and not empty, other
      types if it is not empty. */
  predicate TakesPart(types: Table, key: TypeKey, iface: bool) {
    key in types && types[key].isInterface == iface && types[key].symbols != []
    && FullSet(types, key).methods != [] && (iface ==> FullSet(types, key).complete)
  }

  function CollectedOf(types: Table, key: TypeKey): Collected { (key, FullSet(types, key).methods) }

  /** The interfaces, or the other types, among the first `n` keys. */
  function Participants(types: Table, keys: seq<TypeKey>, n: nat, iface: bool): (r: seq<Collected>)
    requires n <= |keys|
    ensures forall c :: c in r <==> (c.0 in keys[..n] && TakesPart(types, c.0, iface) && c == CollectedOf(types, c.0))
  {
    if n == 0 then [] else
    assert keys[..n] == keys[..n - 1] + [keys[n - 1]];
    Participants(types, keys, n - 1, iface)
    + (if TakesPart(types, keys[n - 1], iface) then [CollectedOf(types, keys[n - 1])] else [])
  }

  method CollectSets(types: Table, keys: seq<TypeKey>) returns (interfaces: seq<Collected>, concrete: seq<Collected>)
    requires forall k :: k in keys ==> k in types
    ensures interfaces == Participants(types, keys, |keys|, true)
    ensures concrete == Participants(types, keys, |keys|, false)
  {
    interfaces, concrete := [], [];
    for i := 0 to |keys|
      invariant interfaces == Participants(types, keys, i, true)
      invariant concrete == Participants(types, keys, i, false)
    {
      var key := keys[i];
      assert key in keys;
      var e := types[key];
      if e.symbols != [] {
        var complete, seen, methods := MethodSet(types, key.0, key.1, 0, {key.1});
        if e.isInterface {
          if complete && methods != [] { interfaces := interfaces + [(key, methods)]; }
        } else if methods != [] {
          concrete := concrete + [(key, methods)];
        }
      }
    }
  }

  predicate KeyLe(a: TypeKey, b: TypeKey) {
    if a.0 == b.0 then TextLe(a.1, b.1) else TextLe(a.0, b.0)
  }

  lemma KeyOrder()
    ensures TotalPreorder(KeyLe)
  {
    TextOrder();
  }

  /** The declared types, each once, in order. */
  ghost predicate KeysOf(types: Table, keys: seq<TypeKey>) {
    Distinct(keys) && SortedBy(keys, KeyLe) && forall k :: k in keys <==> k in types
  }

  method SortedKeys(types: Table) returns (keys: seq<TypeKey>)
    ensures KeysOf(types, keys)
  {
    keys := [];
    var rest := types.Keys;
    while rest != {}
      invariant rest <= types.Keys && Distinct(keys)
      invariant forall k :: k in keys <==> k in types && k !in rest
      decreases rest
    {
      var k :| k in rest;
      assert forall i :: 0 <= i < |keys| ==> keys[i] in keys;
      keys, rest := keys + [k], rest - {k};
    }
    KeyOrder();
    SortCorrect(keys, KeyLe);
    SortMembers(keys, KeyLe);
    DistinctPermutation(keys, Sort(keys, KeyLe));
    keys := Sort(keys, KeyLe);
  }

  // ------------------------------------------------------ over the table

  /** One package imports the other, or they are the same. */
  ghost predicate Visible(dirOf: map<nat, Text>, imports: seq<CodeEdge>, idir: Text, cdir: Text) {
    cdir == idir || exists e :: e in imports && ImportsDir(dirOf, e, cdir, idir)
  }

  /** A method of that name, with the counts asked for where both are known. */
  predicate Answers(need: MethodKey, have: MethodKey) {
    && have.name == need.name
    && (have.params.Some? && need.params.Some? ==> have.params == need.params)
    && (have.results.Some? && need.results.Some? ==> have.results == need.results)
  }

  /** Type `ckey` has every method that interface `ikey` asks for, and can see
      it. */
  ghost predicate Covers(types: Table, dirOf: map<nat, Text>, imports: seq<CodeEdge>, ikey: TypeKey, ckey: TypeKey) {
    TakesPart(types, ikey, true) && TakesPart(types, ckey, false) && Visible(dirOf, imports, ikey.0, ckey.0)
    && forall need :: need in FullSet(types, ikey).methods ==>
         exists have :: have in FullSet(types, ckey).methods && Answers(need, have)
  }

  ghost function Covering(types: Table, dirOf: map<nat, Text>, imports: seq<CodeEdge>, ikey: TypeKey): set<TypeKey> {
    set ckey | ckey in types && Covers(types, dirOf, imports, ikey, ckey)
  }

  /** Interface and type are joined: it is covered, and by few enough types. */
  ghost predicate Joined(types: Table, dirOf: map<nat, Text>, imports: seq<CodeEdge>, ikey: TypeKey, ckey: TypeKey) {
    Covers(types, dirOf, imports, ikey, ckey) && |Covering(types, dirOf, imports, ikey)| <= 50
  }

  /** `e` goes from a declaration of a type to one of an interface it is joined
      to. */
  ghost predicate Expected(types: Table, dirOf: map<nat, Text>, imports: seq<CodeEdge>, e: CodeEdge) {
    exists ikey, ckey :: Joined(types, dirOf, imports, ikey, ckey) && Between(types, ikey, ckey, e)
  }

  predicate Between(types: Table, ikey: TypeKey, ckey: TypeKey, e: CodeEdge) {
    && ckey in types && ikey in types && e.from in types[ckey].symbols && e.to in types[ikey].symbols
    && e == CodeEdge(e.from, e.to, Inherit, 1, Syntactic)
  }

  lemma {:induction false} EdgesIntoMembers(from: nat, tos: seq<nat>, e: CodeEdge)
    ensures e in EdgesInto(from, tos) <==> e == InheritEdge(from, e.to) && e.to in tos
  {
    if tos != [] {
      assert tos == [tos[0]] + tos[1..];
      EdgesIntoMembers(from, tos[1..], e);
    }
  }

  lemma {:induction false} EdgesBetweenMembers(froms: seq<nat>, tos: seq<nat>, e: CodeEdge)
    ensures e in EdgesBetween(froms, tos) <==> e == InheritEdge(e.from, e.to) && e.from in froms && e.to in tos
  {
    if froms != [] {
      assert froms == [froms[0]] + froms[1..];
      EdgesIntoMembers(froms[0], tos, e);
      EdgesBetweenMembers(froms[1..], tos, e);
    }
  }

  predicate FoundEdge(types: Table, iface: TypeKey, concrete: seq<Collected>, ci: nat, e: CodeEdge) {
    ci < |concrete| && Between(types, iface, concrete[ci].0, e)
  }

  lemma EdgesForStep(types: Table, iface: TypeKey, concrete: seq<Collected>, found: seq<nat>, n: nat, e: CodeEdge)
    requires 0 < n <= |found| && forall ci :: ci in found ==> ci < |concrete|
    ensures e in EdgesFor(types, iface, concrete, found, n) <==>
      e in EdgesFor(types, iface, concrete, found, n - 1) || FoundEdge(types, iface, concrete, found[n - 1], e)
  {
    assert found[n - 1] in found;
    EdgesBetweenMembers(SymbolsOf(types, concrete[found[n - 1]].0), SymbolsOf(types, iface), e);
  }

  lemma {:induction false} EdgesForMembers(
    types: Table, iface: TypeKey, concrete: seq<Collected>, found: seq<nat>, n: nat, e: CodeEdge)
    requires n <= |found| && forall ci :: ci in found ==> ci < |concrete|
    ensures e in EdgesFor(types, iface, concrete, found, n) <==>
      exists ci :: ci in found[..n] && FoundEdge(types, iface, concrete, ci, e)
    decreases n
  {
    if n > 0 {
      assert found[..n] == found[..n - 1] + [found[n - 1]];
      EdgesForMembers(types, iface, concrete, found, n - 1, e);
      EdgesForStep(types, iface, concrete, found, n, e);
    }
  }

  predicate EdgeOf(types: Table, i: Collected, concrete: seq<Collected>, importers: map<Text, set<Text>>, e: CodeEdge) {
    e in EdgesOf(types, i, concrete, importers)
  }

  lemma {:induction false} AllEdgesMembers(
    types: Table, interfaces: seq<Collected>, n: nat, concrete: seq<Collected>, importers: map<Text, set<Text>>,
    e: CodeEdge)
    requires n <= |interfaces|
    ensures e in AllEdges(types, interfaces, n, concrete, importers) <==>
      exists i :: i in interfaces[..n] && EdgeOf(types, i, concrete, importers, e)
    decreases n
  {
    if n > 0 {
      assert interfaces[..n] == interfaces[..n - 1] + [interfaces[n - 1]];
      AllEdgesMembers(types, interfaces, n - 1, concrete, importers, e);
      AllEdgesStep(types, interfaces, n, concrete, importers, e);
    }
  }

  lemma AllEdgesStep(
    types: Table, interfaces: seq<Collected>, n: nat, concrete: seq<Collected>, importers: map<Text, set<Text>>,
    e: CodeEdge)
    requires 0 < n <= |interfaces|
    ensures e in AllEdges(types, interfaces, n, concrete, importers) <==>
      e in AllEdges(types, interfaces, n - 1, concrete, importers)
          || EdgeOf(types, interfaces[n - 1], concrete, importers, e)
  {}

  ghost predicate DistinctKeys(cs: seq<Collected>) { forall i, j :: 0 <= i < j < |cs| ==> cs[i].0 != cs[j].0 }

  ghost predicate InRange(r: seq<nat>, cs: seq<Collected>) { forall i :: i in r ==> i < |cs| }

  /** The keys at some positions. */
  ghost function KeysAt(r: seq<nat>, cs: seq<Collected>): set<TypeKey>
    requires InRange(r, cs)
  {
    set i | i in r :: cs[i].0
  }

  lemma {:induction false} CountByKey(r: seq<nat>, cs: seq<Collected>)
    requires Ascending(r) && InRange(r, cs) && DistinctKeys(cs)
    ensures |KeysAt(r, cs)| == |r|
  {
    if r != [] {
      var n := |r| - 1;
      var init, last := r[..n], r[n];
      assert last in r && forall i :: i in init ==> i in r;
      CountByKey(init, cs);
      LastKeyIsNew(r, cs);
      assert |KeysAt(init, cs) + {cs[last].0}| == |KeysAt(init, cs)| + 1;
    }
  }

  lemma LastKeyIsNew(r: seq<nat>, cs: seq<Collected>)
    requires r != [] && Ascending(r) && InRange(r, cs) && InRange(r[..|r| - 1], cs) && DistinctKeys(cs)
    ensures r[|r| - 1] < |cs| && cs[r[|r| - 1]].0 !in KeysAt(r[..|r| - 1], cs)
    ensures KeysAt(r, cs) == KeysAt(r[..|r| - 1], cs) + {cs[r[|r| - 1]].0}
  {
    var n := |r| - 1;
    assert r[n] in r && r == r[..n] + [r[n]];
    forall i | i in r[..n] ensures cs[i].0 != cs[r[n]].0 {
      var k :| 0 <= k < n && r[k] == i;
    }
  }

  lemma {:induction false} ParticipantsDistinct(types: Table, keys: seq<TypeKey>, n: nat, iface: bool)
    requires n <= |keys| && Distinct(keys)
    ensures DistinctKeys(Participants(types, keys, n, iface))
  {
    if n > 0 {
      ParticipantsDistinct(types, keys, n - 1, iface);
      var was := Participants(types, keys, n - 1, iface);
      forall i | 0 <= i < |was| ensures was[i].0 != keys[n - 1] {
        assert was[i] in was;
      }
    }
  }

  /** Testing participants by position is testing them by key. */
  lemma ImplementsIsCovers(
    types: Table, dirOf: map<nat, Text>, imports: seq<CodeEdge>, importers: map<Text, set<Text>>, ikey: TypeKey,
    ckey: TypeKey)
    requires ImportersOf(dirOf, imports, importers) && TakesPart(types, ikey, true) && TakesPart(types, ckey, false)
    ensures Implements(CollectedOf(types, ikey), CollectedOf(types, ckey), importers) <==>
      Covers(types, dirOf, imports, ikey, ckey)
  {
    assert Lists(importers, ikey.0, ckey.0) <==> exists e :: e in imports && ImportsDir(dirOf, e, ckey.0, ikey.0);
    assert forall need, have :: Compatible(need, have) <==> Answers(need, have);
  }

  lemma KeysAreCovering(
    types: Table, dirOf: map<nat, Text>, imports: seq<CodeEdge>, importers: map<Text, set<Text>>, keys: seq<TypeKey>,
    ikey: TypeKey, concrete: seq<Collected>, all: seq<nat>)
    requires KeysOf(types, keys) && ImportersOf(dirOf, imports, importers) && TakesPart(types, ikey, true)
    requires concrete == Participants(types, keys, |keys|, false)
    requires all == AllImplementors(CollectedOf(types, ikey), concrete, |concrete|, importers)
    ensures InRange(all, concrete) && KeysAt(all, concrete) == Covering(types, dirOf, imports, ikey)
  {
    assert keys[..|keys|] == keys;
    forall ckey ensures ckey in KeysAt(all, concrete) <==> ckey in Covering(types, dirOf, imports, ikey) {
      if ckey in KeysAt(all, concrete) {
        var i :| i in all && concrete[i].0 == ckey;
        assert concrete[i] in concrete;
        ImplementsIsCovers(types, dirOf, imports, importers, ikey, ckey);
      }
      if ckey in Covering(types, dirOf, imports, ikey) {
        ImplementsIsCovers(types, dirOf, imports, importers, ikey, ckey);
        assert CollectedOf(types, ckey) in concrete;
        var i: nat :| i < |concrete| && concrete[i] == CollectedOf(types, ckey);
        assert i in all;
      }
    }
  }

  /** The positions kept within the cap are those of the joined types. */
  lemma FoundIsJoined(
    types: Table, dirOf: map<nat, Text>, imports: seq<CodeEdge>, importers: map<Text, set<Text>>, keys: seq<TypeKey>,
    ikey: TypeKey, concrete: seq<Collected>, found: seq<nat>)
    requires KeysOf(types, keys) && ImportersOf(dirOf, imports, importers) && TakesPart(types, ikey, true)
    requires concrete == Participants(types, keys, |keys|, false)
    requires found == Implementors(CollectedOf(types, ikey), concrete, importers)
    ensures InRange(found, concrete)
    ensures forall ckey :: ckey in KeysAt(found, concrete) <==> Joined(types, dirOf, imports, ikey, ckey)
  {
    var all := AllImplementors(CollectedOf(types, ikey), concrete, |concrete|, importers);
    KeysAreCovering(types, dirOf, imports, importers, keys, ikey, concrete, all);
    ParticipantsDistinct(types, keys, |keys|, false);
    CountByKey(all, concrete);
    forall ckey ensures ckey in KeysAt(found, concrete) <==> Joined(types, dirOf, imports, ikey, ckey) {
      assert Covers(types, dirOf, imports, ikey, ckey) <==> ckey in KeysAt(all, concrete);
    }
  }

  /** The edges into one interface are those from the types it is joined to. */
  lemma EdgesOfInterface(
    types: Table, dirOf: map<nat, Text>, imports: seq<CodeEdge>, importers: map<Text, set<Text>>, keys: seq<TypeKey>,
    ikey: TypeKey, e: CodeEdge)
    requires KeysOf(types, keys) && ImportersOf(dirOf, imports, importers) && TakesPart(types, ikey, true)
    ensures EdgeOf(types, CollectedOf(types, ikey), Participants(types, keys, |keys|, false), importers, e) <==>
      exists ckey :: Joined(types, dirOf, imports, ikey, ckey) && Between(types, ikey, ckey, e)
  {
    var concrete := Participants(types, keys, |keys|, false);
    var found := Implementors(CollectedOf(types, ikey), concrete, importers);
    FoundIsJoined(types, dirOf, imports, importers, keys, ikey, concrete, found);
    EdgesForMembers(types, ikey, concrete, found, |found|, e);
    assert found[..|found|] == found;
    if ci :| ci in found && FoundEdge(types, ikey, concrete, ci, e) {
      assert concrete[ci].0 in KeysAt(found, concrete);
      assert Between(types, ikey, concrete[ci].0, e);
    }
    if ckey :| Joined(types, dirOf, imports, ikey, ckey) && Between(types, ikey, ckey, e) {
      assert ckey in KeysAt(found, concrete);
      var ci :| ci in found && concrete[ci].0 == ckey;
      assert FoundEdge(types, ikey, concrete, ci, e);
    }
  }

  lemma EdgesAreExpected(
    types: Table, dirOf: map<nat, Text>, imports: seq<CodeEdge>, importers: map<Text, set<Text>>, keys: seq<TypeKey>,
    e: CodeEdge)
    requires KeysOf(types, keys) && ImportersOf(dirOf, imports, importers)
    ensures var interfaces := Participants(types, keys, |keys|, true);
      e in AllEdges(types, interfaces, |interfaces|, Participants(types, keys, |keys|, false), importers) <==>
      Expected(types, dirOf, imports, e)
  {
    var interfaces := Participants(types, keys, |keys|, true);
    var concrete := Participants(types, keys, |keys|, false);
    AllEdgesMembers(types, interfaces, |interfaces|, concrete, importers, e);
    assert interfaces[..|interfaces|] == interfaces && keys[..|keys|] == keys;
    if i :| i in interfaces && EdgeOf(types, i, concrete, importers, e) {
      EdgesOfInterface(types, dirOf, imports, importers, keys, i.0, e);
    }
    if ikey, ckey :| Joined(types, dirOf, imports, ikey, ckey) && Between(types, ikey, ckey, e) {
      EdgesOfInterface(types, dirOf, imports, importers, keys, ikey, e);
      assert CollectedOf(types, ikey) in interfaces;
    }
  }

  /** All satisfaction edges of the declared types: from each declaration of a
      type to each of every interface that it and at most fifty types in sight
      cover, and no others. */
  method ImplementationEdges(types: Table, dirOf: map<nat, Text>, imports: seq<CodeEdge>) returns (edges: seq<CodeEdge>)
    ensures forall e :: e in edges <==> Expected(types, dirOf, imports, e)
  {
    var keys := SortedKeys(types);
    var interfaces, concrete := CollectSets(types, keys);
    var importers := CollectImporters(dirOf, imports);
    assert forall k :: 0 <= k < |interfaces| ==> interfaces[k] in interfaces;
    edges := EdgesAmong(types, interfaces, concrete, importers);
    forall e ensures e in edges <==> Expected(types, dirOf, imports, e) {
      EdgesAreExpected(types, dirOf, imports, importers, keys, e);
    }
  }
}
