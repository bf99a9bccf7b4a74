/** Method sets of Go types: the methods a type declares and those it gets
    from the types it embeds, looked for within one package. */
module GoMethodSets {
  import opened Types
  import opened Sorting

  /** Counts are `None` when the signature line does not show them. */
  datatype MethodKey = MethodKey(name: Text, params: Option<nat>, results: Option<nat>)

  predicate Agree(a: Option<nat>, b: Option<nat>) { a.None? || b.None? || a == b }

  predicate Compatible(need: MethodKey, have: MethodKey) {
    need.name == have.name && Agree(need.params, have.params) && Agree(need.results, have.results)
  }

  /** `embeds` holds `None` for a type embedded from another package. */
  datatype TypeEntry = TypeEntry(symbols: seq<nat>, isInterface: bool, methods: seq<MethodKey>,
      embeds: seq<Option<Text>>)

  /** Package directory and type name. */
  type TypeKey = (Text, Text)
  type Table = map<TypeKey, TypeEntry>

  const MAX_EMBED_DEPTH: nat := 4

  // ------------------------------------------------------ embedding walk

  ghost predicate Embeds(types: Table, dir: Text, a: Text, b: Text) {
    (dir, a) in types && Some(b) in types[(dir, a)].embeds
  }

  ghost predicate ReachesIn(types: Table, dir: Text, a: Text, b: Text, k: nat)
    decreases k
  {
    if k == 0 then a == b else exists m :: ReachesIn(types, dir, a, m, k - 1) && Embeds(types, dir, m, b)
  }

  /** `b` is reached from `a` by following same-package embeds. */
  ghost predicate Reaches(types: Table, dir: Text, a: Text, b: Text) { exists k: nat :: ReachesIn(types, dir, a, b, k) }

  lemma ReachesSelf(types: Table, dir: Text, a: Text)
    ensures Reaches(types, dir, a, a)
  {
    assert ReachesIn(types, dir, a, a, 0);
  }

  lemma {:induction false} ReachesFromEmbed(types: Table, dir: Text, a: Text, b: Text, c: Text, k: nat)
    requires Embeds(types, dir, a, b) && ReachesIn(types, dir, b, c, k)
    ensures ReachesIn(types, dir, a, c, k + 1)
    decreases k
  {
    if k == 0 {
      assert ReachesIn(types, dir, a, a, 0);
    } else {
      var m :| ReachesIn(types, dir, b, m, k - 1) && Embeds(types, dir, m, c);
      ReachesFromEmbed(types, dir, a, b, m, k - 1);
    }
  }

  /** A set of names that holds `a` and is closed under embedding holds all
      that `a` reaches. */
  lemma {:induction false} ClosedHoldsReachable(types: Table, dir: Text, a: Text, closed: set<Text>, b: Text, k: nat)
    requires a in closed && ReachesIn(types, dir, a, b, k)
    requires forall v, n :: v in closed && Embeds(types, dir, v, n) ==> n in closed
    ensures b in closed
    decreases k
  {
    if k > 0 {
      var m :| ReachesIn(types, dir, a, m, k - 1) && Embeds(types, dir, m, b);
      ClosedHoldsReachable(types, dir, a, closed, m, k - 1);
    }
  }

  /** Outcome of a walk: did it see everything, the names met, the methods. */
  datatype Walk = Walk(complete: bool, seen: set<Text>, methods: seq<MethodKey>)

  /** Depth-limited walk with a seen set shared by all branches. */
  function WalkFrom(types: Table, dir: Text, name: Text, depth: nat, seen: set<Text>): Walk
    requires depth <= MAX_EMBED_DEPTH
    decreases MAX_EMBED_DEPTH - depth, 1, 0
  {
    if (dir, name) !in types then Walk(false, seen, [])
    else WalkEmbeds(types, dir, name, |types[(dir, name)].embeds|, depth, seen)
  }

  /** The type's own methods and the walk of its first `n` embeds. */
  function WalkEmbeds(types: Table, dir: Text, name: Text, n: nat, depth: nat, seen: set<Text>): Walk
    requires depth <= MAX_EMBED_DEPTH && (dir, name) in types && n <= |types[(dir, name)].embeds|
    decreases MAX_EMBED_DEPTH - depth, 0, n
  {
    if n == 0 then Walk(true, seen, types[(dir, name)].methods) else
    var w := WalkEmbeds(types, dir, name, n - 1, depth, seen);
    match types[(dir, name)].embeds[n - 1]
    case None => w.(complete := false)
    case Some(emb) =>
      if depth >= MAX_EMBED_DEPTH then w.(complete := false)
      else if emb in w.seen then w
      else
        var v := WalkFrom(types, dir, emb, depth + 1, w.seen + {emb});
        Walk(w.complete && v.complete, v.seen, w.methods + v.methods)
  }

  /** The method set of a declared type. */
  function FullSet(types: Table, key: TypeKey): Walk { WalkFrom(types, key.0, key.1, 0, {key.1}) }

  method MethodSet(types: Table, dir: Text, name: Text, depth: nat, seen0: set<Text>)
    returns (complete: bool, seen: set<Text>, methods: seq<MethodKey>)
    requires depth <= MAX_EMBED_DEPTH
    ensures Walk(complete, seen, methods) == WalkFrom(types, dir, name, depth, seen0)
    decreases MAX_EMBED_DEPTH - depth
  {
    seen, methods := seen0, [];
    if (dir, name) !in types { return false, seen, methods; }
    var e := types[(dir, name)];
    methods, complete := e.methods, true;
    for i := 0 to |e.embeds|
      invariant Walk(complete, seen, methods) == WalkEmbeds(types, dir, name, i, depth, seen0)
    {
      var emb := e.embeds[i];
      if emb.Some? && depth < MAX_EMBED_DEPTH && emb.value !in seen {
        var c, s, more := MethodSet(types, dir, emb.value, depth + 1, seen + {emb.value});
        complete, seen, methods := complete && c, s, methods + more;
      } else if emb.Some? && depth < MAX_EMBED_DEPTH {
      } else {
        complete := false;
      }
    }
  }

  /** The methods declared by a set of types of one package. */
  ghost predicate MethodsOf(types: Table, dir: Text, names: set<Text>, out: seq<MethodKey>) {
    && (forall v :: v in names ==> (dir, v) in types)
    && (forall m :: m in out <==> exists v :: v in names && m in types[(dir, v)].methods)
  }

  /** What one walk from `name` achieved: it added the methods of `visited`, all
      reachable; if complete, nothing embedded by them was left unseen, and all
      names newly seen were visited. */
  ghost predicate Walked(
    types: Table, dir: Text, name: Text, seen0: set<Text>, seen: set<Text>, added: seq<MethodKey>, complete: bool,
    visited: set<Text>) {
    && seen0 <= seen
    && MethodsOf(types, dir, visited, added)
    && (forall v :: v in visited ==> Reaches(types, dir, name, v))
    && (complete ==> name in visited && seen <= seen0 + visited && AllSeen(types, dir, visited, seen))
  }

  ghost predicate AllSeen(types: Table, dir: Text, visited: set<Text>, seen: set<Text>) {
    forall v :: v in visited && (dir, v) in types ==>
      None !in types[(dir, v)].embeds && forall n :: Some(n) in types[(dir, v)].embeds ==> n in seen
  }

  /** `Walked` for the walk of the first `n` embeds, `name` itself not yet
      closed under embedding. */
  ghost predicate WalkedTo(types: Table, dir: Text, name: Text, seen0: set<Text>, n: nat, w: Walk, visited: set<Text>)
    requires (dir, name) in types && n <= |types[(dir, name)].embeds|
  {
    var embeds := types[(dir, name)].embeds;
    && seen0 <= w.seen && MethodsOf(types, dir, visited, w.methods) && name in visited
    && (forall v :: v in visited ==> Reaches(types, dir, name, v))
    && (w.complete ==> w.seen <= seen0 + visited && AllSeen(types, dir, visited - {name}, w.seen))
    && (w.complete ==> forall j :: 0 <= j < n ==> embeds[j].Some? && embeds[j].value in w.seen)
  }

  lemma {:induction false} WalkIsWalked(types: Table, dir: Text, name: Text, depth: nat, seen0: set<Text>)
    returns (visited: set<Text>)
    requires depth <= MAX_EMBED_DEPTH
    ensures var w := WalkFrom(types, dir, name, depth, seen0);
      Walked(types, dir, name, seen0, w.seen, w.methods, w.complete, visited)
    decreases MAX_EMBED_DEPTH - depth, 1, 0
  {
    visited := {};
    if (dir, name) in types { visited := EmbedsWalked(types, dir, name, |types[(dir, name)].embeds|, depth, seen0); }
  }

  lemma {:induction false} EmbedsWalked(types: Table, dir: Text, name: Text, n: nat, depth: nat, seen0: set<Text>)
    returns (visited: set<Text>)
    requires depth <= MAX_EMBED_DEPTH && (dir, name) in types && n <= |types[(dir, name)].embeds|
    ensures WalkedTo(types, dir, name, seen0, n, WalkEmbeds(types, dir, name, n, depth, seen0), visited)
    decreases MAX_EMBED_DEPTH - depth, 0, n
  {
    if n == 0 {
      visited := {name};
      ReachesSelf(types, dir, name);
    } else {
      visited := EmbedsWalked(types, dir, name, n - 1, depth, seen0);
      var w := WalkEmbeds(types, dir, name, n - 1, depth, seen0);
      var emb := types[(dir, name)].embeds[n - 1];
      if emb.Some? && depth < MAX_EMBED_DEPTH && emb.value !in w.seen {
        var more := WalkIsWalked(types, dir, emb.value, depth + 1, w.seen + {emb.value});
        var v := WalkFrom(types, dir, emb.value, depth + 1, w.seen + {emb.value});
        assert Embeds(types, dir, name, emb.value);
        JoinWalk(types, dir, name, emb.value, visited, w.methods, more, v.methods);
        visited := visited + more;
      }
    }
  }

  lemma JoinWalk(
    types: Table, dir: Text, name: Text, emb: Text, visited: set<Text>, added: seq<MethodKey>, v2: set<Text>,
    more: seq<MethodKey>)
    requires MethodsOf(types, dir, visited, added) && MethodsOf(types, dir, v2, more) && Embeds(types, dir, name, emb)
    requires forall v :: v in v2 ==> Reaches(types, dir, emb, v)
    ensures MethodsOf(types, dir, visited + v2, added + more)
    ensures forall v :: v in v2 ==> Reaches(types, dir, name, v)
  {
    forall v | v in v2 ensures Reaches(types, dir, name, v) {
      var k: nat :| ReachesIn(types, dir, emb, v, k);
      ReachesFromEmbed(types, dir, name, emb, v, k);
    }
    forall m ensures m in added + more <==> exists v :: v in visited + v2 && m in types[(dir, v)].methods {
      if m in added { var v :| v in visited && m in types[(dir, v)].methods; assert v in visited + v2; }
      if m in more { var v :| v in v2 && m in types[(dir, v)].methods; assert v in visited + v2; }
    }
  }

  /** A known method set: every reachable type is declared and has no foreign
      embed, and the methods are exactly theirs. */
  ghost predicate KnownSet(types: Table, key: TypeKey, methods: seq<MethodKey>) {
    && (forall v :: Reaches(types, key.0, key.1, v) ==> (key.0, v) in types && None !in types[(key.0, v)].embeds)
    && (forall v :: Reaches(types, key.0, key.1, v) ==> forall m :: m in types[(key.0, v)].methods ==> m in methods)
    && FromReachable(types, key, methods)
  }

  /** Nothing is collected from a type that is not reachable. */
  ghost predicate FromReachable(types: Table, key: TypeKey, methods: seq<MethodKey>) {
    forall m :: m in methods ==>
      exists v :: Reaches(types, key.0, key.1, v) && (key.0, v) in types && m in types[(key.0, v)].methods
  }

  /** A complete walk collects exactly the methods of every reachable type, all
      of them declared; an incomplete one only collects from reachable types. */
  lemma FullSetIsKnown(types: Table, key: TypeKey)
    ensures FromReachable(types, key, FullSet(types, key).methods)
    ensures FullSet(types, key).complete ==> KnownSet(types, key, FullSet(types, key).methods)
  {
    var visited := WalkIsWalked(types, key.0, key.1, 0, {key.1});
    if FullSet(types, key).complete {
      forall v | Reaches(types, key.0, key.1, v)
        ensures v in visited && (key.0, v) in types && None !in types[(key.0, v)].embeds
      {
        var k: nat :| ReachesIn(types, key.0, key.1, v, k);
        ClosedHoldsReachable(types, key.0, key.1, visited, v, k);
      }
    }
  }

  // -------------------------------------------- what any walk has collected

  /** The methods of every declared type among `names`, and no others. */
  ghost predicate CollectedFrom(types: Table, dir: Text, names: set<Text>, methods: seq<MethodKey>) {
    forall m :: m in methods <==> exists v :: v in names && (dir, v) in types && m in types[(dir, v)].methods
  }

  /** Complete or not, a walk collects the methods of the types it meets. */
  lemma {:induction false} WalkCollects(types: Table, dir: Text, name: Text, depth: nat, seen: set<Text>)
    requires depth <= MAX_EMBED_DEPTH
    ensures var w := WalkFrom(types, dir, name, depth, seen);
      seen <= w.seen && CollectedFrom(types, dir, w.seen - seen + {name}, w.methods)
    decreases MAX_EMBED_DEPTH - depth, 1, 0
  {
    if (dir, name) in types { EmbedsCollect(types, dir, name, |types[(dir, name)].embeds|, depth, seen); }
  }

  lemma {:induction false} EmbedsCollect(types: Table, dir: Text, name: Text, n: nat, depth: nat, seen: set<Text>)
    requires depth <= MAX_EMBED_DEPTH && (dir, name) in types && n <= |types[(dir, name)].embeds|
    ensures var w := WalkEmbeds(types, dir, name, n, depth, seen);
      seen <= w.seen && CollectedFrom(types, dir, w.seen - seen + {name}, w.methods)
    ensures depth < MAX_EMBED_DEPTH ==>
      forall j :: 0 <= j < n && types[(dir, name)].embeds[j].Some? ==>
        types[(dir, name)].embeds[j].value in WalkEmbeds(types, dir, name, n, depth, seen).seen
    decreases MAX_EMBED_DEPTH - depth, 0, n
  {
    if n > 0 {
      EmbedsCollect(types, dir, name, n - 1, depth, seen);
      var w := WalkEmbeds(types, dir, name, n - 1, depth, seen);
      var emb := types[(dir, name)].embeds[n - 1];
      if emb.Some? && depth < MAX_EMBED_DEPTH && emb.value !in w.seen {
        var v := WalkFrom(types, dir, emb.value, depth + 1, w.seen + {emb.value});
        WalkCollects(types, dir, emb.value, depth + 1, w.seen + {emb.value});
        JoinCollected(types, dir, w.seen - seen + {name}, w.methods,
                      v.seen - (w.seen + {emb.value}) + {emb.value}, v.methods);
        assert w.seen - seen + {name} + (v.seen - (w.seen + {emb.value}) + {emb.value}) == v.seen - seen + {name};
      }
    }
  }

  lemma JoinCollected(
    types: Table, dir: Text, a: set<Text>, some: seq<MethodKey>, b: set<Text>, more: seq<MethodKey>)
    requires CollectedFrom(types, dir, a, some) && CollectedFrom(types, dir, b, more)
    ensures CollectedFrom(types, dir, a + b, some + more)
  {
    forall m
      ensures m in some + more <==> exists v :: v in a + b && (dir, v) in types && m in types[(dir, v)].methods
    {
      if m in some { var v :| v in a && (dir, v) in types && m in types[(dir, v)].methods; assert v in a + b; }
      if m in more { var v :| v in b && (dir, v) in types && m in types[(dir, v)].methods; assert v in a + b; }
    }
  }

  /** Also a walk cut short has the methods of the type, of all it embeds from
      its own package, and of whatever else it met. */
  lemma FullSetCollects(types: Table, key: TypeKey)
    requires key in types
    ensures var w := FullSet(types, key);
      && CollectedFrom(types, key.0, w.seen, w.methods) && key.1 in w.seen
      && forall emb :: Some(emb) in types[key].embeds ==> emb in w.seen
  {
    var w := FullSet(types, key);
    WalkCollects(types, key.0, key.1, 0, {key.1});
    EmbedsCollect(types, key.0, key.1, |types[key].embeds|, 0, {key.1});
    assert w.seen - {key.1} + {key.1} == w.seen;
    forall emb | Some(emb) in types[key].embeds ensures emb in w.seen {
      var j :| 0 <= j < |types[key].embeds| && types[key].embeds[j] == Some(emb);
    }
  }

  // ----------------------------------------------------- when it completes

  /** `names` are declared, embed nothing foreign and nothing outside. */
  ghost predicate ClosedIn(types: Table, dir: Text, names: set<Text>) {
    forall v :: v in names ==>
      (dir, v) in types && forall e :: e in types[(dir, v)].embeds ==> e.Some? && e.value in names
  }

  /** The depth limit never bites in a closed group of at most as many types,
      in whatever order they embed each other. */
  lemma SmallGroupIsComplete(types: Table, key: TypeKey, names: set<Text>)
    requires key.1 in names && ClosedIn(types, key.0, names) && |names| <= 4
    ensures FullSet(types, key).complete
  {
    SmallWalk(types, key.0, key.1, 0, {key.1}, names);
  }

  lemma {:induction false} SmallWalk(types: Table, dir: Text, name: Text, depth: nat, seen: set<Text>, names: set<Text>)
    requires name in names && ClosedIn(types, dir, names) && |names| <= MAX_EMBED_DEPTH
    requires seen <= names && |seen| > depth && depth <= MAX_EMBED_DEPTH
    ensures var w := WalkFrom(types, dir, name, depth, seen); w.complete && w.seen <= names && seen <= w.seen
    decreases MAX_EMBED_DEPTH - depth, 1, 0
  {
    SmallEmbeds(types, dir, name, |types[(dir, name)].embeds|, depth, seen, names);
  }

  lemma Fits(seen: set<Text>, names: set<Text>)
    requires seen <= names
    ensures |seen| <= |names|
  {
    if seen != {} {
      var x :| x in seen;
      Fits(seen - {x}, names - {x});
    }
  }

  lemma {:induction false} SmallEmbeds(
    types: Table, dir: Text, name: Text, n: nat, depth: nat, seen: set<Text>, names: set<Text>)
    requires name in names && ClosedIn(types, dir, names) && |names| <= MAX_EMBED_DEPTH
    requires n <= |types[(dir, name)].embeds| && seen <= names && |seen| > depth && depth <= MAX_EMBED_DEPTH
    ensures var w := WalkEmbeds(types, dir, name, n, depth, seen); w.complete && w.seen <= names && seen <= w.seen
    decreases MAX_EMBED_DEPTH - depth, 0, n
  {
    if n > 0 {
      SmallEmbeds(types, dir, name, n - 1, depth, seen, names);
      var w := WalkEmbeds(types, dir, name, n - 1, depth, seen);
      var emb := types[(dir, name)].embeds[n - 1];
      assert emb in types[(dir, name)].embeds;
      Fits(seen, names);
      if emb.value !in w.seen {
        Fits(seen, w.seen);
        Fits(w.seen + {emb.value}, names);
        SmallWalk(types, dir, emb.value, depth + 1, w.seen + {emb.value}, names);
      }
    }
  }
}
