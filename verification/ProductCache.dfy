/** Byte-budgeted cache of parse products.  Over budget it drops the products
    parsed longest ago, path order breaking ties, and no more than needed. */
module ProductCache {
  import opened Types
  import opened Sorting

  datatype Product = Product(language: Language, sha: Text, loc: u32, parsed: ParsedFile, weight: nat)

  type Entries = map<Text, (Product, nat)>

  /** Path, hash and payload, plus the fixed size of a slot. */
  function EntryBytes(path: Text, p: Product, slot: nat): nat { |path| + |p.sha| + p.weight + slot }

  ghost function Total(m: Entries, slot: nat): nat
    decreases |m|
  {
    if m == map[] then 0 else
    var k :| k in m;
    EntryBytes(k, m[k].0, slot) + Total(m - {k}, slot)
  }

  /** The total may be taken starting from any entry. */
  lemma {:induction false} TotalFrom(m: Entries, k: Text, slot: nat)
    requires k in m
    ensures Total(m, slot) == EntryBytes(k, m[k].0, slot) + Total(m - {k}, slot)
    decreases |m|
  {
    var j :| j in m && Total(m, slot) == EntryBytes(j, m[j].0, slot) + Total(m - {j}, slot);
    if j != k {
      TotalFrom(m - {j}, k, slot);
      TotalFrom(m - {k}, j, slot);
      assert m - {j} - {k} == m - {k} - {j};
    }
  }

  /** Every entry counts with its path, hash, payload and slot. */
  lemma TotalWithout(m: Entries, k: Text, slot: nat)
    requires k in m
    ensures Total(m, slot) == Total(m - {k}, slot) + |k| + |m[k].0.sha| + m[k].0.weight + slot
  {
    TotalFrom(m, k, slot);
  }

  lemma EntryFloor(m: Entries, k: Text, slot: nat)
    ensures k in m ==> Total(m, slot) >= EntryBytes(k, m[k].0, slot)
  {
    if k in m { TotalFrom(m, k, slot); }
  }

  lemma TotalInsert(m: Entries, k: Text, v: (Product, nat), slot: nat)
    ensures Total(m[k := v], slot) ==
      Total(m, slot) + EntryBytes(k, v.0, slot) - (if k in m then EntryBytes(k, m[k].0, slot) else 0)
  {
    TotalFrom(m[k := v], k, slot);
    if k in m {
      TotalFrom(m, k, slot);
      assert m[k := v] - {k} == m - {k};
    } else {
      assert m[k := v] - {k} == m;
    }
  }

  /** The total does not depend on when products were parsed. */
  lemma {:induction false} TotalIgnoresAge(m: Entries, n: Entries, slot: nat)
    requires m.Keys == n.Keys && forall k :: k in m ==> m[k].0 == n[k].0
    ensures Total(m, slot) == Total(n, slot)
    decreases |m|
  {
    if m != map[] {
      var k :| k in m;
      TotalFrom(m, k, slot);
      TotalFrom(n, k, slot);
      TotalIgnoresAge(m - {k}, n - {k}, slot);
    } else {
      assert n == map[];
    }
  }

  lemma {:induction false} TotalOfPart(part: Entries, m: Entries, slot: nat)
    requires forall k :: k in part ==> k in m && m[k] == part[k]
    ensures Total(part, slot) <= Total(m, slot)
    decreases |part|
  {
    if part != map[] {
      var k :| k in part;
      TotalFrom(part, k, slot);
      TotalFrom(m, k, slot);
      TotalOfPart(part - {k}, m - {k}, slot);
    }
  }

  type Age = (nat, Text)

  predicate AgeLe(a: Age, b: Age) { a.0 < b.0 || (a.0 == b.0 && TextLe(a.1, b.1)) }

  lemma AgeOrder()
    ensures TotalPreorder(AgeLe)
    ensures forall a, b :: AgeLe(a, b) && AgeLe(b, a) ==> a == b
  {
    TextOrder();
  }

  function AgeOf(m: Entries, p: Text): Age
    requires p in m
  { (m[p].1, p) }

  predicate Older(m: Entries, p: Text, q: Text) { p in m && q in m && AgeLe(AgeOf(m, p), AgeOf(m, q)) }

  /** Among the entries that `kept` lacks, `p` is the youngest. */
  ghost predicate YoungestLost(m: Entries, kept: Entries, p: Text) {
    p in m && p !in kept && forall q :: q in m && q !in kept ==> Older(m, q, p)
  }

  /** `p` would not have fitted. */
  ghost predicate TooMuch(m: Entries, kept: Entries, p: Text, budget: nat, slot: nat) {
    p in m && Total(kept[p := m[p]], slot) > budget
  }

  /** `kept` is what eviction leaves of `m`: it fits the budget, everything
      dropped is older than everything kept, and the youngest dropped entry
      would not have fitted. */
  ghost predicate EvictedTo(m: Entries, kept: Entries, budget: nat, slot: nat) {
    && (forall p :: p in kept ==> p in m && kept[p] == m[p])
    && Total(kept, slot) <= budget
    && (forall p, q {:trigger Older(m, p, q)} :: p in m && p !in kept && q in kept ==> Older(m, p, q))
    && (forall p {:trigger TooMuch(m, kept, p, budget, slot)} ::
          YoungestLost(m, kept, p) ==> TooMuch(m, kept, p, budget, slot))
  }

  lemma {:induction false} YoungestOf(m: Entries, gone: set<Text>) returns (p: Text)
    requires gone != {} && gone <= m.Keys
    ensures p in gone && forall q :: q in gone ==> Older(m, q, p)
  {
    AgeOrder();
    p :| p in gone;
    assert Older(m, p, p);
    if gone != {p} {
      var q := YoungestOf(m, gone - {p});
      assert Older(m, p, q) || Older(m, q, p);
      if Older(m, p, q) {
        p := q;
      } else {
        forall x | x in gone ensures Older(m, x, p) {
          assert x == p || Older(m, x, q);
        }
      }
    }
  }

  /** Eviction leaves a cache that fits as it is. */
  lemma NothingEvicted(m: Entries, kept: Entries, budget: nat, slot: nat)
    requires EvictedTo(m, kept, budget, slot) && Total(m, slot) <= budget
    ensures kept == m
  {
    var gone := m.Keys - kept.Keys;
    if gone != {} {
      var p := YoungestOf(m, gone);
      assert YoungestLost(m, kept, p);
      assert TooMuch(m, kept, p, budget, slot);
      TotalOfPart(kept[p := m[p]], m, slot);
      assert false;
    }
    assert forall p :: p in m ==> p !in gone;
  }

  class ParseProductCache {
    const budget: nat
    const slot: nat
    const generation: nat
    var bytes: nat
    var entries: Entries

    ghost predicate Valid() reads this { bytes == Total(entries, slot) && budget >= 1 }

    constructor (budgetBytes: nat, generation: nat, slot: nat)
      ensures Valid() && entries == map[]
      ensures budget == (if budgetBytes >= 1 then budgetBytes else 1) && this.generation == generation
          && this.slot == slot
    {
      budget := if budgetBytes >= 1 then budgetBytes else 1;
      this.slot := slot;
      this.generation := generation;
      bytes := 0;
      entries := map[];
    }

    /** The entry gets the given age; no other entry changes. */
    method InsertAt(path: Text, p: Product, gen: nat)
      requires Valid()
      modifies this
      ensures Valid() && entries == old(entries)[path := (p, gen)]
    {
      TotalInsert(entries, path, (p, gen), slot);
      bytes := bytes + EntryBytes(path, p, slot);
      if path in entries { bytes := bytes - EntryBytes(path, entries[path].0, slot); }
      entries := entries[path := (p, gen)];
    }

    /** The entry gets the generation this cache was made with. */
    method Insert(path: Text, p: Product)
      requires Valid()
      modifies this
      ensures Valid() && entries == old(entries)[path := (p, generation)]
    {
      InsertAt(path, p, generation);
    }

    /** Leaves the largest youngest part that fits the budget. */
    method RunPending()
      requires Valid()
      modifies this
      ensures Valid() && EvictedTo(old(entries), entries, budget, slot)
    {
      ghost var before := entries;
      var order := Oldest(entries);
      var i: nat := 0;
      while i < |order| && bytes > budget
        invariant Valid() && PrefixGone(before, order, i, entries)
        invariant i > 0 ==> LastNeeded(before, order[i - 1].1, entries, budget, slot)
      {
        GoneStep(before, order, i, entries, budget, slot);
        var path := order[i].1;
        bytes, entries := bytes - EntryBytes(path, entries[path].0, slot), entries - {path};
        i := i + 1;
      }
      EvictionEnds(before, order, i, entries, budget, slot);
    }
  }

  ghost predicate DistinctPaths(s: seq<Age>) {
    forall i, j :: 0 <= i < j < |s| ==> s[i].1 != s[j].1
  }

  ghost predicate AgesOf(m: Entries, order: seq<Age>) {
    && (forall a :: a in order <==> a.1 in m && a == AgeOf(m, a.1))
    && SortedBy(order, AgeLe)
    && DistinctPaths(order)
  }

  /** Every entry once, oldest first. */
  method Oldest(m: Entries) returns (order: seq<Age>)
    ensures AgesOf(m, order)
  {
    order := [];
    var rest := m;
    AgeOrder();
    while rest != map[]
      invariant forall p :: p in rest ==> p in m && rest[p] == m[p]
      invariant AgesOf(map p | p in m && p !in rest :: m[p], order)
      decreases |rest|
    {
      var p :| p in rest;
      ghost var done := map q | q in m && q !in rest :: m[q];
      InsertAge(done, order, p, m[p]);
      order := Sorting.Insert(AgeOf(m, p), order, AgeLe);
      rest := rest - {p};
      assert (map q | q in m && q !in rest :: m[q]) == done[p := m[p]];
    }
    assert (map p | p in m && p !in rest :: m[p]) == m;
  }

  lemma {:induction false} InsertAge(m: Entries, order: seq<Age>, p: Text, v: (Product, nat))
    requires AgesOf(m, order) && p !in m
    ensures AgesOf(m[p := v], Sorting.Insert((v.1, p), order, AgeLe))
  {
    var x: Age := (v.1, p);
    var out := Sorting.Insert(x, order, AgeLe);
    AgeOrder();
    InsertSorts(x, order, AgeLe);
    InsertPlaces(x, order);
    assert forall a :: a in order ==> a.1 != p;
    forall a ensures a in out <==> a.1 in m[p := v] && a == AgeOf(m[p := v], a.1) {
      assert a in out <==> a == x || a in order;
    }
  }

  lemma {:induction false} InsertPlaces(x: Age, s: seq<Age>)
    requires forall a :: a in s ==> a.1 != x.1
    requires DistinctPaths(s)
    ensures forall a :: a in Sorting.Insert(x, s, AgeLe) <==> a == x || a in s
    ensures DistinctPaths(Sorting.Insert(x, s, AgeLe))
  {
    if s != [] && !AgeLe(x, s[0]) {
      assert s == [s[0]] + s[1..];
      InsertPlaces(x, s[1..]);
      var t := Sorting.Insert(x, s[1..], AgeLe);
      forall j | 0 <= j < |t| ensures t[j].1 != s[0].1 {
        assert t[j] in t;
        if t[j] != x { var k :| 0 <= k < |s[1..]| && s[1..][k] == t[j]; }
      }
      var u := Sorting.Insert(x, s, AgeLe);
      assert u == [s[0]] + t;
      forall i, j | 0 <= i < j < |u| ensures u[i].1 != u[j].1 {
        if i > 0 { assert t[i - 1].1 != t[j - 1].1; }
      }
    }
  }

  ghost predicate PrefixGone(m: Entries, order: seq<Age>, i: nat, kept: Entries) {
    && AgesOf(m, order) && i <= |order|
    && (forall p :: p in kept <==> p in m && (forall j :: 0 <= j < i ==> order[j].1 != p))
    && (forall p :: p in kept ==> kept[p] == m[p])
  }

  ghost predicate LastNeeded(m: Entries, last: Text, kept: Entries, budget: nat, slot: nat) {
    last in m && Total(kept[last := m[last]], slot) > budget
  }

  lemma GoneStep(m: Entries, order: seq<Age>, i: nat, kept: Entries, budget: nat, slot: nat)
    requires PrefixGone(m, order, i, kept) && i < |order| && Total(kept, slot) > budget
    ensures var p := order[i].1;
      && p in kept && PrefixGone(m, order, i + 1, kept - {p}) && LastNeeded(m, p, kept - {p}, budget, slot)
      && Total(kept - {p}, slot) + EntryBytes(p, kept[p].0, slot) == Total(kept, slot)
  {
    var p := order[i].1;
    assert order[i] in order;
    TotalFrom(kept, p, slot);
    assert (kept - {p})[p := m[p]] == kept;
  }

  lemma AllGone(m: Entries, order: seq<Age>, kept: Entries)
    requires PrefixGone(m, order, |order|, kept)
    ensures kept == map[]
  {
    forall p | p in m ensures p !in kept { assert AgeOf(m, p) in order; }
  }

  lemma GoneAt(m: Entries, order: seq<Age>, i: nat, kept: Entries, p: Text) returns (j: nat)
    requires PrefixGone(m, order, i, kept) && p in m && p !in kept
    ensures j < i && order[j] == AgeOf(m, p)
  {
    j :| 0 <= j < i && order[j].1 == p;
    assert order[j] in order;
  }

  lemma GoneAreOlder(m: Entries, order: seq<Age>, i: nat, kept: Entries, p: Text, q: Text)
    requires PrefixGone(m, order, i, kept) && p in m && p !in kept && q in kept
    ensures Older(m, p, q)
  {
    var j := GoneAt(m, order, i, kept, p);
    assert AgeOf(m, q) in order;
    var k :| 0 <= k < |order| && order[k] == AgeOf(m, q);
    assert k >= i;
  }

  lemma EvictionEnds(m: Entries, order: seq<Age>, i: nat, kept: Entries, budget: nat, slot: nat)
    requires PrefixGone(m, order, i, kept) && (i == |order| || Total(kept, slot) <= budget)
    requires i > 0 ==> LastNeeded(m, order[i - 1].1, kept, budget, slot)
    ensures EvictedTo(m, kept, budget, slot)
  {
    if i == |order| { AllGone(m, order, kept); }
    PrefixEvicted(m, order, i, kept, budget, slot);
  }

  lemma YoungestGone(m: Entries, order: seq<Age>, i: nat, kept: Entries, p: Text)
    requires PrefixGone(m, order, i, kept) && YoungestLost(m, kept, p)
    ensures i > 0 && order[i - 1].1 == p
  {
    var j := GoneAt(m, order, i, kept, p);
    assert order[i - 1] in order;
    var last := order[i - 1].1;
    assert last in m && last !in kept;
    assert Older(m, last, p);
    AgeOrder();
    assert j == i - 1 || AgeLe(order[j], order[i - 1]);
  }

  lemma PrefixEvicted(m: Entries, order: seq<Age>, i: nat, kept: Entries, budget: nat, slot: nat)
    requires PrefixGone(m, order, i, kept) && Total(kept, slot) <= budget
    requires i > 0 ==> LastNeeded(m, order[i - 1].1, kept, budget, slot)
    ensures EvictedTo(m, kept, budget, slot)
  {
    forall p, q | p in m && p !in kept && q in kept ensures Older(m, p, q) {
      GoneAreOlder(m, order, i, kept, p, q);
    }
    forall p | YoungestLost(m, kept, p) ensures TooMuch(m, kept, p, budget, slot) {
      YoungestGone(m, order, i, kept, p);
    }
  }
}
