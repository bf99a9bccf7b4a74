/** The inverted name index: positions sorted by (lower-case name, position).
    Exact lookups and groups agree with a scan of the whole table. */
module NameTable {
  import opened Types
  import opened Sorting

  /** Positions below `n` whose name is `name`, ascending: the full scan. */
  function Matching(lower: seq<Text>, n: nat, name: Text): (r: seq<nat>)
    requires n <= |lower|
    ensures Ascending(r) && forall i: nat :: i in r <==> i < n && lower[i] == name
  {
    if n == 0 then [] else
    var r := Matching(lower, n - 1, name);
    assert forall k :: 0 <= k < |r| ==> r[k] in r;
    r + (if lower[n - 1] == name then [n - 1] else [])
  }

  type Entry = (Text, nat)

  predicate EntryLe(a: Entry, b: Entry) { if a.0 == b.0 then a.1 <= b.1 else TextLe(a.0, b.0) }

  datatype Table = Table(lower: seq<Text>, sorted: seq<nat>) {
    /** Every position once, in order of name and then of position. */
    ghost predicate Valid() {
      && (forall i: nat :: i in sorted <==> i < |lower|)
      && (forall k :: 0 <= k < |sorted| ==> sorted[k] < |lower|)
      && (forall j, k :: 0 <= j < k < |sorted| ==>
            EntryLe((lower[sorted[j]], sorted[j]), (lower[sorted[k]], sorted[k])) && sorted[j] != sorted[k])
    }
  }

  lemma EntryOrder()
    ensures TotalPreorder(EntryLe)
  {
    TextOrder();
  }

  function Entries(lower: seq<Text>): (r: seq<Entry>)
    ensures |r| == |lower| && forall i :: 0 <= i < |lower| ==> r[i] == (lower[i], i)
  { seq(|lower|, i requires 0 <= i < |lower| => (lower[i], i)) }

  function PositionsOf(order: seq<Entry>): (r: seq<nat>)
    ensures |r| == |order| && forall k :: 0 <= k < |order| ==> r[k] == order[k].1
  { seq(|order|, k requires 0 <= k < |order| => order[k].1) }

  method New(lower: seq<Text>) returns (t: Table)
    ensures t.lower == lower && t.Valid()
  {
    var entries := Entries(lower);
    EntryOrder();
    SortCorrect(entries, EntryLe);
    SortMembers(entries, EntryLe);
    var order := Sort(entries, EntryLe);
    assert Distinct(entries);
    DistinctPermutation(entries, order);
    t := Table(lower, PositionsOf(order));
    assert forall k :: 0 <= k < |order| ==> order[k] in entries;
    forall k | 0 <= k < |order| ensures order[k].1 < |lower| && order[k].0 == lower[order[k].1] {
      assert order[k] in entries;
    }
    forall i: nat | i < |lower| ensures i in t.sorted {
      assert entries[i] in entries;
      var k :| 0 <= k < |order| && order[k] == entries[i];
      assert t.sorted[k] == i;
    }
  }

  /** Binary search for the end of the prefix on which `p` holds. */
  method PartitionPoint(s: seq<nat>, p: nat -> bool) returns (k: nat)
    requires forall i, j :: 0 <= i < j < |s| && p(s[j]) ==> p(s[i])
    ensures k <= |s| && (forall i :: 0 <= i < k ==> p(s[i])) && (forall i :: k <= i < |s| ==> !p(s[i]))
  {
    var lo, hi := 0, |s|;
    while lo < hi
      invariant 0 <= lo <= hi <= |s|
      invariant (forall i :: 0 <= i < lo ==> p(s[i])) && (forall i :: hi <= i < |s| ==> !p(s[i]))
    {
      var mid := (lo + hi) / 2;
      if p(s[mid]) { lo := mid + 1; } else { hi := mid; }
    }
    k := lo;
  }

  /** Two binary searches find what a scan of every name finds. */
  method Exact(t: Table, name: Text) returns (r: seq<nat>)
    requires t.Valid()
    ensures r == Matching(t.lower, |t.lower|, name)
  {
    TextOrder();
    var lower := t.lower;
    var less := (i: nat) => i < |lower| && TextLe(lower[i], name) && lower[i] != name;
    var equal := (i: nat) => i < |lower| && lower[i] == name;
    var lo := PartitionPoint(t.sorted, less);
    var rest := t.sorted[lo..];
    forall i, j | 0 <= i < j < |rest| && equal(rest[j]) ensures equal(rest[i]) {
      assert rest[i] == t.sorted[lo + i] && rest[j] == t.sorted[lo + j];
      assert !less(t.sorted[lo + i]);
    }
    var len := PartitionPoint(rest, equal);
    r := rest[..len];
    forall x ensures x in r <==> x in Matching(lower, |lower|, name) {
      if x in Matching(lower, |lower|, name) {
        assert x in t.sorted;
        var k :| 0 <= k < |t.sorted| && t.sorted[k] == x;
        assert k >= lo && rest[k - lo] == x;
      }
    }
    AscendingUnique(r, Matching(lower, |lower|, name));
  }

  ghost predicate InSome(gs: seq<seq<nat>>, i: nat) { exists g :: g in gs && i in g }

  ghost predicate IsGroup(t: Table, g: seq<nat>) {
    g != [] && g[0] < |t.lower| && g == Matching(t.lower, |t.lower|, t.lower[g[0]])
  }

  /** One group per distinct name; each is the scan's answer for its name. */
  method Groups(t: Table) returns (gs: seq<seq<nat>>)
    requires t.Valid()
    ensures forall g :: g in gs ==> IsGroup(t, g)
    ensures forall i: nat :: i < |t.lower| ==> InSome(gs, i)
    ensures Distinct(gs)
  {
    var s, lower := t.sorted, t.lower;
    gs := [];
    var k: nat := 0;
    while k < |s|
      invariant k <= |s|
      invariant k < |s| && k > 0 ==> lower[s[k - 1]] != lower[s[k]]
      invariant forall g :: g in gs ==> IsGroup(t, g)
      invariant forall i: nat :: InSome(gs, i) <==> i in s[..k]
      invariant Distinct(gs)
    {
      var m := k + 1;
      while m < |s| && lower[s[m]] == lower[s[k]]
        invariant k < m <= |s| && forall j :: k <= j < m ==> lower[s[j]] == lower[s[k]]
      {
        m := m + 1;
      }
      GroupIsScan(t, k, m);
      AddGroup(s, k, m, gs);
      gs := gs + [s[k..m]];
      k := m;
    }
    assert s[..|s|] == s;
  }

  lemma AddGroup(s: seq<nat>, k: nat, m: nat, gs: seq<seq<nat>>)
    requires k < m <= |s| && Distinct(s) && Distinct(gs)
    requires forall i: nat :: InSome(gs, i) <==> i in s[..k]
    ensures forall i: nat :: InSome(gs + [s[k..m]], i) <==> i in s[..m]
    ensures Distinct(gs + [s[k..m]])
  {
    var g := s[k..m];
    var more := gs + [g];
    assert s[..m] == s[..k] + g;
    forall i: nat ensures InSome(more, i) <==> i in s[..m] {
      if i in g { assert g in more; }
      if InSome(gs, i) { var h :| h in gs && i in h; assert h in more; }
      if InSome(more, i) { var h :| h in more && i in h; assert h == g || InSome(gs, i); }
    }
    assert s[k] in g && s[k] !in s[..k];
    assert !InSome(gs, s[k]);
  }

  lemma NamesNeverReturn(t: Table, a: nat, b: nat, c: nat)
    requires t.Valid() && a <= b <= c < |t.sorted| && t.lower[t.sorted[a]] == t.lower[t.sorted[c]]
    ensures t.lower[t.sorted[b]] == t.lower[t.sorted[a]]
  {
    TextOrder();
    var x, y, z := t.lower[t.sorted[a]], t.lower[t.sorted[b]], t.lower[t.sorted[c]];
    assert a == b || x == y || TextLe(x, y);
    assert b == c || y == z || TextLe(y, z);
  }

  lemma GroupIsWhole(t: Table, k: nat, m: nat, j: nat)
    requires t.Valid() && k < m <= |t.sorted| && j < |t.sorted| && t.lower[t.sorted[j]] == t.lower[t.sorted[k]]
    requires k > 0 ==> t.lower[t.sorted[k - 1]] != t.lower[t.sorted[k]]
    requires m < |t.sorted| ==> t.lower[t.sorted[m]] != t.lower[t.sorted[k]]
    ensures k <= j < m
  {
    if j < k { NamesNeverReturn(t, j, k - 1, k); }
    if j >= m { NamesNeverReturn(t, k, m, j); }
  }

  lemma NamedAreInGroup(t: Table, k: nat, m: nat, x: nat)
    requires t.Valid() && k < m <= |t.sorted| && x < |t.lower| && t.lower[x] == t.lower[t.sorted[k]]
    requires k > 0 ==> t.lower[t.sorted[k - 1]] != t.lower[t.sorted[k]]
    requires m < |t.sorted| ==> t.lower[t.sorted[m]] != t.lower[t.sorted[k]]
    ensures x in t.sorted[k..m]
  {
    var s := t.sorted;
    assert x in s;
    var j: nat :| j < |s| && s[j] == x;
    GroupIsWhole(t, k, m, j);
    assert s[k..m][j - k] == x;
  }

  lemma GroupIsScan(t: Table, k: nat, m: nat)
    requires t.Valid() && k < m <= |t.sorted|
    requires forall j :: k <= j < m ==> t.lower[t.sorted[j]] == t.lower[t.sorted[k]]
    requires k > 0 ==> t.lower[t.sorted[k - 1]] != t.lower[t.sorted[k]]
    requires m < |t.sorted| ==> t.lower[t.sorted[m]] != t.lower[t.sorted[k]]
    ensures IsGroup(t, t.sorted[k..m])
  {
    var lower, g := t.lower, t.sorted[k..m];
    var scan := Matching(lower, |lower|, lower[t.sorted[k]]);
    GroupAscending(t, k, m);
    forall x | x in scan ensures x in g { NamedAreInGroup(t, k, m, x); }
    AscendingUnique(g, scan);
  }

  lemma GroupAscending(t: Table, k: nat, m: nat)
    requires t.Valid() && k < m <= |t.sorted|
    requires forall j :: k <= j < m ==> t.lower[t.sorted[j]] == t.lower[t.sorted[k]]
    ensures Ascending(t.sorted[k..m])
    ensures forall x :: x in t.sorted[k..m] ==> x < |t.lower| && t.lower[x] == t.lower[t.sorted[k]]
  {
    var g := t.sorted[k..m];
    forall i, j | 0 <= i < j < |g| ensures g[i] < g[j] {
      assert EntryLe((t.lower[t.sorted[k + i]], t.sorted[k + i]), (t.lower[t.sorted[k + j]], t.sorted[k + j]));
    }
  }
}
