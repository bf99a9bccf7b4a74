/** Writing to the parse store: bounded batches while a build parses, then
    stamps and the prune. */
module CacheWrites {
  import opened Types
  import Codec

  const WRITE_BATCH: nat := 2048

  type Entry = (Text, seq<byte>)

  /** The table after inserting these entries in order. */
  function PutAll(table: map<Text, seq<byte>>, entries: seq<Entry>): map<Text, seq<byte>> {
    if entries == [] then table
    else var last := entries[|entries| - 1];
         PutAll(table, entries[..|entries| - 1])[last.0 := last.1]
  }

  function TotalBytes(entries: seq<Entry>): nat {
    if entries == [] then 0 else TotalBytes(entries[..|entries| - 1]) + |entries[|entries| - 1].1|
  }

  lemma {:induction false} PutAllAppend(table: map<Text, seq<byte>>, a: seq<Entry>, b: seq<Entry>)
    ensures PutAll(table, a + b) == PutAll(PutAll(table, a), b)
  {
    if b == [] {
      assert a + b == a;
    } else {
      assert (a + b)[..|a + b| - 1] == a + b[..|b| - 1];
      PutAllAppend(table, a, b[..|b| - 1]);
    }
  }

  /** Equal keys carry equal payloads, as content addressing has it. */
  ghost predicate Addressed(entries: seq<Entry>) {
    forall i, j :: 0 <= i < |entries| && 0 <= j < |entries| && entries[i].0 == entries[j].0
        ==> entries[i].1 == entries[j].1
  }

  /** Nothing that was put in is lost, whatever the order of the batches, and
      nothing else changes. */
  lemma {:induction false} PutAllContents(table: map<Text, seq<byte>>, entries: seq<Entry>)
    requires Addressed(entries)
    ensures forall e :: e in entries ==> e.0 in PutAll(table, entries) && PutAll(table, entries)[e.0] == e.1
    ensures forall k :: k in PutAll(table, entries) ==>
      (k in table && table[k] == PutAll(table, entries)[k]) || (k, PutAll(table, entries)[k]) in entries
    ensures forall k :: k in table ==> k in PutAll(table, entries)
  {
    if entries != [] {
      var init, last := entries[..|entries| - 1], entries[|entries| - 1];
      PutAllContents(table, init);
      assert entries == init + [last];
      forall e | e in entries ensures PutAll(table, entries)[e.0] == e.1 {
        if e != last { assert e in init; }
      }
    }
  }

  /** Two orders of the same batches leave the same table. */
  lemma OrderOfBatches(table: map<Text, seq<byte>>, a: seq<Entry>, b: seq<Entry>)
    requires Addressed(a) && multiset(a) == multiset(b)
    ensures PutAll(table, a) == PutAll(table, b)
  {
    forall e ensures e in a <==> e in b { assert e in a <==> e in multiset(a); assert e in b <==> e in multiset(b); }
    assert Addressed(b) by {
      forall i, j | 0 <= i < |b| && 0 <= j < |b| && b[i].0 == b[j].0 ensures b[i].1 == b[j].1 {
        assert b[i] in a && b[j] in a;
      }
    }
    PutAllContents(table, a);
    PutAllContents(table, b);
    var x, y := PutAll(table, a), PutAll(table, b);
    forall k | k in x ensures k in y && y[k] == x[k] { SameAt(table, a, b, k); }
    forall k | k in y ensures k in x { SameAt(table, b, a, k); }
  }

  lemma SameAt(table: map<Text, seq<byte>>, a: seq<Entry>, b: seq<Entry>, k: Text)
    requires Addressed(a) && Addressed(b) && forall e :: e in a <==> e in b
    requires k in PutAll(table, a)
    ensures k in PutAll(table, b) && PutAll(table, b)[k] == PutAll(table, a)[k]
  {
    PutAllContents(table, a);
    PutAllContents(table, b);
    var x, y := PutAll(table, a), PutAll(table, b);
    if (k, x[k]) in a {
      assert (k, x[k]) in b;
    } else {
      assert k in y;
      assert (k, y[k]) !in b || (k, y[k]) in a;
    }
  }

  /** The two tables the parse cache uses. */
  class Store {
    const readOnly: bool
    var parses: map<Text, seq<byte>>
    var stamps: map<Text, seq<byte>>

    constructor (readOnly: bool, parses: map<Text, seq<byte>>, stamps: map<Text, seq<byte>>)
      ensures this.readOnly == readOnly && this.parses == parses && this.stamps == stamps
    {
      this.readOnly := readOnly;
      this.parses := parses;
      this.stamps := stamps;
    }

    /** One transaction per chunk of `WRITE_BATCH` entries. */
    method PutCachedParses(entries: seq<Entry>) returns (ok: bool)
      modifies this`parses
      ensures ok == !readOnly
      ensures parses == if readOnly then old(parses) else PutAll(old(parses), entries)
    {
      if readOnly { return false; }
      var at := 0;
      while at < |entries|
        invariant at <= |entries| && parses == PutAll(old(parses), entries[..at])
      {
        var end := if at + WRITE_BATCH < |entries| then at + WRITE_BATCH else |entries|;
        var i := at;
        while i < end
          invariant at <= i <= end && parses == PutAll(old(parses), entries[..i])
        {
          assert entries[..i + 1][..i] == entries[..i];
          parses := parses[entries[i].0 := entries[i].1];
          i := i + 1;
        }
        at := end;
      }
      assert entries[..|entries|] == entries;
      return true;
    }

    method PutFileStamps(entries: seq<(Text, Codec.FileStamp)>) returns (ok: bool)
      requires forall e :: e in entries ==> e.1.mtimeNs < Codec.U128
      modifies this`stamps
      ensures ok == !readOnly
      ensures stamps == if readOnly then old(stamps) else PutAll(old(stamps), Encoded(entries))
    {
      if readOnly { return false; }
      var i := 0;
      while i < |entries|
        invariant i <= |entries| && stamps == PutAll(old(stamps), Encoded(entries[..i]))
      {
        EncodedNext(old(stamps), entries, i);
        stamps := stamps[entries[i].0 := Codec.StampBytes(entries[i].1)];
        i := i + 1;
      }
      assert entries[..|entries|] == entries;
      return true;
    }

    /** Drops every parse whose key is not live and every stamp whose path is
        not, exactly; refuses, and drops nothing, when read-only. */
    method Prune(liveKeys: set<Text>, livePaths: set<Text>) returns (removed: Option<nat>)
      modifies this
      ensures readOnly ==> removed == None && parses == old(parses) && stamps == old(stamps)
      ensures !readOnly ==>
                parses == Restrict(old(parses), liveKeys) && stamps == Restrict(old(stamps), livePaths)
                && removed == Some(|old(parses).Keys - liveKeys|)
    {
      if readOnly { return None; }
      var staleKeys := StaleKeys(parses.Keys, liveKeys);
      var stalePaths := StaleKeys(stamps.Keys, livePaths);
      parses := Without(parses, staleKeys, liveKeys);
      stamps := Without(stamps, stalePaths, livePaths);
      return Some(|staleKeys|);
    }
  }

  function StampEntry(e: (Text, Codec.FileStamp)): Entry
    requires e.1.mtimeNs < Codec.U128
  { (e.0, Codec.StampBytes(e.1)) }

  function Encoded(entries: seq<(Text, Codec.FileStamp)>): seq<Entry>
    requires forall e :: e in entries ==> e.1.mtimeNs < Codec.U128
  {
    if entries == [] then []
    else Encoded(entries[..|entries| - 1]) + [StampEntry(entries[|entries| - 1])]
  }

  lemma EncodedNext(table: map<Text, seq<byte>>, entries: seq<(Text, Codec.FileStamp)>, i: nat)
    requires i < |entries| && forall e :: e in entries ==> e.1.mtimeNs < Codec.U128
    ensures PutAll(table, Encoded(entries[..i + 1])) ==
            PutAll(table, Encoded(entries[..i]))[entries[i].0 := Codec.StampBytes(entries[i].1)]
  {
    assert entries[..i + 1][..i] == entries[..i];
    var init, last := Encoded(entries[..i]), StampEntry(entries[i]);
    assert (init + [last])[..|init|] == init;
  }

  function Restrict(table: map<Text, seq<byte>>, keep: set<Text>): map<Text, seq<byte>> {
    map k | k in table && k in keep :: table[k]
  }

  /** Removes these keys, one transaction per chunk. */
  method Without(table: map<Text, seq<byte>>, keys: seq<Text>, ghost live: set<Text>)
    returns (t: map<Text, seq<byte>>)
    requires forall k :: k in keys <==> k in table && k !in live
    ensures t == Restrict(table, live)
  {
    t := table;
    var i := 0;
    while i < |keys|
      invariant i <= |keys|
      invariant forall k :: k in t <==> k in table && k !in keys[..i]
      invariant forall k :: k in t ==> t[k] == table[k]
    {
      t := t - {keys[i]};
      assert keys[..i + 1] == keys[..i] + [keys[i]];
      i := i + 1;
    }
    assert keys[..|keys|] == keys;
  }

  lemma CountOne(seen: set<Text>, live: set<Text>, k: Text)
    requires k !in seen
    ensures |(seen + {k}) - live| == |seen - live| + if k in live then 0 else 1
  {
    assert (seen + {k}) - live == if k in live then seen - live else (seen - live) + {k};
  }

  /** The keys of a table scan that are not live, each once. */
  method StaleKeys(keys: set<Text>, live: set<Text>) returns (stale: seq<Text>)
    ensures forall k :: k in stale <==> k in keys && k !in live
    ensures |stale| == |keys - live|
  {
    stale := [];
    var rest := keys;
    ghost var seen: set<Text> := {};
    while rest != {}
      invariant keys == rest + seen && rest !! seen
      invariant (forall k :: k in stale <==> k in seen && k !in live) && |stale| == |seen - live|
      decreases rest
    {
      var k :| k in rest;
      rest := rest - {k};
      CountOne(seen, live, k);
      seen := seen + {k};
      if k !in live { stale := stale + [k]; }
    }
    assert seen == keys;
  }

  /** The list parse threads push to.  `handed` is what has gone to
      the store so far, in order. */
  class Writes {
    var pending: seq<Entry>
    var bytes: nat
    var stored: nat
    const flushBytes: nat
    ghost var handed: seq<Entry>

    ghost predicate Valid()
      reads this
    {
      bytes == TotalBytes(pending) && stored == |handed| && (pending == [] || bytes < flushBytes)
    }

    /** Everything ever pushed, in order. */
    ghost function Pushed(): seq<Entry>
      reads this
    {
      handed + pending
    }

    constructor (flushBytes: nat)
      ensures Valid() && Pushed() == [] && this.flushBytes == flushBytes
    {
      pending, bytes, stored, handed := [], 0, 0, [];
      this.flushBytes := flushBytes;
    }

    /** Hands one batch to the store; a refusal only costs the cache. */
    method Write(store: Store, batch: seq<Entry>)
      modifies this`stored, this`handed, store`parses
      ensures handed == old(handed) + batch && stored == old(stored) + |batch|
      ensures store.parses == if store.readOnly then old(store.parses) else PutAll(old(store.parses), batch)
    {
      if batch == [] { return; }
      stored := stored + |batch|;
      handed := handed + batch;
      var ok := store.PutCachedParses(batch);
    }

    /** Nothing is lost or reordered: what was pushed is in the store or still
        pending, and less than `flushBytes` is pending between calls. */
    method Push(store: Store, key: Text, payload: seq<byte>)
      requires Valid()
      modifies this, store`parses
      ensures Valid()
      ensures store.readOnly ==> Pushed() == old(Pushed()) && store.parses == old(store.parses)
      ensures !store.readOnly ==> Pushed() == old(Pushed()) + [(key, payload)]
      ensures !store.readOnly ==>
                old(handed) <= handed && store.parses == PutAll(old(store.parses), handed[|old(handed)|..])
      ensures !store.readOnly ==> (pending == [] <==> TotalBytes(old(pending) + [(key, payload)]) >= flushBytes)
    {
      if store.readOnly { return; }
      ghost var all := Pushed() + [(key, payload)];
      var batch := pending + [(key, payload)];
      assert batch[..|batch| - 1] == pending && handed + batch == all;
      bytes := bytes + |payload|;
      if bytes >= flushBytes {
        bytes, pending := 0, [];
        Write(store, batch);
        assert Pushed() == handed == all;
        assert handed[|old(handed)|..] == batch;
      } else {
        pending := batch;
        assert Pushed() == all;
        assert handed[|old(handed)|..] == [];
      }
    }

    method Flush(store: Store)
      requires Valid()
      modifies this, store`parses
      ensures Valid() && pending == [] && Pushed() == old(Pushed()) && handed == old(Pushed())
      ensures store.parses == if store.readOnly then old(store.parses) else PutAll(old(store.parses), old(pending))
    {
      var batch := pending;
      bytes, pending := 0, [];
      Write(store, batch);
    }
  }

  /** End of a build: flush, stamps, and the prune only after a full scan; a
      read-only store is left alone. */
  method Persist(
    store: Store, writes: Writes, stamps: seq<(Text, Codec.FileStamp)>,
    liveKeys: set<Text>, livePaths: set<Text>, prune: bool)
    requires writes.Valid() && forall e :: e in stamps ==> e.1.mtimeNs < Codec.U128
    modifies store, writes
    ensures store.readOnly ==> store.parses == old(store.parses) && store.stamps == old(store.stamps)
    ensures !store.readOnly ==>
              var parses := PutAll(old(store.parses), old(writes.pending));
              var table := PutAll(old(store.stamps), Encoded(stamps));
              store.parses == (if prune then Restrict(parses, liveKeys) else parses)
              && store.stamps == (if prune then Restrict(table, livePaths) else table)
  {
    if store.readOnly { return; }
    writes.Flush(store);
    var ok := store.PutFileStamps(stamps);
    if prune { var removed := store.Prune(liveKeys, livePaths); }
  }
}
