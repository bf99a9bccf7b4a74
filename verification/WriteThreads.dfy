/** Parse threads that push to one list of pending writes and write the batches
    they take: every interleaving of their locked and unlocked steps. */
module WriteThreads {
  import opened Types
  import opened CacheWrites

  /** `flights[t]` is what thread `t` has taken and not yet written.  What was
      pushed, written and lost so far is kept in order. */
  datatype State = State(
    pending: seq<Entry>, bytes: nat, flights: seq<seq<Entry>>,
    pushed: seq<Entry>, written: seq<Entry>, lost: seq<Entry>, table: map<Text, seq<byte>>)

  /** `Push` and `TakeAll` hold the lock; a batch is then written one
      transaction at a time, and a failed one gives up the rest. */
  datatype Event =
    | Push(thread: nat, entry: Entry)
    | TakeAll(thread: nat)
    | Commit(thread: nat)
    | Fail(thread: nat)

  predicate Enabled(s: State, e: Event) {
    e.thread < |s.flights| &&
    match e
    case Push(t, _) => s.flights[t] == []
    case TakeAll(t) => s.flights[t] == []
    case Commit(t) => s.flights[t] != []
    case Fail(t) => s.flights[t] != []
  }

  function Chunk(batch: seq<Entry>): nat { if |batch| < WRITE_BATCH then |batch| else WRITE_BATCH }

  function Step(flushBytes: nat, s: State, e: Event): State
    requires Enabled(s, e)
  {
    match e
    case Push(t, entry) =>
      var all, bytes := s.pending + [entry], s.bytes + |entry.1|;
      var u := s.(pushed := s.pushed + [entry]);
      if bytes >= flushBytes then u.(pending := [], bytes := 0, flights := s.flights[t := all])
      else u.(pending := all, bytes := bytes)
    case TakeAll(t) => s.(pending := [], bytes := 0, flights := s.flights[t := s.pending])
    case Commit(t) =>
      var batch := s.flights[t];
      var n := Chunk(batch);
      s.(flights := s.flights[t := batch[n..]], written := s.written + batch[..n], table := PutAll(s.table, batch[..n]))
    case Fail(t) => s.(flights := s.flights[t := []], lost := s.lost + s.flights[t])
  }

  ghost predicate Runs(flushBytes: nat, s: State, es: seq<Event>, t: State)
    decreases |es|
  {
    if es == [] then s == t else Enabled(s, es[0]) && Runs(flushBytes, Step(flushBytes, s, es[0]), es[1..], t)
  }

  // ------------------------------------------------------------ invariant

  function Times(x: Entry, s: seq<Entry>): nat { multiset(s)[x] }

  lemma TimesJoin(x: Entry, a: seq<Entry>, b: seq<Entry>)
    ensures Times(x, a + b) == Times(x, a) + Times(x, b)
  {}

  function InFlight(x: Entry, flights: seq<seq<Entry>>): nat {
    if flights == [] then 0 else Times(x, flights[0]) + InFlight(x, flights[1..])
  }

  lemma {:induction false} InFlightUpdate(x: Entry, flights: seq<seq<Entry>>, t: nat, batch: seq<Entry>)
    requires t < |flights|
    ensures InFlight(x, flights[t := batch]) + Times(x, flights[t]) == InFlight(x, flights) + Times(x, batch)
  {
    if t == 0 {
      assert flights[t := batch][1..] == flights[1..];
    } else {
      InFlightUpdate(x, flights[1..], t - 1, batch);
      assert flights[t := batch][1..] == flights[1..][t - 1 := batch];
    }
  }

  /** As often as it was pushed, an entry is pending, in flight, written or lost. */
  ghost predicate Accounted(s: State, x: Entry) {
    Times(x, s.pushed) == Times(x, s.pending) + InFlight(x, s.flights) + Times(x, s.written) + Times(x, s.lost)
  }

  lemma StepAccounts(flushBytes: nat, s: State, e: Event, x: Entry)
    requires Accounted(s, x) && Enabled(s, e)
    ensures Accounted(Step(flushBytes, s, e), x)
  {
    var t := e.thread;
    match e
    case Push(_, entry) =>
      TimesJoin(x, s.pending, [entry]);
      TimesJoin(x, s.pushed, [entry]);
      InFlightUpdate(x, s.flights, t, s.pending + [entry]);
    case TakeAll(_) => InFlightUpdate(x, s.flights, t, s.pending);
    case Commit(_) =>
      var batch := s.flights[t];
      var n := Chunk(batch);
      assert batch == batch[..n] + batch[n..];
      TimesJoin(x, batch[..n], batch[n..]);
      TimesJoin(x, s.written, batch[..n]);
      InFlightUpdate(x, s.flights, t, batch[n..]);
    case Fail(_) =>
      TimesJoin(x, s.lost, s.flights[t]);
      InFlightUpdate(x, s.flights, t, []);
  }

  /** The table is what was written, in order; less than the threshold is
      pending. */
  ghost predicate Inv(flushBytes: nat, table0: map<Text, seq<byte>>, s: State) {
    && (forall x :: Accounted(s, x)) && s.table == PutAll(table0, s.written)
    && s.bytes == TotalBytes(s.pending) && (s.pending == [] || s.bytes < flushBytes)
  }

  lemma StepKeepsInv(flushBytes: nat, table0: map<Text, seq<byte>>, s: State, e: Event)
    requires Inv(flushBytes, table0, s) && Enabled(s, e)
    ensures Inv(flushBytes, table0, Step(flushBytes, s, e))
  {
    forall x ensures Accounted(Step(flushBytes, s, e), x) { StepAccounts(flushBytes, s, e, x); }
    if e.Push? {
      var all := s.pending + [e.entry];
      assert all[..|all| - 1] == s.pending;
    }
    if e.Commit? { PutAllAppend(table0, s.written, s.flights[e.thread][..Chunk(s.flights[e.thread])]); }
  }

  lemma {:induction false} RunKeepsInv(
    flushBytes: nat, table0: map<Text, seq<byte>>, s: State, es: seq<Event>, t: State)
    requires Inv(flushBytes, table0, s) && Runs(flushBytes, s, es, t)
    ensures Inv(flushBytes, table0, t)
    decreases |es|
  {
    if es != [] {
      StepKeepsInv(flushBytes, table0, s, es[0]);
      RunKeepsInv(flushBytes, table0, Step(flushBytes, s, es[0]), es[1..], t);
    }
  }

  function Start(threads: nat, table0: map<Text, seq<byte>>): State {
    State([], 0, seq(threads, _ => []), [], [], [], table0)
  }

  lemma {:induction false} NoneInFlight(x: Entry, flights: seq<seq<Entry>>)
    requires forall t :: 0 <= t < |flights| ==> flights[t] == []
    ensures InFlight(x, flights) == 0
  {
    if flights != [] { NoneInFlight(x, flights[1..]); }
  }

  lemma InvAfter(flushBytes: nat, threads: nat, table0: map<Text, seq<byte>>, es: seq<Event>, t: State)
    requires Runs(flushBytes, Start(threads, table0), es, t)
    ensures Inv(flushBytes, table0, t)
  {
    var s := Start(threads, table0);
    forall x ensures Accounted(s, x) { NoneInFlight(x, s.flights); }
    RunKeepsInv(flushBytes, table0, s, es, t);
  }

  /** Whatever the interleaving, once nothing is pending or in flight and no
      write has failed, the table is what pushing and writing one entry after
      the other would have left. */
  lemma InterleavingsAgree(flushBytes: nat, threads: nat, table0: map<Text, seq<byte>>, es: seq<Event>, t: State)
    requires Runs(flushBytes, Start(threads, table0), es, t) && Addressed(t.pushed)
    requires t.pending == [] && t.lost == [] && forall k :: 0 <= k < |t.flights| ==> t.flights[k] == []
    ensures t.table == PutAll(table0, t.pushed)
  {
    InvAfter(flushBytes, threads, table0, es, t);
    forall x ensures multiset(t.pushed)[x] == multiset(t.written)[x] {
      NoneInFlight(x, t.flights);
      assert Accounted(t, x);
    }
    OrderOfBatches(table0, t.pushed, t.written);
  }

  ghost predicate Flies(flights: seq<seq<Entry>>, x: Entry) { exists k :: 0 <= k < |flights| && x in flights[k] }

  /** At any moment of any run, nothing has vanished but failed writes, and
      less than the threshold is pending. */
  lemma NothingVanishes(
    flushBytes: nat, threads: nat, table0: map<Text, seq<byte>>, es: seq<Event>, t: State, x: Entry)
    requires Runs(flushBytes, Start(threads, table0), es, t) && Addressed(t.pushed) && x in t.pushed
    ensures x in t.pending || x in t.lost || Flies(t.flights, x) || (x.0 in t.table && t.table[x.0] == x.1)
    ensures t.pending == [] || TotalBytes(t.pending) < flushBytes
  {
    InvAfter(flushBytes, threads, table0, es, t);
    assert Accounted(t, x);
    if InFlight(x, t.flights) > 0 { FliesSomewhere(t.flights, x); }
    if x in t.written {
      WrittenAddressed(t);
      PutAllContents(table0, t.written);
    }
  }

  lemma WrittenAddressed(t: State)
    requires Addressed(t.pushed) && forall x :: Accounted(t, x)
    ensures Addressed(t.written)
  {
    var w := t.written;
    forall x | x in w ensures x in t.pushed { assert Accounted(t, x) && Times(x, w) > 0; }
    forall i, j | 0 <= i < |w| && 0 <= j < |w| && w[i].0 == w[j].0 ensures w[i].1 == w[j].1 {
      assert w[i] in w && w[j] in w;
    }
  }

  lemma {:induction false} FliesSomewhere(flights: seq<seq<Entry>>, x: Entry)
    requires InFlight(x, flights) > 0
    ensures Flies(flights, x)
  {
    if x !in flights[0] {
      FliesSomewhere(flights[1..], x);
      var k :| 0 <= k < |flights[1..]| && x in flights[1..][k];
      assert x in flights[k + 1];
    }
  }
}
