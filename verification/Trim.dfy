/** The heap-trim protocol: two atomics flags, a time stamp and a try-lock, as
    interleaved steps of any number of threads (sequentially consistent). */
module Trim {
  import opened Types

  const PASSES: nat := 3
  const QUIET_MS: nat := 5000

  /** Where a thread stands in `release_free_memory` (first line) or in
      `release_free_memory_when_quiet` and the thread it spawns (second).
      `taken` counts the dirty marks taken in this hold of the lock, `request`
      is the log position of the request being queued. */
  datatype Phase =
    | Idle | Marking | Trying | Looping(taken: nat) | Starting(taken: nat) | Walking(taken: nat) | Leaving
    | Stamping | Queueing(request: nat) | Spawning | Loading | Waiting(due: nat) | Clearing | Calling

  /** What can be observed from outside. */
  datatype Mark =
    | Requested | Locked | Took | WalkBegun | WalkDone | Unlocked | QuietRequested | QuietCall

  datatype State = State(
    now: nat, dirty: bool, queued: bool, lastRequest: nat, running: Option<nat>,
    threads: map<nat, Phase>, log: seq<Mark>)

  /** `Move` is the thread's next step; a spawn names the new thread. */
  datatype Event =
    | Tick(ms: nat)
    | CallRelease(thread: nat)
    | CallWhenQuiet(thread: nat)
    | Move(thread: nat)
    | Spawn(thread: nat, child: nat)
    | SpawnFails(thread: nat)

  function At(s: State, t: nat): Phase { if t in s.threads then s.threads[t] else Idle }

  predicate Enabled(s: State, e: Event) {
    match e
    case Tick(_) => true
    case CallRelease(t) => At(s, t).Idle?
    case CallWhenQuiet(t) => At(s, t).Idle?
    case Move(t) => !At(s, t).Idle? && !At(s, t).Spawning?
    case Spawn(t, child) => At(s, t).Spawning? && child != t && At(s, child).Idle?
    case SpawnFails(t) => At(s, t).Spawning?
  }

  function Put(s: State, t: nat, p: Phase): State { s.(threads := s.threads[t := p]) }

  /** Where a move takes the thread. */
  function NextPhase(s: State, p: Phase): Phase {
    match p
    case Marking => Trying
    case Trying => if s.running.None? then Looping(0) else Idle
    case Looping(taken) => if taken >= PASSES || !s.dirty then Leaving else Starting(taken + 1)
    case Starting(taken) => Walking(taken)
    case Walking(taken) => Looping(taken)
    case Leaving => Idle
    case Stamping => Queueing(|s.log|)
    case Queueing(_) => if s.queued then Idle else Spawning
    case Loading => Waiting(s.lastRequest + QUIET_MS)
    case Waiting(due) => if s.now >= due then Clearing else Loading
    case Clearing => Calling
    case Calling => Marking
    case _ => p
  }

  /** The mark a move leaves, if any. */
  function MarkOf(s: State, p: Phase): Option<Mark> {
    match p
    case Marking => Some(Requested)
    case Trying => if s.running.None? then Some(Locked) else None
    case Looping(taken) => if taken >= PASSES || !s.dirty then None else Some(Took)
    case Starting(_) => Some(WalkBegun)
    case Walking(_) => Some(WalkDone)
    case Leaving => Some(Unlocked)
    case Stamping => Some(QuietRequested)
    case Calling => Some(QuietCall)
    case _ => None
  }

  /** What a move of thread `t` writes to the shared state. */
  function Write(s: State, p: Phase, t: nat): State {
    match p
    case Marking => s.(dirty := true)
    case Trying => s.(running := if s.running.None? then Some(t) else s.running)
    case Looping(taken) => s.(dirty := if taken >= PASSES then s.dirty else false)
    case Leaving => s.(running := None)
    case Stamping => s.(lastRequest := s.now)
    case Queueing(_) => s.(queued := true)
    case Clearing => s.(queued := false)
    case _ => s
  }

  function Logged(log: seq<Mark>, m: Option<Mark>): seq<Mark> {
    match m case None => log case Some(x) => log + [x]
  }

  function MoveOne(s: State, t: nat): State {
    var p := At(s, t);
    Put(Write(s, p, t), t, NextPhase(s, p)).(log := Logged(s.log, MarkOf(s, p)))
  }

  function Step(s: State, e: Event): State
    requires Enabled(s, e)
  {
    match e
    case Tick(ms) => s.(now := s.now + ms)
    case CallRelease(t) => Put(s, t, Marking)
    case CallWhenQuiet(t) => Put(s, t, Stamping)
    case Move(t) => MoveOne(s, t)
    case Spawn(t, child) => Put(Put(s, t, Idle), child, Loading)
    case SpawnFails(t) => Put(s.(queued := false), t, Idle)
  }

  ghost predicate Runs(s: State, es: seq<Event>, t: State)
    decreases |es|
  {
    if es == [] then s == t else Enabled(s, es[0]) && Runs(Step(s, es[0]), es[1..], t)
  }

  predicate Initial(s: State) {
    !s.dirty && !s.queued && s.running.None? && s.threads == map[] && s.log == []
  }

  // ---------------------------------------------------------- invariants

  predicate Holds(p: Phase) { p.Looping? || p.Starting? || p.Walking? || p.Leaving? }

  predicate Tokened(p: Phase) { p.Spawning? || p.Loading? || p.Waiting? || p.Clearing? }

  /** Will start a release call of its own accord. */
  predicate WillCall(p: Phase) { Tokened(p) || p.Calling? }

  /** Walks begun since the lock was last taken. */
  function WalksInHold(log: seq<Mark>): nat {
    if log == [] || log[|log| - 1].Locked? then 0
    else WalksInHold(log[..|log| - 1]) + if log[|log| - 1].WalkBegun? then 1 else 0
  }

  /** Walks begun and not done. */
  function OpenWalks(log: seq<Mark>): int {
    if log == [] then 0
    else OpenWalks(log[..|log| - 1]) +
         (match log[|log| - 1] case WalkBegun => 1 case WalkDone => -1 case _ => 0)
  }

  predicate After(log: seq<Mark>, i: nat, m: Mark) { exists j :: i < j < |log| && log[j] == m }

  predicate MarkAt(log: seq<Mark>, i: nat, m: Mark) { i < |log| && log[i] == m }

  function TakenIn(p: Phase): nat
    requires Holds(p)
  {
    match p case Looping(n) => n case Starting(n) => n case Walking(n) => n case _ => 0
  }

  /** The lock belongs to exactly the thread inside it. */
  ghost predicate OwnerOk(s: State) {
    forall t: nat :: Holds(At(s, t)) <==> s.running == Some(t)
  }

  /** The holder counts its passes right; outside a hold no walk is open. */
  ghost predicate CountOk(s: State) {
    HolderOk(s, WalksInHold(s.log), OpenWalks(s.log))
  }

  ghost predicate HolderOk(s: State, walks: nat, open: int) {
    match s.running
    case None => open == 0 && walks <= PASSES
    case Some(t) => HoldOk(walks, open, At(s, t))
  }

  ghost predicate HoldOk(walks: nat, open: int, p: Phase) {
    Holds(p) && TakenIn(p) <= PASSES && walks <= PASSES
    && open == (if p.Walking? then 1 else 0)
    && (p.Looping? || p.Walking? ==> walks == TakenIn(p))
    && (p.Starting? ==> walks + 1 == TakenIn(p))
  }

  predicate IsStarting(s: State) { s.running.Some? && At(s, s.running.value).Starting? }

  /** A taken mark is followed by a walk. */
  ghost predicate TakenOk(s: State) {
    forall i: nat :: MarkAt(s.log, i, Took) ==> After(s.log, i, WalkBegun) || IsStarting(s)
  }

  /** The queued flag is one thread's token. */
  ghost predicate QueueOk(s: State) {
    (s.queued ==> exists t: nat :: Tokened(At(s, t)))
    && (forall t: nat :: Tokened(At(s, t)) ==> s.queued)
    && forall t: nat, u: nat :: Tokened(At(s, t)) && Tokened(At(s, u)) ==> t == u
  }

  ghost predicate QueuesFor(s: State, t: nat, i: nat) { At(s, t) == Queueing(i) }

  ghost predicate QuietServed(s: State, i: nat) {
    After(s.log, i, QuietCall) || (exists t: nat :: QueuesFor(s, t, i)) || (exists t: nat :: WillCall(At(s, t)))
  }

  ghost predicate QuietOk(s: State) {
    forall i: nat :: MarkAt(s.log, i, QuietRequested) ==> QuietServed(s, i)
  }

  // -------------------------------------------------------------- the lock

  function NextWalks(walks: nat, m: Option<Mark>): nat {
    if m == Some(Locked) then 0 else walks + if m == Some(WalkBegun) then 1 else 0
  }

  function NextOpen(open: int, m: Option<Mark>): int {
    open + if m == Some(WalkBegun) then 1 else if m == Some(WalkDone) then -1 else 0
  }

  lemma CountsLogged(log: seq<Mark>, m: Option<Mark>)
    ensures WalksInHold(Logged(log, m)) == NextWalks(WalksInHold(log), m)
    ensures OpenWalks(Logged(log, m)) == NextOpen(OpenWalks(log), m)
  {
    if m.Some? { assert (log + [m.value])[..|log|] == log; }
  }

  lemma OwnerKept(s: State, e: Event)
    requires OwnerOk(s) && Enabled(s, e)
    ensures OwnerOk(Step(s, e))
  {
    var t := Step(s, e);
    if e.Move? { OwnerMoves(s, e.thread); }
    forall u: nat ensures Holds(At(t, u)) <==> t.running == Some(u) {
      assert Holds(At(s, u)) <==> s.running == Some(u);
    }
  }

  /** A move changes the lock only by its own thread taking or leaving it. */
  lemma OwnerMoves(s: State, t: nat)
    requires Enabled(s, Move(t)) && (Holds(At(s, t)) <==> s.running == Some(t))
    ensures var u := Step(s, Move(t));
      (Holds(At(u, t)) <==> u.running == Some(t))
      && (u.running == s.running || (u.running == Some(t) && s.running.None?)
          || (s.running == Some(t) && u.running.None?))
      && forall v: nat :: v != t ==> At(u, v) == At(s, v)
  {}

  function StepMark(s: State, e: Event): Option<Mark> {
    if e.Move? then MarkOf(s, At(s, e.thread)) else None
  }

  lemma LogGrows(s: State, e: Event)
    requires Enabled(s, e)
    ensures Step(s, e).log == Logged(s.log, StepMark(s, e))
  {}

  /** Only the holder begins and ends walks. */
  lemma MoveCounts(s: State, t: nat, walks: nat, open: int)
    requires (Holds(At(s, t)) <==> s.running == Some(t)) && HolderOk(s, walks, open)
    ensures HolderOk(MoveOne(s, t), NextWalks(walks, MarkOf(s, At(s, t))), NextOpen(open, MarkOf(s, At(s, t))))
  {}

  lemma CountKept(s: State, e: Event)
    requires OwnerOk(s) && CountOk(s) && Enabled(s, e)
    ensures CountOk(Step(s, e))
  {
    LogGrows(s, e);
    CountsLogged(s.log, StepMark(s, e));
    if e.Move? {
      MoveCounts(s, e.thread, WalksInHold(s.log), OpenWalks(s.log));
    } else {
      StandStill(s, e, WalksInHold(s.log), OpenWalks(s.log));
    }
  }

  lemma StandStill(s: State, e: Event, walks: nat, open: int)
    requires Enabled(s, e) && !e.Move? && HolderOk(s, walks, open)
    ensures HolderOk(Step(s, e), walks, open)
  {}

  // ---------------------------------------------------- marks and requests

  lemma AfterAppend(log: seq<Mark>, m: Mark, i: nat, k: Mark)
    ensures After(log + [m], i, k) <==> After(log, i, k) || (i < |log| && k == m)
    ensures MarkAt(log + [m], i, k) <==> MarkAt(log, i, k) || (i == |log| && k == m)
  {
    var more := log + [m];
    if After(log, i, k) {
      var j :| i < j < |log| && log[j] == k;
      assert more[j] == k;
    }
    if i < |log| && k == m { assert more[|log|] == k; }
  }

  /** A request no pass has taken. */
  predicate Untaken(log: seq<Mark>, i: nat) { MarkAt(log, i, Requested) && !After(log, i, Took) }

  ghost predicate AnyUntaken(log: seq<Mark>) { exists i: nat :: Untaken(log, i) }

  lemma UntakenAppend(log: seq<Mark>, m: Mark)
    ensures m.Requested? ==> AnyUntaken(log + [m])
    ensures m.Took? ==> !AnyUntaken(log + [m])
    ensures !m.Requested? && !m.Took? ==> (AnyUntaken(log + [m]) <==> AnyUntaken(log))
  {
    forall i: nat ensures Untaken(log + [m], i) <==>
      if m.Requested? then Untaken(log, i) || i == |log| else if m.Took? then false else Untaken(log, i)
    {
      AfterAppend(log, m, i, Requested);
      AfterAppend(log, m, i, Took);
    }
    if m.Requested? { assert Untaken(log + [m], |log|); }
    if AnyUntaken(log) {
      var i: nat :| Untaken(log, i);
      assert m.Took? || Untaken(log + [m], i);
    }
  }

  lemma DirtyKept(s: State, e: Event)
    requires Enabled(s, e) && (s.dirty <==> AnyUntaken(s.log))
    ensures Step(s, e).dirty <==> AnyUntaken(Step(s, e).log)
  {
    LogGrows(s, e);
    if StepMark(s, e).Some? { UntakenAppend(s.log, StepMark(s, e).value); }
  }

  lemma TakenKept(s: State, e: Event)
    requires OwnerOk(s) && TakenOk(s) && Enabled(s, e)
    ensures TakenOk(Step(s, e))
  {
    var t := Step(s, e);
    LogGrows(s, e);
    OwnerKept(s, e);
    if e.Move? { assert Holds(At(s, e.thread)) <==> s.running == Some(e.thread); }
    forall i: nat | MarkAt(t.log, i, Took) ensures After(t.log, i, WalkBegun) || IsStarting(t) {
      if StepMark(s, e).Some? {
        AfterAppend(s.log, StepMark(s, e).value, i, Took);
        AfterAppend(s.log, StepMark(s, e).value, i, WalkBegun);
      }
    }
  }

  // ------------------------------------------------------------ the queue

  /** A step creates at most one token holder, and only from the flag. */
  lemma TokenMoves(s: State, e: Event, u: nat)
    requires Enabled(s, e)
    ensures Tokened(At(Step(s, e), u)) && !Tokened(At(s, u)) ==>
              (e.Move? && e.thread == u && At(s, u).Queueing? && !s.queued) || (e.Spawn? && e.child == u)
    ensures Tokened(At(s, u)) && !Tokened(At(Step(s, e), u)) ==>
              (e.Move? && e.thread == u && At(s, u).Clearing?) || (e.Spawn? && e.thread == u)
                  || (e.SpawnFails? && e.thread == u)
  {}

  lemma FlagMoves(s: State, e: Event)
    requires Enabled(s, e)
    ensures Step(s, e).queued ==
      if e.SpawnFails? || (e.Move? && At(s, e.thread).Clearing?) then false
      else s.queued || (e.Move? && At(s, e.thread).Queueing?)
  {}

  lemma QueueKept(s: State, e: Event)
    requires QueueOk(s) && Enabled(s, e)
    ensures QueueOk(Step(s, e))
  {
    var t := Step(s, e);
    FlagMoves(s, e);
    forall u: nat ensures
      (Tokened(At(t, u)) && !Tokened(At(s, u)) ==>
        (e.Move? && e.thread == u && At(s, u).Queueing? && !s.queued) || (e.Spawn? && e.child == u)) &&
      (Tokened(At(s, u)) && !Tokened(At(t, u)) ==>
        (e.Move? && e.thread == u && At(s, u).Clearing?) || (e.Spawn? && e.thread == u)
            || (e.SpawnFails? && e.thread == u))
    {
      TokenMoves(s, e, u);
    }
    if t.queued { TokenExists(s, e); }
  }

  lemma TokenExists(s: State, e: Event)
    requires QueueOk(s) && Enabled(s, e) && Step(s, e).queued
    ensures exists u: nat :: Tokened(At(Step(s, e), u))
  {
    var t := Step(s, e);
    FlagMoves(s, e);
    if s.queued {
      var u: nat :| Tokened(At(s, u));
      TokenMoves(s, e, u);
      if e.Spawn? { assert Tokened(At(t, e.child)); } else { assert Tokened(At(t, u)); }
    } else {
      assert Tokened(At(t, e.thread));
    }
  }

  /** Who waits for a call still waits, or the call has begun. */
  lemma CallerMoves(s: State, e: Event, u: nat)
    requires Enabled(s, e) && !e.SpawnFails? && WillCall(At(s, u))
    ensures StepMark(s, e) == Some(QuietCall) || exists v: nat :: WillCall(At(Step(s, e), v))
  {
    var t := Step(s, e);
    if e.Spawn? && e.thread == u { assert WillCall(At(t, e.child)); }
    else if StepMark(s, e) != Some(QuietCall) { assert WillCall(At(t, u)); }
  }

  lemma QuietServedKept(s: State, e: Event, i: nat)
    requires QueueOk(s) && Enabled(s, e) && !e.SpawnFails? && i < |s.log| && QuietServed(s, i)
    ensures QuietServed(Step(s, e), i)
  {
    var t := Step(s, e);
    LogGrows(s, e);
    if StepMark(s, e).Some? { AfterAppend(s.log, StepMark(s, e).value, i, QuietCall); }
    if exists u: nat :: WillCall(At(s, u)) {
      var u: nat :| WillCall(At(s, u));
      CallerMoves(s, e, u);
    } else if exists u: nat :: QueuesFor(s, u, i) {
      var u: nat :| QueuesFor(s, u, i);
      if e == Move(u) {
        assert s.queued ==> exists v: nat :: Tokened(At(s, v)) && WillCall(At(s, v));
        assert WillCall(At(t, u));
      } else {
        assert QueuesFor(t, u, i);
      }
    }
  }

  lemma QuietKept(s: State, e: Event)
    requires QueueOk(s) && QuietOk(s) && Enabled(s, e) && !e.SpawnFails?
    ensures QuietOk(Step(s, e))
  {
    var t := Step(s, e);
    LogGrows(s, e);
    forall i: nat | MarkAt(t.log, i, QuietRequested) ensures QuietServed(t, i) {
      if MarkAt(s.log, i, QuietRequested) {
        QuietServedKept(s, e, i);
      } else {
        assert QueuesFor(t, e.thread, i);
      }
    }
  }

  // --------------------------------------------------------- main results

  ghost predicate Inv(s: State) {
    OwnerOk(s) && CountOk(s) && TakenOk(s) && (s.dirty <==> AnyUntaken(s.log)) && QueueOk(s)
  }

  lemma {:induction false} RunKeepsInv(s: State, es: seq<Event>, t: State)
    requires Inv(s) && Runs(s, es, t)
    ensures Inv(t)
    decreases |es|
  {
    if es != [] {
      OwnerKept(s, es[0]);
      CountKept(s, es[0]);
      TakenKept(s, es[0]);
      DirtyKept(s, es[0]);
      QueueKept(s, es[0]);
      RunKeepsInv(Step(s, es[0]), es[1..], t);
    }
  }

  /** At most one walk is open at any time, and at most three begin in one hold
      of the lock. */
  lemma OneWalkAtATime(s: State, es: seq<Event>, t: State)
    requires Initial(s) && Runs(s, es, t)
    ensures 0 <= OpenWalks(t.log) <= 1 && WalksInHold(t.log) <= 3
    ensures t.running.None? ==> OpenWalks(t.log) == 0
    ensures forall u: nat, v: nat :: At(t, u).Walking? && At(t, v).Walking? ==> u == v
  {
    RunKeepsInv(s, es, t);
    forall u: nat, v: nat | At(t, u).Walking? && At(t, v).Walking? ensures u == v {
      assert Holds(At(t, u)) && Holds(At(t, v));
    }
  }

  /** No request is lost: a walk begins after it, or is about to, or the dirty
      flag is still set.  The flag is set exactly while some request has not
      been taken by a pass. */
  lemma RequestsAreKept(s: State, es: seq<Event>, t: State, i: nat)
    requires Initial(s) && Runs(s, es, t) && MarkAt(t.log, i, Requested)
    ensures After(t.log, i, WalkBegun) || t.dirty || IsStarting(t)
    ensures t.dirty <==> AnyUntaken(t.log)
  {
    RunKeepsInv(s, es, t);
    if !t.dirty {
      assert !Untaken(t.log, i);
      var j :| i < j < |t.log| && t.log[j] == Took;
      assert MarkAt(t.log, j, Took);
      if After(t.log, j, WalkBegun) {
        var k :| j < k < |t.log| && t.log[k] == WalkBegun;
        assert After(t.log, i, WalkBegun);
      }
    }
  }

  predicate NoSpawnFails(es: seq<Event>) { forall i :: 0 <= i < |es| ==> !es[i].SpawnFails? }

  lemma {:induction false} RunKeepsQuiet(s: State, es: seq<Event>, t: State)
    requires Inv(s) && QuietOk(s) && Runs(s, es, t) && NoSpawnFails(es)
    ensures QuietOk(t) && Inv(t)
    decreases |es|
  {
    if es != [] {
      OwnerKept(s, es[0]);
      CountKept(s, es[0]);
      TakenKept(s, es[0]);
      DirtyKept(s, es[0]);
      QueueKept(s, es[0]);
      QuietKept(s, es[0]);
      RunKeepsQuiet(Step(s, es[0]), es[1..], t);
    }
  }

  /** Each quiet-time request is followed by a release call begun after it;
      until then its requester or the one holder of the queued flag is on the
      way there. */
  lemma QuietRequestsAreCalled(s: State, es: seq<Event>, t: State, i: nat)
    requires Initial(s) && Runs(s, es, t) && NoSpawnFails(es) && MarkAt(t.log, i, QuietRequested)
    ensures QuietServed(t, i)
    ensures (forall u: nat :: At(t, u).Idle?) ==> After(t.log, i, QuietCall)
    ensures forall u: nat, v: nat :: Tokened(At(t, u)) && Tokened(At(t, v)) ==> u == v
  {
    RunKeepsQuiet(s, es, t);
  }

  // ------------------------------------------------ the refused request

  /** The holder will start another walk if it finds the flag set. */
  predicate PassLeft(p: Phase) {
    match p
    case Looping(n) => n < PASSES
    case Starting(_) => true
    case Walking(n) => n < PASSES
    case _ => false
  }

  /** Thread `b` has marked the heap dirty and finds the lock held by `a`. */
  predicate Refused(s: State, a: nat, b: nat) {
    a != b && At(s, b).Trying? && s.dirty && s.running == Some(a) && Holds(At(s, a))
  }

  /** Thread `a` has stayed the holder and owes a walk, or one has begun. */
  ghost predicate Owes(s: State, n: nat, a: nat) {
    n <= |s.log| && (BegunFrom(s.log, n) ||
      (s.running == Some(a) && PassLeft(At(s, a)) && (s.dirty || At(s, a).Starting?)))
  }

  predicate BegunFrom(log: seq<Mark>, n: nat) { exists j :: n <= j < |log| && log[j] == WalkBegun }

  lemma OwesKept(s: State, e: Event, n: nat, a: nat)
    requires OwnerOk(s) && Enabled(s, e) && Owes(s, n, a)
    ensures Owes(Step(s, e), n, a)
  {
    var t := Step(s, e);
    LogGrows(s, e);
    if BegunFrom(s.log, n) {
      var j :| n <= j < |s.log| && s.log[j] == WalkBegun;
      assert t.log[j] == WalkBegun;
    } else {
      assert Holds(At(s, a));
      if e.Move? && e.thread != a { assert Holds(At(s, e.thread)) <==> s.running == Some(e.thread); }
      if e == Move(a) && At(s, a).Starting? { assert t.log[|s.log|] == WalkBegun; }
    }
  }

  lemma {:induction false} OwesAlong(s: State, es: seq<Event>, t: State, n: nat, a: nat)
    requires Inv(s) && Runs(s, es, t) && Owes(s, n, a)
    ensures Owes(t, n, a)
    decreases |es|
  {
    if es != [] {
      var u := Step(s, es[0]);
      OwesKept(s, es[0], n, a);
      assert Runs(s, [es[0]], u) by { assert [es[0]][1..] == []; assert Runs(u, [], u); }
      RunKeepsInv(s, [es[0]], u);
      OwesAlong(u, es[1..], t, n, a);
    }
  }

  /** Whatever the interleaving, the holder does not leave before a walk has
      begun. */
  ghost predicate HolderServes(s: State, a: nat) {
    forall es, t :: Runs(s, es, t) && t.running != Some(a) ==> BegunFrom(t.log, |s.log|)
  }

  /** The promise made to a refused request, that the holder does one more
      pass before it stops, is kept exactly when the holder has a pass left;
      between its last look at the flag and its unlock it has none. */
  lemma OneMorePassIff(s: State, a: nat, b: nat)
    requires Inv(s) && Refused(s, a, b)
    ensures HolderServes(s, a) <==> PassLeft(At(s, a))
  {
    if PassLeft(At(s, a)) {
      forall es, t | Runs(s, es, t) && t.running != Some(a) ensures BegunFrom(t.log, |s.log|) {
        OwesAlong(s, es, t, |s.log|, a);
      }
    } else {
      var es, t := LeaveUnserved(s, a);
      assert Runs(s, es, t) && t.running != Some(a) && !BegunFrom(t.log, |s.log|);
    }
  }

  /** A holder with no pass left walks out, the flag still set. */
  lemma LeaveUnserved(s: State, a: nat) returns (es: seq<Event>, t: State)
    requires s.dirty && s.running == Some(a) && Holds(At(s, a)) && !PassLeft(At(s, a))
    ensures Runs(s, es, t) && t.running.None? && t.dirty
    ensures s.log <= t.log && forall j :: |s.log| <= j < |t.log| ==> t.log[j] != WalkBegun
    decreases match At(s, a) case Walking(_) => 2 case Looping(_) => 1 case _ => 0
  {
    var u := Step(s, Move(a));
    LogGrows(s, Move(a));
    if At(s, a).Leaving? {
      es, t := [Move(a)], u;
      assert es[1..] == [] && Runs(u, [], u);
    } else {
      var rest;
      rest, t := LeaveUnserved(u, a);
      es := [Move(a)] + rest;
      assert es[1..] == rest;
    }
  }

  ghost predicate Reaches(s: State, t: State) { exists es :: Runs(s, es, t) }

  lemma ReachesSelf(s: State)
    ensures Reaches(s, s)
  {
    assert Runs(s, [], s);
  }

  lemma ReachesFirst(s: State, e: Event, u: State, t: State)
    requires Enabled(s, e) && u == Step(s, e) && Reaches(u, t)
    ensures Reaches(s, t)
  {
    var es :| Runs(u, es, t);
    assert ([e] + es)[1..] == es;
    assert Runs(s, [e] + es, t);
  }

  function Start(): State { State(0, false, false, 0, None, map[], []) }

  /** One thread walks alone and has just seen the flag clear. */
  function LookedLast(): State {
    State(0, false, false, 0, Some(0), map[0 := Leaving], [Requested, Locked, Took, WalkBegun, WalkDone])
  }

  /** The dirty mark has been taken, the walk is about to begin. */
  function MarkTaken(): State {
    State(0, false, false, 0, Some(0), map[0 := Starting(1)], [Requested, Locked, Took])
  }

  lemma LookedLastHappens(t: State)
    requires Reaches(LookedLast(), t)
    ensures Reaches(Start(), t)
  {
    var s4 := MarkTaken();
    var s5 := s4.(threads := map[0 := Walking(1)], log := [Requested, Locked, Took, WalkBegun]);
    var s6 := s5.(threads := map[0 := Looping(1)], log := [Requested, Locked, Took, WalkBegun, WalkDone]);
    ReachesFirst(s6, Move(0), LookedLast(), t);
    ReachesFirst(s5, Move(0), s6, t);
    ReachesFirst(s4, Move(0), s5, t);
    MarkTakenHappens(t);
  }

  lemma MarkTakenHappens(t: State)
    requires Reaches(MarkTaken(), t)
    ensures Reaches(Start(), t)
  {
    var s := Start();
    var s1 := s.(threads := map[0 := Marking]);
    var s2 := s.(threads := map[0 := Trying], dirty := true, log := [Requested]);
    var s3 := s2.(threads := map[0 := Looping(0)], running := Some(0), log := [Requested, Locked]);
    ReachesFirst(s3, Move(0), MarkTaken(), t);
    ReachesFirst(s2, Move(0), s3, t);
    ReachesFirst(s1, Move(0), s2, t);
    ReachesFirst(s, CallRelease(0), s1, t);
  }

  /** The gap is real: a request can be refused by a holder with no pass left. */
  lemma RefusedInTheGap()
    ensures exists s: State, t: State :: Initial(s) && Reaches(s, t) && Refused(t, 0, 1) && !PassLeft(At(t, 0))
  {
    var s := LookedLast();
    var s1 := s.(threads := map[0 := Leaving, 1 := Marking]);
    var t := s1.(threads := map[0 := Leaving, 1 := Trying], dirty := true,
                 log := [Requested, Locked, Took, WalkBegun, WalkDone, Requested]);
    ReachesSelf(t);
    ReachesFirst(s1, Move(1), t, t);
    ReachesFirst(s, CallRelease(1), s1, t);
    LookedLastHappens(t);
    assert Initial(Start()) && Refused(t, 0, 1) && !PassLeft(At(t, 0));
  }
}
