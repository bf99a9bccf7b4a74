/** What the trim protocol saves: no walk without a request of its own, and no
    quiet call before the wait it promises is over. */
module TrimThrift {
  import opened Types
  import opened Trim

  function Marks(s: State, m: Mark): nat { multiset(s.log)[m] }

  /** The dirty flag and every mark taken stand for requests of their own; every
      mark taken is a walk, begun or about to. */
  ghost predicate Thrifty(s: State) {
    && Marks(s, Took) + (if s.dirty then 1 else 0) <= Marks(s, Requested)
    && Marks(s, WalkBegun) + (if IsStarting(s) then 1 else 0) == Marks(s, Took)
  }

  lemma LogCounts(log: seq<Mark>, x: Option<Mark>, m: Mark)
    ensures multiset(Logged(log, x))[m] == multiset(log)[m] + if x == Some(m) then 1 else 0
  {}

  /** One move, as far as the marks and the flag go. */
  lemma MoveThrifty(s: State, t: nat)
    requires OwnerOk(s) && Thrifty(s) && Enabled(s, Move(t))
    ensures Thrifty(MoveOne(s, t))
  {
    var p, u := At(s, t), MoveOne(s, t);
    LogCounts(s.log, MarkOf(s, p), Took);
    LogCounts(s.log, MarkOf(s, p), Requested);
    LogCounts(s.log, MarkOf(s, p), WalkBegun);
    OwnerMoves(s, t);
    StartingMoves(s, t);
  }

  lemma StartingMoves(s: State, t: nat)
    requires OwnerOk(s) && Enabled(s, Move(t))
    ensures IsStarting(MoveOne(s, t)) <==>
      if At(s, t).Starting? then false else IsStarting(s) || MarkOf(s, At(s, t)) == Some(Took)
    ensures At(s, t).Starting? ==> IsStarting(s)
    ensures MarkOf(s, At(s, t)) == Some(Took) ==> !IsStarting(s) && s.dirty && !MoveOne(s, t).dirty
  {
    OwnerMoves(s, t);
    assert Holds(At(s, t)) <==> s.running == Some(t);
  }

  lemma StepThrifty(s: State, e: Event)
    requires OwnerOk(s) && Thrifty(s) && Enabled(s, e)
    ensures Thrifty(Step(s, e)) && OwnerOk(Step(s, e))
  {
    OwnerKept(s, e);
    if e.Move? { MoveThrifty(s, e.thread); } else { StandsStill(s, e); }
  }

  lemma StandsStill(s: State, e: Event)
    requires OwnerOk(s) && Enabled(s, e) && !e.Move?
    ensures var u := Step(s, e); u.log == s.log && u.dirty == s.dirty && (IsStarting(u) <==> IsStarting(s))
  {
    var u := Step(s, e);
    if s.running.Some? {
      var t := s.running.value;
      assert Holds(At(s, t));
      assert At(u, t) == At(s, t);
    }
  }

  lemma {:induction false} RunThrifty(s: State, es: seq<Event>, t: State)
    requires OwnerOk(s) && Thrifty(s) && Runs(s, es, t)
    ensures Thrifty(t)
    decreases |es|
  {
    if es != [] {
      StepThrifty(s, es[0]);
      RunThrifty(Step(s, es[0]), es[1..], t);
    }
  }

  /** In every interleaving there are at most as many walks as requests: each
      walk spends the dirty mark of some request, and no mark is spent twice. */
  lemma WalksSpendRequests(s: State, es: seq<Event>, t: State)
    requires Initial(s) && Runs(s, es, t)
    ensures Marks(t, WalkBegun) <= Marks(t, Requested)
  {
    assert OwnerOk(s) by { forall u: nat ensures !Holds(At(s, u)) {} }
    RunThrifty(s, es, t);
  }

  // ------------------------------------------------------------ quiet calls

  predicate LeavesAlone(es: seq<Event>, t: nat) {
    forall i :: 0 <= i < |es| ==> es[i] != Move(t) && !(es[i].Spawn? && es[i].child == t)
  }

  lemma {:induction false} StaysWaiting(s: State, es: seq<Event>, r: State, t: nat)
    requires LeavesAlone(es, t) && At(s, t).Waiting? && Runs(s, es, r)
    ensures At(r, t) == At(s, t)
    decreases |es|
  {
    if es != [] {
      var u := Step(s, es[0]);
      assert es[0] != Move(t);
      assert At(u, t) == At(s, t);
      StaysWaiting(u, es[1..], r, t);
    }
  }

  /** A thread that looks when the last request was, and looks again whatever
      happens in between, goes on to its call exactly if five seconds have
      passed since that request; else it looks once more. */
  lemma CallsAfterFiveSeconds(s: State, es: seq<Event>, r: State, t: nat)
    requires At(s, t).Loading? && LeavesAlone(es, t) && Runs(Step(s, Move(t)), es, r)
    ensures Enabled(r, Move(t))
    ensures At(Step(r, Move(t)), t) == if r.now >= s.lastRequest + 5000 then Clearing else Loading
  {
    StaysWaiting(Step(s, Move(t)), es, r, t);
  }
}
