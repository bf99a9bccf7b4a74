/** PageRank over import edges, on reals: forty rounds of pushing scores along
    weighted links, with restart and dangling mass. */
module PageRank {
  const DAMPING: real := 0.85
  const ITERATIONS: nat := 40

  type Link = (nat, real)

  function Total(s: seq<real>): real {
    if s == [] then 0.0 else Total(s[..|s| - 1]) + s[|s| - 1]
  }

  function WeightOf(links: seq<Link>): real {
    if links == [] then 0.0 else WeightOf(links[..|links| - 1]) + links[|links| - 1].1
  }

  predicate LinksInto(links: seq<Link>, n: nat) {
    forall k :: 0 <= k < |links| ==> links[k].0 < n && links[k].1 > 0.0
  }

  /** Links run between the `n` nodes and weigh something. */
  predicate Network(outgoing: seq<seq<Link>>, n: nat) {
    |outgoing| == n && forall i :: 0 <= i < n ==> LinksInto(outgoing[i], n)
  }

  predicate NonNegative(s: seq<real>) { forall i :: 0 <= i < |s| ==> s[i] >= 0.0 }

  /** Non-negative with sum exactly one. */
  predicate Distribution(s: seq<real>) { NonNegative(s) && Total(s) == 1.0 }

  // ---------------------------------------------------------- one round

  function Restarted(restart: seq<real>): (r: seq<real>)
    ensures |r| == |restart| && forall i :: 0 <= i < |r| ==> r[i] == (1.0 - DAMPING) * restart[i]
  { seq(|restart|, i requires 0 <= i < |restart| => (1.0 - DAMPING) * restart[i]) }

  /** What a link of weight `w` carries, out of a node with this score and
      this total link weight. */
  function Share(score: real, total: real): real -> real
    requires total != 0.0
  { w => DAMPING * score * w / total }

  /** One node's score, shared out over its links. */
  function PushLinks(next: seq<real>, links: seq<Link>, share: real -> real): (r: seq<real>)
    requires LinksInto(links, |next|)
    ensures |r| == |next|
  {
    if links == [] then next else
    var last := links[|links| - 1];
    var r := PushLinks(next, links[..|links| - 1], share);
    r[last.0 := r[last.0] + share(last.1)]
  }

  lemma {:induction false} WeightPositive(links: seq<Link>, n: nat)
    requires LinksInto(links, n)
    ensures links == [] ==> WeightOf(links) == 0.0
    ensures links != [] ==> WeightOf(links) > 0.0
  {
    if links != [] { WeightPositive(links[..|links| - 1], n); }
  }

  function PushNode(next: seq<real>, links: seq<Link>, score: real): (r: seq<real>)
    requires LinksInto(links, |next|)
    ensures |r| == |next|
  {
    WeightPositive(links, |next|);
    if links == [] then next else PushLinks(next, links, Share(score, WeightOf(links)))
  }

  function PushNodes(next: seq<real>, outgoing: seq<seq<Link>>, scores: seq<real>, m: nat): (r: seq<real>)
    requires Network(outgoing, |next|) && |scores| == |next| && m <= |next|
    ensures |r| == |next|
  {
    if m == 0 then next
    else PushNode(PushNodes(next, outgoing, scores, m - 1), outgoing[m - 1], scores[m - 1])
  }

  /** Scores of the first `m` nodes without links. */
  function Dangling(outgoing: seq<seq<Link>>, scores: seq<real>, m: nat): real
    requires m <= |outgoing| && m <= |scores|
  {
    if m == 0 then 0.0
    else Dangling(outgoing, scores, m - 1) + if outgoing[m - 1] == [] then scores[m - 1] else 0.0
  }

  /** Adds `c` times the restart vector. */
  function Spread(next: seq<real>, restart: seq<real>, c: real): (r: seq<real>)
    requires |next| == |restart|
    ensures |r| == |next| && forall i :: 0 <= i < |r| ==> r[i] == next[i] + c * restart[i]
  { seq(|next|, i requires 0 <= i < |next| => next[i] + c * restart[i]) }

  function Round(outgoing: seq<seq<Link>>, restart: seq<real>, scores: seq<real>): (r: seq<real>)
    requires |restart| == |scores| && Network(outgoing, |scores|)
    ensures |r| == |scores|
  {
    Spread(PushNodes(Restarted(restart), outgoing, scores, |scores|), restart,
           DAMPING * Dangling(outgoing, scores, |scores|))
  }

  function Rounds(outgoing: seq<seq<Link>>, restart: seq<real>, start: seq<real>, n: nat): (r: seq<real>)
    requires |restart| == |start| && Network(outgoing, |start|)
    ensures |r| == |start|
  {
    if n == 0 then start else Round(outgoing, restart, Rounds(outgoing, restart, start, n - 1))
  }

  method RunPagerank(outgoing: seq<seq<Link>>, restart: seq<real>, start: seq<real>) returns (scores: seq<real>)
    requires |restart| == |start| && Network(outgoing, |start|)
    ensures scores == Rounds(outgoing, restart, start, ITERATIONS)
    ensures Distribution(restart) && Distribution(start) ==> Distribution(scores)
  {
    scores := start;
    for round := 0 to ITERATIONS
      invariant |scores| == |start| && scores == Rounds(outgoing, restart, start, round)
    {
      scores := RunRound(outgoing, restart, scores);
    }
    if Distribution(restart) && Distribution(start) { RoundsConserve(outgoing, restart, start, ITERATIONS); }
  }

  method RunRound(outgoing: seq<seq<Link>>, restart: seq<real>, scores: seq<real>) returns (next: seq<real>)
    requires |restart| == |scores| && Network(outgoing, |scores|)
    ensures next == Round(outgoing, restart, scores)
  {
    var n := |scores|;
    var dangling := 0.0;
    for i := 0 to n
      invariant dangling == Dangling(outgoing, scores, i)
    {
      if outgoing[i] == [] { dangling := dangling + scores[i]; }
    }
    next := Restarted(restart);
    for node := 0 to n
      invariant |next| == n && next == PushNodes(Restarted(restart), outgoing, scores, node)
    {
      if outgoing[node] == [] { continue; }
      next := PushEach(next, outgoing[node], scores[node]);
    }
    next := SpreadEach(next, restart, DAMPING * dangling);
  }

  method PushEach(before: seq<real>, links: seq<Link>, score: real) returns (next: seq<real>)
    requires links != [] && LinksInto(links, |before|)
    ensures |next| == |before| && next == PushNode(before, links, score)
  {
    WeightPositive(links, |before|);
    next := PushAll(before, links, Share(score, WeightOf(links)));
  }

  method PushAll(before: seq<real>, links: seq<Link>, share: real -> real) returns (next: seq<real>)
    requires LinksInto(links, |before|)
    ensures |next| == |before| && next == PushLinks(before, links, share)
  {
    next := before;
    for k := 0 to |links|
      invariant |next| == |before| && next == PushLinks(before, links[..k], share)
    {
      assert links[..k + 1][..k] == links[..k];
      var (node, weight) := links[k];
      next := next[node := next[node] + share(weight)];
    }
    assert links[..|links|] == links;
  }

  method SpreadEach(before: seq<real>, restart: seq<real>, c: real) returns (next: seq<real>)
    requires |before| == |restart|
    ensures next == Spread(before, restart, c)
  {
    next := before;
    for i := 0 to |before|
      invariant |next| == |before|
      invariant forall j :: 0 <= j < i ==> next[j] == before[j] + c * restart[j]
      invariant forall j :: i <= j < |before| ==> next[j] == before[j]
    {
      next := next[i := next[i] + c * restart[i]];
    }
  }

  // -------------------------------------------------------- conservation

  lemma {:induction false} TotalUpdate(s: seq<real>, i: nat, x: real)
    requires i < |s|
    ensures Total(s[i := x]) == Total(s) - s[i] + x
  {
    var n := |s| - 1;
    if i == n {
      assert s[i := x][..n] == s[..n];
    } else {
      assert s[i := x][..n] == s[..n][i := x];
      TotalUpdate(s[..n], i, x);
    }
  }

  lemma {:induction false} TotalCombine(r: seq<real>, a: seq<real>, b: seq<real>, c: real)
    requires |r| == |a| == |b| && forall i :: 0 <= i < |r| ==> r[i] == a[i] + c * b[i]
    ensures Total(r) == Total(a) + c * Total(b)
  {
    if r != [] {
      var n := |r| - 1;
      TotalCombine(r[..n], a[..n], b[..n], c);
    }
  }

  lemma {:induction false} TotalScaled(r: seq<real>, a: seq<real>, c: real)
    requires |r| == |a| && forall i :: 0 <= i < |r| ==> r[i] == c * a[i]
    ensures Total(r) == c * Total(a)
  {
    if r != [] { TotalScaled(r[..|r| - 1], a[..|a| - 1], c); }
  }

  predicate Splits(share: real -> real, a: real, b: real) { share(a) + share(b) == share(a + b) }

  ghost predicate Additive(share: real -> real) {
    share(0.0) == 0.0 && forall a, b :: Splits(share, a, b)
  }

  ghost predicate Signed(share: real -> real) { forall w :: w >= 0.0 ==> share(w) >= 0.0 }

  lemma ShareFacts(score: real, total: real)
    requires total > 0.0
    ensures Additive(Share(score, total)) && Share(score, total)(total) == DAMPING * score
    ensures score >= 0.0 ==> Signed(Share(score, total))
  {
    ShareAdditive(score, total);
    ShareWhole(score, total);
    if score >= 0.0 { ShareSigned(score, total); }
  }

  lemma ShareWhole(score: real, total: real)
    requires total > 0.0
    ensures Share(score, total)(total) == DAMPING * score
  {
    FullShare(score, total);
  }

  lemma FullShare(score: real, total: real)
    requires total > 0.0
    ensures DAMPING * score * total / total == DAMPING * score
  {}

  lemma ShareAdditive(score: real, total: real)
    requires total > 0.0
    ensures Additive(Share(score, total))
  {
    var share := Share(score, total);
    forall a, b ensures Splits(share, a, b) { ShareAdds(score, a, b, total); }
    ShareNothing(score, total);
  }

  lemma ShareNothing(score: real, total: real)
    requires total > 0.0
    ensures Share(score, total)(0.0) == 0.0
  {
    assert DAMPING * score * 0.0 == 0.0;
  }

  lemma ShareSigned(score: real, total: real)
    requires total > 0.0 && score >= 0.0
    ensures Signed(Share(score, total))
  {
    forall w | w >= 0.0 ensures Share(score, total)(w) >= 0.0 { ShareSign(score, w, total); }
  }

  lemma ShareAdds(score: real, w: real, more: real, total: real)
    requires total != 0.0
    ensures DAMPING * score * w / total + DAMPING * score * more / total == DAMPING * score * (w + more) / total
  {}

  lemma ShareSign(score: real, w: real, total: real)
    requires score >= 0.0 && w >= 0.0 && total > 0.0
    ensures DAMPING * score * w / total >= 0.0
  {
    var x := DAMPING * score * w;
    assert x >= 0.0;
  }

  lemma {:induction false} PushLinksTotal(next: seq<real>, links: seq<Link>, share: real -> real)
    requires LinksInto(links, |next|) && Additive(share)
    ensures Total(PushLinks(next, links, share)) == Total(next) + share(WeightOf(links))
  {
    if links != [] {
      var n := |links| - 1;
      PushLinksTotal(next, links[..n], share);
      var r := PushLinks(next, links[..n], share);
      TotalUpdate(r, links[n].0, r[links[n].0] + share(links[n].1));
      assert Splits(share, WeightOf(links[..n]), links[n].1);
    }
  }

  lemma {:induction false} PushLinksSign(next: seq<real>, links: seq<Link>, share: real -> real)
    requires LinksInto(links, |next|) && Signed(share) && NonNegative(next)
    ensures NonNegative(PushLinks(next, links, share))
  {
    if links != [] { PushLinksSign(next, links[..|links| - 1], share); }
  }

  /** A node with links hands on exactly its damped score. */
  lemma {:induction false} PushNodeKeeps(next: seq<real>, links: seq<Link>, score: real)
    requires LinksInto(links, |next|)
    ensures Total(PushNode(next, links, score)) == Total(next) + if links == [] then 0.0 else DAMPING * score
    ensures score >= 0.0 && NonNegative(next) ==> NonNegative(PushNode(next, links, score))
  {
    WeightPositive(links, |next|);
    if links != [] {
      var share := Share(score, WeightOf(links));
      ShareFacts(score, WeightOf(links));
      PushLinksTotal(next, links, share);
      if score >= 0.0 && NonNegative(next) { PushLinksSign(next, links, share); }
    }
  }

  lemma {:induction false} PushNodesKeep(next: seq<real>, outgoing: seq<seq<Link>>, scores: seq<real>, m: nat)
    requires Network(outgoing, |next|) && |scores| == |next| && m <= |next|
    ensures Total(PushNodes(next, outgoing, scores, m)) ==
            Total(next) + DAMPING * (Total(scores[..m]) - Dangling(outgoing, scores, m))
    ensures NonNegative(scores) && NonNegative(next) ==> NonNegative(PushNodes(next, outgoing, scores, m))
  {
    if m > 0 {
      PushNodesKeep(next, outgoing, scores, m - 1);
      PushNodeKeeps(PushNodes(next, outgoing, scores, m - 1), outgoing[m - 1], scores[m - 1]);
      assert scores[..m][..m - 1] == scores[..m - 1];
    }
  }

  lemma {:induction false} DanglingSign(outgoing: seq<seq<Link>>, scores: seq<real>, m: nat)
    requires m <= |outgoing| && m <= |scores| && NonNegative(scores)
    ensures Dangling(outgoing, scores, m) >= 0.0
  {
    if m > 0 { DanglingSign(outgoing, scores, m - 1); }
  }

  lemma SpreadSign(next: seq<real>, restart: seq<real>, c: real)
    requires |next| == |restart| && NonNegative(next) && NonNegative(restart) && c >= 0.0
    ensures NonNegative(Spread(next, restart, c))
  {
    forall i | 0 <= i < |next| ensures next[i] + c * restart[i] >= 0.0 { assert c * restart[i] >= 0.0; }
  }

  lemma Once(c: real, x: real)
    requires x == 1.0
    ensures c * x == c
  {}

  lemma {:induction false} SpreadTotal(next: seq<real>, restart: seq<real>, c: real)
    requires |next| == |restart| && Total(restart) == 1.0
    ensures Total(Spread(next, restart, c)) == Total(next) + c
  {
    TotalCombine(Spread(next, restart, c), next, restart, c);
    Once(c, Total(restart));
  }

  lemma Balanced(before: real, after: real, mass: real)
    requires before == 1.0 - DAMPING && after == before + DAMPING * (1.0 - mass)
    ensures after + DAMPING * mass == 1.0
  {}

  lemma {:induction false} RestartedTotal(restart: seq<real>)
    requires Total(restart) == 1.0
    ensures Total(Restarted(restart)) == 1.0 - DAMPING
  {
    TotalScaled(Restarted(restart), restart, 1.0 - DAMPING);
    Once(1.0 - DAMPING, Total(restart));
  }

  lemma {:induction false} NextTotal(base: seq<real>, outgoing: seq<seq<Link>>, scores: seq<real>, mass: real)
    requires |base| == |scores| && Network(outgoing, |scores|) && Total(scores) == 1.0
    requires Total(base) == 1.0 - DAMPING && mass == Dangling(outgoing, scores, |scores|)
    ensures Total(PushNodes(base, outgoing, scores, |scores|)) + DAMPING * mass == 1.0
  {
    PushNodesKeep(base, outgoing, scores, |scores|);
    assert scores[..|scores|] == scores;
    Balanced(Total(base), Total(PushNodes(base, outgoing, scores, |scores|)), mass);
  }

  lemma {:induction false} RoundTotal(outgoing: seq<seq<Link>>, restart: seq<real>, scores: seq<real>)
    requires |restart| == |scores| && Network(outgoing, |scores|) && Total(restart) == 1.0 && Total(scores) == 1.0
    ensures Total(Round(outgoing, restart, scores)) == 1.0
  {
    var base, mass := Restarted(restart), Dangling(outgoing, scores, |scores|);
    RestartedTotal(restart);
    NextTotal(base, outgoing, scores, mass);
    SpreadTotal(PushNodes(base, outgoing, scores, |scores|), restart, DAMPING * mass);
  }

  lemma {:induction false} RoundSign(outgoing: seq<seq<Link>>, restart: seq<real>, scores: seq<real>)
    requires |restart| == |scores| && Network(outgoing, |scores|) && NonNegative(restart) && NonNegative(scores)
    ensures NonNegative(Round(outgoing, restart, scores))
  {
    var n := |scores|;
    var base := Restarted(restart);
    PushNodesKeep(base, outgoing, scores, n);
    DanglingSign(outgoing, scores, n);
    SpreadSign(PushNodes(base, outgoing, scores, n), restart, DAMPING * Dangling(outgoing, scores, n));
  }

  /** One round keeps a distribution a distribution. */
  lemma {:induction false} RoundConserves(outgoing: seq<seq<Link>>, restart: seq<real>, scores: seq<real>)
    requires |restart| == |scores| && Network(outgoing, |scores|)
    requires Distribution(restart) && Distribution(scores)
    ensures Distribution(Round(outgoing, restart, scores))
  {
    RoundTotal(outgoing, restart, scores);
    RoundSign(outgoing, restart, scores);
  }

  /** Mass is conserved over all rounds, dangling nodes and weights included. */
  lemma {:induction false} RoundsConserve(outgoing: seq<seq<Link>>, restart: seq<real>, start: seq<real>, n: nat)
    requires |restart| == |start| && Network(outgoing, |start|)
    requires Distribution(restart) && Distribution(start)
    ensures Distribution(Rounds(outgoing, restart, start, n))
  {
    if n > 0 {
      RoundsConserve(outgoing, restart, start, n - 1);
      RoundConserves(outgoing, restart, Rounds(outgoing, restart, start, n - 1));
    }
  }

  // ----------------------------------------------- the equation of a round

  /** Weight of the links that end at `i`. */
  function WeightTo(links: seq<Link>, i: nat): real {
    if links == [] then 0.0
    else WeightTo(links[..|links| - 1], i) + if links[|links| - 1].0 == i then links[|links| - 1].1 else 0.0
  }

  /** What `i` receives from the first `m` nodes: each splits its score in
      proportion to weight. */
  function Inflow(outgoing: seq<seq<Link>>, scores: seq<real>, i: nat, m: nat): real
    requires Network(outgoing, |scores|) && m <= |scores|
  {
    if m == 0 then 0.0 else
    WeightPositive(outgoing[m - 1], |scores|);
    Inflow(outgoing, scores, i, m - 1) +
    if outgoing[m - 1] == [] then 0.0
    else scores[m - 1] * (WeightTo(outgoing[m - 1], i) / WeightOf(outgoing[m - 1]))
  }

  lemma {:induction false} PushLinksAt(next: seq<real>, links: seq<Link>, share: real -> real, i: nat)
    requires LinksInto(links, |next|) && Additive(share) && i < |next|
    ensures PushLinks(next, links, share)[i] == next[i] + share(WeightTo(links, i))
  {
    if links != [] {
      var n := |links| - 1;
      PushLinksAt(next, links[..n], share, i);
      assert Splits(share, WeightTo(links[..n], i), links[n].1);
    }
  }

  lemma {:induction false} PushNodeAt(next: seq<real>, links: seq<Link>, score: real, i: nat)
    requires LinksInto(links, |next|) && links != [] && i < |next|
    ensures WeightOf(links) > 0.0
    ensures PushNode(next, links, score)[i] == next[i] + DAMPING * (score * (WeightTo(links, i) / WeightOf(links)))
  {
    WeightPositive(links, |next|);
    var w := WeightOf(links);
    var share := Share(score, w);
    ShareAdditive(score, w);
    PushLinksAt(next, links, share, i);
    ShareIs(score, WeightTo(links, i), w);
  }

  lemma ShareIs(score: real, a: real, total: real)
    requires total > 0.0
    ensures Share(score, total)(a) == DAMPING * (score * (a / total))
  {
    SameShare(score, a, total);
  }

  lemma SameShare(score: real, a: real, total: real)
    requires total != 0.0
    ensures DAMPING * score * a / total == DAMPING * (score * (a / total))
  {}

  lemma {:induction false} PushNodesAt(next: seq<real>, outgoing: seq<seq<Link>>, scores: seq<real>, i: nat, m: nat)
    requires Network(outgoing, |next|) && |scores| == |next| && i < |next| && m <= |next|
    ensures PushNodes(next, outgoing, scores, m)[i] == next[i] + DAMPING * Inflow(outgoing, scores, i, m)
  {
    if m > 0 {
      PushNodesAt(next, outgoing, scores, i, m - 1);
      if outgoing[m - 1] != [] {
        PushNodeAt(PushNodes(next, outgoing, scores, m - 1), outgoing[m - 1], scores[m - 1], i);
      }
    }
  }

  /** A score is made of restart, damped inflow and the dangling mass. */
  predicate Equation(score: real, start: real, inflow: real, dangling: real) {
    score == 0.15 * start + 0.85 * inflow + (0.85 * dangling) * start
  }

  lemma Assembled(score: real, start: real, base: real, next: real, inflow: real, c: real, dangling: real)
    requires base == (1.0 - DAMPING) * start && next == base + DAMPING * inflow
    requires c == DAMPING * dangling && score == next + c * start
    ensures Equation(score, start, inflow, dangling)
  {}

  /** The PageRank equation, for every node and round. */
  lemma {:induction false} RoundEquation(outgoing: seq<seq<Link>>, restart: seq<real>, scores: seq<real>, i: nat)
    requires |restart| == |scores| && Network(outgoing, |scores|) && i < |scores|
    ensures Equation(Round(outgoing, restart, scores)[i], restart[i], Inflow(outgoing, scores, i, |scores|),
                     Dangling(outgoing, scores, |scores|))
  {
    var base := Restarted(restart);
    var next, c := PushNodes(base, outgoing, scores, |scores|), DAMPING * Dangling(outgoing, scores, |scores|);
    PushNodesAt(base, outgoing, scores, i, |scores|);
    SpreadAt(next, restart, c, i);
    Assembled(Round(outgoing, restart, scores)[i], restart[i], base[i], next[i],
              Inflow(outgoing, scores, i, |scores|), c, Dangling(outgoing, scores, |scores|));
  }

  lemma EquationAtRest(score: real, start: real)
    requires Equation(score, start, 0.0, 1.0)
    ensures score == start
  {}

  lemma {:induction false} NoInflow(outgoing: seq<seq<Link>>, scores: seq<real>, i: nat, m: nat)
    requires Network(outgoing, |scores|) && m <= |scores| && forall k :: 0 <= k < m ==> outgoing[k] == []
    ensures Inflow(outgoing, scores, i, m) == 0.0 && Dangling(outgoing, scores, m) == Total(scores[..m])
  {
    if m > 0 {
      NoInflow(outgoing, scores, i, m - 1);
      assert scores[..m][..m - 1] == scores[..m - 1];
    }
  }

  /** Without links the scores stay the restart they began with. */
  lemma {:induction false} RestartStays(outgoing: seq<seq<Link>>, restart: seq<real>, n: nat)
    requires Network(outgoing, |restart|) && Total(restart) == 1.0
    requires forall k :: 0 <= k < |restart| ==> outgoing[k] == []
    ensures Rounds(outgoing, restart, restart, n) == restart
  {
    if n > 0 {
      RestartStays(outgoing, restart, n - 1);
      assert restart[..|restart|] == restart;
      forall i | 0 <= i < |restart| ensures Round(outgoing, restart, restart)[i] == restart[i] {
        NoInflow(outgoing, restart, i, |restart|);
        RoundEquation(outgoing, restart, restart, i);
        EquationAtRest(Round(outgoing, restart, restart)[i], restart[i]);
      }
    }
  }

  lemma SpreadAt(next: seq<real>, restart: seq<real>, c: real, i: nat)
    requires |next| == |restart| && i < |next|
    ensures Spread(next, restart, c)[i] == next[i] + c * restart[i]
  {}

  // ------------------------------------------------------------ normalize

  function NormalizedOf(values: seq<real>): (r: seq<real>)
    ensures |r| == |values|
  {
    var sum := Total(values);
    if sum > 0.0 then seq(|values|, i requires 0 <= i < |values| => values[i] / sum) else values
  }

  /** Divides by the sum, when that is positive. */
  method Normalize(values: seq<real>) returns (r: seq<real>)
    ensures r == NormalizedOf(values)
    ensures Total(values) > 0.0 ==> Total(r) == 1.0 && Proportional(r, values, Total(values))
    ensures NonNegative(values) && SomePositive(values) ==> Distribution(r)
  {
    var sum := 0.0;
    for i := 0 to |values|
      invariant sum == Total(values[..i])
    {
      assert values[..i + 1][..i] == values[..i];
      sum := sum + values[i];
    }
    assert values[..|values|] == values;
    if sum > 0.0 {
      r := DivideEach(values, sum);
      Normalized(r, values, sum);
    } else {
      r := values;
    }
    if NonNegative(values) && SomePositive(values) { PositiveTotal(values); }
  }

  predicate SomePositive(s: seq<real>) { exists i :: 0 <= i < |s| && s[i] > 0.0 }

  predicate Proportional(r: seq<real>, values: seq<real>, sum: real) {
    |r| == |values| && forall i :: 0 <= i < |r| ==>
      r[i] * sum == values[i] && (values[i] >= 0.0 && sum > 0.0 ==> r[i] >= 0.0)
  }

  method DivideEach(values: seq<real>, sum: real) returns (r: seq<real>)
    requires sum != 0.0
    ensures |r| == |values| && forall i :: 0 <= i < |r| ==> r[i] == values[i] / sum
  {
    r := values;
    for i := 0 to |values|
      invariant |r| == |values|
      invariant forall j :: 0 <= j < i ==> r[j] == values[j] / sum
      invariant forall j :: i <= j < |values| ==> r[j] == values[j]
    {
      r := r[i := r[i] / sum];
    }
  }

  lemma Quotient(x: real, sum: real)
    requires sum > 0.0
    ensures x / sum == (1.0 / sum) * x && (x / sum) * sum == x && (x >= 0.0 ==> x / sum >= 0.0)
  {}

  lemma {:induction false} Normalized(r: seq<real>, values: seq<real>, sum: real)
    requires sum == Total(values) && sum > 0.0
    requires |r| == |values| && forall i :: 0 <= i < |r| ==> r[i] == values[i] / sum
    ensures Total(r) == 1.0 && Proportional(r, values, sum)
  {
    var c := 1.0 / sum;
    forall i | 0 <= i < |r|
      ensures r[i] == c * values[i] && r[i] * sum == values[i] && (values[i] >= 0.0 ==> r[i] >= 0.0)
    {
      Quotient(values[i], sum);
    }
    TotalScaled(r, values, c);
    Quotient(sum, sum);
  }

  lemma PositiveTotal(s: seq<real>)
    requires NonNegative(s) && SomePositive(s)
    ensures Total(s) > 0.0
  {
    var i :| 0 <= i < |s| && s[i] > 0.0;
    TotalAtLeast(s, i);
  }

  lemma {:induction false} TotalAtLeast(s: seq<real>, i: nat)
    requires NonNegative(s) && i < |s|
    ensures Total(s) >= s[i]
  {
    var n := |s| - 1;
    if i < n { TotalAtLeast(s[..n], i); } else { TotalSign(s[..n]); }
  }

  lemma {:induction false} TotalSign(s: seq<real>)
    requires NonNegative(s)
    ensures Total(s) >= 0.0
  {
    if s != [] { TotalSign(s[..|s| - 1]); }
  }
}
