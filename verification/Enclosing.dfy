/** Attribution of calls to the symbols around them: the line sweep with an
    ordered open set and a heap of ends answers as the plain scan does. */
module Enclosing {
  import opened Types
  import opened Sorting

  predicate Spans(s: CodeSymbol, line: u32) { s.startLine <= line <= s.endLine }

  function Width(s: CodeSymbol): int { s.endLine - s.startLine }

  predicate PairLe(a: (int, nat), b: (int, nat)) { a.0 < b.0 || (a.0 == b.0 && a.1 <= b.1) }

  predicate TripleLe(a: (int, int, nat), b: (int, int, nat)) {
    a.0 < b.0 || (a.0 == b.0 && PairLe((a.1, a.2), (b.1, b.2)))
  }

  function Key(syms: seq<CodeSymbol>, i: nat): (int, nat)
    requires i < |syms|
  { (Width(syms[i]), i) }

  /** The answer the plain scan defines: the narrowest symbol whose span holds
      the line, the earliest one on ties, and nothing if no span holds it. */
  ghost predicate IsSmallest(syms: seq<CodeSymbol>, line: u32, r: Option<nat>) {
    match r
    case None => forall i :: 0 <= i < |syms| ==> !Spans(syms[i], line)
    case Some(k) =>
      && k < |syms| && Spans(syms[k], line)
      && forall i :: 0 <= i < |syms| && Spans(syms[i], line) ==> PairLe(Key(syms, k), Key(syms, i))
  }

  /** It is one answer, and never a reversed span. */
  lemma SmallestUnique(syms: seq<CodeSymbol>, line: u32, a: Option<nat>, b: Option<nat>)
    requires IsSmallest(syms, line, a) && IsSmallest(syms, line, b)
    ensures a == b
    ensures a.Some? ==> syms[a.value].startLine <= syms[a.value].endLine
  {
    if a.Some? && b.Some? {
      assert PairLe(Key(syms, a.value), Key(syms, b.value));
      assert PairLe(Key(syms, b.value), Key(syms, a.value));
    }
  }

  /** The plain scan over the first `n` symbols. */
  function Scan(syms: seq<CodeSymbol>, n: nat, line: u32): (r: Option<nat>)
    requires n <= |syms|
    ensures r.Some? ==> r.value < n
  {
    if n == 0 then None else
    var r := Scan(syms, n - 1, line);
    if Spans(syms[n - 1], line) && (r == None || Width(syms[n - 1]) < Width(syms[r.value]))
    then Some(n - 1) else r
  }

  function LinearScan(syms: seq<CodeSymbol>, line: u32): (r: Option<nat>)
    ensures r.Some? ==> r.value < |syms|
  { Scan(syms, |syms|, line) }

  lemma {:induction false} ScanIsSmallest(syms: seq<CodeSymbol>, n: nat, line: u32)
    requires n <= |syms|
    ensures IsSmallest(syms[..n], line, Scan(syms, n, line))
  {
    if n > 0 {
      ScanIsSmallest(syms, n - 1, line);
      assert syms[..n] == syms[..n - 1] + [syms[n - 1]];
    }
  }

  /** The plain scan finds the smallest containing span. */
  lemma LinearScanIsSmallest(syms: seq<CodeSymbol>, line: u32)
    ensures IsSmallest(syms, line, LinearScan(syms, line))
  {
    ScanIsSmallest(syms, |syms|, line);
    assert syms[..|syms|] == syms;
  }

  method SmallestLinear(syms: seq<CodeSymbol>, line: u32) returns (r: Option<nat>)
    ensures r == LinearScan(syms, line)
  {
    r := None;
    for i := 0 to |syms|
      invariant r == Scan(syms, i, line)
    {
      if Spans(syms[i], line) && (r == None || Width(syms[i]) < Width(syms[r.value])) {
        r := Some(i);
      }
    }
  }

  lemma {:induction false} LeastPair(s: set<(int, nat)>)
    requires s != {}
    ensures exists m :: m in s && forall x :: x in s ==> PairLe(m, x)
  {
    var e :| e in s;
    if s == {e} {
      assert PairLe(e, e);
    } else {
      LeastPair(s - {e});
      var m :| m in s - {e} && forall x :: x in s - {e} ==> PairLe(m, x);
      var least := if PairLe(m, e) then m else e;
      forall x | x in s ensures PairLe(least, x) { assert x == e || x in s - {e}; }
      assert least in s;
    }
  }

  lemma {:induction false} LeastTriple(s: set<(int, int, nat)>)
    requires s != {}
    ensures exists m :: m in s && forall x :: x in s ==> TripleLe(m, x)
  {
    var e :| e in s;
    if s == {e} {
      assert TripleLe(e, e);
    } else {
      LeastTriple(s - {e});
      var m :| m in s - {e} && forall x :: x in s - {e} ==> TripleLe(m, x);
      var least := if TripleLe(m, e) then m else e;
      forall x | x in s ensures TripleLe(least, x) { assert x == e || x in s - {e}; }
      assert least in s;
    }
  }

  function Indices(n: nat): (r: seq<nat>)
    ensures |r| == n && forall i :: 0 <= i < n ==> r[i] == i
  { seq(n, i requires 0 <= i < n => i) }

  /** Positions 0..n in the order of a key, each of them once. */
  ghost predicate Ordering(order: seq<nat>, keys: seq<int>) {
    && (forall i :: 0 <= i < |keys| ==> i in order)
    && (forall k :: 0 <= k < |order| ==> order[k] < |keys|)
    && (forall j, k :: 0 <= j < k < |order| ==> order[j] != order[k])
    && (forall j, k :: 0 <= j < k < |order| ==> keys[order[j]] <= keys[order[k]])
  }

  method SortByKey(keys: seq<int>) returns (order: seq<nat>)
    ensures |order| == |keys| && Ordering(order, keys)
  {
    var n := |keys|;
    var le := (a: nat, b: nat) => (if a < n then keys[a] else 0) <= (if b < n then keys[b] else 0);
    order := Sort(Indices(n), le);
    SortCorrect(Indices(n), le);
    SortMembers(Indices(n), le);
    assert Distinct(Indices(n));
    DistinctPermutation(Indices(n), order);
    forall i | 0 <= i < n ensures i in order { assert Indices(n)[i] == i; }
    forall k | 0 <= k < |order| ensures order[k] < n { assert order[k] in Indices(n); }
  }

  /** A symbol is held open while its key is in `open` and its end in `ends`. */
  ghost predicate Mirrors(
    syms: seq<CodeSymbol>, live: set<nat>, open: set<(int, nat)>, ends: set<(int, int, nat)>) {
    && (forall i :: i in live ==> i < |syms| && Key(syms, i) in open && (syms[i].endLine, Width(syms[i]), i) in ends)
    && (forall e :: e in open ==> e.1 in live && e == Key(syms, e.1))
    && (forall e :: e in ends ==> e.2 in live && e == (syms[e.2].endLine, Width(syms[e.2]), e.2))
  }

  /** After the lines up to `line`: the first `next` symbols by start line have
      been opened, reversed spans never are, and only ended ones were retired. */
  ghost predicate Swept(syms: seq<CodeSymbol>, byStart: seq<nat>, next: nat, line: int, live: set<nat>)
    requires next <= |byStart| && forall k :: 0 <= k < |byStart| ==> byStart[k] < |syms|
  {
    && (forall i :: i in live ==> i in byStart[..next] && i < |syms| && Width(syms[i]) >= 0)
    && (forall k :: 0 <= k < next ==> syms[byStart[k]].startLine <= line)
    && (forall k ::
          0 <= k < next && Width(syms[byStart[k]]) >= 0 && byStart[k] !in live ==> syms[byStart[k]].endLine < line)
  }

  const ENCLOSING_SWEEP_MIN_SYMBOLS: nat := 48

  method EnclosingSymbols(syms: seq<CodeSymbol>, calls: seq<(Text, u32)>) returns (out: seq<Option<nat>>)
    ensures |out| == |calls|
    ensures forall c :: 0 <= c < |calls| ==> out[c] == LinearScan(syms, calls[c].1)
  {
    if |syms| < ENCLOSING_SWEEP_MIN_SYMBOLS || |calls| < 2 {
      out := [];
      for c := 0 to |calls|
        invariant |out| == c
        invariant forall d :: 0 <= d < c ==> out[d] == LinearScan(syms, calls[d].1)
      {
        var r := SmallestLinear(syms, calls[c].1);
        out := out + [r];
      }
    } else {
      var starts := seq(|syms|, i requires 0 <= i < |syms| => syms[i].startLine);
      var lines := seq(|calls|, i requires 0 <= i < |calls| => calls[i].1);
      var byStart := SortByKey(starts);
      var callOrder := SortByKey(lines);
      out := Sweep(syms, starts, byStart, lines, callOrder);
      forall c | 0 <= c < |calls| ensures out[c] == LinearScan(syms, calls[c].1) {
        LinearScanIsSmallest(syms, calls[c].1);
        SmallestUnique(syms, lines[c], out[c], LinearScan(syms, calls[c].1));
      }
    }
  }

  method Sweep(
    syms: seq<CodeSymbol>, ghost starts: seq<int>, byStart: seq<nat>, lines: seq<u32>, callOrder: seq<nat>)
    returns (out: seq<Option<nat>>)
    requires |starts| == |syms| && forall i :: 0 <= i < |syms| ==> starts[i] == syms[i].startLine
    requires Ordering(byStart, starts) && Ordering(callOrder, lines)
    ensures |out| == |lines|
    ensures forall c :: 0 <= c < |lines| ==> IsSmallest(syms, lines[c], out[c])
  {
    out := seq(|lines|, _ => None);
    var open: set<(int, nat)>, ends: set<(int, int, nat)> := {}, {};
    ghost var live: set<nat>, before: int := {}, -1;
    var next: nat := 0;
    for o := 0 to |callOrder|
      invariant |out| == |lines| && next <= |byStart|
      invariant Mirrors(syms, live, open, ends)
      invariant Swept(syms, byStart, next, before, live)
      invariant forall d :: o <= d < |callOrder| ==> before <= lines[callOrder[d]]
      invariant forall d :: 0 <= d < o ==> IsSmallest(syms, lines[callOrder[d]], out[callOrder[d]])
    {
      var line := lines[callOrder[o]];
      open, ends, next, live := OpenStarted(syms, starts, byStart, line, open, ends, next, live, before);
      open, ends, live := RetireEnded(syms, byStart, line, open, ends, next, live);
      var answer := First(open);
      OpenAreSpanning(syms, starts, byStart, next, line, live, open, ends, answer);
      out := out[callOrder[o] := answer];
      before := line;
    }
    forall c | 0 <= c < |lines| ensures IsSmallest(syms, lines[c], out[c]) {
      var b: nat := c;
      assert b in callOrder;
    }
  }

  /** The first element of the ordered open set, if any. */
  method First(open: set<(int, nat)>) returns (r: Option<nat>)
    ensures r == None <==> open == {}
    ensures r.Some? ==> exists w :: (w, r.value) in open && forall e :: e in open ==> PairLe((w, r.value), e)
  {
    if open == {} { return None; }
    LeastPair(open);
    var least :| least in open && forall e :: e in open ==> PairLe(least, e);
    assert (least.0, least.1) == least;
    return Some(least.1);
  }

  method OpenStarted(
    syms: seq<CodeSymbol>, ghost starts: seq<int>, byStart: seq<nat>, line: u32,
    open0: set<(int, nat)>, ends0: set<(int, int, nat)>, next0: nat, ghost live0: set<nat>, ghost before: int)
    returns (open: set<(int, nat)>, ends: set<(int, int, nat)>, next: nat, ghost live: set<nat>)
    requires |starts| == |syms| && forall i :: 0 <= i < |syms| ==> starts[i] == syms[i].startLine
    requires Ordering(byStart, starts) && next0 <= |byStart|
    requires Mirrors(syms, live0, open0, ends0)
    requires before <= line && Swept(syms, byStart, next0, before, live0)
    ensures next <= |byStart| && Mirrors(syms, live, open, ends) && Swept(syms, byStart, next, line, live)
    ensures forall k :: next <= k < |byStart| ==> line < syms[byStart[k]].startLine
  {
    open, ends, next, live := open0, ends0, next0, live0;
    while next < |byStart| && syms[byStart[next]].startLine <= line
      invariant next <= |byStart| && Mirrors(syms, live, open, ends) && Swept(syms, byStart, next, line, live)
    {
      var i := byStart[next];
      assert byStart[..next + 1] == byStart[..next] + [i];
      if syms[i].startLine <= syms[i].endLine {
        open := open + {(syms[i].endLine - syms[i].startLine, i)};
        ends := ends + {(syms[i].endLine, syms[i].endLine - syms[i].startLine, i)};
        live := live + {i};
      }
      next := next + 1;
    }
  }

  method RetireEnded(
    syms: seq<CodeSymbol>, byStart: seq<nat>, line: u32,
    open0: set<(int, nat)>, ends0: set<(int, int, nat)>, next: nat, ghost live0: set<nat>)
    returns (open: set<(int, nat)>, ends: set<(int, int, nat)>, ghost live: set<nat>)
    requires next <= |byStart| && forall k :: 0 <= k < |byStart| ==> byStart[k] < |syms|
    requires Mirrors(syms, live0, open0, ends0) && Swept(syms, byStart, next, line, live0)
    ensures Mirrors(syms, live, open, ends) && Swept(syms, byStart, next, line, live)
    ensures forall i :: i in live ==> line <= syms[i].endLine
  {
    open, ends, live := open0, ends0, live0;
    while ends != {}
      invariant Mirrors(syms, live, open, ends) && Swept(syms, byStart, next, line, live)
      decreases ends
    {
      LeastTriple(ends);
      var top :| top in ends && forall e :: e in ends ==> TripleLe(top, e);
      if top.0 >= line { break; }
      open := open - {(top.1, top.2)};
      ends := ends - {top};
      live := live - {top.2};
    }
    forall i | i in live ensures line <= syms[i].endLine {
      assert (syms[i].endLine, Width(syms[i]), i) in ends;
    }
  }

  /** With everything started opened and everything ended retired, what is open
      is what spans the line, so the least open key is the scan's answer. */
  lemma OpenAreSpanning(
    syms: seq<CodeSymbol>, starts: seq<int>, byStart: seq<nat>, next: nat, line: u32,
    live: set<nat>, open: set<(int, nat)>, ends: set<(int, int, nat)>, answer: Option<nat>)
    requires |starts| == |syms| && Ordering(byStart, starts) && next <= |byStart|
    requires Mirrors(syms, live, open, ends) && Swept(syms, byStart, next, line, live)
    requires forall k :: next <= k < |byStart| ==> line < syms[byStart[k]].startLine
    requires forall i :: i in live ==> line <= syms[i].endLine
    requires answer == None <==> open == {}
    requires answer.Some? ==>
      exists w :: (w, answer.value) in open && forall e :: e in open ==> PairLe((w, answer.value), e)
    ensures IsSmallest(syms, line, answer)
  {
    forall i | 0 <= i < |syms| ensures i in live <==> Spans(syms[i], line) {
      var b: nat := i;
      assert b in byStart;
      var k :| 0 <= k < |byStart| && byStart[k] == b;
      if i in live {
        var m :| 0 <= m < next && byStart[..next][m] == i;
        assert syms[byStart[m]].startLine <= line;
      }
    }
  }
}
