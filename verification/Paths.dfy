/** Repository-relative paths: normal form, joining with `.` and `..`, and the
    escape test. */
module Paths {
  import opened Types

  const SLASH: byte := 0x2F
  const BACKSLASH: byte := 0x5C
  const COLON: byte := 0x3A
  const DOT: byte := 0x2E

  const HERE: Text := [DOT]
  const UP: Text := [DOT, DOT]
  const DOT_SLASH: Text := [DOT, SLASH]

  // -------------------------------------------------------------- normal form

  function Forward(s: Text): (r: Text)
    ensures |r| == |s| && forall i :: 0 <= i < |s| ==> r[i] == if s[i] == BACKSLASH then SLASH else s[i]
  { seq(|s|, i requires 0 <= i < |s| => if s[i] == BACKSLASH then SLASH else s[i]) }

  /** Strips every leading `/` and `./`. */
  function Stripped(s: Text): Text {
    if s != [] && s[0] == SLASH then Stripped(s[1..])
    else if DOT_SLASH <= s then Stripped(s[2..])
    else s
  }

  function RelPath(s: Text): Text { Stripped(Forward(s)) }

  predicate IsNormalRel(p: Text) {
    BACKSLASH !in p && !(p != [] && p[0] == SLASH) && !(DOT_SLASH <= p)
  }

  /** The loops of `RelPath::new`. */
  method NewRelPath(s: Text) returns (p: Text)
    ensures p == RelPath(s)
  {
    p := Forward(s);
    while true
      invariant Stripped(p) == RelPath(s)
      decreases |p|
    {
      var t := p;
      while t != [] && t[0] == SLASH
        invariant Stripped(t) == RelPath(s) && |t| <= |p|
        decreases |t|
      {
        t := t[1..];
      }
      if DOT_SLASH <= t { p := t[2..]; } else { return t; }
    }
  }

  lemma {:induction false} StrippedIsNormal(s: Text)
    requires BACKSLASH !in s
    ensures IsNormalRel(Stripped(s))
    decreases |s|
  {
    if s != [] && s[0] == SLASH {
      assert forall x :: x in s[1..] ==> x in s;
      StrippedIsNormal(s[1..]);
    } else if DOT_SLASH <= s {
      assert forall x :: x in s[2..] ==> x in s;
      StrippedIsNormal(s[2..]);
    }
  }

  /** A path is normal exactly when normalising leaves it alone; normalising
      always ends in a normal path. */
  lemma NormalIffFixed(p: Text)
    ensures IsNormalRel(p) <==> RelPath(p) == p
    ensures IsNormalRel(RelPath(p))
  {
    assert BACKSLASH !in Forward(p);
    StrippedIsNormal(Forward(p));
    if BACKSLASH !in p {
      forall i | 0 <= i < |p| ensures Forward(p)[i] == p[i] { assert p[i] in p; }
      assert Forward(p) == p;
    }
  }

  /** What normalising strips: slashes and `./` in front, in either spelling of
      the slash. */
  lemma PrefixesStrip(p: Text)
    ensures RelPath([SLASH] + p) == RelPath(p) && RelPath([BACKSLASH] + p) == RelPath(p)
    ensures RelPath([DOT, SLASH] + p) == RelPath(p) && RelPath([DOT, BACKSLASH] + p) == RelPath(p)
    ensures RelPath(Forward(p)) == RelPath(p)
  {
    assert Forward([SLASH] + p) == [SLASH] + Forward(p) && Forward([BACKSLASH] + p) == [SLASH] + Forward(p);
    assert Forward([DOT, SLASH] + p) == DOT_SLASH + Forward(p);
    assert Forward([DOT, BACKSLASH] + p) == DOT_SLASH + Forward(p);
    assert ([SLASH] + Forward(p))[1..] == Forward(p) && (DOT_SLASH + Forward(p))[2..] == Forward(p);
    assert Forward(Forward(p)) == Forward(p);
  }

  // ---------------------------------------------------------------- segments

  function IndexOf(s: Text, c: byte): (i: nat)
    ensures i <= |s| && (i < |s| ==> s[i] == c) && forall k :: 0 <= k < i ==> s[k] != c
  {
    if s == [] || s[0] == c then 0 else
    var j := IndexOf(s[1..], c);
    assert forall k :: 1 <= k < j + 1 ==> s[k] == s[1..][k - 1];
    j + 1
  }

  /** The pieces between slashes; at least one. */
  function Split(s: Text): (r: seq<Text>)
    ensures r != [] && forall k :: 0 <= k < |r| ==> SLASH !in r[k]
    decreases |s|
  {
    var i := IndexOf(s, SLASH);
    if i == |s| then [s] else [s[..i]] + Split(s[i + 1..])
  }

  function Joined(segs: seq<Text>): Text {
    if segs == [] then [] else if |segs| == 1 then segs[0] else segs[0] + [SLASH] + Joined(segs[1..])
  }

  lemma {:induction false} SplitJoined(segs: seq<Text>)
    requires segs != [] && forall k :: 0 <= k < |segs| ==> SLASH !in segs[k]
    ensures Split(Joined(segs)) == segs
  {
    var s := Joined(segs);
    assert SLASH !in segs[0];
    if |segs| == 1 {
      assert IndexOf(s, SLASH) == |s|;
    } else {
      assert s == segs[0] + ([SLASH] + Joined(segs[1..]));
      assert s[|segs[0]|] == SLASH;
      assert forall k :: 0 <= k < |segs[0]| ==> s[k] == segs[0][k] && s[k] in segs[0];
      assert IndexOf(s, SLASH) == |segs[0]|;
      assert s[|segs[0]| + 1..] == Joined(segs[1..]);
      SplitJoined(segs[1..]);
    }
  }

  /** One segment on the stack of directories; `..` at the root escapes. */
  function Enter(out: seq<Text>, seg: Text): Option<seq<Text>> {
    if seg == [] || seg == HERE then Some(out)
    else if seg == UP then (if out == [] then None else Some(out[..|out| - 1]))
    else Some(out + [seg])
  }

  function EnterAll(out: seq<Text>, segs: seq<Text>): Option<seq<Text>>
    decreases |segs|
  {
    if segs == [] then Some(out) else
    match Enter(out, segs[0]) case None => None case Some(next) => EnterAll(next, segs[1..])
  }

  function JoinRel(base: Text, rest: Text): Option<Text> {
    match EnterAll([], Split(base) + Split(rest)) case None => None case Some(out) => Some(Joined(out))
  }

  method LoopJoinRel(base: Text, rest: Text) returns (r: Option<Text>)
    ensures r == JoinRel(base, rest)
  {
    var segs := Split(base) + Split(rest);
    var out: seq<Text> := [];
    for i := 0 to |segs|
      invariant EnterAll([], segs) == EnterAll(out, segs[i..])
    {
      assert segs[i..][1..] == segs[i + 1..];
      var next := Enter(out, segs[i]);
      if next.None? { return None; }
      out := next.value;
    }
    return Some(Joined(out));
  }

  predicate PlainSegment(s: Text) { s != [] && s != HERE && s != UP && SLASH !in s }

  predicate PlainSegments(segs: seq<Text>) { forall k :: 0 <= k < |segs| ==> PlainSegment(segs[k]) }

  lemma {:induction false} EnterAllPlain(out: seq<Text>, segs: seq<Text>)
    requires PlainSegments(out) && forall k :: 0 <= k < |segs| ==> SLASH !in segs[k]
    ensures EnterAll(out, segs).Some? ==> PlainSegments(EnterAll(out, segs).value)
    decreases |segs|
  {
    if segs != [] && Enter(out, segs[0]).Some? { EnterAllPlain(Enter(out, segs[0]).value, segs[1..]); }
  }

  lemma {:induction false} PlainStays(out: seq<Text>, segs: seq<Text>)
    requires PlainSegments(segs)
    ensures EnterAll(out, segs) == Some(out + segs)
    decreases |segs|
  {
    if segs != [] {
      assert PlainSegment(segs[0]);
      PlainStays(out + [segs[0]], segs[1..]);
      assert out + [segs[0]] + segs[1..] == out + segs;
    } else {
      assert out + segs == out;
    }
  }

  /** A joined path has no `.`, `..` or empty segment, and joining it again
      changes nothing. */
  lemma JoinedIsClean(base: Text, rest: Text)
    requires JoinRel(base, rest).Some?
    ensures var p := JoinRel(base, rest).value;
      (p == [] || PlainSegments(Split(p))) && JoinRel([], p) == Some(p)
  {
    var out := EnterAll([], Split(base) + Split(rest)).value;
    EnterAllPlain([], Split(base) + Split(rest));
    var p := Joined(out);
    assert Split([]) == [[]];
    assert ([[]] + Split(p))[1..] == Split(p);
    assert EnterAll([], [[]] + Split(p)) == EnterAll([], Split(p));
    if out == [] {
      assert EnterAll([], [[]]) == Some([]);
    } else {
      SplitJoined(out);
      PlainStays([], out);
      assert [] + out == out;
    }
  }

  lemma {:induction false} EnterConcat(out: seq<Text>, a: seq<Text>, b: seq<Text>)
    ensures EnterAll(out, a + b) ==
      match EnterAll(out, a) case None => None case Some(next) => EnterAll(next, b)
    decreases |a|
  {
    if a == [] {
      assert a + b == b;
    } else {
      assert (a + b)[1..] == a[1..] + b;
      if Enter(out, a[0]).Some? { EnterConcat(Enter(out, a[0]).value, a[1..], b); }
    }
  }

  /** What these segments join to, one below the other. */
  function Entered(segs: seq<Text>): Option<Text> {
    match EnterAll([], segs) case None => None case Some(out) => Some(Joined(out))
  }

  lemma EnterNothing(out: seq<Text>)
    ensures EnterAll(out, [[]]) == Some(out)
  {
    var none: Text := [];
    assert [none][1..] == [] && EnterAll(out, []) == Some(out);
  }

  lemma JoinedSplits(segs: seq<Text>)
    requires forall k :: 0 <= k < |segs| ==> SLASH !in segs[k]
    ensures forall out :: EnterAll(out, Split(Joined(segs))) == EnterAll(out, segs)
  {
    if segs == [] {
      assert Split([]) == [[]];
      forall out ensures EnterAll(out, [[]]) == EnterAll(out, []) { EnterNothing(out); }
    } else {
      SplitJoined(segs);
    }
  }

  /** Joining two written paths enters the segments of both in turn. */
  lemma JoinEnters(a: seq<Text>, b: seq<Text>)
    requires (forall k :: 0 <= k < |a| ==> SLASH !in a[k]) && forall k :: 0 <= k < |b| ==> SLASH !in b[k]
    ensures JoinRel(Joined(a), Joined(b)) == Entered(a + b)
  {
    JoinedSplits(a);
    JoinedSplits(b);
    EnterConcat([], Split(Joined(a)), Split(Joined(b)));
    EnterConcat([], a, b);
  }

  /** The rules of joining: plain segments stay in order, empty ones and `.`
      mean nothing, `..` takes back the plain segment before it, and at the root
      there is nothing to take back. */
  lemma JoinRules(a: seq<Text>, b: seq<Text>, s: Text)
    ensures PlainSegments(a) ==> Entered(a) == Some(Joined(a))
    ensures s == [] || s == HERE ==> Entered(a + ([s] + b)) == Entered(a + b)
    ensures PlainSegment(s) ==> Entered(a + ([s, UP] + b)) == Entered(a + b)
    ensures Entered([UP] + b) == None
  {
    if PlainSegments(a) {
      PlainStays([], a);
      assert [] + a == a;
    }
    EnterConcat([], a, [s] + b);
    EnterConcat([], a, [s, UP] + b);
    EnterConcat([], a, b);
    assert ([s] + b)[1..] == b && ([UP] + b)[0] == UP;
    if PlainSegment(s) {
      assert ([s, UP] + b)[1..] == [UP] + b && ([UP] + b)[1..] == b;
      forall out ensures EnterAll(out, [s, UP] + b) == EnterAll(out, b) { assert (out + [s])[..|out|] == out; }
    }
  }

  // ------------------------------------------------------------- escape test

  predicate Absolute(p: Text) {
    (p != [] && (p[0] == SLASH || p[0] == BACKSLASH)) || (|p| > 1 && p[1] == COLON)
  }

  /** Does the running depth go below zero? */
  predicate Sinks(depth: nat, segs: seq<Text>)
    decreases |segs|
  {
    if segs == [] then false
    else if segs[0] == [] || segs[0] == HERE then Sinks(depth, segs[1..])
    else if segs[0] == UP then depth == 0 || Sinks(depth - 1, segs[1..])
    else Sinks(depth + 1, segs[1..])
  }

  predicate EscapesRoot(p: Text) { Absolute(p) || Sinks(0, Split(Forward(p))) }

  method LoopEscapesRoot(p: Text) returns (escapes: bool)
    ensures escapes == EscapesRoot(p)
  {
    if Absolute(p) { return true; }
    var segs := Split(Forward(p));
    var depth := 0;
    for i := 0 to |segs|
      invariant depth >= 0 && Sinks(0, segs) == Sinks(depth, segs[i..])
    {
      assert segs[i..][1..] == segs[i + 1..];
      if segs[i] == [] || segs[i] == HERE { continue; }
      if segs[i] == UP {
        depth := depth - 1;
        if depth < 0 { return true; }
      } else {
        depth := depth + 1;
      }
    }
    return false;
  }

  lemma {:induction false} SinksIffNone(out: seq<Text>, segs: seq<Text>)
    ensures Sinks(|out|, segs) <==> EnterAll(out, segs) == None
    decreases |segs|
  {
    if segs != [] {
      if Enter(out, segs[0]).Some? { SinksIffNone(Enter(out, segs[0]).value, segs[1..]); }
    }
  }

  /** The escape test agrees with joining onto the root, for every path without
      a backslash: it also rejects absolute paths and drive letters, which
      joining would take as relative. */
  lemma EscapesIffJoinFails(p: Text)
    requires BACKSLASH !in p
    ensures EscapesRoot(p) <==>
      (p != [] && p[0] == '/' as int) || (|p| > 1 && p[1] == ':' as int) || JoinRel([], p) == None
  {
    forall i | 0 <= i < |p| ensures Forward(p)[i] == p[i] { assert p[i] in p; }
    assert Forward(p) == p;
    assert Split([]) == [[]];
    assert ([[]] + Split(p))[1..] == Split(p);
    assert EnterAll([], [[]] + Split(p)) == EnterAll([], Split(p));
    SinksIffNone([], Split(p));
  }
}
