/** The set of files with its directory and prefix look-ups. */
module FileIndex {
  import opened Types
  import opened Sorting
  import opened Paths

  /** `p` lies under `dir`, at any depth. */
  predicate LiesUnder(p: Text, dir: Text) { |dir| < |p| && p[..|dir|] == dir && p[|dir|] == SLASH }

  predicate StrictlySorted(s: seq<Text>) {
    forall i, j :: 0 <= i < j < |s| ==> TextLe(s[i], s[j]) && s[i] != s[j]
  }

  /** Position of the last slash, or the length if there is none. */
  function LastSlash(s: Text): (i: nat)
    ensures i <= |s| && (i < |s| ==> s[i] == SLASH)
    ensures forall k :: i < k < |s| ==> s[k] != SLASH
    ensures i == |s| ==> SLASH !in s
  {
    if s == [] then 0
    else if s[|s| - 1] == SLASH then |s| - 1
    else
      var j := LastSlash(s[..|s| - 1]);
      if j == |s| - 1 then |s| else j
  }

  function DirOf(p: Text): Text {
    var i := LastSlash(p);
    if i == |p| then [] else p[..i]
  }

  /** What the ancestor walk registers for one file. */
  ghost predicate IsAncestor(d: Text, p: Text) { LiesUnder(p, d) || (d == [] && SLASH !in p) }

  /** Sorted insertion, as in an ordered set. */
  function InsertPath(s: seq<Text>, p: Text): seq<Text> {
    if s == [] then [p]
    else if p == s[0] then s
    else if TextLe(p, s[0]) then [p] + s
    else [s[0]] + InsertPath(s[1..], p)
  }

  lemma {:induction false} InsertPathCorrect(s: seq<Text>, p: Text)
    requires StrictlySorted(s)
    ensures StrictlySorted(InsertPath(s, p))
    ensures forall q :: q in InsertPath(s, p) <==> q in s || q == p
  {
    TextOrder();
    if s != [] && p != s[0] {
      if TextLe(p, s[0]) {
        forall j | 0 <= j < |s| ensures TextLe(p, s[j]) && p != s[j] {
          if j > 0 { TextLeTransitive(p, s[0], s[j]); }
          assert j == 0 || TextLe(s[0], s[j]);
        }
      } else {
        InsertPathCorrect(s[1..], p);
        var t := InsertPath(s[1..], p);
        assert s == [s[0]] + s[1..];
        forall j | 0 <= j < |t| ensures TextLe(s[0], t[j]) && s[0] != t[j] {
          assert t[j] in t;
          if t[j] != p {
            var k :| 0 <= k < |s[1..]| && s[1..][k] == t[j];
            assert s[k + 1] == t[j];
          }
        }
      }
    }
  }

  /** Paths with a prefix are the ones from the first not below it, for as long
      as they have it: they sit together. */
  lemma {:induction false} PrefixBlock(prefix: Text, a: Text, b: Text)
    requires TextLe(prefix, a) && TextLe(a, b) && prefix <= b
    ensures prefix <= a
  {
    if prefix != [] {
      if a == [] {
        assert false;
      } else {
        assert b[0] == prefix[0];
        PrefixBlock(prefix[1..], a[1..], b[1..]);
        assert prefix == [prefix[0]] + prefix[1..] && a == [a[0]] + a[1..];
      }
    }
  }

  lemma {:induction false} PrefixIsBelow(prefix: Text, a: Text)
    requires prefix <= a
    ensures TextLe(prefix, a)
  {
    if prefix != [] { PrefixIsBelow(prefix[1..], a[1..]); }
  }

  function WithPrefix(s: seq<Text>, prefix: Text): seq<Text> {
    if s == [] then [] else (if prefix <= s[0] then [s[0]] else []) + WithPrefix(s[1..], prefix)
  }

  class FileIndex {
    var paths: seq<Text>
    var dirs: set<Text>

    /** Ordered paths, and exactly the ancestors of some path as directories. */
    ghost predicate Valid()
      reads this
    {
      StrictlySorted(paths) && forall d :: d in dirs <==> exists p :: p in paths && IsAncestor(d, p)
    }

    constructor (files: seq<Text>)
      ensures Valid() && forall p :: p in paths <==> p in files
    {
      paths, dirs := [], {};
      new;
      for i := 0 to |files|
        invariant Valid() && forall p :: p in paths <==> p in files[..i]
      {
        assert files[..i + 1] == files[..i] + [files[i]];
        Add(files[i]);
      }
      assert files[..|files|] == files;
    }

    method Add(p: Text)
      requires Valid()
      modifies this
      ensures Valid() && forall q :: q in paths <==> q in old(paths) || q == p
    {
      var found := Ancestors(p);
      InsertPathCorrect(paths, p);
      ghost var before, was := paths, dirs;
      dirs := dirs + found;
      paths := InsertPath(paths, p);
      forall d ensures d in dirs <==> exists q :: q in paths && IsAncestor(d, q) {
        if d in found { assert p in paths && IsAncestor(d, p); }
        if d in was { var q :| q in before && IsAncestor(d, q); assert q in paths; }
        if q :| q in paths && IsAncestor(d, q) { assert q == p || (q in before && d in was); }
      }
    }

    method HasDir(dir: Text) returns (r: bool)
      requires Valid()
      ensures r <==> dir == [] || exists p :: p in paths && LiesUnder(p, dir)
    {
      r := dir == [] || dir in dirs;
    }

    /** Any spelling of a path finds the normal one. */
    method Contains(p: Text) returns (r: bool)
      ensures r <==> RelPath(p) in paths
    {
      NormalIffFixed(p);
      if IsNormalRel(p) {
        r := p in paths;
      } else {
        var q := NewRelPath(p);
        r := q in paths;
      }
    }

    /** A seek and a walk give what filtering all paths gives, in order. */
    method IterPrefix(prefix: Text) returns (out: seq<Text>)
      requires Valid()
      ensures out == WithPrefix(paths, prefix)
    {
      var lo := Seek(paths, prefix);
      out := [];
      var i := lo;
      while i < |paths| && prefix <= paths[i]
        invariant lo <= i <= |paths| && WithPrefix(paths, prefix) == out + WithPrefix(paths[i..], prefix)
      {
        PrefixStep(paths, prefix, i, out);
        out := out + [paths[i]];
        i := i + 1;
      }
      NoneAfter(paths, prefix, lo, i);
    }
  }

  lemma PrefixStep(paths: seq<Text>, prefix: Text, i: nat, out: seq<Text>)
    requires i < |paths| && prefix <= paths[i]
    ensures out + WithPrefix(paths[i..], prefix) == (out + [paths[i]]) + WithPrefix(paths[i + 1..], prefix)
  {
    assert paths[i..][1..] == paths[i + 1..];
  }

  /** First path not below the prefix; nothing before it has the prefix. */
  method Seek(paths: seq<Text>, prefix: Text) returns (lo: nat)
    ensures lo <= |paths| && (lo < |paths| ==> TextLe(prefix, paths[lo]))
    ensures WithPrefix(paths, prefix) == WithPrefix(paths[lo..], prefix)
  {
    lo := 0;
    while lo < |paths| && !TextLe(prefix, paths[lo])
      invariant lo <= |paths| && WithPrefix(paths, prefix) == WithPrefix(paths[lo..], prefix)
    {
      if prefix <= paths[lo] { PrefixIsBelow(prefix, paths[lo]); }
      assert paths[lo..][1..] == paths[lo + 1..];
      lo := lo + 1;
    }
  }

  lemma NoneAfter(paths: seq<Text>, prefix: Text, lo: nat, i: nat)
    requires StrictlySorted(paths) && lo <= i <= |paths|
    requires i < |paths| ==> !(prefix <= paths[i]) && TextLe(prefix, paths[lo])
    ensures WithPrefix(paths[i..], prefix) == []
  {
    if i < |paths| {
      if lo < i { TextLeTransitive(prefix, paths[lo], paths[i]); }
      forall j | i <= j < |paths| ensures !(prefix <= paths[j]) {
        if prefix <= paths[j] && j > i { PrefixBlock(prefix, paths[i], paths[j]); }
      }
      NoneWith(paths[i..], prefix);
    }
  }

  lemma {:induction false} NoneWith(s: seq<Text>, prefix: Text)
    requires forall k :: 0 <= k < |s| ==> !(prefix <= s[k])
    ensures WithPrefix(s, prefix) == []
  {
    if s != [] { NoneWith(s[1..], prefix); }
  }

  /** The walk from a file's directory up to the top. */
  method Ancestors(p: Text) returns (found: set<Text>)
    ensures forall d :: d in found <==> IsAncestor(d, p)
  {
    var cur := DirOf(p);
    found := {cur};
    AncestorsOf(p);
    while LastSlash(cur) < |cur|
      invariant cur <= p
      invariant LiesUnder(p, cur) || SLASH !in p
      invariant SLASH !in p ==> cur == []
      invariant forall d :: d in found <==> IsAncestor(d, p) && |d| >= |cur|
      decreases |cur|
    {
      var i := LastSlash(cur);
      NextAncestor(p, cur, i);
      cur := cur[..i];
      found := found + {cur};
    }
    NoShorterAncestor(p, cur);
  }

  lemma NoShorterAncestor(p: Text, cur: Text)
    requires cur <= p && SLASH !in cur
    ensures forall d :: LiesUnder(p, d) ==> |d| >= |cur|
  {
    forall d ensures LiesUnder(p, d) ==> |d| >= |cur| {
      assert |d| < |cur| ==> cur[|d|] in cur && cur[|d|] == p[|d|];
    }
  }

  lemma AncestorsOf(p: Text)
    ensures IsAncestor(DirOf(p), p) && DirOf(p) <= p
    ensures forall d :: IsAncestor(d, p) && |d| >= |DirOf(p)| ==> d == DirOf(p)
  {
    var i := LastSlash(p);
    assert DirOf(p) == if i < |p| then p[..i] else [];
    forall d | IsAncestor(d, p) && |d| >= |DirOf(p)| ensures d == DirOf(p) {
      assert LiesUnder(p, d) ==> p[|d|] in p;
    }
  }

  lemma NextAncestor(p: Text, cur: Text, i: nat)
    requires cur <= p && i == LastSlash(cur) && i < |cur|
    ensures cur[..i] <= p && LiesUnder(p, cur[..i])
    ensures forall d :: IsAncestor(d, p) && |d| >= i && |d| < |cur| ==> d == cur[..i]
  {
    assert p[i] == SLASH && cur[..i] == p[..i];
    forall d | IsAncestor(d, p) && i <= |d| < |cur| ensures d == cur[..i] {
      assert cur[|d|] == p[|d|];
    }
  }
}
