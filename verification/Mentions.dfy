/** Boundary-aware substring search: whether a text mentions a path. */
module Mentions {

  predicate PathChar(alnum: char -> bool, c: char) { alnum(c) || c == '_' || c == '-' }

  predicate OccursAt(haystack: string, needle: string, i: nat) {
    i + |needle| <= |haystack| && haystack[i..i + |needle|] == needle
  }

  /** No path character touches the occurrence on either side. */
  predicate Delimited(alnum: char -> bool, haystack: string, start: nat, end: nat)
    requires start <= end <= |haystack|
  {
    (start == 0 || !PathChar(alnum, haystack[start - 1])) && (end == |haystack| || !PathChar(alnum, haystack[end]))
  }

  predicate MentionAt(alnum: char -> bool, haystack: string, needle: string, i: nat) {
    OccursAt(haystack, needle, i) && Delimited(alnum, haystack, i, i + |needle|)
  }

  /** A mention has no letter, digit, `_` or `-` right before or after it. */
  predicate Apart(alnum: char -> bool, c: char) { !alnum(c) && c != '_' && c != '-' }

  lemma MentionIff(alnum: char -> bool, haystack: string, needle: string)
    ensures (exists i: nat :: MentionAt(alnum, haystack, needle, i)) <==>
      exists before, after :: Surrounds(alnum, haystack, needle, before, after)
  {
    if i: nat :| MentionAt(alnum, haystack, needle, i) {
      assert haystack == haystack[..i] + needle + haystack[i + |needle|..];
      assert Surrounds(alnum, haystack, needle, haystack[..i], haystack[i + |needle|..]);
    }
    if before, after :| Surrounds(alnum, haystack, needle, before, after) {
      assert MentionAt(alnum, haystack, needle, |before|);
    }
  }

  predicate Surrounds(alnum: char -> bool, haystack: string, needle: string, before: string, after: string) {
    && haystack == before + needle + after
    && (before != "" ==> Apart(alnum, before[|before| - 1])) && (after != "" ==> Apart(alnum, after[0]))
  }

  /** First occurrence at or after `start`. */
  method Find(haystack: string, needle: string, start: nat) returns (found: bool, at: nat)
    requires start <= |haystack|
    ensures found ==> start <= at && OccursAt(haystack, needle, at)
    ensures forall i: nat :: start <= i && OccursAt(haystack, needle, i) ==> found && at <= i
  {
    at := start;
    while at + |needle| <= |haystack|
      invariant start <= at
      invariant forall i: nat :: start <= i < at ==> !OccursAt(haystack, needle, i)
      decreases |haystack| - at
    {
      if haystack[at..at + |needle|] == needle { return true, at; }
      at := at + 1;
    }
    return false, at;
  }

  /** True exactly when some delimited occurrence exists, overlapping ones
      included. */
  method MentionsPath(alnum: char -> bool, haystack: string, needle: string) returns (mentioned: bool)
    ensures mentioned <==> needle != "" && exists i: nat :: MentionAt(alnum, haystack, needle, i)
  {
    if needle == "" { return false; }
    var next := 0;
    while true
      invariant next <= |haystack|
      invariant forall i: nat :: i < next ==> !MentionAt(alnum, haystack, needle, i)
      decreases |haystack| - next
    {
      var found, start := Find(haystack, needle, next);
      if !found { return false; }
      if Delimited(alnum, haystack, start, start + |needle|) {
        assert MentionAt(alnum, haystack, needle, start);
        return true;
      }
      next := start + 1;
    }
  }
}
