/** Python's `in` on strings, and when a prefix cannot create or hide an occurrence. */
module Texts {

  predicate OccursAt(s: string, w: string, i: nat) {
    i + |w| <= |s| && s[i..i + |w|] == w
  }

  predicate Contains(s: string, w: string) {
    exists i :: 0 <= i <= |s| && OccursAt(s, w, i)
  }

  lemma Begins(w: string, rest: string)
    ensures Contains(w + rest, w)
  {
    assert OccursAt(w + rest, w, 0);
  }

  /** Position i of p disagrees with w before p ends: no occurrence of w can start there. */
  predicate ClashesAt(p: string, w: string, i: nat) {
    exists j :: 0 <= j < |w| && i + j < |p| && p[i + j] != w[j]
  }

  ghost predicate Clashes(p: string, w: string) {
    forall i :: 0 <= i < |p| ==> ClashesAt(p, w, i)
  }

  lemma NotAt(p: string, s: string, w: string, i: nat)
    requires ClashesAt(p, w, i)
    ensures !OccursAt(p + s, w, i)
  {
    var j :| 0 <= j < |w| && i + j < |p| && p[i + j] != w[j];
    assert i + |w| <= |p + s| ==> (p + s)[i..i + |w|][j] == p[i + j];
  }

  /** A prefix in which w can start nowhere leaves the occurrences of w as they are. */
  lemma PrefixIrrelevant(p: string, s: string, w: string)
    requires Clashes(p, w)
    ensures Contains(p + s, w) <==> Contains(s, w)
  {
    forall i | 0 <= i < |p| ensures !OccursAt(p + s, w, i) {
      NotAt(p, s, w, i);
    }
    forall i: nat ensures OccursAt(p + s, w, |p| + i) <==> OccursAt(s, w, i) {
      if i + |w| <= |s| {
        assert (p + s)[|p| + i..|p| + i + |w|] == s[i..i + |w|];
      }
    }
    if Contains(s, w) {
      var i :| 0 <= i <= |s| && OccursAt(s, w, i);
      assert OccursAt(p + s, w, |p| + i);
    }
    if Contains(p + s, w) {
      var i :| 0 <= i <= |p + s| && OccursAt(p + s, w, i);
      assert i >= |p|;
      assert OccursAt(s, w, i - |p|);
    }
  }

  lemma NowhereIn(p: string, w: string)
    requires Clashes(p, w) && w != ""
    ensures !Contains(p, w)
  {
    PrefixIrrelevant(p, "", w);
    assert p + "" == p;
  }

  /** The first letter of w does not occur in p. */
  lemma ClashesByFirst(p: string, w: string)
    requires w != "" && w[0] !in p
    ensures Clashes(p, w)
  {
    forall i | 0 <= i < |p| ensures ClashesAt(p, w, i) {
      assert p[i + 0] != w[0];
    }
  }

  /** The first letter of w occurs in p only at k, and there p goes on differently after j letters. */
  lemma ClashesAfter(p: string, w: string, k: nat, j: nat)
    requires 0 < j < |w| && k + j < |p| && p[k + j] != w[j]
    requires forall i :: 0 <= i < |p| && i != k ==> p[i] != w[0]
    ensures Clashes(p, w)
  {
    forall i | 0 <= i < |p| ensures ClashesAt(p, w, i) {
      if i != k { assert p[i + 0] != w[0]; }
    }
  }

  lemma Absent(p: string, s: string, w: string)
    requires w != "" && w[0] !in p && w[0] !in s
    ensures !Contains(p + s, w)
  {
    ClashesByFirst(p + s, w);
    NowhereIn(p + s, w);
  }
}
