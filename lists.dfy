/**
 * The array operations the game applies to lists of state names: `filter` that drops
 * one name, `filter` that drops every name of another list, and the facts about
 * sub-sequences and duplicate-free lists the game's invariants are stated with.
 */
module Lists {

  /** `a` is `b` with some elements deleted, the rest kept in order. */
  predicate IsSubsequence(a: seq<string>, b: seq<string>)
    decreases |b|
  {
    if b == [] then a == []
    else (a != [] && a[0] == b[0] && IsSubsequence(a[1..], b[1..])) || IsSubsequence(a, b[1..])
  }

  predicate NoDuplicates(s: seq<string>) {
    forall i, j :: 0 <= i < j < |s| ==> s[i] != s[j]
  }

  lemma {:induction false} SubsequenceReflexive(s: seq<string>)
    ensures IsSubsequence(s, s)
  {
    if s != [] {
      SubsequenceReflexive(s[1..]);
    }
  }

  /** Every element of a sub-sequence is an element of the whole. */
  lemma {:induction false} SubsequenceMembers(a: seq<string>, b: seq<string>)
    requires IsSubsequence(a, b)
    ensures forall x :: x in a ==> x in b
    ensures |a| <= |b|
  {
    if b != [] {
      if a != [] && a[0] == b[0] && IsSubsequence(a[1..], b[1..]) {
        SubsequenceMembers(a[1..], b[1..]);
        assert a == [a[0]] + a[1..];
      } else {
        SubsequenceMembers(a, b[1..]);
      }
    }
  }

  /** A sub-sequence of a sub-sequence is a sub-sequence. */
  lemma {:induction false} SubsequenceTransitive(a: seq<string>, b: seq<string>, c: seq<string>)
    requires IsSubsequence(a, b) && IsSubsequence(b, c)
    ensures IsSubsequence(a, c)
    decreases |c|
  {
    if c == [] {
      assert b == [];
    } else if b != [] && b[0] == c[0] && IsSubsequence(b[1..], c[1..]) {
      if a != [] && a[0] == b[0] && IsSubsequence(a[1..], b[1..]) {
        SubsequenceTransitive(a[1..], b[1..], c[1..]);
      } else {
        SubsequenceTransitive(a, b[1..], c[1..]);
      }
    } else {
      SubsequenceTransitive(a, b, c[1..]);
    }
  }

  /** The tail of a duplicate-free list is duplicate-free and does not hold its head. */
  lemma NoDuplicatesTail(s: seq<string>)
    requires s != [] && NoDuplicates(s)
    ensures NoDuplicates(s[1..])
  {
    forall i, j | 0 <= i < j < |s[1..]| ensures s[1..][i] != s[1..][j] {
      assert s[1..][i] == s[i + 1] && s[1..][j] == s[j + 1];
    }
  }

  lemma NoDuplicatesHead(s: seq<string>)
    requires s != [] && NoDuplicates(s)
    ensures s[0] !in s[1..]
  {
  }

  /** A sub-sequence of a duplicate-free list is duplicate-free. */
  lemma {:induction false} SubsequenceNoDuplicates(a: seq<string>, b: seq<string>)
    requires IsSubsequence(a, b) && NoDuplicates(b)
    ensures NoDuplicates(a)
    decreases |b|
  {
    if b != [] {
      NoDuplicatesTail(b);
      if a != [] && a[0] == b[0] && IsSubsequence(a[1..], b[1..]) {
        SubsequenceNoDuplicates(a[1..], b[1..]);
        SubsequenceMembers(a[1..], b[1..]);
        forall i, j | 0 <= i < j < |a| ensures a[i] != a[j] {
          if i == 0 {
            assert a[j] == a[1..][j - 1];
            assert a[j] in b[1..];
            NoDuplicatesHead(b);
          } else {
            assert a[i] == a[1..][i - 1] && a[j] == a[1..][j - 1];
          }
        }
      } else {
        SubsequenceNoDuplicates(a, b[1..]);
      }
    }
  }

  /** `s.filter(y => y !== x)`: every occurrence of `x` removed, everything else kept in order. */
  function Without(s: seq<string>, x: string): (r: seq<string>)
    ensures IsSubsequence(r, s)
    ensures forall y :: y in r <==> y in s && y != x
    ensures multiset(r) == multiset(s)[x := 0]
  {
    if s == [] then []
    else
      assert s == [s[0]] + s[1..];
      if s[0] == x then Without(s[1..], x) else [s[0]] + Without(s[1..], x)
  }

  /** Removing an element the list does not hold changes nothing. */
  lemma {:induction false} WithoutAbsent(s: seq<string>, x: string)
    requires x !in s
    ensures Without(s, x) == s
  {
    if s != [] {
      WithoutAbsent(s[1..], x);
      assert s == [s[0]] + s[1..];
    }
  }

  /** `s.filter(y => !xs.includes(y))`: every element of `xs` removed, the rest kept in order. */
  function WithoutAll(s: seq<string>, xs: seq<string>): (r: seq<string>)
    ensures IsSubsequence(r, s)
    ensures forall y :: y in r <==> y in s && y !in xs
  {
    if s == [] then []
    else
      assert s == [s[0]] + s[1..];
      if s[0] in xs then WithoutAll(s[1..], xs) else [s[0]] + WithoutAll(s[1..], xs)
  }

  /** Filtering out the elements of an empty list keeps every element. */
  lemma {:induction false} WithoutNothing(s: seq<string>)
    ensures WithoutAll(s, []) == s
  {
    if s != [] {
      WithoutNothing(s[1..]);
      assert s == [s[0]] + s[1..];
    }
  }

  /** The elements of a list, as a set. */
  function Elements(s: seq<string>): (r: set<string>)
    ensures forall x :: x in r <==> x in s
  {
    set x | x in s
  }

  /** A duplicate-free list has as many elements as its set. */
  lemma {:induction false} DistinctCardinality(s: seq<string>)
    requires NoDuplicates(s)
    ensures |Elements(s)| == |s|
  {
    if s != [] {
      var rest := s[1..];
      NoDuplicatesTail(s);
      NoDuplicatesHead(s);
      DistinctCardinality(rest);
      assert s == [s[0]] + rest;
      assert Elements(s) == Elements(rest) + {s[0]};
      assert s[0] !in Elements(rest);
    }
  }

  /** A list has at most as many distinct elements as entries. */
  lemma {:induction false} ElementsBound(s: seq<string>)
    ensures |Elements(s)| <= |s|
  {
    if s != [] {
      ElementsBound(s[1..]);
      assert s == [s[0]] + s[1..];
      assert Elements(s) == Elements(s[1..]) + {s[0]};
    }
  }

  /**
   * Dropping the `k` distinct members of `xs` from a duplicate-free list that contains
   * them all leaves exactly `|s| - k` elements.
   */
  lemma WithoutAllCount(s: seq<string>, xs: seq<string>)
    requires NoDuplicates(s) && NoDuplicates(xs)
    requires forall x :: x in xs ==> x in s
    ensures |WithoutAll(s, xs)| == |s| - |xs|
  {
    var r := WithoutAll(s, xs);
    SubsequenceNoDuplicates(r, s);
    DistinctCardinality(r);
    DistinctCardinality(s);
    DistinctCardinality(xs);
    assert Elements(r) == Elements(s) - Elements(xs);
    assert Elements(xs) <= Elements(s);
  }
}
