/** Sequence helpers for the array operations the core uses: `includes`,
    counting, and the `filter` calls that remove one value or a whole list. */
module Lists {

  /** The number of occurrences of `x` in `s`. */
  function Count<T(==)>(s: seq<T>, x: T): (n: nat)
    ensures n <= |s|
    ensures n == 0 <==> x !in s
  {
    if s == [] then 0 else (if s[0] == x then 1 else 0) + Count(s[1..], x)
  }

  lemma {:induction false} CountAppend<T>(s: seq<T>, t: seq<T>, x: T)
    ensures Count(s + t, x) == Count(s, x) + Count(t, x)
  {
    if s != [] {
      assert (s + t)[0] == s[0] && (s + t)[1..] == s[1..] + t;
      CountAppend(s[1..], t, x);
    } else {
      assert s + t == t;
    }
  }

  /** No value occurs twice. */
  predicate NoDuplicates<T(==)>(s: seq<T>) {
    forall i, j :: 0 <= i < j < |s| ==> s[i] != s[j]
  }

  /** In a duplicate-free sequence every value occurs at most once. */
  lemma {:induction false} CountNoDuplicates<T>(s: seq<T>, x: T)
    requires NoDuplicates(s)
    ensures Count(s, x) == if x in s then 1 else 0
  {
    if s != [] {
      assert NoDuplicates(s[1..]);
      CountNoDuplicates(s[1..], x);
      if s[0] == x {
        assert x !in s[1..];
      }
    }
  }

  /** `r` is `s` with some elements left out and the rest kept in order. */
  predicate IsSubsequence<T(==)>(r: seq<T>, s: seq<T>)
    decreases |s|
  {
    if r == [] then true
    else if s == [] then false
    else if r[0] == s[0] then IsSubsequence(r[1..], s[1..])
    else IsSubsequence(r, s[1..])
  }

  /** `s.filter((y) => y !== x)`. */
  function Without<T(==,!new)>(s: seq<T>, x: T): (r: seq<T>)
    ensures x !in r
    ensures forall y :: y != x ==> Count(r, y) == Count(s, y)
    ensures IsSubsequence(r, s)
  {
    if s == [] then []
    else if s[0] == x then Without(s[1..], x)
    else [s[0]] + Without(s[1..], x)
  }

  /** `s.filter((y) => !others.includes(y))`: the elements of `s` that `others`
      does not contain, in their order in `s`. */
  function Difference<T(==,!new)>(s: seq<T>, others: seq<T>): (r: seq<T>)
    ensures forall y :: Count(r, y) == if y in others then 0 else Count(s, y)
    ensures IsSubsequence(r, s)
    ensures (forall i :: 0 <= i < |s| ==> s[i] in others) ==> r == []
  {
    if s == [] then []
    else if s[0] in others then Difference(s[1..], others)
    else [s[0]] + Difference(s[1..], others)
  }

  lemma {:induction false} SubsequenceKeepsDistinct<T>(r: seq<T>, s: seq<T>)
    requires IsSubsequence(r, s) && NoDuplicates(s)
    ensures NoDuplicates(r)
    decreases |s|
  {
    if r != [] && s != [] {
      assert NoDuplicates(s[1..]);
      if r[0] == s[0] {
        SubsequenceKeepsDistinct(r[1..], s[1..]);
        SubsequenceIncluded(r[1..], s[1..]);
        assert r[0] !in s[1..];
        assert forall j :: 0 < j < |r| ==> r[j] == r[1..][j - 1];
      } else {
        SubsequenceKeepsDistinct(r, s[1..]);
      }
    }
  }

  lemma {:induction false} SubsequenceIncluded<T>(r: seq<T>, s: seq<T>)
    requires IsSubsequence(r, s)
    ensures forall y :: y in r ==> y in s
    decreases |s|
  {
    if r != [] && s != [] {
      if r[0] == s[0] {
        SubsequenceIncluded(r[1..], s[1..]);
        assert forall y :: y in r ==> y == r[0] || y in r[1..];
      } else {
        SubsequenceIncluded(r, s[1..]);
      }
    }
  }

  /** Removing a value the sequence does not hold changes nothing, and removing a
      value just appended to such a sequence gives the sequence back. */
  lemma {:induction false} WithoutAppended<T(!new)>(s: seq<T>, x: T)
    requires x !in s
    ensures Without(s, x) == s
    ensures Without(s + [x], x) == s
  {
    if s != [] {
      WithoutAppended(s[1..], x);
      assert (s + [x])[1..] == s[1..] + [x];
    }
  }
}
