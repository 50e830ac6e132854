/**
 * The array operations the components use on their state arrays:
 * `Array.prototype.map`, `Array.prototype.filter`, counting through
 * `filter(...).length`, and `[...new Set(xs)]` de-duplication.
 */
module Lists {

  /** `s.map(f)`: one result per element, in the same order. */
  function Map<T, U>(s: seq<T>, f: T -> U): (r: seq<U>)
    ensures |r| == |s|
    ensures forall i :: 0 <= i < |s| ==> r[i] == f(s[i])
  {
    if s == [] then [] else [f(s[0])] + Map(s[1..], f)
  }

  /** `a` is obtained from `b` by deleting some elements, keeping the order of the rest. */
  predicate IsSubsequence<T(==)>(a: seq<T>, b: seq<T>)
  {
    if a == [] then true
    else if b == [] then false
    else if a[0] == b[0] then IsSubsequence(a[1..], b[1..])
    else IsSubsequence(a, b[1..])
  }

  /** The number of elements of `s` that satisfy `p`: `s.filter(p).length`. */
  function Count<T>(s: seq<T>, p: T -> bool): (n: nat)
    ensures n <= |s|
  {
    if s == [] then 0 else (if p(s[0]) then 1 else 0) + Count(s[1..], p)
  }

  /** `s.filter(p)`: the elements that satisfy `p`, in their original order. */
  function Filter<T(==)>(s: seq<T>, p: T -> bool): (r: seq<T>)
    ensures forall i :: 0 <= i < |r| ==> r[i] in s && p(r[i])
    ensures forall i :: 0 <= i < |s| && p(s[i]) ==> s[i] in r
    ensures IsSubsequence(r, s)
    ensures |r| == Count(s, p)
  {
    if s == [] then []
    else if p(s[0]) then [s[0]] + Filter(s[1..], p)
    else Filter(s[1..], p)
  }

  /** Filtering by a predicate that every element satisfies keeps everything. */
  lemma {:induction false} FilterAll<T>(s: seq<T>, p: T -> bool)
    requires forall i :: 0 <= i < |s| ==> p(s[i])
    ensures Filter(s, p) == s
  {
    if s != [] {
      FilterAll(s[1..], p);
    }
  }

  /** Filtering by a predicate no element satisfies keeps nothing. */
  lemma {:induction false} FilterNone<T>(s: seq<T>, p: T -> bool)
    requires forall i :: 0 <= i < |s| ==> !p(s[i])
    ensures Filter(s, p) == s[..0]
  {
    if s != [] {
      FilterNone(s[1..], p);
    }
  }

  /** No element satisfies `p`: the count is zero. */
  lemma {:induction false} CountZero<T>(s: seq<T>, p: T -> bool)
    requires forall i :: 0 <= i < |s| ==> !p(s[i])
    ensures Count(s, p) == 0
  {
    if s != [] {
      CountZero(s[1..], p);
    }
  }

  /** Counting distributes over concatenation. */
  lemma {:induction false} CountConcat<T>(a: seq<T>, b: seq<T>, p: T -> bool)
    ensures Count(a + b, p) == Count(a, p) + Count(b, p)
  {
    if a == [] {
      assert a + b == b;
    } else {
      assert (a + b)[0] == a[0];
      assert (a + b)[1..] == a[1..] + b;
      CountConcat(a[1..], b, p);
    }
  }

  /** Removing the element at `i` removes its contribution to the count. */
  lemma CountRemove<T>(s: seq<T>, i: nat, p: T -> bool)
    requires i < |s|
    ensures Count(s[..i] + s[i + 1..], p) == Count(s, p) - (if p(s[i]) then 1 else 0)
  {
    assert s == s[..i] + s[i..];
    CountConcat(s[..i], s[i..], p);
    CountConcat(s[..i], s[i + 1..], p);
    assert s[i..][1..] == s[i + 1..];
  }

  /** Two predicates that never hold together count at most |s| elements between them. */
  lemma {:induction false} CountDisjoint<T>(s: seq<T>, p: T -> bool, q: T -> bool)
    requires forall i :: 0 <= i < |s| ==> !(p(s[i]) && q(s[i]))
    ensures Count(s, p) + Count(s, q) <= |s|
  {
    if s != [] {
      CountDisjoint(s[1..], p, q);
    }
  }

  /** A predicate and its negation split `s` between them. */
  lemma {:induction false} CountComplement<T>(s: seq<T>, p: T -> bool, q: T -> bool)
    requires forall i :: 0 <= i < |s| ==> (q(s[i]) <==> !p(s[i]))
    ensures Count(s, p) + Count(s, q) == |s|
  {
    if s != [] {
      CountComplement(s[1..], p, q);
    }
  }

  /** Counting is monotone in the predicate. */
  lemma {:induction false} CountMonotone<T>(s: seq<T>, p: T -> bool, q: T -> bool)
    requires forall i :: 0 <= i < |s| ==> p(s[i]) ==> q(s[i])
    ensures Count(s, p) <= Count(s, q)
  {
    if s != [] {
      CountMonotone(s[1..], p, q);
    }
  }

  /** Counting over a pointwise image: counting `p` after `s.map(f)`. */
  lemma {:induction false} CountMap<T, U>(s: seq<T>, f: T -> U, p: U -> bool, q: T -> bool)
    requires forall i :: 0 <= i < |s| ==> (p(f(s[i])) <==> q(s[i]))
    ensures Count(Map(s, f), p) == Count(s, q)
  {
    if s != [] {
      assert Map(s, f)[1..] == Map(s[1..], f);
      CountMap(s[1..], f, p, q);
    }
  }

  /** Mapping twice with a function that undoes itself on every element gives back `s`. */
  lemma MapInvolution<T>(s: seq<T>, f: T -> T)
    requires forall i :: 0 <= i < |s| ==> f(f(s[i])) == s[i]
    ensures Map(Map(s, f), f) == s
  {
    assert forall i :: 0 <= i < |s| ==> Map(Map(s, f), f)[i] == s[i];
  }

  /** Mapping with a function that changes no element gives back `s`. */
  lemma MapIdentity<T>(s: seq<T>, f: T -> T)
    requires forall i :: 0 <= i < |s| ==> f(s[i]) == s[i]
    ensures Map(s, f) == s
  {
    assert forall i :: 0 <= i < |s| ==> Map(s, f)[i] == s[i];
  }

  /** Mapping with a function that undoes nothing twice: applying an idempotent `f` twice is applying it once. */
  lemma MapIdempotent<T>(s: seq<T>, f: T -> T)
    requires forall x :: f(f(x)) == f(x)
    ensures Map(Map(s, f), f) == Map(s, f)
  {
    assert forall i :: 0 <= i < |s| ==> Map(Map(s, f), f)[i] == Map(s, f)[i];
  }

  /** No element occurs twice. */
  predicate NoDuplicates<T(==)>(s: seq<T>)
  {
    forall i, j :: 0 <= i < j < |s| ==> s[i] != s[j]
  }

  /** The index of the first occurrence of `x` in `s`. */
  function FirstIndex<T(==)>(s: seq<T>, x: T): (k: nat)
    requires x in s
    ensures k < |s| && s[k] == x
    ensures forall j :: 0 <= j < k ==> s[j] != x
  {
    if s[0] == x then 0 else 1 + FirstIndex(s[1..], x)
  }

  /** `[...new Set(s)]`: the distinct elements of `s`, in the order a `Set` receives them. */
  function Distinct<T(==)>(s: seq<T>): (r: seq<T>)
  {
    if s == [] then []
    else
      var seen := Distinct(s[..|s| - 1]);
      if s[|s| - 1] in seen then seen else seen + [s[|s| - 1]]
  }

  /** A first occurrence in a prefix is the first occurrence in the whole sequence. */
  lemma FirstIndexPrefix<T>(s: seq<T>, n: nat, x: T)
    requires n <= |s| && x in s[..n]
    ensures FirstIndex(s, x) == FirstIndex(s[..n], x)
  {
    var k := FirstIndex(s[..n], x);
    var k' := FirstIndex(s, x);
    assert s[k] == x;
    assert k' <= k;
    assert s[..n][k'] == x;
  }

  /**
   * `Distinct` holds every element of `s` exactly once, and in the order of
   * their first occurrences in `s`.
   */
  lemma {:induction false} DistinctSpec<T>(s: seq<T>)
    ensures forall i :: 0 <= i < |Distinct(s)| ==> Distinct(s)[i] in s
    ensures forall i :: 0 <= i < |s| ==> s[i] in Distinct(s)
    ensures NoDuplicates(Distinct(s))
    ensures forall i, j :: 0 <= i < j < |Distinct(s)| ==>
              FirstIndex(s, Distinct(s)[i]) < FirstIndex(s, Distinct(s)[j])
  {
    if s != [] {
      var n := |s| - 1;
      var init := s[..n];
      var last := s[n];
      DistinctSpec(init);
      var seen := Distinct(init);
      assert s == init + [last];
      forall i | 0 <= i < |seen|
        ensures FirstIndex(s, seen[i]) == FirstIndex(init, seen[i])
      {
        FirstIndexPrefix(s, n, seen[i]);
      }
      if last !in seen {
        assert FirstIndex(s, last) == n;
        forall i, j | 0 <= i < j < |Distinct(s)|
          ensures FirstIndex(s, Distinct(s)[i]) < FirstIndex(s, Distinct(s)[j])
        {
          if j == |seen| {
            assert Distinct(s)[i] == seen[i];
          } else {
            assert Distinct(s)[i] == seen[i] && Distinct(s)[j] == seen[j];
          }
        }
      }
    }
  }
}
