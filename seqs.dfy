/** `Array.prototype.filter`, `find`/`findIndex` and `some` over the record lists every store keeps. */
module Seqs {

  /** The elements of `s` that satisfy `p`, in their original order. */
  function Filter<T>(s: seq<T>, p: T -> bool): (r: seq<T>)
    ensures |r| <= |s|
    ensures forall i :: 0 <= i < |r| ==> r[i] in s && p(r[i])
    ensures forall i :: 0 <= i < |s| && p(s[i]) ==> s[i] in r
  {
    if s == [] then []
    else if p(s[0]) then [s[0]] + Filter(s[1..], p)
    else Filter(s[1..], p)
  }

  /** Filtering a concatenation filters each part and keeps them in order: the filter never reorders. */
  lemma {:induction false} FilterConcat<T>(a: seq<T>, b: seq<T>, p: T -> bool)
    ensures Filter(a + b, p) == Filter(a, p) + Filter(b, p)
  {
    if a != [] {
      assert (a + b)[0] == a[0];
      assert (a + b)[1..] == a[1..] + b;
      FilterConcat(a[1..], b, p);
      if p(a[0]) {
        assert Filter(a + b, p) == [a[0]] + (Filter(a[1..], p) + Filter(b, p));
      }
    } else {
      assert a + b == b;
    }
  }

  /** The filter drops something exactly when some element fails the predicate. */
  lemma {:induction false} FilterKeepsAll<T>(s: seq<T>, p: T -> bool)
    ensures |Filter(s, p)| == |s| <==> forall i :: 0 <= i < |s| ==> p(s[i])
  {
    if s != [] {
      FilterKeepsAll(s[1..], p);
      assert forall i :: 1 <= i < |s| ==> s[i] == s[1..][i - 1];
    }
  }

  /** The filter keeps nothing exactly when no element satisfies the predicate. */
  lemma {:induction false} FilterEmpty<T>(s: seq<T>, p: T -> bool)
    ensures Filter(s, p) == [] <==> forall i :: 0 <= i < |s| ==> !p(s[i])
  {
    if s != [] {
      FilterEmpty(s[1..], p);
      assert forall i :: 1 <= i < |s| ==> s[i] == s[1..][i - 1];
    }
  }

  /** A filter that keeps every element returns the sequence itself. */
  lemma {:induction false} FilterIdentity<T>(s: seq<T>, p: T -> bool)
    requires forall i :: 0 <= i < |s| ==> p(s[i])
    ensures Filter(s, p) == s
  {
    if s != [] {
      FilterIdentity(s[1..], p);
    }
  }

  /** `findIndex`: the position of the first element satisfying `p`, or `|s|` when there is none. */
  function FirstIndex<T>(s: seq<T>, p: T -> bool): (i: nat)
    ensures i <= |s|
    ensures i < |s| ==> p(s[i])
    ensures forall j :: 0 <= j < i ==> !p(s[j])
  {
    if s == [] then 0 else if p(s[0]) then 0 else 1 + FirstIndex(s[1..], p)
  }

  /** Two predicates that agree on every element find the same first index. */
  lemma {:induction false} FirstIndexAgree<T>(s: seq<T>, p: T -> bool, q: T -> bool)
    requires forall k :: 0 <= k < |s| ==> p(s[k]) == q(s[k])
    ensures FirstIndex(s, p) == FirstIndex(s, q)
  {
    if s != [] {
      FirstIndexAgree(s[1..], p, q);
    }
  }

  /** An element appended after elements that all fail `p` is the first match, when it matches. */
  lemma FirstIndexOfAppended<T>(s: seq<T>, x: T, p: T -> bool)
    requires forall k :: 0 <= k < |s| ==> !p(s[k])
    requires p(x)
    ensures FirstIndex(s + [x], p) == |s|
  {
    var l := s + [x];
    assert l[|s|] == x;
    assert forall k :: 0 <= k < |s| ==> l[k] == s[k];
  }

  /** `some`: at least one element satisfies `p`. */
  predicate Exists<T>(s: seq<T>, p: T -> bool) {
    exists i :: 0 <= i < |s| && p(s[i])
  }

  lemma FirstIndexExists<T>(s: seq<T>, p: T -> bool)
    ensures FirstIndex(s, p) < |s| <==> Exists(s, p)
  {
  }

  // ---------------------------------------------------------------- uniqueness rules

  /** No two elements share a key: the uniqueness rule of a store (ids, names compared
      case-insensitively, names per client, usernames). */
  predicate DistinctKeys<T, K(==)>(s: seq<T>, key: T -> K) {
    forall i, j :: 0 <= i < j < |s| ==> key(s[i]) != key(s[j])
  }

  /** `some`: an element already has the key. */
  predicate KeyTaken<T, K(==)>(s: seq<T>, key: T -> K, k: K) {
    exists i :: 0 <= i < |s| && key(s[i]) == k
  }

  /** Appending an element whose key is not taken keeps the keys distinct. */
  lemma {:induction false} AppendKeepsDistinct<T, K>(s: seq<T>, key: T -> K, x: T)
    requires DistinctKeys(s, key) && !KeyTaken(s, key, key(x))
    ensures DistinctKeys(s + [x], key)
  {
    var l := s + [x];
    forall i, j | 0 <= i < j < |l| ensures key(l[i]) != key(l[j]) {
      assert l[i] == s[i];
      if j < |s| {
        assert l[j] == s[j];
      }
    }
  }

  /** Replacing an element by one with the same key, or with a key no element has, keeps the keys
      distinct. */
  lemma {:induction false} ReplaceKeepsDistinct<T, K>(s: seq<T>, key: T -> K, i: nat, x: T)
    requires DistinctKeys(s, key) && i < |s|
    requires key(x) == key(s[i]) || !KeyTaken(s, key, key(x))
    ensures DistinctKeys(s[i := x], key)
  {
    var l := s[i := x];
    forall a, b | 0 <= a < b < |l| ensures key(l[a]) != key(l[b]) {
      if a != i && b != i {
        assert l[a] == s[a] && l[b] == s[b];
      } else if a == i {
        assert l[b] == s[b];
      } else {
        assert l[a] == s[a];
      }
    }
  }

  /** Removing elements keeps the keys distinct. */
  lemma {:induction false} FilterKeepsDistinct<T, K>(s: seq<T>, key: T -> K, p: T -> bool)
    requires DistinctKeys(s, key)
    ensures DistinctKeys(Filter(s, p), key)
  {
    if s != [] {
      var rest := s[1..];
      assert DistinctKeys(rest, key) by {
        forall i, j | 0 <= i < j < |rest| ensures key(rest[i]) != key(rest[j]) {
          assert rest[i] == s[i + 1] && rest[j] == s[j + 1];
        }
      }
      FilterKeepsDistinct(rest, key, p);
      if p(s[0]) {
        var f := Filter(rest, p);
        forall k | 0 <= k < |f| ensures key(f[k]) != key(s[0]) {
          var m :| 0 <= m < |rest| && rest[m] == f[k];
          assert rest[m] == s[m + 1];
        }
        AppendFrontKeepsDistinct(f, key, s[0]);
      }
    }
  }

  lemma {:induction false} AppendFrontKeepsDistinct<T, K>(s: seq<T>, key: T -> K, x: T)
    requires DistinctKeys(s, key)
    requires forall k :: 0 <= k < |s| ==> key(s[k]) != key(x)
    ensures DistinctKeys([x] + s, key)
  {
    var l := [x] + s;
    forall i, j | 0 <= i < j < |l| ensures key(l[i]) != key(l[j]) {
      assert l[j] == s[j - 1];
      if i > 0 {
        assert l[i] == s[i - 1];
      }
    }
  }

  /** Under distinct keys, the first element with a key is the only one. */
  lemma FirstIndexUnique<T, K>(s: seq<T>, key: T -> K, k: K, i: nat)
    requires DistinctKeys(s, key) && i < |s| && key(s[i]) == k
    ensures FirstIndex(s, (x: T) => key(x) == k) == i
  {
  }
}
