/** Optional values, and the success-or-error results that stand for the engine's exceptions. */
module Wrappers {

  datatype Option<+T> = None | Some(value: T)

  datatype Result<+T> = Ok(value: T) | Err(error: string)

  predicate NoDup<T(==)>(s: seq<T>) {
    forall i, j :: 0 <= i < j < |s| ==> s[i] != s[j]
  }

  predicate Below(s: seq<nat>, n: nat) {
    forall k :: 0 <= k < |s| ==> s[k] < n
  }

  /** Distinct numbers below `n`: there are at most `n` of them. */
  lemma {:induction false} Pigeonhole(s: seq<nat>, n: nat)
    requires NoDup(s) && Below(s, n)
    ensures |s| <= n
  {
    assert |s| > 0 ==> s[0] < n;
    if n == 0 {
    } else if n - 1 in s {
      var k :| 0 <= k < |s| && s[k] == n - 1;
      var rest := s[..k] + s[k+1..];
      forall j | 0 <= j < |rest| ensures rest[j] < n - 1 {
        assert rest[j] == s[if j < k then j else j + 1];
      }
      assert NoDup(rest) by {
        forall i, j | 0 <= i < j < |rest| ensures rest[i] != rest[j] {
          assert rest[i] == s[if i < k then i else i + 1];
          assert rest[j] == s[if j < k then j else j + 1];
        }
      }
      Pigeonhole(rest, n - 1);
    } else {
      forall j | 0 <= j < |s| ensures s[j] < n - 1 { assert s[j] in s; }
      Pigeonhole(s, n - 1);
    }
  }

  /** Dropping the last element of a sequence from its multiset. */
  lemma LastCounted<T>(s: seq<T>)
    requires |s| > 0
    ensures multiset(s) == multiset(s[..|s|-1]) + multiset{s[|s|-1]}
  {
    assert s == s[..|s|-1] + [s[|s|-1]];
  }

  /** `n` distinct numbers below `n` are all of them. */
  lemma AllBelow(s: seq<nat>, n: nat)
    requires NoDup(s) && Below(s, n) && |s| == n
    ensures forall x: nat :: x < n ==> x in s
  {
    forall x: nat | x < n ensures x in s {
      if x !in s {
        var t := s + [x];
        assert NoDup(t);
        Pigeonhole(t, n);
      }
    }
  }

  /** A rearrangement of distinct elements has the same elements, and they are distinct. */
  lemma SameMultiset<T>(a: seq<T>, b: seq<T>)
    requires multiset(a) == multiset(b) && NoDup(b)
    ensures NoDup(a) && |a| == |b| && forall x :: x in a <==> x in b
  {
    assert |a| == |multiset(a)| == |b|;
    forall x ensures x in a <==> x in b {
      assert x in a <==> x in multiset(a);
      assert x in b <==> x in multiset(b);
    }
    if !NoDup(a) {
      var i, j :| 0 <= i < j < |a| && a[i] == a[j];
      assert a == a[..i] + [a[i]] + a[i+1..j] + [a[j]] + a[j+1..];
      assert multiset(a)[a[i]] >= 2;
      OnceEach(b, a[i]);
    }
  }

  lemma {:induction false} OnceEach<T>(b: seq<T>, x: T)
    requires NoDup(b)
    ensures multiset(b)[x] <= 1
  {
    if b != [] {
      assert b == [b[0]] + b[1..];
      OnceEach(b[1..], x);
      if b[0] == x { assert x !in b[1..]; }
    }
  }
}
