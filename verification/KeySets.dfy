/** Key lists: strictly ascending sequences of key ids, the form in which the engine keeps sets of keys. */
module KeySets {

  predicate Ascending(keys: seq<nat>) {
    forall i, j :: 0 <= i < j < |keys| ==> keys[i] < keys[j]
  }

  function Elems(keys: seq<nat>): set<nat> { set k | k in keys }

  predicate IsLeast(m: nat, s: set<nat>) { m in s && forall k :: k in s ==> m <= k }

  lemma LeastExists(s: set<nat>)
    requires s != {}
    ensures exists m :: IsLeast(m, s)
    decreases s
  {
    var x :| x in s;
    var rest := s - {x};
    if rest == {} {
      forall k | k in s ensures x <= k { assert k == x || k in rest; }
      assert IsLeast(x, s);
    } else {
      LeastExists(rest);
      var m :| IsLeast(m, rest);
      var least := if x < m then x else m;
      forall k | k in s ensures least <= k { assert k == x || k in rest; }
      assert IsLeast(least, s);
    }
  }

  function Least(s: set<nat>): (m: nat)
    requires s != {}
    ensures IsLeast(m, s)
  {
    LeastExists(s);
    assert forall a, b :: IsLeast(a, s) && IsLeast(b, s) ==> a <= b;
    var m :| IsLeast(m, s);
    m
  }

  /** The members of `s` in ascending order. */
  function SortedKeys(s: set<nat>): (keys: seq<nat>)
    ensures Ascending(keys) && Elems(keys) == s
    decreases s
  {
    if s == {} then []
    else
      var m := Least(s);
      var rest := SortedKeys(s - {m});
      PrependLeast(m, rest);
      [m] + rest
  }

  lemma PrependLeast(m: nat, rest: seq<nat>)
    requires Ascending(rest) && forall k :: k in Elems(rest) ==> m < k
    ensures Ascending([m] + rest) && Elems([m] + rest) == {m} + Elems(rest)
  {
    var keys := [m] + rest;
    forall j | 0 < j < |keys| ensures m < keys[j] { assert rest[j-1] in Elems(rest); }
    forall k ensures k in Elems(keys) <==> k == m || k in Elems(rest) {
      assert k in keys <==> k == m || k in rest;
    }
  }

  /** A set has one ascending list. */
  lemma {:induction false} AscendingUnique(a: seq<nat>, b: seq<nat>)
    requires Ascending(a) && Ascending(b) && Elems(a) == Elems(b)
    ensures a == b
  {
    if a == [] || b == [] {
      assert Elems(a) == {} || Elems(b) == {};
      OnlyEmpty(a);
      OnlyEmpty(b);
    } else {
      assert a[0] in Elems(b) && b[0] in Elems(a);
      AscendingTail(a);
      AscendingTail(b);
      AscendingUnique(a[1..], b[1..]);
    }
  }

  lemma OnlyEmpty(a: seq<nat>)
    ensures Elems(a) == {} <==> a == []
  {
    if a != [] { assert a[0] in Elems(a); }
  }

  lemma AscendingTail(a: seq<nat>)
    requires Ascending(a) && a != []
    ensures Ascending(a[1..]) && Elems(a[1..]) == Elems(a) - {a[0]} && a == [a[0]] + a[1..]
    ensures forall k :: k in Elems(a) ==> a[0] <= k
  {
    forall k ensures k in Elems(a[1..]) <==> k in Elems(a) && k != a[0] {
      assert a == [a[0]] + a[1..];
    }
  }
}
