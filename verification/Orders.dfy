/**
 The ledger's tables are key-ordered: an iterator visits a snapshot of the keys in ascending order,
 and a backward seek finds the greatest key below a bound. Both are defined here on finite sets.
 */
module Orders {

  ghost predicate TotalOrder<K(!new)>(le: (K, K) -> bool) {
    && (forall a, b :: le(a, b) || le(b, a))
    && (forall a, b :: le(a, b) && le(b, a) ==> a == b)
    && (forall a, b, c :: le(a, b) && le(b, c) ==> le(a, c))
  }

  predicate NatLe(a: nat, b: nat) {
    a <= b
  }

  predicate NatGe(a: nat, b: nat) {
    a >= b
  }

  /** Big-endian encoding of a pair orders it lexicographically. */
  predicate PairLe(a: (nat, nat), b: (nat, nat)) {
    a.0 < b.0 || (a.0 == b.0 && a.1 <= b.1)
  }

  lemma {:induction false} LeastExists<K(!new)>(s: set<K>, le: (K, K) -> bool) returns (m: K)
    requires s != {} && TotalOrder(le)
    ensures m in s && forall x :: x in s ==> le(m, x)
  {
    var x :| x in s;
    if s == {x} {
      m := x;
    } else {
      assert exists y :: y in s && y != x;
      var l := LeastExists(s - {x}, le);
      m := if le(x, l) then x else l;
      forall y | y in s
        ensures le(m, y)
      {
        if y != x {
          assert y in s - {x} && le(l, y);
        }
      }
    }
  }

  function Least<K(!new,==)>(s: set<K>, le: (K, K) -> bool): (m: K)
    requires s != {} && TotalOrder(le)
    ensures m in s && forall x :: x in s ==> le(m, x)
  {
    assert exists m :: m in s && forall x :: x in s ==> le(m, x) by {
      var m := LeastExists(s, le);
    }
    var m :| m in s && forall x :: x in s ==> le(m, x);
    m
  }

  /** The keys of a table in the order its iterator visits them. */
  function Ascending<K(!new,==)>(s: set<K>, le: (K, K) -> bool): (r: seq<K>)
    requires TotalOrder(le)
    ensures forall x :: x in r <==> x in s
    ensures forall i, j :: 0 <= i < j < |r| ==> le(r[i], r[j]) && r[i] != r[j]
  {
    if s == {} then
      []
    else
      var m := Least(s, le);
      var rest := Ascending(s - {m}, le);
      assert forall i :: 0 <= i < |rest| ==> rest[i] in rest;
      [m] + rest
  }

  function AscendingNats(s: set<nat>): (r: seq<nat>)
    ensures forall x :: x in r <==> x in s
    ensures forall i, j :: 0 <= i < j < |r| ==> r[i] < r[j]
  {
    Ascending(s, NatLe)
  }

  function AscendingPairs(s: set<(nat, nat)>): (r: seq<(nat, nat)>)
    ensures forall x :: x in r <==> x in s
    ensures forall i, j :: 0 <= i < j < |r| ==> PairLe(r[i], r[j]) && r[i] != r[j]
  {
    Ascending(s, PairLe)
  }

  /** The greatest key, which is where a backward seek lands. */
  function Last(s: set<nat>): (m: nat)
    requires s != {}
    ensures m in s && forall x :: x in s ==> x <= m
  {
    Least(s, NatGe)
  }
}
