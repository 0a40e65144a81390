/**
 The ring of the last eleven block times and its median.
 */
module Timestamps {

  const RING: nat := 11

  type Ring = s: seq<nat> | |s| == 11 witness seq(11, i => 0)

  // ----- sorting

  ghost predicate IsSorted(s: seq<nat>) {
    forall i, j :: 0 <= i < j < |s| ==> s[i] <= s[j]
  }

  function Insert(x: nat, s: seq<nat>): (r: seq<nat>)
    ensures |r| == |s| + 1
  {
    if s == [] || x <= s[0] then [x] + s else [s[0]] + Insert(x, s[1..])
  }

  function Sort(s: seq<nat>): (r: seq<nat>)
    ensures |r| == |s|
  {
    if s == [] then [] else Insert(s[0], Sort(s[1..]))
  }

  /** How many entries are at least `m`. */
  ghost function AtLeast(s: seq<nat>, m: nat): (n: nat)
    ensures n <= |s|
  {
    if s == [] then 0 else (if s[0] >= m then 1 else 0) + AtLeast(s[1..], m)
  }

  lemma {:induction false} AtLeastConcat(a: seq<nat>, b: seq<nat>, m: nat)
    ensures AtLeast(a + b, m) == AtLeast(a, m) + AtLeast(b, m)
    decreases |a|
  {
    if a == [] {
      assert a + b == b;
    } else {
      assert (a + b)[1..] == a[1..] + b;
      AtLeastConcat(a[1..], b, m);
    }
  }

  lemma {:induction false} InsertSorts(x: nat, s: seq<nat>, m: nat)
    requires IsSorted(s)
    ensures IsSorted(Insert(x, s))
    ensures AtLeast(Insert(x, s), m) == AtLeast([x], m) + AtLeast(s, m)
    ensures s != [] ==> Insert(x, s)[0] == if x <= s[0] then x else s[0]
    ensures s == [] ==> Insert(x, s)[0] == x
    decreases |s|
  {
    assert [x][1..] == [];
    if s == [] || x <= s[0] {
      assert ([x] + s)[1..] == s;
    } else {
      InsertSorts(x, s[1..], m);
      var rest := Insert(x, s[1..]);
      assert ([s[0]] + rest)[1..] == rest;
      assert forall j :: 0 <= j < |rest| ==> rest[0] <= rest[j];
    }
  }

  lemma {:induction false} SortSorts(s: seq<nat>, m: nat)
    ensures IsSorted(Sort(s))
    ensures AtLeast(Sort(s), m) == AtLeast(s, m)
    decreases |s|
  {
    if s == [] {
    } else {
      SortSorts(s[1..], m);
      InsertSorts(s[0], Sort(s[1..]), m);
      assert [s[0]][1..] == [];
    }
  }

  lemma {:induction false} AllAtLeast(s: seq<nat>, m: nat)
    requires forall i :: 0 <= i < |s| ==> s[i] >= m
    ensures AtLeast(s, m) == |s|
    decreases |s|
  {
    if s == [] {
    } else {
      AllAtLeast(s[1..], m);
    }
  }

  lemma {:induction false} NoneAtLeast(s: seq<nat>, m: nat)
    requires forall i :: 0 <= i < |s| ==> s[i] < m
    ensures AtLeast(s, m) == 0
    decreases |s|
  {
    if s == [] {
    } else {
      NoneAtLeast(s[1..], m);
    }
  }

  // ----- the median

  /** The sixth smallest of eleven times. */
  function Median(ring: Ring): nat {
    Sort(ring)[5]
  }

  /** The median is at least `m` exactly when at least six of the eleven times are. */
  lemma MedianAtLeast(ring: Ring, m: nat)
    ensures Median(ring) >= m <==> AtLeast(ring, m) >= 6
  {
    var s := Sort(ring);
    SortSorts(ring, m);
    if s[5] >= m {
      assert s == s[..5] + s[5..];
      AtLeastConcat(s[..5], s[5..], m);
      AllAtLeast(s[5..], m);
    } else {
      assert s == s[..6] + s[6..];
      AtLeastConcat(s[..6], s[6..], m);
      NoneAtLeast(s[..6], m);
    }
  }

  /** A block time is accepted when it is above the median. */
  predicate TimestampOk(time: nat, ring: Ring) {
    time > Median(ring)
  }

  function Record(ring: Ring, height: nat, time: nat): Ring {
    ring[height % RING := time]
  }

  lemma AtLeastUpdate(s: seq<nat>, i: nat, x: nat, m: nat)
    requires i < |s|
    ensures AtLeast(s[i := x], m) + AtLeast([s[i]], m) == AtLeast(s, m) + AtLeast([x], m)
  {
    assert s == s[..i] + ([s[i]] + s[i + 1..]);
    assert s[i := x] == s[..i] + ([x] + s[i + 1..]);
    AtLeastConcat(s[..i], [s[i]] + s[i + 1..], m);
    AtLeastConcat(s[..i], [x] + s[i + 1..], m);
    AtLeastConcat([s[i]], s[i + 1..], m);
    AtLeastConcat([x], s[i + 1..], m);
  }

  /** Recording an accepted time never lowers the median, whichever entry it replaces. */
  lemma MedianNeverDecreases(ring: Ring, height: nat, time: nat)
    requires TimestampOk(time, ring)
    ensures Median(ring) <= Median(Record(ring, height, time))
  {
    var m := Median(ring);
    MedianAtLeast(ring, m);
    AtLeastUpdate(ring, height % RING, time, m);
    assert AtLeast([time], m) == 1 by { assert [time][1..] == []; }
    assert AtLeast([ring[height % RING]], m) <= 1;
    MedianAtLeast(Record(ring, height, time), m);
  }

  // ----- what the ring holds

  lemma RotationIndex(first: nat, p: nat)
    requires p < 11
    ensures var r := (11 - first % 11) % 11; (first + (p + r) % 11) % 11 == p
  {
    var q, a := first / 11, first % 11;
    assert first == 11 * q + a;
    var r := (11 - a) % 11;
    var k := (p + r) % 11;
    assert a + k == p || a + k == p + 11;
    assert first + k == 11 * q + p || first + k == 11 * (q + 1) + p;
  }

  lemma RingIsRotation(ring: Ring, times: Ring, first: nat)
    requires forall k :: 0 <= k < 11 ==> ring[(first + k) % 11] == times[k]
    ensures var r := (11 - first % 11) % 11; ring == times[r..] + times[..r]
  {
    var r := (11 - first % 11) % 11;
    forall p | 0 <= p < 11
      ensures ring[p] == (times[r..] + times[..r])[p]
    {
      RotationIndex(first, p);
      assert ring[p] == times[(p + r) % 11];
    }
  }

  lemma RotatedMedian(ring: Ring, times: Ring, r: nat)
    requires r <= 11 && ring == times[r..] + times[..r]
    ensures Median(ring) == Median(times)
  {
    assert times == times[..r] + times[r..];
    forall m
      ensures AtLeast(ring, m) == AtLeast(times, m)
    {
      AtLeastConcat(times[r..], times[..r], m);
      AtLeastConcat(times[..r], times[r..], m);
    }
    hide AtLeast;
    MedianAtLeast(ring, Median(times));
    MedianAtLeast(times, Median(times));
    MedianAtLeast(ring, Median(ring));
    MedianAtLeast(times, Median(ring));
  }

  /** After recording the times of eleven consecutive heights, the ring holds exactly these times, and
      its median is theirs. */
  lemma RingHoldsLastEleven(ring: Ring, times: Ring, first: nat)
    requires forall k :: 0 <= k < 11 ==> ring[(first + k) % 11] == times[k]
    ensures multiset(ring) == multiset(times)
    ensures Median(ring) == Median(times)
  {
    hide Median;
    var r := (11 - first % 11) % 11;
    RingIsRotation(ring, times, first);
    RotatedMedian(ring, times, r);
    assert times == times[..r] + times[r..];
    assert multiset(ring) == multiset(times[r..]) + multiset(times[..r]);
  }
}
