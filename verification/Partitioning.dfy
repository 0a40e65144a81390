/**
 Splitting a run of commitments into proofs: which segments one proof may cover, the greedy split, and
 why no valid split uses fewer proofs.
 */
module Partitioning {
  import opened Wrappers
  import opened StateDiffs
  import opened FinalityLedger

  datatype Limits = Limits(
    maxCount: Option<nat>,                  // commitments per proof
    maxSize: nat,                           // bytes of compressed state diff per proof
    forkOf: nat -> nat,                     // fork active at an L2 height
    sizeOf: map<Key, Value> -> nat)         // compressed size of a diff

  /** Commitments to be proven, the first L2 height they cover, and the diffs of all L2 blocks. */
  datatype Job = Job(limits: Limits, blocks: seq<Diff>, start: Height, commitments: seq<Commitment>)
  {
    ghost predicate Valid() {
      && (forall i, k :: 0 <= i < k < |commitments| ==> commitments[i].end < commitments[k].end)
      && (forall i :: 0 <= i < |commitments| ==> commitments[i].end <= |blocks|)
    }

    function StartOf(i: nat): Height
      requires i <= |commitments|
    {
      if i == 0 then start else commitments[i - 1].end + 1
    }

    /** First block whose diff counts for commitment `a`. It is the start height, unless the first commitment
        ends before the start: then that commitment has no block and the next one still begins after its end. */
    function FirstBlock(a: nat): Height
      requires a < |commitments|
    {
      if StartOf(a) <= commitments[a].end + 1 then StartOf(a) else commitments[a].end + 1
    }

    /** The merged diff of commitments `a..b`, as one pass over their blocks. */
    ghost function Merged(a: nat, b: nat): map<Key, Value>
      requires Valid() && a <= b < |commitments|
    {
      FlatPass(blocks, FirstBlock(a), commitments[b].end)
    }

    /** The diff fetched for the first commitment, from the start height on. */
    lemma FirstDiff()
      requires Valid() && commitments != []
      ensures FlatPass(blocks, start, commitments[0].end) == Merged(0, 0)
    {
    }

    /** Commitments `a..b` may share a proof: one alone always may; several must respect the count,
        share a fork and have a merged diff within the size limit. */
    ghost predicate Fits(a: nat, b: nat)
      requires Valid() && a <= b < |commitments|
    {
      a < b ==>
        && (limits.maxCount.Some? ==> b - a + 1 <= limits.maxCount.value)
        && (forall k :: a <= k <= b ==> ForkAt(k) == ForkAt(a))
        && limits.sizeOf(Merged(a, b)) <= limits.maxSize
    }

    function ForkAt(k: nat): nat
      requires k < |commitments|
    {
      limits.forkOf(commitments[k].end)
    }

    /** The three checks made before commitment `i` joins a partition that began at `a`. */
    ghost predicate Joins(a: nat, i: nat)
      requires Valid() && a < i < |commitments|
    {
      && (limits.maxCount.Some? ==> i - a < limits.maxCount.value)
      && ForkAt(i) == ForkAt(i - 1)
      && limits.sizeOf(Merged(a, i)) <= limits.maxSize
    }

    /** Last commitment of the partition that began at `a` and holds `a..b` so far. */
    ghost function GreedyEnd(a: nat, b: nat): (e: nat)
      requires Valid() && a <= b < |commitments|
      ensures b <= e < |commitments|
      decreases |commitments| - b
    {
      if b + 1 < |commitments| && Joins(a, b + 1) then GreedyEnd(a, b + 1) else b
    }

    /** The greedy split of the commitments from `a` on, as the last position of each partition. */
    ghost function Greedy(a: nat): seq<nat>
      requires Valid() && a <= |commitments|
      decreases |commitments| - a
    {
      if a == |commitments| then [] else [GreedyEnd(a, a)] + Greedy(GreedyEnd(a, a) + 1)
    }

    /** `ends` splits the commitments from `a` on into non-empty segments that each fit a proof. */
    ghost predicate Splits(a: nat, ends: seq<nat>)
      requires Valid() && a <= |commitments|
      decreases |ends|
    {
      if ends == [] then a == |commitments|
      else a <= ends[0] < |commitments| && Fits(a, ends[0]) && Splits(ends[0] + 1, ends[1..])
    }

    // ----- the greedy split is valid and every cut is forced

    lemma JoinsFits(a: nat, i: nat)
      requires Valid() && a < i < |commitments| && Fits(a, i - 1)
      ensures Joins(a, i) <==> Fits(a, i)
    {
      if Fits(a, i) {
        assert ForkAt(i) == ForkAt(a) && ForkAt(i - 1) == ForkAt(a);
      }
    }

    lemma {:induction false} GreedyEndFits(a: nat, b: nat)
      requires Valid() && a <= b < |commitments| && Fits(a, b)
      ensures var e := GreedyEnd(a, b);
        Fits(a, e) && (e + 1 < |commitments| ==> !Joins(a, e + 1) && !Fits(a, e + 1))
      decreases |commitments| - b
    {
      hide Fits, Joins;
      if b + 1 == |commitments| {
      } else {
        JoinsFits(a, b + 1);
        if Joins(a, b + 1) {
          GreedyEndFits(a, b + 1);
        }
      }
    }

    lemma SingleFits(a: nat)
      requires Valid() && a < |commitments|
      ensures Fits(a, a)
    {
    }

    lemma {:induction false} GreedySplits(a: nat)
      requires Valid() && a <= |commitments|
      ensures Splits(a, Greedy(a))
      decreases |commitments| - a
    {
      hide Fits, GreedyEnd;
      if a == |commitments| {
      } else {
        var e := GreedyEnd(a, a);
        SingleFits(a);
        GreedyEndFits(a, a);
        GreedySplits(e + 1);
        assert Greedy(a)[1..] == Greedy(e + 1);
      }
    }

    /** Every partition but the last ends where adding the next commitment would break a limit. */
    ghost predicate CutsForced(a: nat, ends: seq<nat>)
      requires Valid() && a <= |commitments| && Splits(a, ends)
      decreases |ends|
    {
      ends != [] ==>
        && (ends[0] + 1 < |commitments| ==> !Fits(a, ends[0] + 1))
        && CutsForced(ends[0] + 1, ends[1..])
    }

    lemma {:induction false} GreedyCutsForced(a: nat)
      requires Valid() && a <= |commitments|
      ensures Splits(a, Greedy(a)) && CutsForced(a, Greedy(a))
      decreases |commitments| - a
    {
      hide Fits, GreedyEnd;
      GreedySplits(a);
      if a == |commitments| {
      } else {
        var e := GreedyEnd(a, a);
        SingleFits(a);
        GreedyEndFits(a, a);
        GreedyCutsForced(e + 1);
        assert Greedy(a)[1..] == Greedy(e + 1);
      }
    }

    // ----- the greedy split is shortest

    /** The compressed size never shrinks when a segment is extended on either side. */
    ghost predicate SizeMonotone()
      requires Valid()
    {
      forall a, c, d, b :: 0 <= a <= c <= d <= b < |commitments| ==>
        limits.sizeOf(Merged(c, d)) <= limits.sizeOf(Merged(a, b))
    }

    lemma FitsShrinks(a: nat, c: nat, d: nat, b: nat)
      requires Valid() && SizeMonotone() && a <= c <= d <= b < |commitments| && Fits(a, b)
      ensures Fits(c, d)
    {
      if c < d {
        assert forall k :: a <= k <= b ==> ForkAt(k) == ForkAt(a);
      }
    }

    lemma {:induction false} GreedyReaches(a: nat, b: nat, e: nat)
      requires Valid() && SizeMonotone() && a <= b <= e < |commitments| && Fits(a, e)
      ensures GreedyEnd(a, b) >= e
      decreases e - b
    {
      hide Fits, Joins, SizeMonotone;
      if b == e {
      } else {
        FitsShrinks(a, a, b + 1, e);
        FitsShrinks(a, a, b, e);
        JoinsFits(a, b + 1);
        GreedyReaches(a, b + 1, e);
      }
    }

    /** Started no earlier than another split, the greedy split needs no more partitions. */
    lemma {:induction false} GreedyStaysAhead(a: nat, c: nat, ends: seq<nat>)
      requires Valid() && SizeMonotone() && a <= c <= |commitments| && Splits(a, ends)
      ensures |Greedy(c)| <= |ends|
      decreases |ends|
    {
      hide Fits, SizeMonotone, GreedyEnd;
      if ends == [] || c == |commitments| {
      } else {
        if c > ends[0] {
          GreedyStaysAhead(ends[0] + 1, c, ends[1..]);
        } else {
          FitsShrinks(a, c, ends[0], ends[0]);
          GreedyReaches(c, c, ends[0]);
          GreedyStaysAhead(ends[0] + 1, GreedyEnd(c, c) + 1, ends[1..]);
        }
      }
    }

    /** No valid contiguous split has fewer partitions than the greedy one. */
    lemma GreedyIsShortest(ends: seq<nat>)
      requires Valid() && SizeMonotone() && Splits(0, ends)
      ensures Splits(0, Greedy(0)) && |Greedy(0)| <= |ends|
    {
      GreedySplits(0);
      GreedyStaysAhead(0, 0, ends);
    }

    // ----- partitions of a split

    /** Position after the last segment of a split. */
    function Next(ends: seq<nat>): nat {
      if ends == [] then 0 else ends[|ends| - 1] + 1
    }

    /** Ascending segment ends within the commitments. */
    ghost predicate Cuts(ends: seq<nat>) {
      ends == []
      || (Cuts(ends[..|ends| - 1]) && Next(ends[..|ends| - 1]) <= ends[|ends| - 1] < |commitments|)
    }

    function PartOf(a: nat, b: nat): Partition
      requires a <= b < |commitments|
    {
      Partition(commitments[a..b + 1], StartOf(a), commitments[b].end)
    }

    ghost function Parts(ends: seq<nat>): (parts: seq<Partition>)
      requires Cuts(ends)
      ensures |parts| == |ends|
    {
      if ends == [] then []
      else Parts(ends[..|ends| - 1]) + [PartOf(Next(ends[..|ends| - 1]), ends[|ends| - 1])]
    }

    lemma PartsExtend(ends: seq<nat>, e: nat)
      requires Cuts(ends) && Next(ends) <= e < |commitments|
      ensures Cuts(ends + [e]) && Parts(ends + [e]) == Parts(ends) + [PartOf(Next(ends), e)]
    {
      assert (ends + [e])[..|ends|] == ends;
    }

    lemma Adjoin(a: nat, b: nat)
      requires a <= b < |commitments|
      ensures commitments[..a] + PartOf(a, b).commitments == commitments[..b + 1]
    {
    }

    /** The partitions of a split concatenate to the commitments it covers. */
    lemma {:induction false} PartsConcatenate(ends: seq<nat>)
      requires Cuts(ends)
      ensures Next(ends) <= |commitments| && Flatten(Parts(ends)) == commitments[..Next(ends)]
      decreases |ends|
    {
      if ends == [] {
      } else {
        hide Flatten;
        var before, last := ends[..|ends| - 1], ends[|ends| - 1];
        PartsConcatenate(before);
        FlattenExtend(Parts(before), PartOf(Next(before), last));
        Adjoin(Next(before), last);
      }
    }

    /** The partitions of a split are non-empty and their height ranges follow each other without gap. */
    lemma {:induction false} PartsTile(ends: seq<nat>)
      requires Cuts(ends)
      ensures Tiles(Parts(ends), start)
      ensures ends != [] ==> Parts(ends)[|ends| - 1].end == commitments[ends[|ends| - 1]].end
      decreases |ends|
    {
      hide Tiles;
      if ends != [] {
        var before := ends[..|ends| - 1];
        PartsTile(before);
        TilesExtend(Parts(before), PartOf(Next(before), ends[|ends| - 1]), start);
      } else {
        TilesNothing(start);
      }
    }

    // ----- partitions of a valid split

    /** First position of segment `k` of a split. */
    function SegmentStart(ends: seq<nat>, k: nat): nat
      requires k <= |ends|
    {
      if k == 0 then 0 else ends[k - 1] + 1
    }

    lemma {:induction false} SegmentFits(a: nat, ends: seq<nat>, k: nat)
      requires Valid() && a <= |commitments| && Splits(a, ends) && k < |ends|
      ensures var first := if k == 0 then a else ends[k - 1] + 1;
        first <= ends[k] < |commitments| && Fits(first, ends[k])
      decreases |ends|
    {
      hide Fits;
      if k == 0 {
      } else {
        SegmentFits(ends[0] + 1, ends[1..], k - 1);
      }
    }

    lemma {:induction false} PartAt(ends: seq<nat>, k: nat)
      requires Cuts(ends) && k < |ends|
      ensures SegmentStart(ends, k) <= ends[k] < |commitments|
      ensures Parts(ends)[k] == PartOf(SegmentStart(ends, k), ends[k])
      decreases |ends|
    {
      var before := ends[..|ends| - 1];
      if k == |before| {
        assert k > 0 ==> before[k - 1] == ends[k - 1];
      } else {
        PartAt(before, k);
      }
    }

    lemma PartFits(a: nat, b: nat)
      requires Valid() && a <= b < |commitments| && Fits(a, b)
      ensures WithinLimits(limits, blocks, PartOf(a, b))
    {
      hide FlatPass;
      var part := PartOf(a, b);
      forall k | 0 <= k < |part.commitments|
        ensures limits.forkOf(part.commitments[k].end) == limits.forkOf(part.commitments[0].end)
      {
        assert part.commitments[k] == commitments[a + k] && part.commitments[0] == commitments[a];
        assert a < b ==> ForkAt(a + k) == ForkAt(a);
      }
    }

    /** Every partition of a valid split keeps to the limits. */
    lemma SplitIsWithinLimits(ends: seq<nat>)
      requires Valid() && Cuts(ends) && Splits(0, ends)
      ensures forall k :: 0 <= k < |ends| ==> WithinLimits(limits, blocks, Parts(ends)[k])
    {
      hide Fits, Splits, Cuts, Parts, WithinLimits;
      forall k | 0 <= k < |ends|
        ensures WithinLimits(limits, blocks, Parts(ends)[k])
      {
        SegmentFits(0, ends, k);
        PartAt(ends, k);
        PartFits(SegmentStart(ends, k), ends[k]);
      }
    }

    /** No valid split into fewer partitions exists, if the size never shrinks when a run is extended. */
    ghost predicate Shortest(n: nat)
      requires Valid()
    {
      SizeMonotone() ==> forall ends :: Splits(0, ends) ==> n <= |ends|
    }

    lemma GreedyIsOptimal()
      requires Valid() && Cuts(Greedy(0))
      ensures Shortest(|Greedy(0)|)
      ensures forall k :: 0 <= k < |Greedy(0)| ==> WithinLimits(limits, blocks, Parts(Greedy(0))[k])
    {
      hide Fits, Splits, Greedy, Cuts, Parts, WithinLimits, SizeMonotone;
      GreedySplits(0);
      SplitIsWithinLimits(Greedy(0));
      if SizeMonotone() {
        forall ends | Splits(0, ends)
          ensures |Greedy(0)| <= |ends|
        {
          GreedyIsShortest(ends);
        }
      }
    }
  }

  lemma FlattenExtend(parts: seq<Partition>, part: Partition)
    ensures Flatten(parts + [part]) == Flatten(parts) + part.commitments
  {
    assert (parts + [part])[..|parts|] == parts;
  }

  lemma TilesNothing(start: nat)
    ensures Tiles([], start)
  {
  }

  /** Non-empty partitions covering consecutive height ranges from `start` on, each up to the end of
      its last commitment. */
  ghost predicate Tiles(parts: seq<Partition>, start: nat) {
    forall k {:trigger TileAt(parts, start, k)} :: 0 <= k < |parts| ==> TileAt(parts, start, k)
  }

  ghost predicate TileAt(parts: seq<Partition>, start: nat, k: nat)
    requires k < |parts|
  {
    && parts[k].commitments != []
    && parts[k].end == parts[k].commitments[|parts[k].commitments| - 1].end
    && parts[k].start == if k == 0 then start else parts[k - 1].end + 1
  }

  lemma TilesExtend(parts: seq<Partition>, part: Partition, start: nat)
    requires Tiles(parts, start) && part.commitments != []
    requires part.end == part.commitments[|part.commitments| - 1].end
    requires part.start == if parts == [] then start else parts[|parts| - 1].end + 1
    ensures Tiles(parts + [part], start)
  {
    forall k | 0 <= k < |parts + [part]|
      ensures TileAt(parts + [part], start, k)
    {
      assert k < |parts| ==> TileAt(parts, start, k);
    }
  }

  datatype Partition = Partition(commitments: seq<Commitment>, start: Height, end: nat)

  /** A partition is not empty, and unless it is a single commitment it keeps to the count, has one fork and
      a merged diff within the size. */
  ghost predicate WithinLimits(limits: Limits, blocks: seq<Diff>, part: Partition) {
    && part.commitments != [] && part.end <= |blocks|
    && (|part.commitments| > 1 ==>
          var cs := part.commitments;
          var first := if part.start <= cs[0].end + 1 then part.start else cs[0].end + 1;
          && (limits.maxCount.Some? ==> |cs| <= limits.maxCount.value)
          && (forall k :: 0 <= k < |cs| ==> limits.forkOf(cs[k].end) == limits.forkOf(cs[0].end))
          && limits.sizeOf(FlatPass(blocks, first, part.end)) <= limits.maxSize)
  }

  ghost function Flatten(parts: seq<Partition>): seq<Commitment> {
    if parts == [] then [] else Flatten(parts[..|parts| - 1]) + parts[|parts| - 1].commitments
  }
}
