/**
 The batch prover's selection of work: dropping commitments that cannot be proven yet and splitting the
 rest into partitions, one proof each.
 */
module BatchProving {
  import opened Wrappers
  import opened StateDiffs
  import opened FinalityLedger
  import opened Partitioning

  datatype PartitionMode = Normal | OneByOne

  datatype PartitionReason = Single | SpecChange | StateDiff | CommitmentCount | Finish

  /** The partitions made so far; the source's assertions are its methods' preconditions. */
  class PartitionState {
    const job: Job
    var partitions: seq<Partition>
    var startIdx: nat
    var startHeight: Height
    /** Last positions of the partitions made so far. */
    ghost var ends: seq<nat>

    ghost predicate Valid()
      reads this
    {
      && job.Cuts(ends)
      && partitions == job.Parts(ends)
      && startIdx == job.Next(ends) <= |job.commitments|
      && (startIdx < |job.commitments| ==> startHeight == job.StartOf(startIdx))
    }

    constructor (j: Job)
      ensures Valid() && job == j && ends == [] && startIdx == 0
    {
      job := j;
      partitions, startIdx, startHeight, ends := [], 0, j.start, [];
    }

    method AddPartition(end: nat, reason: PartitionReason)
      requires Valid() && startIdx <= end < |job.commitments|
      modifies this
      ensures Valid() && ends == old(ends) + [end] && startIdx == end + 1
    {
      job.PartsExtend(ends, end);
      var last := job.commitments[end];
      partitions := partitions + [Partition(job.commitments[startIdx..end + 1], startHeight, last.end)];
      ends := ends + [end];
      startIdx := end + 1;
      if startIdx == |job.commitments| {
        return;
      }
      startHeight := last.end + 1;
    }

    method IntoInner() returns (parts: seq<Partition>)
      requires Valid() && startIdx == |job.commitments|
      ensures job.Cuts(ends) && parts == job.Parts(ends) && job.Next(ends) == |job.commitments|
    {
      parts := partitions;
    }
  }

  /** Positions 0..n-1, each a segment of its own. */
  ghost function EachAlone(n: nat): (ends: seq<nat>)
    ensures |ends| == n
  {
    if n == 0 then [] else EachAlone(n - 1) + [n - 1]
  }

  /** The greedy split begins with the finished segments `done` and then the one that began at `a` and
      holds `a..b` so far. */
  ghost predicate OnTrack(job: Job, done: seq<nat>, a: nat, b: nat)
    requires job.Valid() && a <= b < |job.commitments|
  {
    job.Greedy(0) == done + [job.GreedyEnd(a, b)] + job.Greedy(job.GreedyEnd(a, b) + 1)
  }

  lemma TrackStarts(job: Job)
    requires job.Valid() && job.commitments != []
    ensures OnTrack(job, [], 0, 0)
  {
    GreedyStarts(job, 0);
  }

  lemma TrackContinues(job: Job, done: seq<nat>, a: nat, b: nat)
    requires job.Valid() && a <= b < |job.commitments| && OnTrack(job, done, a, b)
    ensures b + 1 < |job.commitments| && job.Joins(a, b + 1) ==> OnTrack(job, done, a, b + 1)
    ensures b + 1 < |job.commitments| && !job.Joins(a, b + 1) ==> OnTrack(job, done + [b], b + 1, b + 1)
    ensures b + 1 == |job.commitments| ==> job.Greedy(0) == done + [b]
  {
    hide Job.Greedy, Job.GreedyEnd, Job.Joins, Job.Valid;
    GreedyUnfolds(job, a, b);
    GreedyStarts(job, b + 1);
    if b + 1 == |job.commitments| {
      assert done + [b] + [] == done + [b];
    } else if !job.Joins(a, b + 1) {
      var e := job.GreedyEnd(b + 1, b + 1);
      Regroup(done + [b], [e], job.Greedy(e + 1));
    }
  }

  lemma Regroup(a: seq<nat>, b: seq<nat>, c: seq<nat>)
    ensures a + (b + c) == a + b + c
  {
  }

  lemma GreedyUnfolds(job: Job, a: nat, b: nat)
    requires job.Valid() && a <= b < |job.commitments|
    ensures job.GreedyEnd(a, b)
         == if b + 1 < |job.commitments| && job.Joins(a, b + 1) then job.GreedyEnd(a, b + 1) else b
  {
  }

  lemma GreedyStarts(job: Job, a: nat)
    requires job.Valid() && a <= |job.commitments|
    ensures job.Greedy(a)
         == if a == |job.commitments| then [] else [job.GreedyEnd(a, a)] + job.Greedy(job.GreedyEnd(a, a) + 1)
  {
  }

  /** Whether commitment `i` joins the partition that began at `a`, checked in the source's order:
      count, fork, then the size of the merged diff. `cumulative` is the diff of `a..i-1` before and
      that of the current partition after. */
  method TryJoin(job: Job, ghost a: nat, i: nat, count: nat, cumulative: Diff, own: Diff)
      returns (reason: Option<PartitionReason>, merged: Diff)
    requires job.Valid() && a < i < |job.commitments| && count == i - a
    requires Effect(cumulative) == job.Merged(a, i - 1)
    requires Effect(own) == job.Merged(i, i)
    ensures reason.None? <==> job.Joins(a, i)
    ensures Effect(merged) == if reason.None? then job.Merged(a, i) else job.Merged(i, i)
  {
    if job.limits.maxCount.Some? {
      if count >= job.limits.maxCount.value {
        return Some(CommitmentCount), own;
      }
    }
    if job.ForkAt(i) != job.ForkAt(i - 1) {
      return Some(SpecChange), own;
    }
    merged := MergeStateDiffs(cumulative, own);
    FlatPassSplits(job.blocks, job.FirstBlock(a), job.commitments[i - 1].end, job.commitments[i].end);
    assert Effect(merged) == job.Merged(a, i);
    if job.limits.sizeOf(Effect(merged)) > job.limits.maxSize {
      return Some(StateDiff), own;
    }
    reason := None;
  }

  ghost predicate GapFree(cs: seq<Commitment>) {
    forall i :: 0 <= i < |cs| ==> cs[i].index == cs[0].index + i
  }

  /** Greedy partitioning under the count, fork and size limits. */
  method PartitionNormal(job: Job) returns (parts: seq<Partition>)
    requires job.Valid() && job.commitments != [] && GapFree(job.commitments)
    ensures job.Cuts(job.Greedy(0)) && parts == job.Parts(job.Greedy(0))
    ensures job.Next(job.Greedy(0)) == |job.commitments|
  {
    hide OnTrack, Job.Joins, Job.Cuts, Job.Parts, Effect, FlatPass;
    var n := |job.commitments|;
    var state := new PartitionState(job);
    var cumulative := GetStateDiff(job.blocks, job.start, job.commitments[0].end);
    var count := 1;
    var next: Height := job.commitments[0].end + 1;
    TrackStarts(job);
    job.FirstDiff();
    for i := 1 to n
      invariant fresh(state) && state.job == job && state.Valid() && state.startIdx < i
      invariant count == i - state.startIdx
      invariant next == job.StartOf(i)
      invariant Effect(cumulative) == job.Merged(state.startIdx, i - 1)
      invariant OnTrack(job, state.ends, state.startIdx, i - 1)
    {
      var own := GetStateDiff(job.blocks, next, job.commitments[i].end);
      assert job.commitments[i].index == job.commitments[i - 1].index + 1;
      next := job.commitments[i].end + 1;
      TrackContinues(job, state.ends, state.startIdx, i - 1);
      var reason;
      reason, cumulative := TryJoin(job, state.startIdx, i, count, cumulative, own);
      if reason.Some? {
        state.AddPartition(i - 1, reason.value);
        count := 1;
      } else {
        count := count + 1;
      }
    }
    TrackContinues(job, state.ends, state.startIdx, n - 1);
    state.AddPartition(n - 1, Finish);
    parts := state.IntoInner();
  }

  /** Every commitment a partition of its own. */
  method PartitionOneByOne(job: Job) returns (parts: seq<Partition>)
    requires job.Valid()
    ensures job.Cuts(EachAlone(|job.commitments|)) && parts == job.Parts(EachAlone(|job.commitments|))
  {
    var n := |job.commitments|;
    var state := new PartitionState(job);
    for i := 0 to n
      invariant fresh(state) && state.job == job && state.Valid() && state.startIdx == i
      invariant state.ends == EachAlone(i)
    {
      state.AddPartition(i, Single);
    }
    parts := state.IntoInner();
  }

  /** Either way of partitioning covers the commitments in order with adjacent height ranges. */
  method PartitionJob(job: Job, mode: PartitionMode) returns (parts: seq<Partition>)
    requires job.Valid() && job.commitments != [] && (mode == Normal ==> GapFree(job.commitments))
    ensures mode == Normal ==> job.Cuts(job.Greedy(0)) && parts == job.Parts(job.Greedy(0))
    ensures mode == Normal ==> job.Shortest(|parts|)
    ensures mode == Normal ==> forall k :: 0 <= k < |parts| ==> WithinLimits(job.limits, job.blocks, parts[k])
    ensures mode == OneByOne ==>
      job.Cuts(EachAlone(|job.commitments|)) && parts == job.Parts(EachAlone(|job.commitments|))
    ensures Flatten(parts) == job.commitments && Tiles(parts, job.start)
  {
    hide Job.Valid, Job.Greedy, Tiles, Flatten, Job.Cuts, Job.Parts, EachAlone, Job.Shortest, WithinLimits;
    if mode == OneByOne {
      parts := PartitionOneByOne(job);
      EachAloneNext(job);
      job.PartsConcatenate(EachAlone(|job.commitments|));
      job.PartsTile(EachAlone(|job.commitments|));
    } else {
      parts := PartitionNormal(job);
      job.PartsConcatenate(job.Greedy(0));
      job.PartsTile(job.Greedy(0));
      job.GreedyIsOptimal();
    }
    assert job.commitments[..|job.commitments|] == job.commitments;
  }

  // ----- what can be proven now

  /** Position of the first commitment whose blocks are not all synced. */
  function FirstUnsynced(cs: seq<Commitment>, head: nat): (u: nat)
    ensures u <= |cs|
    ensures forall i :: 0 <= i < u ==> cs[i].end <= head
    ensures u < |cs| ==> cs[u].end > head
  {
    if cs == [] || cs[0].end > head then 0 else 1 + FirstUnsynced(cs[1..], head)
  }

  /** Position `i` continues an unbroken run of indices from the first one and is synced. */
  ghost predicate Provable(cs: seq<Commitment>, head: nat, i: nat)
    requires i < |cs|
  {
    cs[i].end <= head && cs[i].index == cs[0].index + i
  }

  /** `k` is the length of the longest provable prefix: empty when the predecessor is unknown. */
  ghost predicate LongestProvable(cs: seq<Commitment>, head: nat, known: map<nat, Commitment>, k: nat) {
    && k <= |cs|
    && if cs != [] && (cs[0].index == 1 || cs[0].index - 1 in known) then
         (forall i :: 0 <= i < k ==> Provable(cs, head, i)) && (k < |cs| ==> !Provable(cs, head, k))
       else
         k == 0
  }

  ghost predicate AscendingCommitments(cs: seq<Commitment>) {
    && (forall i :: 0 <= i < |cs| ==> cs[i].index >= 1)
    && (forall i, k :: 0 <= i < k < |cs| ==> cs[i].end < cs[k].end)
  }

  class BatchProver {
    const limits: Limits
    const tangerine: Height
    /** Diffs of the synced L2 blocks; the head height is their number. */
    var blocks: seq<Diff>
    var known: map<nat, Commitment>
    var syncTarget: Option<nat>

    constructor (l: Limits, t: Height)
      ensures limits == l && tangerine == t && blocks == [] && known == map[] && syncTarget == None
    {
      limits, tangerine := l, t;
      blocks, known, syncTarget := [], map[], None;
    }

    /** Drops the commitments from the first unsynced one on and remembers what to sync up to. When the
        last commitment is synced everything is kept without looking at the others. */
    method FilterUnsynced(cs: seq<Commitment>) returns (r: seq<Commitment>)
      requires cs != []
      modifies this`syncTarget
      ensures cs[|cs| - 1].end <= |blocks| ==> r == cs && syncTarget == None
      ensures cs[|cs| - 1].end > |blocks| ==>
        var u := FirstUnsynced(cs, |blocks|);
        u < |cs| && r == cs[..u] && syncTarget == Some(cs[u].end)
      ensures AscendingCommitments(cs) ==> r == cs[..FirstUnsynced(cs, |blocks|)]
    {
      if cs[|cs| - 1].end <= |blocks| {
        syncTarget := None;
        assert cs[..|cs|] == cs;
        return cs;
      }
      var u := 0;
      while cs[u].end <= |blocks|
        invariant u < |cs|
        invariant forall i :: 0 <= i < u ==> cs[i].end <= |blocks|
        decreases |cs| - u
      {
        u := u + 1;
      }
      syncTarget := Some(cs[u].end);
      r := cs[..u];
    }

    /** Keeps the unbroken run of indices from the first one on, if its predecessor is known. */
    method FilterIndexGap(cs: seq<Commitment>) returns (r: seq<Commitment>)
      requires cs != [] && cs[0].index >= 1
      ensures cs[0].index != 1 && cs[0].index - 1 !in known ==> r == []
      ensures cs[0].index == 1 || cs[0].index - 1 in known ==>
        && r <= cs
        && (forall i :: 0 <= i < |r| ==> cs[i].index == cs[0].index + i)
        && (|r| < |cs| ==> cs[|r|].index != cs[0].index + |r|)
    {
      r := [];
      var prev := cs[0].index - 1;
      if cs[0].index != 1 && prev !in known {
        return;
      }
      for i := 0 to |cs|
        invariant r == cs[..i] && prev == cs[0].index + i - 1
        invariant forall k :: 0 <= k < i ==> cs[k].index == cs[0].index + k
      {
        if cs[i].index != prev + 1 {
          return;
        }
        prev := cs[i].index;
        r := r + [cs[i]];
      }
    }

    /** The start height of the first partition. */
    ghost function StartFor(cs: seq<Commitment>): Height
      requires cs != [] && cs[0].index >= 1 && (cs[0].index == 1 || cs[0].index - 1 in known)
      reads this
    {
      if cs[0].index == 1 then tangerine else known[cs[0].index - 1].end + 1
    }

    method PartitionCommitments(cs: seq<Commitment>, mode: PartitionMode) returns (parts: seq<Partition>)
      requires cs != [] && AscendingCommitments(cs) && (cs[0].index == 1 || cs[0].index - 1 in known)
      requires (mode == Normal ==> GapFree(cs)) && cs[|cs| - 1].end <= |blocks|
      ensures var job := Job(limits, blocks, StartFor(cs), cs);
        && job.Valid()
        && (mode == Normal ==> job.Cuts(job.Greedy(0)) && parts == job.Parts(job.Greedy(0)) && job.Shortest(|parts|))
        && (mode == OneByOne ==> job.Cuts(EachAlone(|cs|)) && parts == job.Parts(EachAlone(|cs|)))
        && Flatten(parts) == cs && Tiles(parts, job.start)
      ensures mode == Normal ==> forall k :: 0 <= k < |parts| ==> WithinLimits(limits, blocks, parts[k])
    {
      var start: Height := if cs[0].index == 1 then tangerine else known[cs[0].index - 1].end + 1;
      var job := Job(limits, blocks, start, cs);
      assert job.Valid();
      hide Job.Valid, Job.Greedy, Tiles, Flatten, Job.Cuts, Job.Parts, EachAlone, Job.Shortest, WithinLimits;
      parts := PartitionJob(job, mode);
    }

    /** Both filters: what is left is the longest provable prefix. */
    method FilterPending(pending: seq<Commitment>) returns (cs: seq<Commitment>)
      requires pending != [] && AscendingCommitments(pending)
      modifies this`syncTarget
      ensures |cs| <= |pending| && cs == pending[..|cs|]
      ensures LongestProvable(pending, |blocks|, known, |cs|) && AscendingCommitments(cs)
      ensures cs != [] ==> cs[0] == pending[0] && (cs[0].index == 1 || cs[0].index - 1 in known)
      ensures GapFree(cs) && forall i :: 0 <= i < |cs| ==> cs[i].end <= |blocks|
    {
      assert pending[0].index >= 1;
      hide LongestProvable, AscendingCommitments, FirstUnsynced;
      var synced := FilterUnsynced(pending);
      cs := [];
      if synced != [] {
        cs := FilterIndexGap(synced);
      }
      FiltersAreLongest(pending, |blocks|, known, synced, cs);
    }

    /** Filters the pending commitments and partitions what is left: the partitions concatenate to the
        longest synced, gap-free prefix with a known predecessor, their height ranges tile, each is within the
        limits unless it is a single commitment, and no valid split has fewer. */
    method CreatePartitions(pending: seq<Commitment>, mode: PartitionMode) returns (parts: seq<Partition>, ghost k: nat)
      requires pending != [] && AscendingCommitments(pending)
      modifies this`syncTarget
      ensures LongestProvable(pending, |blocks|, known, k) && Flatten(parts) == pending[..k]
      ensures k > 0 ==>
        var job := Job(limits, blocks, StartFor(pending), pending[..k]);
        && job.Valid() && Tiles(parts, job.start)
        && (pending[0].index == 1 ==> job.start == tangerine)
        && (pending[0].index > 1 ==> pending[0].index - 1 in known && job.start == known[pending[0].index - 1].end + 1)
        && (mode == Normal ==> job.Cuts(job.Greedy(0)) && parts == job.Parts(job.Greedy(0)) && job.Shortest(|parts|))
        && (mode == OneByOne ==> forall i :: 0 <= i < |parts| ==> |parts[i].commitments| == 1)
      ensures mode == Normal ==> forall i :: 0 <= i < |parts| ==> WithinLimits(limits, blocks, parts[i])
    {
      hide Job.Valid, Tiles, Flatten, Job.Cuts, Job.Parts, Job.Greedy, LongestProvable, AscendingCommitments;
      hide Job.Shortest, WithinLimits;
      var cs := FilterPending(pending);
      k := |cs|;
      if cs == [] {
        FlattenNothing();
        return [], k;
      }
      parts := PartitionCommitments(cs, mode);
      if mode == OneByOne {
        AloneIsSingle(Job(limits, blocks, StartFor(cs), cs), k);
      }
    }
  }

  lemma {:induction false} EachAloneNext(job: Job)
    ensures job.Next(EachAlone(|job.commitments|)) == |job.commitments|
  {
  }

  lemma {:induction false} AloneIsSingle(job: Job, n: nat)
    requires job.Cuts(EachAlone(n))
    ensures forall i :: 0 <= i < n ==> |job.Parts(EachAlone(n))[i].commitments| == 1
    decreases n
  {
    if n == 0 {
    } else {
      assert EachAlone(n)[..|EachAlone(n)| - 1] == EachAlone(n - 1);
      AloneIsSingle(job, n - 1);
    }
  }

  lemma FlattenNothing()
    ensures Flatten([]) == []
  {
  }

  lemma FiltersAreLongest(cs: seq<Commitment>, head: nat, known: map<nat, Commitment>, synced: seq<Commitment>,
                          r: seq<Commitment>)
    requires cs != [] && AscendingCommitments(cs) && synced == cs[..FirstUnsynced(cs, head)]
    requires synced == [] || (cs[0].index != 1 && cs[0].index - 1 !in known) ==> r == []
    requires synced != [] && (cs[0].index == 1 || cs[0].index - 1 in known) ==>
      && r <= synced
      && (forall i :: 0 <= i < |r| ==> synced[i].index == cs[0].index + i)
      && (|r| < |synced| ==> synced[|r|].index != cs[0].index + |r|)
    ensures |r| <= |cs| && r == cs[..|r|] && LongestProvable(cs, head, known, |r|) && AscendingCommitments(r)
    ensures r != [] ==> r[0] == cs[0] && (cs[0].index == 1 || cs[0].index - 1 in known)
    ensures GapFree(r) && forall i :: 0 <= i < |r| ==> r[i].end <= head
  {
  }
}
