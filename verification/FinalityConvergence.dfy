/**
 When a valid commitment history is delivered completely, in whatever order and however often, and
 the L2 chain is synced, one retry pass leaves exactly that history committed.
 */
module FinalityConvergence {
  import opened Orders
  import opened FinalityLedger
  import opened FinalityInvariant
  import opened FinalityRuns
  import opened FinalityDrain

  /** A ledger holding just a commitment history and the L2 chain it commits to. */
  ghost function HistoryLedger(history: map<nat, Commitment>, chain: seq<L2Block>): Ledger {
    EMPTY_LEDGER.(l2 := chain, committed := history)
  }

  /** Indices 1..n, contiguous non-empty ranges from the Tangerine start, correct Merkle roots. */
  ghost predicate ValidHistory(p: Params, history: map<nat, Commitment>, chain: seq<L2Block>) {
    Chained(p, HistoryLedger(history, chain))
  }

  /** The ledger holds nothing but the history, on a prefix of the chain, and has lost no index of `seen`. */
  ghost predicate Tracks(s: Ledger, history: map<nat, Commitment>, chain: seq<L2Block>, seen: set<nat>) {
    && s.l2 <= chain
    && (forall i :: i in s.committed ==> i in history && s.committed[i] == history[i])
    && PendingFrom(s, history)
    && (forall i :: i in seen ==> i in s.committed || i in s.pending)
  }

  lemma HistoryEnds(p: Params, s: Ledger, history: map<nat, Commitment>, chain: seq<L2Block>, i: nat)
    requires ValidHistory(p, history, chain) && Ready(p, s) && Tracks(s, history, chain, {})
    requires i in history && i !in s.committed
    ensures |s.committed| < i && EndOf(p, s, |s.committed|) < history[i].end && p.start <= history[i].end
  {
    var h := HistoryLedger(history, chain);
    var n := |s.committed|;
    if n > 0 {
      assert n in s.committed;
    }
    EndsAscend(p, h, n, i);
    EndsAscend(p, h, 0, i);
  }

  lemma SameHashes(l2: seq<L2Block>, chain: seq<L2Block>, first: Height, last: nat)
    requires l2 <= chain && first <= last + 1 && last <= |l2|
    ensures BlockHashes(l2, first, last) == BlockHashes(chain, first, last)
  {
  }

  /** Where the chain ends in the ledger, the next commitment of the history begins. */
  lemma HistoryContinues(p: Params, s: Ledger, history: map<nat, Commitment>, chain: seq<L2Block>, i: nat)
    requires ValidHistory(p, history, chain) && Ready(p, s) && Tracks(s, history, chain, {})
    requires i in history && i == |s.committed| + 1
    ensures i == 1 || (i - 1 in s.committed && i - 1 in history)
    ensures EndOf(p, s, i - 1) == EndOf(p, HistoryLedger(history, chain), i - 1)
    ensures Linked(p, HistoryLedger(history, chain), i)
  {
    hide Linked;
    assert i > 1 ==> i - 1 in s.committed;
  }

  lemma HistoryRoot(p: Params, s: Ledger, history: map<nat, Commitment>, chain: seq<L2Block>, i: nat)
    requires ValidHistory(p, history, chain) && Ready(p, s) && Tracks(s, history, chain, {})
    requires i in history && i == |s.committed| + 1 && history[i].end <= |s.l2|
    requires EndOf(p, s, i - 1) < history[i].end
    ensures history[i].root == p.merkleRoot(BlockHashes(s.l2, EndOf(p, s, i - 1) + 1, history[i].end))
  {
    hide BlockHashes, Ready, ValidHistory;
    HistoryContinues(p, s, history, chain, i);
    SameHashes(s.l2, chain, EndOf(p, s, i - 1) + 1, history[i].end);
  }

  /** The commitment ends up committed or pending, and nothing else changes. */
  ghost predicate Absorbs(s: Ledger, t: Ledger, c: Commitment) {
    && t.l2 == s.l2
    && ((t.committed == s.committed && t.pending == s.pending && c.index in s.committed)
        || (t.committed == s.committed[c.index := c] && t.pending == s.pending)
        || (t.committed == s.committed && c.index in t.pending && t.pending[c.index].0 == c
            && t.pending == s.pending[c.index := t.pending[c.index]]))
  }

  /** A commitment past the tip, in index and height, is not discarded as old. */
  lemma NotOld(p: Params, s: Ledger, c: Commitment)
    requires Ready(p, s) && |s.committed| < c.index && EndOf(p, s, |s.committed|) < c.end
    ensures var mark := LatestMark(s.committedAt);
      mark.Some? ==> mark.value.height < c.end && mark.value.index < c.index
  {
    hide LatestMark, Linked;
  }

  /** A commitment not discarded as old, whose root is right once its blocks are there, is committed or pending. */
  lemma FreshOutcome(p: Params, s: Ledger, current: nat, found: nat, c: Commitment)
    requires c.index >= 1 && c.index !in s.committed
    requires var mark := LatestMark(s.committedAt);
      mark.Some? ==> mark.value.height < c.end && mark.value.index < c.index
    requires StartHeight(p, s, c.index).Some? && c.end <= |s.l2| ==>
      var start := StartHeight(p, s, c.index).value;
      start <= c.end && c.root == p.merkleRoot(BlockHashes(s.l2, start, c.end))
    ensures var (t, outcome) := ProcessCommitment(p, s, current, found, c);
      || (outcome == Success && exists start :: t == Commit(s, current, found, start, c))
      || (outcome == Pending && t == StorePending(s, c, found))
      || (outcome == Pending && t == s && c.index in s.pending)
  {
    hide LatestMark, BlockHashes, Commit, StorePending;
  }

  lemma StartsAtTip(p: Params, s: Ledger, i: nat)
    requires Ready(p, s) && i > |s.committed| && StartHeight(p, s, i).Some?
    ensures i == |s.committed| + 1 && StartHeight(p, s, i).value == EndOf(p, s, i - 1) + 1
  {
    hide LatestMark, Linked;
  }

  lemma CommittedIsDiscarded(p: Params, s: Ledger, current: nat, found: nat, c: Commitment)
    requires c.index in s.committed
    ensures ProcessCommitment(p, s, current, found, c) == (s, Discarded)
  {
  }

  /** A commitment of the history is discarded only when it is committed already, and never refused. */
  lemma HistoryOutcome(p: Params, s: Ledger, history: map<nat, Commitment>, chain: seq<L2Block>,
                       current: nat, found: nat, c: Commitment)
    requires ValidHistory(p, history, chain) && Ready(p, s) && Tracks(s, history, chain, {}) && Holds(history, c)
    ensures var (t, outcome) := ProcessCommitment(p, s, current, found, c);
      || (c.index in s.committed && outcome == Discarded && t == s)
      || (outcome == Success && exists start :: t == Commit(s, current, found, start, c))
      || (outcome == Pending && t == StorePending(s, c, found))
      || (outcome == Pending && t == s && c.index in s.pending)
  {
    hide ProcessCommitment, Ready, ValidHistory, Tracks, LatestMark, BlockHashes, StartHeight, Commit;
    if c.index in s.committed {
      CommittedIsDiscarded(p, s, current, found, c);
    } else {
      HistoryEnds(p, s, history, chain, c.index);
      NotOld(p, s, c);
      if StartHeight(p, s, c.index).Some? && c.end <= |s.l2| {
        StartsAtTip(p, s, c.index);
        HistoryRoot(p, s, history, chain, c.index);
      }
      FreshOutcome(p, s, current, found, c);
    }
  }

  lemma OutcomeAbsorbs(s: Ledger, t: Ledger, current: nat, found: nat, c: Commitment)
    requires || (c.index in s.committed && t == s)
             || (exists start :: t == Commit(s, current, found, start, c))
             || t == StorePending(s, c, found)
             || (t == s && c.index in s.pending && s.pending[c.index].0 == c)
    ensures Absorbs(s, t, c)
  {
  }

  lemma NeverRefused(p: Params, s: Ledger, history: map<nat, Commitment>, chain: seq<L2Block>, current: nat,
                     found: nat, c: Commitment)
    requires ValidHistory(p, history, chain) && Ready(p, s) && Tracks(s, history, chain, {}) && Holds(history, c)
    ensures var (t, outcome) := ProcessCommitment(p, s, current, found, c);
      && Absorbs(s, t, c)
      && (outcome == Discarded || outcome == Success || outcome == Pending)
      && (outcome != Pending ==> c.index in t.committed)
  {
    HistoryOutcome(p, s, history, chain, current, found, c);
    OutcomeAbsorbs(s, ProcessCommitment(p, s, current, found, c).0, current, found, c);
  }

  lemma AbsorbTracks(s: Ledger, t: Ledger, history: map<nat, Commitment>, chain: seq<L2Block>, seen: set<nat>,
                     c: Commitment)
    requires Tracks(s, history, chain, seen) && Holds(history, c) && Absorbs(s, t, c)
    ensures Tracks(t, history, chain, seen + {c.index})
  {
  }

  lemma TracksLess(s: Ledger, history: map<nat, Commitment>, chain: seq<L2Block>, seen: set<nat>)
    requires Tracks(s, history, chain, seen)
    ensures Tracks(s, history, chain, {})
  {
  }

  lemma DropTracks(s: Ledger, history: map<nat, Commitment>, chain: seq<L2Block>, seen: set<nat>, i: nat)
    requires Tracks(s, history, chain, seen) && i in s.committed
    ensures Tracks(DropPending(s, i), history, chain, seen)
  {
  }

  lemma RetryTracks(p: Params, s: Ledger, history: map<nat, Commitment>, chain: seq<L2Block>, seen: set<nat>,
                    current: nat, i: nat, item: (Commitment, nat))
    requires ValidHistory(p, history, chain) && Ready(p, s) && Tracks(s, history, chain, seen)
    requires Holds(history, item.0) && item.0.index == i >= 1
    ensures var (t, next) := RetryCommitment(p, s, current, i, item);
      Tracks(t, history, chain, seen) && (next.Continue? || next.result == Success)
  {
    hide ProcessCommitment, Ready, ValidHistory;
    var (t, outcome) := ProcessCommitment(p, s, current, item.1, item.0);
    NeverRefused(p, s, history, chain, current, item.1, item.0);
    AbsorbTracks(s, t, history, chain, seen, item.0);
    if outcome != Pending {
      DropTracks(t, history, chain, seen, i);
    }
  }

  /** The keys name entries of the snapshot that belong to the history. */
  ghost predicate KeysFrom(history: map<nat, Commitment>, keys: seq<nat>, snapshot: map<nat, (Commitment, nat)>) {
    forall k :: k in keys ==>
      k in snapshot && k >= 1 && Holds(history, snapshot[k].0) && snapshot[k].0.index == k
  }

  lemma KeysFromTail(history: map<nat, Commitment>, keys: seq<nat>, snapshot: map<nat, (Commitment, nat)>)
    requires KeysFrom(history, keys, snapshot) && keys != []
    ensures keys[0] in snapshot && keys[0] >= 1
    ensures Holds(history, snapshot[keys[0]].0) && snapshot[keys[0]].0.index == keys[0]
    ensures KeysFrom(history, keys[1..], snapshot)
  {
    hide Holds;
    assert keys[0] in keys;
    forall k | k in keys[1..]
      ensures k in keys
    {
      var j :| 0 <= j < |keys[1..]| && keys[1..][j] == k;
      assert keys[j + 1] == k;
    }
  }

  lemma {:induction false} DrainTracks(p: Params, s: Ledger, history: map<nat, Commitment>, chain: seq<L2Block>,
                                       seen: set<nat>, top: nat, current: nat, keys: seq<nat>,
                                       snapshot: map<nat, (Commitment, nat)>)
    requires ValidHistory(p, history, chain) && Tracks(s, history, chain, seen)
    requires Inv(p, s, top) && top <= current && KeysFrom(history, keys, snapshot)
    ensures var (t, outcome) := DrainFrom(p, s, current, keys, snapshot);
      Tracks(t, history, chain, seen) && outcome == Success
    decreases |keys|
  {
    hide ValidHistory, RetryCommitment, Inv, Ready, Tracks, Holds;
    if keys == [] {
    } else {
      KeysFromTail(history, keys, snapshot);
      var (t, next) := RetryCommitment(p, s, current, keys[0], snapshot[keys[0]]);
      InvIsReady(p, s, top);
      RetryTracks(p, s, history, chain, seen, current, keys[0], snapshot[keys[0]]);
      if next.Continue? {
        RetryKeepsInv(p, s, top, current, keys[0], snapshot[keys[0]]);
        DrainTracks(p, t, history, chain, seen, current, current, keys[1..], snapshot);
      }
    }
  }

  ghost predicate SameCommitments(s: Ledger, t: Ledger) {
    t.l2 == s.l2 && t.committed == s.committed && t.pending == s.pending
  }

  lemma AcceptLeavesCommitments(s: Ledger, t: Ledger, current: nat, found: nat, proof: Proof)
    requires t == s || (proof.output.Some? &&
      (t == AcceptProof(s, current, found, proof, proof.output.value)
       || t == StorePendingProof(s, proof.output.value, proof, found)))
    ensures SameCommitments(s, t)
  {
  }

  lemma ProofLeavesCommitments(p: Params, s: Ledger, current: nat, found: nat, proof: Proof)
    ensures SameCommitments(s, ProcessProof(p, s, current, found, proof).0)
  {
    ProofCases(p, s, current, found, proof);
    AcceptLeavesCommitments(s, ProcessProof(p, s, current, found, proof).0, current, found, proof);
  }

  lemma {:induction false} DrainProofsLeavesCommitments(p: Params, s: Ledger, current: nat, keys: seq<(nat, nat)>,
                                                        snapshot: map<(nat, nat), (Proof, nat)>)
    requires forall k :: k in keys ==> k in snapshot
    ensures SameCommitments(s, DrainProofsFrom(p, s, current, keys, snapshot).0)
    decreases |keys|
  {
    if keys == [] {
    } else {
      var item := snapshot[keys[0]];
      ProofLeavesCommitments(p, s, current, item.1, item.0);
      RetryProofShape(p, s, current, keys[0], item);
      var (t, next) := RetryProof(p, s, current, keys[0], item);
      if next.Continue? {
        DrainProofsLeavesCommitments(p, t, current, keys[1..], snapshot);
      }
    }
  }

  /** Indices of the commitments an event sequence delivers. */
  ghost function Delivered(events: seq<Event>): set<nat>
    decreases |events|
  {
    if events == [] then {}
    else (if events[0].Deliver? && events[0].commitment.index != 0 then {events[0].commitment.index} else {})
         + Delivered(events[1..])
  }

  /** Only commitments of the history are delivered (index 0 is skipped by the handler). */
  ghost predicate DeliversFrom(history: map<nat, Commitment>, e: Event) {
    e.Deliver? && e.commitment.index != 0 ==> Holds(history, e.commitment)
  }

  lemma DeliverTracks(p: Params, s: Ledger, history: map<nat, Commitment>, chain: seq<L2Block>, seen: set<nat>,
                      l1: nat, c: Commitment)
    requires ValidHistory(p, history, chain) && Ready(p, s) && Tracks(s, history, chain, seen)
    requires DeliversFrom(history, Deliver(l1, c))
    ensures Tracks(Step(p, s, Deliver(l1, c)).0, history, chain, seen + (if c.index != 0 then {c.index} else {}))
  {
    hide ProcessCommitment, Tracks, Ready, ValidHistory;
    if c.index != 0 {
      TracksLess(s, history, chain, seen);
      NeverRefused(p, s, history, chain, l1, l1, c);
      AbsorbTracks(s, ProcessCommitment(p, s, l1, l1, c).0, history, chain, seen, c);
    } else {
      assert seen + {} == seen;
    }
  }

  lemma StepTracks(p: Params, s: Ledger, history: map<nat, Commitment>, chain: seq<L2Block>, seen: set<nat>, top: nat,
                   e: Event)
    requires ValidHistory(p, history, chain) && Inv(p, s, top) && Tracks(s, history, chain, seen)
    requires HeightAfter(e, top) >= top && DeliversFrom(history, e)
    requires Step(p, s, e).0.l2 <= chain
    ensures Tracks(Step(p, s, e).0, history, chain, seen + Delivered([e]))
  {
    hide Inv, Tracks, ValidHistory, Step, Ready, Delivered;
    InvIsReady(p, s, top);
    DeliveredOne(e);
    if e.Deliver? {
      DeliverTracks(p, s, history, chain, seen, e.l1, e.commitment);
    } else {
      assert seen + {} == seen;
      OtherStepTracks(p, s, history, chain, seen, top, e);
    }
  }

  lemma DeliveredOne(e: Event)
    ensures Delivered([e]) == if e.Deliver? && e.commitment.index != 0 then {e.commitment.index} else {}
  {
    assert [e][1..] == [];
  }

  lemma SameTracks(s: Ledger, t: Ledger, history: map<nat, Commitment>, chain: seq<L2Block>, seen: set<nat>)
    requires Tracks(s, history, chain, seen) && SameCommitments(s, t)
    ensures Tracks(t, history, chain, seen)
  {
  }

  /** What is pending comes from the table, under its own index. */
  ghost predicate PendingFrom(s: Ledger, table: map<nat, Commitment>) {
    forall i :: i in s.pending ==> i in table && s.pending[i].0 == table[i]
  }

  lemma PendingKeysFrom(s: Ledger, table: map<nat, Commitment>)
    requires PendingFrom(s, table)
    requires forall i :: i in s.pending ==> i >= 1 && s.pending[i].0.index == i
    ensures KeysFrom(table, AscendingNats(s.pending.Keys), s.pending)
  {
  }

  lemma TrackedPending(s: Ledger, history: map<nat, Commitment>, chain: seq<L2Block>, seen: set<nat>)
    requires Tracks(s, history, chain, seen)
    ensures PendingFrom(s, history)
  {
  }

  lemma OtherStepTracks(p: Params, s: Ledger, history: map<nat, Commitment>, chain: seq<L2Block>, seen: set<nat>,
                        top: nat, e: Event)
    requires ValidHistory(p, history, chain) && Inv(p, s, top) && Tracks(s, history, chain, seen)
    requires HeightAfter(e, top) >= top && !e.Deliver? && Step(p, s, e).0.l2 <= chain
    ensures Tracks(Step(p, s, e).0, history, chain, seen)
  {
    hide Inv, ValidHistory, ProcessProof, DrainFrom, DrainProofsFrom, KeysFrom, Tracks;
    match e
    case RetryCommitments(l1) =>
      InvIsReady(p, s, top);
      TrackedPending(s, history, chain, seen);
      PendingKeysFrom(s, history);
      DrainTracks(p, s, history, chain, seen, top, l1, AscendingNats(s.pending.Keys), s.pending);
    case DeliverProof(l1, proof) =>
      ProofLeavesCommitments(p, s, l1, l1, proof);
      SameTracks(s, Step(p, s, e).0, history, chain, seen);
    case RetryProofs(l1) =>
      DrainProofsLeavesCommitments(p, s, l1, AscendingPairs(s.pendingProofs.Keys), s.pendingProofs);
      SameTracks(s, Step(p, s, e).0, history, chain, seen);
    case _ => QuietTracks(p, s, history, chain, seen, e);
  }

  lemma QuietTracks(p: Params, s: Ledger, history: map<nat, Commitment>, chain: seq<L2Block>, seen: set<nat>, e: Event)
    requires Tracks(s, history, chain, seen) && (e.SyncL2? || e.SeeL1? || e.FinishScan?)
    requires Step(p, s, e).0.l2 <= chain
    ensures Tracks(Step(p, s, e).0, history, chain, seen)
  {
  }

  /** Along the whole run the synced L2 blocks are a prefix of the chain. */
  ghost predicate StaysOn(p: Params, s: Ledger, events: seq<Event>, chain: seq<L2Block>)
    decreases |events|
  {
    s.l2 <= chain && (events != [] ==> StaysOn(p, Step(p, s, events[0]).0, events[1..], chain))
  }

  lemma {:induction false} EndsOnStaysOn(p: Params, s: Ledger, top: nat, events: seq<Event>, chain: seq<L2Block>)
    requires Inv(p, s, top) && Legal(p, events, top) && Run(p, s, events).l2 <= chain
    ensures StaysOn(p, s, events, chain)
    decreases |events|
  {
    hide Inv, Step;
    RunKeepsInv(p, s, top, events);
    if events == [] {
    } else {
      StepKeepsInv(p, s, top, events[0]);
      EndsOnStaysOn(p, Step(p, s, events[0]).0, HeightAfter(events[0], top), events[1..], chain);
    }
  }

  lemma DeliveredSplits(seen: set<nat>, events: seq<Event>)
    requires events != []
    ensures (seen + Delivered([events[0]])) + Delivered(events[1..]) == seen + Delivered(events)
  {
    assert [events[0]][1..] == [];
    assert Delivered([]) == {};
  }

  lemma {:induction false} RunTracks(p: Params, s: Ledger, history: map<nat, Commitment>, chain: seq<L2Block>,
                                     seen: set<nat>, top: nat, events: seq<Event>)
    requires ValidHistory(p, history, chain) && Inv(p, s, top) && Tracks(s, history, chain, seen)
    requires Legal(p, events, top) && StaysOn(p, s, events, chain)
    requires forall e :: e in events ==> DeliversFrom(history, e)
    ensures Tracks(Run(p, s, events), history, chain, seen + Delivered(events))
    decreases |events|
  {
    hide Inv, Tracks, ValidHistory, Step;
    if events == [] {
      assert seen + Delivered(events) == seen;
    } else {
      var e := events[0];
      StepKeepsInv(p, s, top, e);
      StepTracks(p, s, history, chain, seen, top, e);
      DeliveredSplits(seen, events);
      RunTracks(p, Step(p, s, e).0, history, chain, seen + Delivered([e]), HeightAfter(e, top), events[1..]);
    }
  }

  lemma MaximalTrackedIsComplete(p: Params, s: Ledger, history: map<nat, Commitment>, chain: seq<L2Block>)
    requires ValidHistory(p, history, chain) && Chained(p, s)
    requires Tracks(s, history, chain, history.Keys) && s.l2 == chain && Maximal(s)
    ensures s.committed == history
  {
    var h := HistoryLedger(history, chain);
    var n := |s.committed|;
    if n > 0 {
      assert n in s.committed;
    }
    assert n + 1 in history ==> Linked(p, h, n + 1);
    assert n + 1 !in s.committed;
    assert n + 1 !in history;
    assert s.committed.Keys == history.Keys;
  }

  lemma DrainAllTracks(p: Params, s: Ledger, history: map<nat, Commitment>, chain: seq<L2Block>, seen: set<nat>,
                       top: nat, l1: nat)
    requires ValidHistory(p, history, chain) && Inv(p, s, top) && top <= l1 && Tracks(s, history, chain, seen)
    ensures var (t, outcome) := DrainCommitments(p, s, l1);
      Tracks(t, history, chain, seen) && outcome == Success && Chained(p, t) && s.l2 <= t.l2
  {
    hide Chained, ProofsJustified, MarksAgree, DrainFrom;
    var keys := AscendingNats(s.pending.Keys);
    DrainTracks(p, s, history, chain, seen, top, l1, keys, s.pending);
    DrainKeepsInv(p, s, top, l1, keys, s.pending);
  }

  lemma TrackedRetrySucceeds(p: Params, s: Ledger, history: map<nat, Commitment>, chain: seq<L2Block>, seen: set<nat>,
                             top: nat, l1: nat)
    requires ValidHistory(p, history, chain) && Inv(p, s, top) && top <= l1 && Tracks(s, history, chain, seen)
    ensures DrainCommitments(p, s, l1).1 == Success && Maximal(DrainCommitments(p, s, l1).0)
  {
    hide DrainCommitments, Maximal;
    DrainAllTracks(p, s, history, chain, seen, top, l1);
    DrainReachesMaximalPrefix(p, s, top, l1);
    if 1 in s.pending {
      assert Linked(p, HistoryLedger(history, chain), 1);
      if 1 in s.committed {
        assert Linked(p, s, 1);
      }
    }
  }

  lemma RetryCompletes(p: Params, s: Ledger, history: map<nat, Commitment>, chain: seq<L2Block>, top: nat, l1: nat)
    requires ValidHistory(p, history, chain) && Inv(p, s, top) && top <= l1
    requires Tracks(s, history, chain, history.Keys) && s.l2 == chain
    ensures DrainCommitments(p, s, l1).1 == Success
    ensures DrainCommitments(p, s, l1).0.committed == history
  {
    hide Inv, ValidHistory, DrainCommitments, Chained, Maximal;
    TrackedRetrySucceeds(p, s, history, chain, history.Keys, top, l1);
    DrainAllTracks(p, s, history, chain, history.Keys, top, l1);
    MaximalTrackedIsComplete(p, DrainCommitments(p, s, l1).0, history, chain);
  }

  /** Any run that delivers exactly a valid history, in any order and with repetitions, interleaved
      with proofs, retries and L2 blocks, and that has synced its chain, ends up after one more retry
      pass with exactly that history committed. */
  lemma DeliveryOrderIsIrrelevant(p: Params, history: map<nat, Commitment>, chain: seq<L2Block>, events: seq<Event>,
                                  l1: nat)
    requires ValidHistory(p, history, chain)
    requires Legal(p, events, 0) && TopAfter(events, 0) <= l1
    requires forall e :: e in events ==> DeliversFrom(history, e)
    requires Delivered(events) == history.Keys
    requires Run(p, EMPTY_LEDGER, events).l2 == chain
    ensures DrainCommitments(p, Run(p, EMPTY_LEDGER, events), l1).1 == Success
    ensures DrainCommitments(p, Run(p, EMPTY_LEDGER, events), l1).0.committed == history
  {
    hide Inv, ValidHistory, Legal, Run, DrainCommitments;
    EmptyInv(p);
    RunKeepsInv(p, EMPTY_LEDGER, 0, events);
    EndsOnStaysOn(p, EMPTY_LEDGER, 0, events, chain);
    RunTracks(p, EMPTY_LEDGER, history, chain, {}, 0, events);
    assert {} + Delivered(events) == history.Keys;
    RetryCompletes(p, Run(p, EMPTY_LEDGER, events), history, chain, TopAfter(events, 0), l1);
  }

  // ----- at most one commitment per index, valid or not

  /** Everything held was delivered, and at most one commitment per index is. */
  ghost predicate Agrees(s: Ledger, sent: map<nat, Commitment>) {
    && (forall i :: i in s.committed ==> i in sent && s.committed[i] == sent[i])
    && PendingFrom(s, sent)
  }

  lemma ProcessAgrees(p: Params, s: Ledger, sent: map<nat, Commitment>, current: nat, found: nat, c: Commitment)
    requires Agrees(s, sent) && Holds(sent, c)
    ensures Agrees(ProcessCommitment(p, s, current, found, c).0, sent)
  {
    var (t, outcome) := ProcessCommitment(p, s, current, found, c);
    CommitmentCases(p, s, current, found, c);
    if outcome == Success {
      assert t.committed == s.committed[c.index := c] && t.pending == s.pending;
    }
  }

  lemma DropAgrees(s: Ledger, sent: map<nat, Commitment>, i: nat)
    requires Agrees(s, sent)
    ensures Agrees(DropPending(s, i), sent)
  {
  }

  lemma SameAgrees(s: Ledger, t: Ledger, sent: map<nat, Commitment>)
    requires Agrees(s, sent) && SameCommitments(s, t)
    ensures Agrees(t, sent)
  {
  }

  lemma QuietAgrees(p: Params, s: Ledger, sent: map<nat, Commitment>, e: Event)
    requires Agrees(s, sent) && (e.SyncL2? || e.SeeL1? || e.FinishScan?)
    ensures Agrees(Step(p, s, e).0, sent)
  {
  }

  lemma {:induction false} DrainAgrees(p: Params, s: Ledger, sent: map<nat, Commitment>, current: nat, keys: seq<nat>,
                                       snapshot: map<nat, (Commitment, nat)>)
    requires Agrees(s, sent) && KeysFrom(sent, keys, snapshot)
    ensures Agrees(DrainFrom(p, s, current, keys, snapshot).0, sent)
    decreases |keys|
  {
    hide Agrees, ProcessCommitment, RetryCommitment, Holds;
    if keys == [] {
    } else {
      KeysFromTail(sent, keys, snapshot);
      var item := snapshot[keys[0]];
      var t := ProcessCommitment(p, s, current, item.1, item.0).0;
      ProcessAgrees(p, s, sent, current, item.1, item.0);
      RetryShape(p, s, current, keys[0], item);
      DropAgrees(t, sent, keys[0]);
      var (u, next) := RetryCommitment(p, s, current, keys[0], item);
      if next.Continue? {
        DrainAgrees(p, u, sent, current, keys[1..], snapshot);
      }
    }
  }

  lemma AgreeingPending(s: Ledger, sent: map<nat, Commitment>)
    requires Agrees(s, sent)
    ensures PendingFrom(s, sent)
  {
  }

  lemma StepAgrees(p: Params, s: Ledger, sent: map<nat, Commitment>, top: nat, e: Event)
    requires Inv(p, s, top) && Agrees(s, sent) && DeliversFrom(sent, e)
    ensures Agrees(Step(p, s, e).0, sent)
  {
    hide Inv, Agrees, ProcessCommitment, ProcessProof, DrainFrom, DrainProofsFrom, KeysFrom;
    match e
    case Deliver(l1, c) =>
      if c.index != 0 {
        ProcessAgrees(p, s, sent, l1, l1, c);
      }
    case RetryCommitments(l1) =>
      InvIsReady(p, s, top);
      AgreeingPending(s, sent);
      PendingKeysFrom(s, sent);
      DrainAgrees(p, s, sent, l1, AscendingNats(s.pending.Keys), s.pending);
    case DeliverProof(l1, proof) =>
      ProofLeavesCommitments(p, s, l1, l1, proof);
      SameAgrees(s, Step(p, s, e).0, sent);
    case RetryProofs(l1) =>
      DrainProofsLeavesCommitments(p, s, l1, AscendingPairs(s.pendingProofs.Keys), s.pendingProofs);
      SameAgrees(s, Step(p, s, e).0, sent);
    case _ => QuietAgrees(p, s, sent, e);
  }

  lemma {:induction false} RunAgrees(p: Params, s: Ledger, sent: map<nat, Commitment>, top: nat, events: seq<Event>)
    requires Inv(p, s, top) && Agrees(s, sent) && Legal(p, events, top)
    requires forall e :: e in events ==> DeliversFrom(sent, e)
    ensures Agrees(Run(p, s, events), sent)
    decreases |events|
  {
    hide Inv, Agrees, Step;
    if events == [] {
    } else {
      StepKeepsInv(p, s, top, events[0]);
      StepAgrees(p, s, sent, top, events[0]);
      RunAgrees(p, Step(p, s, events[0]).0, sent, HeightAfter(events[0], top), events[1..]);
    }
  }

  /** In a run with at most one distinct commitment per index and a non-empty first range, a retry pass
      that reports no error always reaches the maximal committed prefix: stopping early leaves nothing behind
      that could be committed. */
  lemma EarlyStopLosesNothing(p: Params, sent: map<nat, Commitment>, events: seq<Event>, l1: nat)
    requires Legal(p, events, 0) && TopAfter(events, 0) <= l1
    requires forall e :: e in events ==> DeliversFrom(sent, e)
    requires 1 in sent ==> p.start <= sent[1].end
    ensures var (t, outcome) := DrainCommitments(p, Run(p, EMPTY_LEDGER, events), l1);
      outcome == Success ==> Maximal(t) && !Acceptable(p, t, l1)
  {
    hide Inv, Legal, Run, DrainCommitments, Acceptable, Maximal;
    var s := Run(p, EMPTY_LEDGER, events);
    EmptyInv(p);
    RunKeepsInv(p, EMPTY_LEDGER, 0, events);
    RunAgrees(p, EMPTY_LEDGER, sent, 0, events);
    assert Chained(p, s) by { InvIsReady(p, s, TopAfter(events, 0)); }
    FirstIsNeitherStaleNorEmpty(p, s, sent);
    DrainReachesMaximalPrefix(p, s, TopAfter(events, 0), l1);
    if DrainCommitments(p, s, l1).1 == Success {
      RetryMissesIff(p, s, TopAfter(events, 0), l1);
    }
  }

  lemma FirstIsNeitherStaleNorEmpty(p: Params, s: Ledger, sent: map<nat, Commitment>)
    requires Chained(p, s) && Agrees(s, sent) && (1 in sent ==> p.start <= sent[1].end)
    ensures !StaleFirst(s) && !EmptyFirst(p, s)
  {
    if 1 in s.committed {
      assert Linked(p, s, 1);
    }
  }

  /** Commitment 1 waits past the head, another commitment 1 is committed, commitment 2 arrives early. */
  ghost function StaleRun(p: Params, block: L2Block): seq<Event> {
    var root := p.merkleRoot([block.hash]);
    [Deliver(0, Commitment(0, 1, 9)), SyncL2(block), Deliver(0, Commitment(root, 1, 1)),
     Deliver(0, Commitment(root, 2, 2)), SyncL2(block)]
  }

  /** The ledgers that run passes through. */
  ghost function StaleLedger(p: Params, block: L2Block, k: nat): Ledger
    requires k <= 5
  {
    var root := p.merkleRoot([block.hash]);
    if k == 0 then EMPTY_LEDGER
    else if k == 1 then StorePending(EMPTY_LEDGER, Commitment(0, 1, 9), 0)
    else
      var waiting := StorePending(EMPTY_LEDGER, Commitment(0, 1, 9), 0).(l2 := [block]);
      if k == 2 then waiting
      else
        var committed := Commit(waiting, 0, 0, 1, Commitment(root, 1, 1));
        if k == 3 then committed
        else
          var early := StorePending(committed, Commitment(root, 2, 2), 0);
          if k == 4 then early else early.(l2 := [block, block])
  }

  lemma StaleStart(p: Params, block: L2Block)
    requires p.start == 1
    ensures Step(p, StaleLedger(p, block, 0), StaleRun(p, block)[0]).0 == StaleLedger(p, block, 1)
    ensures Step(p, StaleLedger(p, block, 1), StaleRun(p, block)[1]).0 == StaleLedger(p, block, 2)
  {
    LatestIsEntry(map[]);
  }

  lemma StaleCommits(p: Params, block: L2Block)
    requires p.start == 1
    ensures Step(p, StaleLedger(p, block, 2), StaleRun(p, block)[2]).0 == StaleLedger(p, block, 3)
  {
    assert BlockHashes([block], 1, 1) == [block.hash];
    LatestIsEntry(map[]);
  }

  lemma StaleEnd(p: Params, block: L2Block)
    requires p.start == 1
    ensures Step(p, StaleLedger(p, block, 3), StaleRun(p, block)[3]).0 == StaleLedger(p, block, 4)
    ensures Step(p, StaleLedger(p, block, 4), StaleRun(p, block)[4]).0 == StaleLedger(p, block, 5)
  {
    LatestAfterWrite(map[], 0, Mark(1, 1));
  }

  lemma StaleRunReaches(p: Params, block: L2Block)
    requires p.start == 1
    ensures Legal(p, StaleRun(p, block), 0)
    ensures Run(p, EMPTY_LEDGER, StaleRun(p, block)) == StaleLedger(p, block, 5)
  {
    hide Run, Step, Legal;
    var events := StaleRun(p, block);
    StaleStart(p, block);
    StaleCommits(p, block);
    StaleEnd(p, block);
    RunOfFive(p, EMPTY_LEDGER, events);
    LegalCommitments(p, events);
  }

  lemma {:induction false} LegalCommitments(p: Params, events: seq<Event>)
    requires forall e :: e in events ==> e.SyncL2? || (e.Deliver? && e.l1 == 0)
    ensures Legal(p, events, 0)
    decreases |events|
  {
    if events == [] {
    } else {
      assert events[0] in events;
      LegalCommitments(p, events[1..]);
    }
  }

  /** With two different commitments of index 1 the early stop does lose a commitment: retrying does
      nothing although a pending commitment would be committed if it were tried. */
  lemma StaleFirstBlocksTheRest(p: Params, block: L2Block)
    requires p.start == 1
    ensures Legal(p, StaleRun(p, block), 0)
    ensures var s := Run(p, EMPTY_LEDGER, StaleRun(p, block));
      && StaleFirst(s)
      && DrainCommitments(p, s, 0) == (s, Success)
      && !Maximal(s) && Acceptable(p, s, 0)
      && ProcessCommitment(p, s, 0, 0, Commitment(p.merkleRoot([block.hash]), 2, 2)).1 == Success
  {
    hide StaleRun, StaleLedger, Run, Inv, Ready, StaleFirst, Maximal, Acceptable;
    StaleRunReaches(p, block);
    EmptyInv(p);
    RunKeepsInv(p, EMPTY_LEDGER, 0, StaleRun(p, block));
    SecondWouldBeAccepted(p, block);
    InvIsReady(p, StaleLedger(p, block, 5), TopAfter(StaleRun(p, block), 0));
    StaleFirstStops(p, StaleLedger(p, block, 5), 0);
  }

  lemma StaleShape(p: Params, block: L2Block)
    ensures var s := StaleLedger(p, block, 5); var root := p.merkleRoot([block.hash]);
      && s.l2 == [block, block] && s.committed == map[1 := Commitment(root, 1, 1)]
      && s.pending == map[1 := (Commitment(0, 1, 9), 0), 2 := (Commitment(root, 2, 2), 0)]
      && s.committedAt == map[0 := Mark(1, 1)]
  {
  }

  lemma SecondWouldBeAccepted(p: Params, block: L2Block)
    requires p.start == 1
    ensures var s := StaleLedger(p, block, 5);
      && StaleFirst(s) && !Maximal(s) && Acceptable(p, s, 0)
      && ProcessCommitment(p, s, 0, 0, Commitment(p.merkleRoot([block.hash]), 2, 2)).1 == Success
  {
    hide StaleLedger, ProcessCommitment;
    var s := StaleLedger(p, block, 5);
    StaleShape(p, block);
    SecondIsRight(p, block);
    assert |s.committed| == 1;
    assert 2 in s.pending && Accepts(p, s, 0, s.pending[2]);
  }

  lemma SecondIsRight(p: Params, block: L2Block)
    requires p.start == 1
    ensures var s := StaleLedger(p, block, 5);
      ProcessCommitment(p, s, 0, 0, Commitment(p.merkleRoot([block.hash]), 2, 2)).1 == Success
  {
    hide StaleLedger, LatestMark;
    StaleShape(p, block);
    assert BlockHashes([block, block], 2, 2) == [block.hash];
    LatestAfterWrite(map[], 0, Mark(1, 1));
    assert map[0 := Mark(1, 1)] == map[][0 := Mark(1, 1)];
  }

  lemma RunOfFive(p: Params, s: Ledger, events: seq<Event>)
    requires |events| == 5
    ensures var s1 := Step(p, s, events[0]).0;
      var s2 := Step(p, s1, events[1]).0;
      var s3 := Step(p, s2, events[2]).0;
      var s4 := Step(p, s3, events[3]).0;
      Run(p, s, events) == Step(p, s4, events[4]).0
  {
    var s1 := Step(p, s, events[0]).0;
    var s2 := Step(p, s1, events[1]).0;
    var s3 := Step(p, s2, events[2]).0;
    var s4 := Step(p, s3, events[3]).0;
    assert Run(p, s4, events[4..]) == Step(p, s4, events[4]).0;
    assert Run(p, s3, events[3..]) == Run(p, s4, events[4..]) by { assert events[3..][1..] == events[4..]; }
    assert Run(p, s2, events[2..]) == Run(p, s3, events[3..]) by { assert events[2..][1..] == events[3..]; }
    assert Run(p, s1, events[1..]) == Run(p, s2, events[2..]) by { assert events[1..][1..] == events[2..]; }
  }
}
