/**
 Retrying pending commitments: exactly when one pass reaches as far as the ledger allows.
 */
module FinalityDrain {
  import opened Orders
  import opened FinalityLedger
  import opened FinalityInvariant
  import opened FinalityRuns

  /** Nothing pending could extend the chain: the next index is not pending, or its blocks are not synced. */
  ghost predicate Maximal(s: Ledger) {
    var next := |s.committed| + 1;
    next in s.pending ==> s.pending[next].0.end > |s.l2|
  }

  /** Some pending commitment would be committed if it were tried now. */
  ghost predicate Acceptable(p: Params, s: Ledger, current: nat) {
    exists i :: i in s.pending && Accepts(p, s, current, s.pending[i])
  }

  predicate Accepts(p: Params, s: Ledger, current: nat, item: (Commitment, nat)) {
    ProcessCommitment(p, s, current, item.1, item.0).1 == Success
  }

  /** Index 1 is already committed but a different commitment 1, ending past the head, is still pending. */
  predicate StaleFirst(s: Ledger) {
    1 in s.pending && 1 in s.committed && s.pending[1].0.end > |s.l2|
  }

  /** The first commitment is pending, synced, and ends before the Tangerine start. */
  predicate EmptyFirst(p: Params, s: Ledger) {
    1 in s.pending && 1 !in s.committed && s.pending[1].0.end <= |s.l2| && s.pending[1].0.end < p.start
  }

  ghost predicate StrictlyAscending(keys: seq<nat>) {
    forall i, j :: 0 <= i < j < |keys| ==> keys[i] < keys[j]
  }

  /** What a retry pass knows: the keys left to visit are pending as in the snapshot, and the only
      other pending entry possible is the next index, waiting for blocks. */
  ghost predicate Visiting(s: Ledger, keys: seq<nat>, snapshot: map<nat, (Commitment, nat)>) {
    StrictlyAscending(keys) && ToVisit(s.pending, |s.committed| + 1, |s.l2|, keys, snapshot)
  }

  ghost predicate ToVisit(pending: map<nat, (Commitment, nat)>, next: nat, head: nat, keys: seq<nat>,
                          snapshot: map<nat, (Commitment, nat)>)
  {
    && (forall k :: k in keys ==> k in snapshot && k in pending && pending[k] == snapshot[k])
    && (forall k :: k in pending ==> k in keys || (k == next && pending[k].0.end > head))
  }

  /** The part of the invariant a retry depends on. */
  ghost predicate Ready(p: Params, s: Ledger) {
    && Chained(p, s)
    && LatestMark(s.committedAt) == TipMark(s.committed)
    && (forall i :: i in s.pending ==> i >= 1 && s.pending[i].0.index == i)
  }

  lemma InvIsReady(p: Params, s: Ledger, top: nat)
    requires Inv(p, s, top)
    ensures Ready(p, s)
  {
    hide Chained, ProofsJustified;
  }

  /** A processable pending commitment that stays pending is the next one, waiting for blocks. */
  lemma StillWaiting(p: Params, s: Ledger, current: nat, i: nat)
    requires Ready(p, s) && i in s.pending && Processable(s, i, s.pending[i].0)
    requires ProcessCommitment(p, s, current, s.pending[i].1, s.pending[i].0).1 == Pending
    ensures ProcessCommitment(p, s, current, s.pending[i].1, s.pending[i].0).0 == s
    ensures i == |s.committed| + 1 && s.pending[i].0.end > |s.l2|
  {
    assert s.pending[i].0.index == i && i !in s.committed;
    assert i > 1 ==> i - 1 in s.committed;
  }

  /** One retry that goes on commits its index as the next one, drops it, or leaves it as the next index
      waiting for blocks. */
  datatype Settling = Commits | Drops | Waits

  ghost predicate Settles(s: Ledger, t: Ledger, i: nat, how: Settling)
    requires i in s.pending
  {
    match how
    case Commits =>
      t.pending == s.pending - {i} && i == |s.committed| + 1 && t.committed == s.committed[i := s.pending[i].0]
    case Drops => t.pending == s.pending - {i} && t.committed == s.committed
    case Waits => t == s && i == |s.committed| + 1 && s.pending[i].0.end > |s.l2|
  }

  lemma RetrySettles(p: Params, s: Ledger, current: nat, i: nat) returns (how: Settling)
    requires Ready(p, s) && i in s.pending
    requires RetryCommitment(p, s, current, i, s.pending[i]).1.Continue?
    ensures var t := RetryCommitment(p, s, current, i, s.pending[i]).0;
      t.l2 == s.l2 && Settles(s, t, i, how)
  {
    hide Linked, LatestMark, ProcessCommitment, RetryCommitment;
    var (c, found) := s.pending[i];
    var outcome := ProcessCommitment(p, s, current, found, c).1;
    RetryContinues(p, s, current, i, s.pending[i]);
    if outcome == Success {
      CommitIsNext(p, s, current, found, c);
      how := Commits;
    } else if outcome == Pending {
      StillWaiting(p, s, current, i);
      how := Waits;
    } else {
      DiscardChangesNothing(p, s, current, found, c);
      how := Drops;
    }
  }

  lemma RetryContinues(p: Params, s: Ledger, current: nat, i: nat, item: (Commitment, nat))
    requires RetryCommitment(p, s, current, i, item).1.Continue?
    ensures i >= 1 && Processable(s, i, item.0)
    ensures var (t, outcome) := ProcessCommitment(p, s, current, item.1, item.0);
      && (outcome == Success || outcome == Discarded || outcome == Pending)
      && RetryCommitment(p, s, current, i, item).0 == if outcome == Pending then t else DropPending(t, i)
  {
    hide ProcessCommitment, Processable;
  }

  lemma DiscardChangesNothing(p: Params, s: Ledger, current: nat, found: nat, c: Commitment)
    requires ProcessCommitment(p, s, current, found, c).1 == Discarded
    ensures ProcessCommitment(p, s, current, found, c).0 == s
  {
  }

  lemma TailKeys(keys: seq<nat>)
    requires StrictlyAscending(keys) && keys != []
    ensures StrictlyAscending(keys[1..])
    ensures forall k :: k in keys[1..] ==> k in keys && k > keys[0]
    ensures forall k :: k in keys ==> k == keys[0] || k in keys[1..]
  {
    forall k | k in keys[1..]
      ensures k in keys && k > keys[0]
    {
      var j :| 0 <= j < |keys[1..]| && keys[1..][j] == k;
      assert keys[j + 1] == k;
    }
  }

  /** Settling the first key, with the chain's tip either still before it or just past it. */
  lemma ToVisitAfterDrop(pending: map<nat, (Commitment, nat)>, next: nat, after: nat, head: nat, keys: seq<nat>,
                         snapshot: map<nat, (Commitment, nat)>)
    requires ToVisit(pending, next, head, keys, snapshot) && StrictlyAscending(keys) && keys != []
    requires after == next || keys[0] == next
    ensures ToVisit(pending - {keys[0]}, after, head, keys[1..], snapshot)
  {
    TailKeys(keys);
    hide StrictlyAscending;
  }

  /** Leaving the first key as the next index, waiting for blocks. */
  lemma ToVisitAfterWait(pending: map<nat, (Commitment, nat)>, head: nat, keys: seq<nat>,
                         snapshot: map<nat, (Commitment, nat)>)
    requires StrictlyAscending(keys) && keys != [] && keys[0] in pending && pending[keys[0]].0.end > head
    requires ToVisit(pending, keys[0], head, keys, snapshot)
    ensures ToVisit(pending, keys[0], head, keys[1..], snapshot)
  {
    TailKeys(keys);
    hide StrictlyAscending;
  }

  lemma TailAscends(keys: seq<nat>)
    requires StrictlyAscending(keys) && keys != []
    ensures StrictlyAscending(keys[1..])
  {
  }

  lemma OneMore(committed: map<nat, Commitment>, i: nat, c: Commitment)
    requires i !in committed
    ensures |committed[i := c]| == |committed| + 1
  {
  }

  lemma VisitingAfterCommit(s: Ledger, t: Ledger, keys: seq<nat>, snapshot: map<nat, (Commitment, nat)>)
    requires Visiting(s, keys, snapshot) && keys != [] && t.l2 == s.l2 && |s.committed| + 1 !in s.committed
    requires keys[0] in s.pending && Settles(s, t, keys[0], Commits)
    ensures Visiting(t, keys[1..], snapshot)
  {
    hide ToVisit, StrictlyAscending;
    TailAscends(keys);
    OneMore(s.committed, keys[0], s.pending[keys[0]].0);
    ToVisitAfterDrop(s.pending, keys[0], keys[0] + 1, |s.l2|, keys, snapshot);
  }

  lemma VisitingAfterDrop(s: Ledger, t: Ledger, keys: seq<nat>, snapshot: map<nat, (Commitment, nat)>)
    requires Visiting(s, keys, snapshot) && keys != [] && t.l2 == s.l2
    requires keys[0] in s.pending && Settles(s, t, keys[0], Drops)
    ensures Visiting(t, keys[1..], snapshot)
  {
    hide ToVisit, StrictlyAscending;
    TailAscends(keys);
    ToVisitAfterDrop(s.pending, |s.committed| + 1, |s.committed| + 1, |s.l2|, keys, snapshot);
  }

  lemma VisitingAfterWait(s: Ledger, t: Ledger, keys: seq<nat>, snapshot: map<nat, (Commitment, nat)>)
    requires Visiting(s, keys, snapshot) && keys != []
    requires keys[0] in s.pending && Settles(s, t, keys[0], Waits)
    ensures Visiting(t, keys[1..], snapshot)
  {
    hide ToVisit, StrictlyAscending;
    TailAscends(keys);
    ToVisitAfterWait(s.pending, |s.l2|, keys, snapshot);
  }

  lemma VisitingStep(s: Ledger, t: Ledger, keys: seq<nat>, snapshot: map<nat, (Commitment, nat)>, how: Settling)
    requires Visiting(s, keys, snapshot) && keys != [] && t.l2 == s.l2 && |s.committed| + 1 !in s.committed
    requires keys[0] in s.pending && Settles(s, t, keys[0], how)
    ensures Visiting(t, keys[1..], snapshot)
  {
    hide Visiting, Settles;
    match how
    case Commits => VisitingAfterCommit(s, t, keys, snapshot);
    case Drops => VisitingAfterDrop(s, t, keys, snapshot);
    case Waits => VisitingAfterWait(s, t, keys, snapshot);
  }

  /** A retry that stops the pass without an error leaves a maximal ledger, except in the two cases. */
  lemma StopIsMaximal(p: Params, s: Ledger, current: nat, keys: seq<nat>, snapshot: map<nat, (Commitment, nat)>)
    requires Ready(p, s) && Visiting(s, keys, snapshot) && keys != []
    requires keys[0] == 1 ==> !StaleFirst(s) && !EmptyFirst(p, s)
    requires RetryCommitment(p, s, current, keys[0], snapshot[keys[0]]).1 == Stop(Success)
    ensures Maximal(RetryCommitment(p, s, current, keys[0], snapshot[keys[0]]).0)
  {
    var i := keys[0];
    assert i in keys && i >= 1;
    var (c, found) := snapshot[i];
    if Processable(s, i, c) {
      StopMeansEmptyFirst(p, s, current, i);
    } else {
      assert forall k :: k in keys ==> k >= i by {
        forall k | k in keys
          ensures k >= i
        {
          var j :| 0 <= j < |keys| && keys[j] == k;
        }
      }
    }
  }

  lemma StopMeansEmptyFirst(p: Params, s: Ledger, current: nat, i: nat)
    requires Ready(p, s) && i in s.pending && Processable(s, i, s.pending[i].0)
    requires RetryCommitment(p, s, current, i, s.pending[i]).1 == Stop(Success)
    ensures i == 1 && EmptyFirst(p, s)
  {
    assert s.pending[i].0.index == i;
    CommitmentFails(p, s, current, s.pending[i].1, s.pending[i].0);
  }

  /** The very first commitment, with its blocks there. */
  ghost predicate SyncedFirst(s: Ledger, c: Commitment) {
    c.index == 1 && s.committed == map[] && c.end <= |s.l2|
  }

  /** Outside of a Merkle mismatch, a commitment step fails or aborts exactly on a synced first commitment that
      covers no block. When it ends right before the start there is no root to compare with: this is the error
      that a delivery hands to the handler's `unreachable!` arm, and that merely stops a retry pass. When it
      ends earlier, reading the block range aborts before. */
  lemma CommitmentFails(p: Params, s: Ledger, current: nat, found: nat, c: Commitment)
    requires Ready(p, s) && c.index >= 1
    ensures var outcome := ProcessCommitment(p, s, current, found, c).1;
      && outcome != Skipped
      && (outcome == Failed <==> SyncedFirst(s, c) && c.end + 1 == p.start)
      && (outcome == Panicked <==> SyncedFirst(s, c) && c.end + 1 < p.start)
  {
    assert s.committed == map[] <==> |s.committed| == 0;
    if c.index > 1 && c.index - 1 in s.committed && c.index !in s.committed {
      assert c.index == |s.committed| + 1;
    }
    if c.index == 1 && 1 !in s.committed {
      assert |s.committed| == 0;
    }
  }

  /** The commitment is the next one, its blocks are synced, and its root is not the Merkle root of their
      hashes. */
  ghost predicate Mismatched(p: Params, s: Ledger, c: Commitment) {
    var n := |s.committed|;
    && (n == 0 || n in s.committed)
    && c.index == n + 1 && EndOf(p, s, n) < c.end <= |s.l2|
    && c.root != p.merkleRoot(BlockHashes(s.l2, EndOf(p, s, n) + 1, c.end))
  }

  /** The commitment has been overtaken: its index is committed, or the chain ends at or past its end. */
  ghost predicate Overtaken(s: Ledger, c: Commitment) {
    || c.index in s.committed
    || (|s.committed| in s.committed && c.end <= s.committed[|s.committed|].end)
  }

  /** The step stops the node with the halting error exactly on a root that differs from the one the node
      computes over the synced blocks right after the chain. */
  lemma CommitmentHaltsIff(p: Params, s: Ledger, current: nat, found: nat, c: Commitment)
    requires Ready(p, s) && c.index >= 1
    ensures ProcessCommitment(p, s, current, found, c).1 == Halted <==> Mismatched(p, s, c)
    ensures Mismatched(p, s, c) ==> ProcessCommitment(p, s, current, found, c).0 == s
  {
    hide LatestMark, Linked, Commit, StorePending;
    var n := |s.committed|;
    assert n == 0 || n in s.committed;
    if c.index > 1 && c.index - 1 in s.committed && c.index !in s.committed {
      assert c.index == n + 1;
    }
    if c.index == 1 && 1 !in s.committed {
      assert n == 0;
    }
  }

  /** Which commitments are dropped and which are kept for later, and what the step leaves of the ledger. */
  lemma CommitmentWaitsIff(p: Params, s: Ledger, current: nat, found: nat, c: Commitment)
    requires Ready(p, s) && c.index >= 1
    ensures var (t, outcome) := ProcessCommitment(p, s, current, found, c);
      && (outcome == Discarded <==> Overtaken(s, c))
      && (outcome == Pending <==> !Overtaken(s, c) && (c.index > |s.committed| + 1 || c.end > |s.l2|))
      && var stores := outcome == Pending && (c.index !in s.pending || c.index > |s.committed| + 1);
      outcome != Success ==> t == (if stores then s.(pending := s.pending[c.index := (c, found)]) else s)
  {
    hide LatestMark, Linked, Commit;
    var n := |s.committed|;
    assert n == 0 || n in s.committed;
    if c.index > 1 && c.index - 1 in s.committed && c.index !in s.committed {
      assert c.index == n + 1;
    }
    if c.index == 1 && 1 !in s.committed {
      assert n == 0;
    }
  }

  lemma {:induction false} PassIsMaximal(p: Params, s: Ledger, top: nat, current: nat, keys: seq<nat>,
                                         snapshot: map<nat, (Commitment, nat)>)
    requires Inv(p, s, top) && top <= current && Visiting(s, keys, snapshot)
    requires keys != [] && keys[0] == 1 ==> !StaleFirst(s) && !EmptyFirst(p, s)
    ensures var (t, outcome) := DrainFrom(p, s, current, keys, snapshot);
      outcome == Success ==> Maximal(t)
    decreases |keys|
  {
    if keys == [] {
    } else {
      var (t, next) := RetryCommitment(p, s, current, keys[0], snapshot[keys[0]]);
      if next.Continue? {
        var how := RetrySettles(p, s, current, keys[0]);
        VisitingStep(s, t, keys, snapshot, how);
        RetryKeepsInv(p, s, top, current, keys[0], snapshot[keys[0]]);
        PassIsMaximal(p, t, current, current, keys[1..], snapshot);
      } else if next == Stop(Success) {
        StopIsMaximal(p, s, current, keys, snapshot);
      }
    }
  }

  lemma FirstKeyIsOne(s: Ledger)
    requires 1 in s.pending && 0 !in s.pending
    ensures var keys := AscendingNats(s.pending.Keys); keys != [] && keys[0] == 1
  {
    var keys := AscendingNats(s.pending.Keys);
    assert 1 in keys;
    var j :| 0 <= j < |keys| && keys[j] == 1;
    assert keys[0] in s.pending;
  }

  lemma StaleFirstStops(p: Params, s: Ledger, current: nat)
    requires Ready(p, s) && StaleFirst(s)
    ensures DrainCommitments(p, s, current) == (s, Success)
  {
    FirstKeyIsOne(s);
  }

  lemma EmptyFirstRetried(p: Params, s: Ledger, current: nat)
    requires Ready(p, s) && EmptyFirst(p, s)
    ensures RetryCommitment(p, s, current, 1, s.pending[1])
         == (s, Stop(if s.pending[1].0.end + 1 < p.start then Panicked else Success))
  {
    hide ProcessCommitment, Linked;
    assert |s.committed| == 0;
    CommitmentFails(p, s, current, s.pending[1].1, s.pending[1].0);
    CommitmentCases(p, s, current, s.pending[1].1, s.pending[1].0);
  }

  lemma EmptyFirstStays(p: Params, s: Ledger, current: nat)
    requires Ready(p, s) && EmptyFirst(p, s)
    ensures DrainCommitments(p, s, current)
         == (s, if s.pending[1].0.end + 1 < p.start then Panicked else Success)
  {
    hide RetryCommitment, Ready;
    assert 0 !in s.pending by { ReadyIndices(p, s); }
    FirstKeyIsOne(s);
    EmptyFirstRetried(p, s, current);
  }

  lemma ReadyIndices(p: Params, s: Ledger)
    requires Ready(p, s)
    ensures 0 !in s.pending
  {
  }

  lemma EmptyFirstStops(p: Params, s: Ledger, current: nat)
    requires Ready(p, s) && EmptyFirst(p, s)
    ensures DrainCommitments(p, s, current).1 == Success ==> !Maximal(DrainCommitments(p, s, current).0)
  {
    hide DrainCommitments;
    EmptyFirstStays(p, s, current);
    assert |s.committed| == 0;
  }

  /** A retry pass that reports no error ends with the next index not pending or waiting for blocks, unless
      it meets a stale pending commitment 1 (then it does nothing at all) or an empty first one. */
  lemma DrainReachesMaximalPrefix(p: Params, s: Ledger, top: nat, current: nat)
    requires Inv(p, s, top) && top <= current
    ensures var (t, outcome) := DrainCommitments(p, s, current);
      outcome == Success ==>
        && (StaleFirst(s) ==> t == s)
        && (Maximal(t) <==> (if StaleFirst(s) then Maximal(s) else !EmptyFirst(p, s)))
  {
    assert Ready(p, s);
    if StaleFirst(s) {
      StaleFirstStops(p, s, current);
    } else if EmptyFirst(p, s) {
      EmptyFirstStops(p, s, current);
    } else {
      PassIsMaximal(p, s, top, current, AscendingNats(s.pending.Keys), s.pending);
    }
  }

  // ----- what a retry pass leaves behind

  lemma OnlyTheNextIsAccepted(p: Params, s: Ledger, current: nat, i: nat)
    requires Ready(p, s) && i in s.pending && Accepts(p, s, current, s.pending[i])
    ensures i == |s.committed| + 1 && s.pending[i].0.end <= |s.l2| && !EmptyFirst(p, s)
  {
    CommitIsNext(p, s, current, s.pending[i].1, s.pending[i].0);
    CommitmentFails(p, s, current, s.pending[i].1, s.pending[i].0);
  }

  lemma NothingAcceptable(p: Params, s: Ledger, current: nat)
    requires Ready(p, s) && (Maximal(s) || EmptyFirst(p, s))
    ensures !Acceptable(p, s, current)
  {
    hide Ready, EmptyFirst, Accepts;
    forall i | i in s.pending
      ensures !Accepts(p, s, current, s.pending[i])
    {
      if Accepts(p, s, current, s.pending[i]) {
        OnlyTheNextIsAccepted(p, s, current, i);
      }
    }
  }

  /** A retry pass that reports no error leaves a pending commitment behind that could be committed exactly
      when it met a stale pending commitment 1 and could have committed something else: in every other case
      stopping early loses nothing. */
  lemma RetryMissesIff(p: Params, s: Ledger, top: nat, current: nat)
    requires Inv(p, s, top) && top <= current
    requires DrainCommitments(p, s, current).1 == Success
    ensures Acceptable(p, DrainCommitments(p, s, current).0, current) <==> StaleFirst(s) && Acceptable(p, s, current)
  {
    hide Inv, Ready, Maximal, StaleFirst, EmptyFirst, Acceptable, DrainCommitments;
    InvIsReady(p, s, top);
    DrainReachesMaximalPrefix(p, s, top, current);
    if StaleFirst(s) {
    } else if EmptyFirst(p, s) {
      EmptyFirstStays(p, s, current);
      NothingAcceptable(p, s, current);
    } else {
      StepKeepsInv(p, s, top, RetryCommitments(current));
      InvIsReady(p, DrainCommitments(p, s, current).0, current);
      NothingAcceptable(p, DrainCommitments(p, s, current).0, current);
    }
  }

  // ----- a pending commitment with a wrong root

  /** The next commitment is pending, and its root is wrong. */
  ghost predicate NextMismatched(p: Params, s: Ledger) {
    var next := |s.committed| + 1;
    next in s.pending && Mismatched(p, s, s.pending[next].0)
  }

  lemma MismatchRetried(p: Params, s: Ledger, current: nat)
    requires Ready(p, s) && NextMismatched(p, s)
    ensures var next := |s.committed| + 1;
      RetryCommitment(p, s, current, next, s.pending[next]) == (s, Stop(Halted))
  {
    hide ProcessCommitment, Linked, LatestMark;
    var next := |s.committed| + 1;
    CommitmentHaltsIff(p, s, current, s.pending[next].1, s.pending[next].0);
    assert next > 1 ==> next - 1 in s.committed;
  }

  lemma CommittedRetried(p: Params, s: Ledger, current: nat, i: nat)
    requires Ready(p, s) && i in s.pending && i in s.committed && Processable(s, i, s.pending[i].0)
    ensures RetryCommitment(p, s, current, i, s.pending[i]) == (DropPending(s, i), Continue)
  {
    assert s.pending[i].0.index == i;
  }

  lemma DropKeepsMismatch(p: Params, s: Ledger, i: nat)
    requires NextMismatched(p, s) && i != |s.committed| + 1
    ensures NextMismatched(p, DropPending(s, i))
  {
  }

  lemma NextIsVisited(p: Params, s: Ledger, keys: seq<nat>, snapshot: map<nat, (Commitment, nat)>)
    requires Visiting(s, keys, snapshot) && NextMismatched(p, s)
    ensures keys != [] && keys[0] <= |s.committed| + 1
  {
    assert |s.committed| + 1 in keys;
    var j :| 0 <= j < |keys| && keys[j] == |s.committed| + 1;
  }

  /** Whatever comes before the next index is committed already and is dropped, and then the pass halts. */
  lemma {:induction false} PassHalts(p: Params, s: Ledger, top: nat, current: nat, keys: seq<nat>,
                                     snapshot: map<nat, (Commitment, nat)>)
    requires Inv(p, s, top) && top <= current && Visiting(s, keys, snapshot) && NextMismatched(p, s)
    requires keys != [] && keys[0] == 1 ==> !StaleFirst(s)
    ensures var (t, outcome) := DrainFrom(p, s, current, keys, snapshot);
      outcome == Halted && t.committed == s.committed
    decreases |keys|
  {
    hide NextMismatched, RetryCommitment, Inv, Ready, Visiting, StaleFirst;
    InvIsReady(p, s, top);
    NextIsVisited(p, s, keys, snapshot);
    var i := keys[0];
    VisitedIsPending(p, s, keys, snapshot);
    if i == |s.committed| + 1 {
      MismatchRetried(p, s, current);
    } else {
      CommittedRetried(p, s, current, i);
      VisitingStep(s, DropPending(s, i), keys, snapshot, Drops);
      DropKeepsMismatch(p, s, i);
      RetryKeepsInv(p, s, top, current, i, snapshot[i]);
      PassHalts(p, DropPending(s, i), current, current, keys[1..], snapshot);
    }
  }

  lemma VisitedIsPending(p: Params, s: Ledger, keys: seq<nat>, snapshot: map<nat, (Commitment, nat)>)
    requires Ready(p, s) && Visiting(s, keys, snapshot) && keys != [] && keys[0] <= |s.committed| + 1
    requires keys[0] == 1 ==> !StaleFirst(s)
    ensures forall k :: k in keys ==> k in snapshot
    ensures keys[0] in s.pending && s.pending[keys[0]] == snapshot[keys[0]] && |s.committed| + 1 !in s.committed
    ensures keys[0] <= |s.committed| ==> keys[0] in s.committed && Processable(s, keys[0], s.pending[keys[0]].0)
    ensures keys[1..] != [] ==> keys[1..][0] != 1
  {
    hide Linked, LatestMark, TipMark;
    assert keys[0] in keys;
    LaterKeys(keys);
  }

  lemma LaterKeys(keys: seq<nat>)
    requires StrictlyAscending(keys) && keys != []
    ensures keys[1..] != [] ==> keys[1..][0] > keys[0]
  {
  }

  /** A pass that ends in the halting error or an abort leaves what caused it in place. */
  lemma {:induction false} PassEnds(p: Params, s: Ledger, top: nat, current: nat, keys: seq<nat>,
                                    snapshot: map<nat, (Commitment, nat)>)
    requires Inv(p, s, top) && top <= current && Visiting(s, keys, snapshot)
    ensures var (t, outcome) := DrainFrom(p, s, current, keys, snapshot);
      && (outcome == Success || outcome == Halted || outcome == Panicked)
      && (outcome == Halted ==> NextMismatched(p, t))
      && (outcome == Panicked ==> EmptyFirst(p, t))
    decreases |keys|
  {
    if keys == [] {
    } else {
      hide NextMismatched, EmptyFirst, RetryCommitment, ProofsJustified, MarksAgree;
      InvIsReady(p, s, top);
      assert keys[0] in keys;
      var (t, next) := RetryCommitment(p, s, current, keys[0], snapshot[keys[0]]);
      if next.Continue? {
        var how := RetrySettles(p, s, current, keys[0]);
        VisitingStep(s, t, keys, snapshot, how);
        RetryKeepsInv(p, s, top, current, keys[0], snapshot[keys[0]]);
        PassEnds(p, t, current, current, keys[1..], snapshot);
      } else {
        RetryEnds(p, s, current, keys[0]);
      }
    }
  }

  lemma RetryEnds(p: Params, s: Ledger, current: nat, i: nat)
    requires Ready(p, s) && i in s.pending
    ensures var (t, next) := RetryCommitment(p, s, current, i, s.pending[i]);
      next.Stop? ==>
        && (next.result == Success || next.result == Halted || next.result == Panicked)
        && (next.result == Halted ==> t == s && NextMismatched(p, s))
        && (next.result == Panicked ==> t == s && EmptyFirst(p, s))
  {
    hide ProcessCommitment, Linked, LatestMark;
    var (c, found) := s.pending[i];
    CommitmentHaltsIff(p, s, current, found, c);
    CommitmentFails(p, s, current, found, c);
    CommitmentCases(p, s, current, found, c);
  }

  /** A retry pass stops the node exactly when the ledger it leaves has the next commitment pending with a wrong
      root; one that is there before the pass stops it before anything is committed. A stale pending commitment
      1 hides it. */
  lemma RetryHaltsIff(p: Params, s: Ledger, top: nat, current: nat)
    requires Inv(p, s, top) && top <= current
    ensures var (t, outcome) := DrainCommitments(p, s, current);
      && (outcome == Halted <==> !StaleFirst(s) && NextMismatched(p, t))
      && (NextMismatched(p, s) && !StaleFirst(s) ==> outcome == Halted && t.committed == s.committed)
  {
    hide Inv, Ready, Maximal, EmptyFirst, StaleFirst, NextMismatched, DrainFrom;
    var keys := AscendingNats(s.pending.Keys);
    var t := DrainCommitments(p, s, current).0;
    InvIsReady(p, s, top);
    StepKeepsInv(p, s, top, RetryCommitments(current));
    InvIsReady(p, t, current);
    if StaleFirst(s) {
      StaleFirstStops(p, s, current);
    } else {
      SnapshotVisits(s);
      PassEnds(p, s, top, current, keys, s.pending);
      DrainReachesMaximalPrefix(p, s, top, current);
      NoMismatch(p, t);
      if EmptyFirst(p, s) {
        EmptyFirstStays(p, s, current);
        NoMismatch(p, s);
      } else if NextMismatched(p, s) {
        PassHalts(p, s, top, current, keys, s.pending);
      }
    }
  }

  lemma SnapshotVisits(s: Ledger)
    ensures Visiting(s, AscendingNats(s.pending.Keys), s.pending)
  {
  }

  lemma NoMismatch(p: Params, s: Ledger)
    requires Ready(p, s)
    ensures Maximal(s) || EmptyFirst(p, s) ==> !NextMismatched(p, s)
  {
    assert 1 !in s.committed ==> |s.committed| == 0;
  }
}
