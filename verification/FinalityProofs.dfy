/**
 Proofs on the way to finality: which proofs of a valid commitment history are kept when they arrive, and
 why retrying them brings the proven mark as far as they reach.
 */
module FinalityProofs {
  import opened Wrappers
  import opened Orders
  import opened FinalityLedger
  import opened FinalityInvariant
  import opened FinalityRuns
  import opened FinalityDrain
  import opened FinalityConvergence

  /** The index of a commitment that a proof speaks about: its range and the one before. */
  ghost predicate Speaks(o: ProofOutput, i: nat) {
    (if o.first == 1 then 1 else o.first - 1) <= i <= o.last
  }

  /** The state root after the commitment of index `i`, on the whole chain. */
  ghost function RootAfter(p: Params, history: map<nat, Commitment>, chain: seq<L2Block>, i: nat): Option<Hash>
    requires i == 0 || i in history
  {
    var h := HistoryLedger(history, chain);
    StateRoot(p, h, EndOf(p, h, i))
  }

  /** A proof that the circuit made of commitments of the history: it names them and the one before by hash,
      ends where the last one ends, and starts from the state root of the chain. */
  ghost predicate ProofOf(p: Params, history: map<nat, Commitment>, chain: seq<L2Block>, proof: Proof) {
    && proof.verifies && proof.output.Some?
    && var o := proof.output.value;
    && 1 <= o.first <= o.last
    && |o.hashes| == o.last - o.first + 1
    && (forall i :: Speaks(o, i) ==> i in history)
    && (forall i :: o.first <= i <= o.last ==> o.hashes[i - o.first] == p.commitmentHash(history[i]))
    && o.lastL2Height == history[o.last].end
    && o.prevIndex == (if o.first == 1 then None else Some(o.first - 1))
    && o.prevHash == (if o.first == 1 then None else Some(p.commitmentHash(history[o.first - 1])))
    && RootAfter(p, history, chain, o.first - 1) == Some(o.initialRoot)
  }

  ghost predicate KnownIn(s: Ledger, i: nat) {
    i in s.committed || i in s.pending
  }

  /** Every commitment the proof speaks about has arrived, and so has the L1 block it names. */
  ghost predicate Arrived(s: Ledger, o: ProofOutput) {
    o.lastL1Hash in s.l1Heights && forall i :: Speaks(o, i) ==> KnownIn(s, i)
  }

  ghost predicate AllCommitted(s: Ledger, o: ProofOutput) {
    forall i :: Speaks(o, i) ==> i in s.committed
  }

  // ----- one proof

  lemma HashFound(p: Params, s: Ledger, history: map<nat, Commitment>, chain: seq<L2Block>, i: nat)
    requires Tracks(s, history, chain, {}) && i in history
    ensures CheckHash(p, s, i, p.commitmentHash(history[i])) ==
      if i in s.committed then Known(history[i].end)
      else if i in s.pending then Awaited(history[i].end)
      else Unknown
  {
  }

  /** The hashes of a range of the history check out when all are known, and are awaited unless all are committed. */
  lemma {:induction false} HashesFound(p: Params, s: Ledger, history: map<nat, Commitment>, chain: seq<L2Block>,
                                       i: nat, last: nat, hashes: seq<Hash>, awaited: bool)
    requires Tracks(s, history, chain, {}) && i <= last + 1 && |hashes| == last + 1 - i
    requires forall j :: i <= j <= last ==> j in history && hashes[j - i] == p.commitmentHash(history[j])
    ensures var r := CheckHashes(p, s, i, last, hashes, awaited);
      && (r.None? <==> exists j :: i <= j <= last && !KnownIn(s, j))
      && (r == Some(false) <==> !awaited && forall j :: i <= j <= last ==> j in s.committed)
    decreases |hashes|
  {
    hide Tracks, CheckHash;
    if hashes == [] {
    } else {
      HashFound(p, s, history, chain, i);
      var check := CheckHash(p, s, i, hashes[0]);
      assert check.Unknown? <==> !KnownIn(s, i);
      HashesFound(p, s, history, chain, i + 1, last, hashes[1..], awaited || check.Awaited?);
    }
  }

  /** Whether a proof is behind the proven mark shows in its last index alone. */
  lemma BehindByIndex(p: Params, s: Ledger, history: map<nat, Commitment>, chain: seq<L2Block>, top: nat, proof: Proof)
    requires ValidHistory(p, history, chain) && Inv(p, s, top) && Tracks(s, history, chain, {})
    requires ProofOf(p, history, chain, proof)
    ensures var o, q := proof.output.value, ProvenMark(s);
      o.lastL2Height <= q.height || o.last <= q.index <==> o.last <= q.index
  {
    hide ProofsJustified, PendingSound, Linked, LatestMark, RootAfter;
    var h := HistoryLedger(history, chain);
    var o, q := proof.output.value, ProvenMark(s);
    assert o.last in history by { assert Speaks(o, o.last); }
    if q.index < o.last {
      EndsAscend(p, h, q.index, o.last);
    }
  }

  lemma PredecessorFound(p: Params, s: Ledger, history: map<nat, Commitment>, chain: seq<L2Block>, proof: Proof)
    requires Tracks(s, history, chain, {}) && ProofOf(p, history, chain, proof)
    ensures var o := proof.output.value;
      CheckPredecessor(p, s, o) ==
        if o.first == 1 then Known(p.start - 1)
        else if o.first - 1 in s.committed then Known(history[o.first - 1].end)
        else if o.first - 1 in s.pending then Awaited(history[o.first - 1].end)
        else Unknown
  {
    hide Tracks, RootAfter;
    var o := proof.output.value;
    if o.first > 1 {
      assert Speaks(o, o.first - 1);
      HashFound(p, s, history, chain, o.first - 1);
    }
  }

  lemma RootFound(p: Params, s: Ledger, history: map<nat, Commitment>, chain: seq<L2Block>, proof: Proof)
    requires Chained(p, s) && Tracks(s, history, chain, {}) && ProofOf(p, history, chain, proof)
    requires AllCommitted(s, proof.output.value)
    ensures var o := proof.output.value;
      var end := if o.first == 1 then p.start - 1 else history[o.first - 1].end;
      StateRoot(p, s, end) == Some(o.initialRoot)
  {
    var o := proof.output.value;
    assert Speaks(o, o.first) && (o.first > 1 ==> Speaks(o, o.first - 1));
    assert Linked(p, s, o.first);
  }

  /** The hashes of the range, after the predecessor. */
  lemma RangeFound(p: Params, s: Ledger, history: map<nat, Commitment>, chain: seq<L2Block>, proof: Proof)
    requires Tracks(s, history, chain, {}) && ProofOf(p, history, chain, proof)
    requires proof.output.value.first > 1 ==> KnownIn(s, proof.output.value.first - 1)
    ensures var o := proof.output.value;
      var r := CheckHashes(p, s, o.first, o.last, o.hashes, CheckPredecessor(p, s, o).Awaited?);
      && (r.None? <==> exists i :: Speaks(o, i) && !KnownIn(s, i))
      && (r == Some(false) <==> AllCommitted(s, o))
  {
    hide Tracks, RootAfter, CheckHashes, CheckPredecessor;
    var o := proof.output.value;
    PredecessorFound(p, s, history, chain, proof);
    forall i | o.first <= i <= o.last
      ensures i in history
    {
      assert Speaks(o, i);
    }
    HashesFound(p, s, history, chain, o.first, o.last, o.hashes, CheckPredecessor(p, s, o).Awaited?);
    assert forall i: nat :: Speaks(o, i) <==> o.first <= i <= o.last || (o.first > 1 && i == o.first - 1);
  }

  /** What happens to a proof of the history: it is lost when the L1 block it names or a commitment it speaks
      about has not arrived, discarded when it is behind the proven mark, kept pending while a commitment it
      speaks about is pending or its range starts past the proven mark, and accepted otherwise. */
  ghost function Verdict(s: Ledger, current: nat, found: nat, proof: Proof): (Ledger, Outcome)
    requires proof.output.Some?
  {
    var o, q := proof.output.value, ProvenMark(s).index;
    if o.lastL1Hash !in s.l1Heights then (s, Skipped)
    else if o.last <= q then (s, Discarded)
    else if !Arrived(s, o) then (s, Skipped)
    else if AllCommitted(s, o) && o.first <= q + 1 then (AcceptProof(s, current, found, proof, o), Success)
    else (StorePendingProof(s, o, proof, found), Pending)
  }

  /** What the checks of a proof of the history come to: first those on the marks, then those on the hashes. */
  ghost predicate MarksCheckOut(s: Ledger, o: ProofOutput) {
    && (o.lastL2Height <= ProvenMark(s).height || o.last <= ProvenMark(s).index <==> o.last <= ProvenMark(s).index)
    && !MarkAbove(ProvenMark(s), CommittedMark(s))
  }

  ghost predicate HashesCheckOut(p: Params, s: Ledger, o: ProofOutput) {
    && (o.prevIndex.Some? ==> o.prevHash.Some?)
    && var prev := CheckPredecessor(p, s, o);
    && !prev.Mismatch?
    && (prev.Unknown? ==> !Arrived(s, o))
    && (!prev.Unknown? ==>
          var r := CheckHashes(p, s, o.first, o.last, o.hashes, prev.Awaited?);
          && (r.None? <==> exists i :: Speaks(o, i) && !KnownIn(s, i))
          && (r == Some(false) <==> AllCommitted(s, o))
          && (AllCommitted(s, o) ==> StateRoot(p, s, prev.end) == Some(o.initialRoot)))
  }

  lemma HistoryMarksCheckOut(p: Params, s: Ledger, history: map<nat, Commitment>, chain: seq<L2Block>, top: nat,
                             proof: Proof)
    requires ValidHistory(p, history, chain) && Inv(p, s, top) && Tracks(s, history, chain, {})
    requires ProofOf(p, history, chain, proof)
    ensures MarksCheckOut(s, proof.output.value)
  {
    hide Inv, ValidHistory, Tracks, ProofOf, ProvenMark, CommittedMark, MarkAbove;
    BehindByIndex(p, s, history, chain, top, proof);
    ProvenWithinCommitted(p, s, top);
  }

  lemma HistoryHashesCheckOut(p: Params, s: Ledger, history: map<nat, Commitment>, chain: seq<L2Block>, proof: Proof)
    requires Chained(p, s) && Tracks(s, history, chain, {}) && ProofOf(p, history, chain, proof)
    ensures HashesCheckOut(p, s, proof.output.value)
  {
    hide Tracks, RootAfter, CheckHashes, CheckPredecessor, Chained, AllCommitted, StateRoot;
    var o := proof.output.value;
    PredecessorFound(p, s, history, chain, proof);
    if o.first > 1 && !KnownIn(s, o.first - 1) {
      assert Speaks(o, o.first - 1);
    } else {
      RangeFound(p, s, history, chain, proof);
      if AllCommitted(s, o) {
        if o.first > 1 {
          PredecessorCommitted(s, o);
        }
        RootFound(p, s, history, chain, proof);
      }
    }
  }

  lemma PredecessorCommitted(s: Ledger, o: ProofOutput)
    requires AllCommitted(s, o) && 1 < o.first <= o.last
    ensures o.first - 1 in s.committed
  {
    assert Speaks(o, o.first - 1);
  }

  lemma VerdictOf(p: Params, s: Ledger, current: nat, found: nat, proof: Proof)
    requires proof.verifies && proof.output.Some?
    requires MarksCheckOut(s, proof.output.value) && HashesCheckOut(p, s, proof.output.value)
    ensures ProcessProof(p, s, current, found, proof) == Verdict(s, current, found, proof)
  {
    hide CheckHashes, CheckPredecessor, AllCommitted, AcceptProof, StorePendingProof, StateRoot, MarkAbove, LatestMark;
    var o := proof.output.value;
    if o.lastL1Hash in s.l1Heights && !CheckPredecessor(p, s, o).Unknown? {
      assert !Arrived(s, o) <==> exists i :: Speaks(o, i) && !KnownIn(s, i);
    }
  }

  lemma ProofVerdict(p: Params, s: Ledger, history: map<nat, Commitment>, chain: seq<L2Block>, top: nat,
                     current: nat, found: nat, proof: Proof)
    requires ValidHistory(p, history, chain) && Inv(p, s, top) && Tracks(s, history, chain, {})
    requires ProofOf(p, history, chain, proof)
    ensures ProcessProof(p, s, current, found, proof) == Verdict(s, current, found, proof)
  {
    assert Chained(p, s);
    hide Inv, ValidHistory, Tracks, RootAfter, MarksCheckOut, HashesCheckOut, ProcessProof, Verdict, Chained;
    HistoryMarksCheckOut(p, s, history, chain, top, proof);
    HistoryHashesCheckOut(p, s, history, chain, proof);
    VerdictOf(p, s, current, found, proof);
  }

  // ----- one retry

  datatype Retrial = Behind | Proves | Stays

  /** How a pending proof fares when it is retried: it is behind the proven mark, moves it to its last index, or
      stops the pass, staying where it is. */
  ghost predicate Retries(s: Ledger, t: Ledger, next: Progress, o: ProofOutput, item: (Proof, nat), how: Retrial) {
    && SameCommitments(s, t) && t.l1Heights == s.l1Heights
    && var key, q := (o.first, o.last), ProvenMark(s).index;
    match how
    case Behind =>
      && o.last <= q
      && next.Continue? && t.pendingProofs == s.pendingProofs - {key} && ProvenMark(t).index == q
    case Proves =>
      && q < o.last && o.first <= q + 1 && AllCommitted(s, o)
      && next.Continue? && t.pendingProofs == s.pendingProofs - {key} && ProvenMark(t).index == o.last
    case Stays =>
      && q < o.last && (o.first > q + 1 || !AllCommitted(s, o))
      && next == Stop(Success) && t.pendingProofs == s.pendingProofs[key := item] && ProvenMark(t).index == q
  }

  lemma AcceptedMark(p: Params, s: Ledger, top: nat, current: nat, found: nat, proof: Proof)
    requires Inv(p, s, top) && top <= current && proof.output.Some?
    ensures ProvenMark(AcceptProof(s, current, found, proof, proof.output.value)).index == proof.output.value.last
  {
    hide LatestMark, Chained, ProofsJustified, PendingSound, Backed;
    OrderedLater(s.provenAt, top, current);
    LatestAfterWrite(s.provenAt, current, Mark(proof.output.value.lastL2Height, proof.output.value.last));
  }

  lemma RetryBy(p: Params, s: Ledger, current: nat, key: (nat, nat), item: (Proof, nat))
    ensures var (t, outcome) := ProcessProof(p, s, current, item.1, item.0);
      && (outcome == Success || outcome == Discarded ==>
            RetryProof(p, s, current, key, item) == (DropPendingProof(t, key), Continue))
      && (outcome == Pending ==> RetryProof(p, s, current, key, item) == (t, Stop(Success)))
  {
    hide ProcessProof;
  }

  lemma DroppedBehind(s: Ledger, o: ProofOutput, item: (Proof, nat))
    requires o.last <= ProvenMark(s).index
    ensures Retries(s, DropPendingProof(s, (o.first, o.last)), Continue, o, item, Behind)
  {
    hide LatestMark, AllCommitted;
  }

  lemma DroppedAccepted(p: Params, s: Ledger, top: nat, current: nat, o: ProofOutput, item: (Proof, nat))
    requires Inv(p, s, top) && top <= current && item.0.output == Some(o)
    requires ProvenMark(s).index < o.last && o.first <= ProvenMark(s).index + 1 && AllCommitted(s, o)
    ensures var t := AcceptProof(s, current, item.1, item.0, o);
      Retries(s, DropPendingProof(t, (o.first, o.last)), Continue, o, item, Proves)
  {
    hide Inv, LatestMark, AllCommitted;
    AcceptedMark(p, s, top, current, item.1, item.0);
  }

  lemma StoredAgain(s: Ledger, o: ProofOutput, item: (Proof, nat))
    requires ProvenMark(s).index < o.last && (o.first > ProvenMark(s).index + 1 || !AllCommitted(s, o))
    ensures Retries(s, StorePendingProof(s, o, item.0, item.1), Stop(Success), o, item, Stays)
  {
    hide LatestMark, AllCommitted;
  }

  lemma RetryVerdict(p: Params, s: Ledger, history: map<nat, Commitment>, chain: seq<L2Block>, top: nat, current: nat,
                     item: (Proof, nat))
      returns (how: Retrial)
    requires ValidHistory(p, history, chain) && Inv(p, s, top) && top <= current && Tracks(s, history, chain, {})
    requires ProofOf(p, history, chain, item.0) && Arrived(s, item.0.output.value)
    ensures var o := item.0.output.value; var (t, next) := RetryProof(p, s, current, (o.first, o.last), item);
      Retries(s, t, next, o, item, how)
  {
    hide Inv, ValidHistory, Tracks, RootAfter, ProcessProof, RetryProof, Arrived, AllCommitted, ProvenMark, Retries;
    hide AcceptProof, StorePendingProof, DropPendingProof;
    var o := item.0.output.value;
    ProofVerdict(p, s, history, chain, top, current, item.1, item.0);
    RetryBy(p, s, current, (o.first, o.last), item);
    ArrivedKnows(s, o);
    if o.last <= ProvenMark(s).index {
      DroppedBehind(s, o, item);
      how := Behind;
    } else if AllCommitted(s, o) && o.first <= ProvenMark(s).index + 1 {
      DroppedAccepted(p, s, top, current, o, item);
      how := Proves;
    } else {
      StoredAgain(s, o, item);
      how := Stays;
    }
  }

  lemma ArrivedKnows(s: Ledger, o: ProofOutput)
    requires Arrived(s, o)
    ensures o.lastL1Hash in s.l1Heights
  {
  }

  // ----- one pass over committed commitments

  /** The proof belongs to the history, and what it speaks about is among the commitments and L1 blocks seen. */
  ghost predicate Waiting(p: Params, history: map<nat, Commitment>, chain: seq<L2Block>, l1Heights: map<Hash, nat>,
                          seen: set<nat>, k: (nat, nat), proof: Proof)
  {
    && ProofOf(p, history, chain, proof) && SoundProof(p, proof)
    && var o := proof.output.value;
    && k == (o.first, o.last) && o.lastL1Hash in l1Heights && forall i :: Speaks(o, i) ==> i in seen
  }

  lemma WaitingArrived(p: Params, s: Ledger, history: map<nat, Commitment>, chain: seq<L2Block>, seen: set<nat>,
                       k: (nat, nat), proof: Proof)
    requires Tracks(s, history, chain, seen) && Waiting(p, history, chain, s.l1Heights, seen, k, proof)
    ensures Arrived(s, proof.output.value)
  {
    hide ProofOf, SoundProof;
  }

  ghost predicate AllWaiting(p: Params, history: map<nat, Commitment>, chain: seq<L2Block>, l1Heights: map<Hash, nat>,
                             seen: set<nat>, keys: seq<(nat, nat)>, snapshot: map<(nat, nat), (Proof, nat)>)
  {
    forall k :: k in keys ==> k in snapshot && Waiting(p, history, chain, l1Heights, seen, k, snapshot[k].0)
  }

  ghost predicate AscendingKeys(keys: seq<(nat, nat)>) {
    forall i, j :: 0 <= i < j < |keys| ==> PairLe(keys[i], keys[j]) && keys[i] != keys[j]
  }

  /** Some range among the keys holds `i`. */
  ghost predicate CoveredBy(keys: seq<(nat, nat)>, i: nat) {
    exists k :: k in keys && k.0 <= i <= k.1
  }

  lemma TailPairs(keys: seq<(nat, nat)>)
    requires AscendingKeys(keys) && keys != []
    ensures AscendingKeys(keys[1..]) && keys[0] !in keys[1..]
    ensures forall k :: k in keys ==> k == keys[0] || k in keys[1..]
    ensures forall k :: k in keys[1..] ==> k in keys
    ensures forall k :: k in keys ==> keys[0].0 <= k.0
  {
    forall k | k in keys[1..]
      ensures k in keys && keys[0].0 <= k.0 && k != keys[0]
    {
      var j :| 0 <= j < |keys[1..]| && keys[1..][j] == k;
      assert keys[j + 1] == k;
    }
  }

  lemma CoverageAfter(keys: seq<(nat, nat)>, q: nat, n: nat)
    requires AscendingKeys(keys) && keys != [] && keys[0].1 <= q
    requires forall i :: q < i <= n ==> CoveredBy(keys, i)
    ensures forall i :: q < i <= n ==> CoveredBy(keys[1..], i)
  {
    TailPairs(keys);
    forall i | q < i <= n
      ensures CoveredBy(keys[1..], i)
    {
      assert CoveredBy(keys, i);
      var k :| k in keys && k.0 <= i <= k.1;
      assert k in keys[1..];
    }
  }

  /** The pass over the pending proofs, once all commitments of the history are committed: it reaches every
      index that the proofs cover without a gap, and leaves only proofs that begin past such a gap. */
  lemma {:induction false} ProofPassReaches(p: Params, s: Ledger, history: map<nat, Commitment>, chain: seq<L2Block>,
                                            top: nat, current: nat, keys: seq<(nat, nat)>,
                                            snapshot: map<(nat, nat), (Proof, nat)>, n: nat)
    requires ValidHistory(p, history, chain) && Inv(p, s, top) && top <= current
    requires Tracks(s, history, chain, history.Keys) && s.committed == history
    requires AllWaiting(p, history, chain, s.l1Heights, history.Keys, keys, snapshot) && AscendingKeys(keys)
    requires forall k :: k in s.pendingProofs <==> k in keys
    requires forall i :: ProvenMark(s).index < i <= n ==> CoveredBy(keys, i)
    ensures var (t, outcome) := DrainProofsFrom(p, s, current, keys, snapshot);
      && outcome == Success && t.committed == history && n <= ProvenMark(t).index
      && forall k :: k in t.pendingProofs ==> ProvenMark(t).index + 1 < k.0
    decreases |keys|
  {
    hide Inv, ValidHistory, Tracks, RetryProof, Waiting, ProvenMark;
    if keys == [] {
      assert ProvenMark(s).index < n ==> !CoveredBy(keys, n);
    } else {
      TailPairs(keys);
      var k, item := keys[0], snapshot[keys[0]];
      var (t, next) := RetryProof(p, s, current, k, item);
      var how := HeadRetries(p, s, history, chain, history.Keys, top, current, k, item);
      var o := item.0.output.value;
      if how.Stays? {
        AllOfHistory(p, s, history, chain, k, item.0);
        assert ProvenMark(s).index < n ==> CoveredBy(keys, ProvenMark(s).index + 1);
      } else {
        RetryProofKeepsInv(p, s, top, current, k, item);
        SameTracks(s, t, history, chain, history.Keys);
        CoverageAfter(keys, ProvenMark(t).index, n);
        ProofPassReaches(p, t, history, chain, current, current, keys[1..], snapshot, n);
      }
    }
  }

  lemma HeadRetries(p: Params, s: Ledger, history: map<nat, Commitment>, chain: seq<L2Block>, seen: set<nat>,
                    top: nat, current: nat, k: (nat, nat), item: (Proof, nat))
      returns (how: Retrial)
    requires ValidHistory(p, history, chain) && Inv(p, s, top) && top <= current && Tracks(s, history, chain, seen)
    requires Waiting(p, history, chain, s.l1Heights, seen, k, item.0)
    ensures SoundProof(p, item.0) && item.0.output.Some? && k == (item.0.output.value.first, item.0.output.value.last)
    ensures var (t, next) := RetryProof(p, s, current, k, item); Retries(s, t, next, item.0.output.value, item, how)
  {
    hide Inv, ValidHistory, Tracks, RetryProof, ProofOf, SoundProof, Retries;
    assert item.0.output.Some? by { OutputOf(p, history, chain, item.0); }
    WaitingArrived(p, s, history, chain, seen, k, item.0);
    TracksLess(s, history, chain, seen);
    how := RetryVerdict(p, s, history, chain, top, current, item);
  }

  lemma OutputOf(p: Params, history: map<nat, Commitment>, chain: seq<L2Block>, proof: Proof)
    requires ProofOf(p, history, chain, proof)
    ensures proof.output.Some?
  {
  }

  lemma AllOfHistory(p: Params, s: Ledger, history: map<nat, Commitment>, chain: seq<L2Block>, k: (nat, nat),
                     proof: Proof)
    requires Waiting(p, history, chain, s.l1Heights, history.Keys, k, proof) && s.committed == history
    ensures AllCommitted(s, proof.output.value)
  {
  }

  /** Every pending proof belongs to the history and everything it speaks about is among what was seen. */
  ghost predicate PendingWait(p: Params, s: Ledger, history: map<nat, Commitment>, chain: seq<L2Block>,
                              seen: set<nat>)
  {
    forall k :: k in s.pendingProofs ==> Waiting(p, history, chain, s.l1Heights, seen, k, s.pendingProofs[k].0)
  }

  /** Some pending proof ranges over commitment `i`. */
  ghost predicate PendingCovers(s: Ledger, i: nat) {
    exists k :: k in s.pendingProofs && k.0 <= i <= k.1
  }

  /** With the history committed and its proofs pending, one retry pass brings the proven mark to every index
      up to which the proofs cover all those past it: stopping early costs nothing, for whatever is left begins
      past a gap. */
  lemma RetryProofsReach(p: Params, s: Ledger, history: map<nat, Commitment>, chain: seq<L2Block>, top: nat,
                         current: nat, n: nat)
    requires ValidHistory(p, history, chain) && Inv(p, s, top) && top <= current
    requires Tracks(s, history, chain, history.Keys) && s.committed == history
    requires PendingWait(p, s, history, chain, history.Keys)
    requires forall i :: ProvenMark(s).index < i <= n ==> PendingCovers(s, i)
    ensures var (t, outcome) := DrainProofs(p, s, current);
      && outcome == Success && t.committed == history && n <= ProvenMark(t).index
      && forall k :: k in t.pendingProofs ==> ProvenMark(t).index + 1 < k.0
  {
    hide Inv, ValidHistory, Tracks, Waiting, ProvenMark, DrainProofsFrom;
    var keys := AscendingPairs(s.pendingProofs.Keys);
    forall i | ProvenMark(s).index < i <= n
      ensures CoveredBy(keys, i)
    {
      assert PendingCovers(s, i);
      var k :| k in s.pendingProofs && k.0 <= i <= k.1;
      assert k in keys;
    }
    ProofPassReaches(p, s, history, chain, top, current, keys, s.pendingProofs, n);
  }

  // ----- whole runs

  /** The proof is behind the proven mark, or a proof of its range is pending. */
  ghost predicate Settled(s: Ledger, proof: Proof) {
    && proof.output.Some?
    && var o := proof.output.value;
    o.last <= ProvenMark(s).index || (o.first, o.last) in s.pendingProofs
  }

  /** No proof in `proofs` has been lost, and all that are pending can be proven once their commitments are. */
  ghost predicate KeepsProofs(p: Params, s: Ledger, history: map<nat, Commitment>, chain: seq<L2Block>, seen: set<nat>,
                              proofs: set<Proof>)
  {
    PendingWait(p, s, history, chain, seen) && forall proof :: proof in proofs ==> Settled(s, proof)
  }

  /** Nothing a proof depends on has changed, except that more was seen. */
  ghost predicate SameProofs(s: Ledger, t: Ledger) {
    && t.pendingProofs == s.pendingProofs && t.provenAt == s.provenAt
    && forall h :: h in s.l1Heights ==> h in t.l1Heights
  }

  lemma SameKeepsProofs(p: Params, s: Ledger, t: Ledger, history: map<nat, Commitment>, chain: seq<L2Block>,
                        seen: set<nat>, more: set<nat>, proofs: set<Proof>)
    requires KeepsProofs(p, s, history, chain, seen, proofs) && SameProofs(s, t) && seen <= more
    ensures KeepsProofs(p, t, history, chain, more, proofs)
  {
    hide ProofOf, SoundProof, LatestMark;
  }

  lemma CommittedFrom(p: Params, s: Ledger, current: nat, found: nat, c: Commitment) returns (start: nat)
    requires ProcessCommitment(p, s, current, found, c).1 == Success
    ensures ProcessCommitment(p, s, current, found, c).0 == Commit(s, current, found, start, c)
  {
    hide LatestMark, BlockHashes, Commit, StorePending;
    start := StartHeight(p, s, c.index).value;
  }

  lemma CommitKeepsProofTables(s: Ledger, current: nat, found: nat, start: nat, c: Commitment)
    ensures SameProofs(s, Commit(s, current, found, start, c)) && SameProofs(s, StorePending(s, c, found))
  {
    hide OnSlot;
  }

  lemma CommitmentKeepsProofTables(p: Params, s: Ledger, current: nat, found: nat, c: Commitment)
    ensures SameProofs(s, ProcessCommitment(p, s, current, found, c).0)
  {
    hide ProcessCommitment, Commit, StorePending;
    CommitmentCases(p, s, current, found, c);
    CommitKeepsProofTables(s, current, found, 0, c);
    if ProcessCommitment(p, s, current, found, c).1 == Success {
      var start := CommittedFrom(p, s, current, found, c);
      CommitKeepsProofTables(s, current, found, start, c);
    }
  }

  lemma {:induction false} DrainKeepsProofTables(p: Params, s: Ledger, current: nat, keys: seq<nat>,
                                                 snapshot: map<nat, (Commitment, nat)>)
    requires forall k :: k in keys ==> k in snapshot
    ensures SameProofs(s, DrainFrom(p, s, current, keys, snapshot).0)
    decreases |keys|
  {
    hide ProcessCommitment, RetryCommitment;
    if keys == [] {
    } else {
      var item := snapshot[keys[0]];
      CommitmentKeepsProofTables(p, s, current, item.1, item.0);
      RetryShape(p, s, current, keys[0], item);
      var (t, next) := RetryCommitment(p, s, current, keys[0], item);
      if next.Continue? {
        DrainKeepsProofTables(p, t, current, keys[1..], snapshot);
      }
    }
  }

  /** A retried proof stays or has been passed, and no other proof is touched. */
  lemma RetriedKeepsProofs(p: Params, s: Ledger, t: Ledger, next: Progress, history: map<nat, Commitment>,
                           chain: seq<L2Block>, seen: set<nat>, proofs: set<Proof>, k: (nat, nat),
                           item: (Proof, nat), how: Retrial)
    requires KeepsProofs(p, s, history, chain, seen, proofs)
    requires Waiting(p, history, chain, s.l1Heights, seen, k, item.0) && item.0.output.Some?
    requires k == (item.0.output.value.first, item.0.output.value.last)
    requires Retries(s, t, next, item.0.output.value, item, how)
    ensures KeepsProofs(p, t, history, chain, seen, proofs) && ProvenMark(s).index <= ProvenMark(t).index
  {
    hide Waiting, ProvenMark, AllCommitted, SameCommitments;
    forall j | j in t.pendingProofs
      ensures Waiting(p, history, chain, t.l1Heights, seen, j, t.pendingProofs[j].0)
    {
      assert t.pendingProofs[j] == item || (j in s.pendingProofs && t.pendingProofs[j] == s.pendingProofs[j]);
      assert t.pendingProofs[j] == item ==> j == k || j in s.pendingProofs;
    }
  }

  lemma {:induction false} DrainProofsKeepsProofs(p: Params, s: Ledger, history: map<nat, Commitment>,
                                                  chain: seq<L2Block>, seen: set<nat>, proofs: set<Proof>, top: nat,
                                                  current: nat, keys: seq<(nat, nat)>,
                                                  snapshot: map<(nat, nat), (Proof, nat)>)
    requires ValidHistory(p, history, chain) && Inv(p, s, top) && top <= current && Tracks(s, history, chain, seen)
    requires KeepsProofs(p, s, history, chain, seen, proofs)
    requires AllWaiting(p, history, chain, s.l1Heights, seen, keys, snapshot)
    ensures var (t, outcome) := DrainProofsFrom(p, s, current, keys, snapshot);
      outcome == Success && KeepsProofs(p, t, history, chain, seen, proofs)
    decreases |keys|
  {
    hide Inv, ValidHistory, Tracks, RetryProof, Waiting, ProvenMark, KeepsProofs;
    if keys == [] {
    } else {
      assert keys[0] in keys;
      var item := snapshot[keys[0]];
      var (t, next) := RetryProof(p, s, current, keys[0], item);
      var how := HeadRetries(p, s, history, chain, seen, top, current, keys[0], item);
      RetriedKeepsProofs(p, s, t, next, history, chain, seen, proofs, keys[0], item, how);
      if next.Continue? {
        RetryProofKeepsInv(p, s, top, current, keys[0], item);
        SameTracks(s, t, history, chain, seen);
        DrainProofsKeepsProofs(p, t, history, chain, seen, proofs, current, current, keys[1..], snapshot);
      }
    }
  }

  /** A delivered proof whose commitments and L1 block have arrived is accepted, behind, or kept pending. */
  lemma DeliveryKeepsProofs(p: Params, s: Ledger, history: map<nat, Commitment>, chain: seq<L2Block>, seen: set<nat>,
                            proofs: set<Proof>, top: nat, l1: nat, proof: Proof)
    requires ValidHistory(p, history, chain) && Inv(p, s, top) && top <= l1 && Tracks(s, history, chain, seen)
    requires KeepsProofs(p, s, history, chain, seen, proofs) && proof.output.Some?
    requires var o := proof.output.value; Waiting(p, history, chain, s.l1Heights, seen, (o.first, o.last), proof)
    ensures KeepsProofs(p, ProcessProof(p, s, l1, l1, proof).0, history, chain, seen, proofs + {proof})
  {
    hide Inv, ValidHistory, Tracks, Waiting, ProcessProof, LatestMark;
    var o := proof.output.value;
    var k := (o.first, o.last);
    assert ProofOf(p, history, chain, proof) by { WaitingIsProof(p, history, chain, s.l1Heights, seen, k, proof); }
    hide ProofOf;
    WaitingArrived(p, s, history, chain, seen, k, proof);
    TracksLess(s, history, chain, seen);
    ProofVerdict(p, s, history, chain, top, l1, l1, proof);
    AcceptedMark(p, s, top, l1, l1, proof);
    DeliveredKept(p, s, history, chain, seen, proofs, l1, proof);
  }

  lemma WaitingIsProof(p: Params, history: map<nat, Commitment>, chain: seq<L2Block>, l1Heights: map<Hash, nat>,
                       seen: set<nat>, k: (nat, nat), proof: Proof)
    requires Waiting(p, history, chain, l1Heights, seen, k, proof)
    ensures ProofOf(p, history, chain, proof)
  {
  }

  lemma PassedKeepsProofs(p: Params, s: Ledger, t: Ledger, history: map<nat, Commitment>, chain: seq<L2Block>,
                          seen: set<nat>, proofs: set<Proof>, proof: Proof)
    requires KeepsProofs(p, s, history, chain, seen, proofs) && t.l1Heights == s.l1Heights
    requires t.pendingProofs == s.pendingProofs && ProvenMark(s).index <= ProvenMark(t).index
    requires proof.output.Some? && proof.output.value.last <= ProvenMark(t).index
    ensures KeepsProofs(p, t, history, chain, seen, proofs + {proof})
  {
    hide Waiting, ProvenMark;
  }

  lemma StoredKeepsProofs(p: Params, s: Ledger, history: map<nat, Commitment>, chain: seq<L2Block>, seen: set<nat>,
                          proofs: set<Proof>, l1: nat, proof: Proof)
    requires KeepsProofs(p, s, history, chain, seen, proofs) && proof.output.Some?
    requires var o := proof.output.value; Waiting(p, history, chain, s.l1Heights, seen, (o.first, o.last), proof)
    ensures KeepsProofs(p, StorePendingProof(s, proof.output.value, proof, l1), history, chain, seen, proofs + {proof})
  {
    hide Waiting, LatestMark;
    assert ProvenMark(StorePendingProof(s, proof.output.value, proof, l1)) == ProvenMark(s);
    hide ProvenMark;
  }

  lemma DeliveredKept(p: Params, s: Ledger, history: map<nat, Commitment>, chain: seq<L2Block>, seen: set<nat>,
                      proofs: set<Proof>, l1: nat, proof: Proof)
    requires KeepsProofs(p, s, history, chain, seen, proofs) && proof.output.Some?
    requires var o := proof.output.value; Waiting(p, history, chain, s.l1Heights, seen, (o.first, o.last), proof)
    requires Arrived(s, proof.output.value)
    requires ProvenMark(AcceptProof(s, l1, l1, proof, proof.output.value)).index == proof.output.value.last
    ensures KeepsProofs(p, Verdict(s, l1, l1, proof).0, history, chain, seen, proofs + {proof})
  {
    hide Waiting, AllCommitted, ProvenMark, KeepsProofs;
    ArrivedKnows(s, proof.output.value);
    hide Arrived;
    var o := proof.output.value;
    if o.last <= ProvenMark(s).index {
      PassedKeepsProofs(p, s, s, history, chain, seen, proofs, proof);
    } else if AllCommitted(s, o) && o.first <= ProvenMark(s).index + 1 {
      PassedKeepsProofs(p, s, AcceptProof(s, l1, l1, proof, o), history, chain, seen, proofs, proof);
    } else {
      StoredKeepsProofs(p, s, history, chain, seen, proofs, l1, proof);
    }
  }

  // ----- every event

  lemma ProofKeepsHeights(p: Params, s: Ledger, current: nat, found: nat, proof: Proof)
    ensures ProcessProof(p, s, current, found, proof).0.l1Heights == s.l1Heights
  {
    hide ProcessProof;
    ProofCases(p, s, current, found, proof);
  }

  lemma {:induction false} DrainProofsKeepsHeights(p: Params, s: Ledger, current: nat, keys: seq<(nat, nat)>,
                                                   snapshot: map<(nat, nat), (Proof, nat)>)
    requires forall k :: k in keys ==> k in snapshot
    ensures DrainProofsFrom(p, s, current, keys, snapshot).0.l1Heights == s.l1Heights
    decreases |keys|
  {
    hide ProcessProof, RetryProof;
    if keys == [] {
    } else {
      var item := snapshot[keys[0]];
      ProofKeepsHeights(p, s, current, item.1, item.0);
      RetryProofShape(p, s, current, keys[0], item);
      var (t, next) := RetryProof(p, s, current, keys[0], item);
      if next.Continue? {
        DrainProofsKeepsHeights(p, t, current, keys[1..], snapshot);
      }
    }
  }

  /** The L1 block hash, the commitment index and the proof that an event brings. */
  ghost function HashesOf(e: Event): set<Hash> {
    if e.SeeL1? then {e.hash} else {}
  }

  ghost function ProofsOf(e: Event): set<Proof> {
    if e.DeliverProof? then {e.proof} else {}
  }

  ghost function DeliveredProofs(events: seq<Event>): set<Proof>
    decreases |events|
  {
    if events == [] then {} else ProofsOf(events[0]) + DeliveredProofs(events[1..])
  }

  /** A delivered proof belongs to the history, and what it speaks about was seen before. */
  ghost predicate InTime(p: Params, history: map<nat, Commitment>, chain: seq<L2Block>, seen: set<nat>,
                         hashes: set<Hash>, e: Event)
  {
    e.DeliverProof? ==>
      && ProofOf(p, history, chain, e.proof)
      && e.proof.output.value.lastL1Hash in hashes
      && forall i :: Speaks(e.proof.output.value, i) ==> i in seen
  }

  ghost predicate AllInTime(p: Params, history: map<nat, Commitment>, chain: seq<L2Block>, seen: set<nat>,
                            hashes: set<Hash>, events: seq<Event>)
    decreases |events|
  {
    events != [] ==>
      && InTime(p, history, chain, seen, hashes, events[0])
      && AllInTime(p, history, chain, seen + Delivered([events[0]]), hashes + HashesOf(events[0]), events[1..])
  }

  ghost predicate HashesSeen(s: Ledger, hashes: set<Hash>) {
    forall h :: h in hashes ==> h in s.l1Heights
  }

  lemma StepSeesHashes(p: Params, s: Ledger, hashes: set<Hash>, e: Event)
    requires HashesSeen(s, hashes)
    ensures HashesSeen(Step(p, s, e).0, hashes + HashesOf(e))
  {
    hide ProcessCommitment, ProcessProof, DrainFrom, DrainProofsFrom;
    match e
    case Deliver(l1, c) => CommitmentKeepsProofTables(p, s, l1, l1, c);
    case RetryCommitments(l1) => DrainKeepsProofTables(p, s, l1, AscendingNats(s.pending.Keys), s.pending);
    case DeliverProof(l1, proof) => ProofKeepsHeights(p, s, l1, l1, proof);
    case RetryProofs(l1) =>
      DrainProofsKeepsHeights(p, s, l1, AscendingPairs(s.pendingProofs.Keys), s.pendingProofs);
    case _ =>
  }

  lemma PassKeepsProofs(p: Params, s: Ledger, history: map<nat, Commitment>, chain: seq<L2Block>, seen: set<nat>,
                        proofs: set<Proof>, top: nat, l1: nat)
    requires ValidHistory(p, history, chain) && Inv(p, s, top) && top <= l1 && Tracks(s, history, chain, seen)
    requires KeepsProofs(p, s, history, chain, seen, proofs)
    ensures DrainProofs(p, s, l1).1 == Success
    ensures KeepsProofs(p, DrainProofs(p, s, l1).0, history, chain, seen, proofs)
  {
    hide Inv, ValidHistory, Tracks, Waiting, Settled, DrainProofsFrom;
    var keys := AscendingPairs(s.pendingProofs.Keys);
    DrainProofsKeepsProofs(p, s, history, chain, seen, proofs, top, l1, keys, s.pendingProofs);
  }

  lemma NewProofWaits(p: Params, s: Ledger, history: map<nat, Commitment>, chain: seq<L2Block>, seen: set<nat>,
                      hashes: set<Hash>, e: Event)
    requires e.DeliverProof? && InTime(p, history, chain, seen, hashes, e) && HashesSeen(s, hashes)
    requires SoundProof(p, e.proof)
    ensures e.proof.output.Some?
    ensures var o := e.proof.output.value;
      Waiting(p, history, chain, s.l1Heights, seen, (o.first, o.last), e.proof)
  {
    hide SoundProof;
  }

  lemma StepKeepsProofs(p: Params, s: Ledger, history: map<nat, Commitment>, chain: seq<L2Block>, seen: set<nat>,
                        hashes: set<Hash>, proofs: set<Proof>, top: nat, e: Event)
    requires ValidHistory(p, history, chain) && Inv(p, s, top) && Tracks(s, history, chain, seen)
    requires KeepsProofs(p, s, history, chain, seen, proofs) && HashesSeen(s, hashes)
    requires HeightAfter(e, top) >= top && InTime(p, history, chain, seen, hashes, e)
    requires e.DeliverProof? ==> SoundProof(p, e.proof)
    ensures KeepsProofs(p, Step(p, s, e).0, history, chain, seen + Delivered([e]), proofs + ProofsOf(e))
  {
    hide Inv, ValidHistory, Tracks, KeepsProofs, ProcessCommitment, ProcessProof, DrainFrom, DrainProofs, Delivered;
    hide SoundProof, InTime, HashesSeen;
    DeliveredOne(e);
    var t, more := Step(p, s, e).0, seen + Delivered([e]);
    assert e.DeliverProof? || e.RetryProofs? ==> more == seen;
    assert !e.DeliverProof? ==> proofs + ProofsOf(e) == proofs;
    match e
    case DeliverProof(l1, proof) =>
      NewProofWaits(p, s, history, chain, seen, hashes, e);
      DeliveryKeepsProofs(p, s, history, chain, seen, proofs, top, l1, proof);
    case RetryProofs(l1) => PassKeepsProofs(p, s, history, chain, seen, proofs, top, l1);
    case Deliver(l1, c) =>
      CommitmentKeepsProofTables(p, s, l1, l1, c);
      SameKeepsProofs(p, s, t, history, chain, seen, more, proofs);
    case RetryCommitments(l1) =>
      DrainKeepsProofTables(p, s, l1, AscendingNats(s.pending.Keys), s.pending);
      SameKeepsProofs(p, s, t, history, chain, seen, more, proofs);
    case _ => SameKeepsProofs(p, s, t, history, chain, seen, more, proofs);
  }

  lemma {:induction false} RunKeepsProofs(p: Params, s: Ledger, history: map<nat, Commitment>, chain: seq<L2Block>,
                                          seen: set<nat>, hashes: set<Hash>, proofs: set<Proof>, top: nat,
                                          events: seq<Event>)
    requires ValidHistory(p, history, chain) && Inv(p, s, top) && Tracks(s, history, chain, seen)
    requires Legal(p, events, top) && StaysOn(p, s, events, chain)
    requires forall e :: e in events ==> DeliversFrom(history, e)
    requires KeepsProofs(p, s, history, chain, seen, proofs) && HashesSeen(s, hashes)
    requires AllInTime(p, history, chain, seen, hashes, events)
    ensures var more, delivered := seen + Delivered(events), proofs + DeliveredProofs(events);
      KeepsProofs(p, Run(p, s, events), history, chain, more, delivered)
    decreases |events|
  {
    hide Inv, Tracks, ValidHistory, Step, KeepsProofs, HashesSeen, InTime, Delivered;
    if events == [] {
      NothingDelivered(seen);
      assert proofs + {} == proofs;
    } else {
      var e := events[0];
      assert e in events;
      var t := Step(p, s, e).0;
      StepKeepsInv(p, s, top, e);
      StepTracks(p, s, history, chain, seen, top, e);
      StepSeesHashes(p, s, hashes, e);
      StepKeepsProofs(p, s, history, chain, seen, hashes, proofs, top, e);
      DeliveredSplits(seen, events);
      RunKeepsProofs(p, t, history, chain, seen + Delivered([e]), hashes + HashesOf(e), proofs + ProofsOf(e),
                     HeightAfter(e, top), events[1..]);
      assert proofs + ProofsOf(e) + DeliveredProofs(events[1..]) == proofs + DeliveredProofs(events);
    }
  }

  lemma NothingDelivered(seen: set<nat>)
    ensures seen + Delivered([]) == seen
  {
  }

  // ----- the main results

  /** Some proof in the set ranges over commitment `i`. */
  ghost predicate Proved(proofs: set<Proof>, i: nat) {
    exists proof :: proof in proofs && Covers(proof, i)
  }

  lemma SettledCovers(p: Params, s: Ledger, history: map<nat, Commitment>, chain: seq<L2Block>, seen: set<nat>,
                      proofs: set<Proof>, i: nat)
    requires KeepsProofs(p, s, history, chain, seen, proofs) && Proved(proofs, i) && ProvenMark(s).index < i
    ensures PendingCovers(s, i)
  {
    hide PendingWait, ProvenMark;
    var proof :| proof in proofs && Covers(proof, i);
    assert Settled(s, proof);
    var k := (proof.output.value.first, proof.output.value.last);
    assert k in s.pendingProofs;
  }

  /** After a complete delivery and one retry of the commitments, one retry of the proofs proves everything that
      the delivered proofs cover. */
  lemma RetriesProve(p: Params, s: Ledger, history: map<nat, Commitment>, chain: seq<L2Block>, proofs: set<Proof>,
                     top: nat, l1: nat, n: nat)
    requires ValidHistory(p, history, chain) && Inv(p, s, top) && top <= l1
    requires Tracks(s, history, chain, history.Keys) && s.committed == history
    requires KeepsProofs(p, s, history, chain, history.Keys, proofs)
    requires forall i :: 1 <= i <= n ==> Proved(proofs, i)
    ensures var (t, outcome) := DrainProofs(p, s, l1);
      outcome == Success && t.committed == history && n <= ProvenMark(t).index
  {
    assert PendingWait(p, s, history, chain, history.Keys);
    hide Inv, ValidHistory, Tracks, KeepsProofs, PendingWait, ProvenMark, DrainProofs, PendingCovers, Proved;
    forall i | ProvenMark(s).index < i <= n
      ensures PendingCovers(s, i)
    {
      SettledCovers(p, s, history, chain, history.Keys, proofs, i);
    }
    RetryProofsReach(p, s, history, chain, top, l1, n);
  }

  /** Any run that delivers exactly a valid history, in any order, and proofs of it, each after what it speaks
      about but otherwise in any order, and that has synced its chain: retrying commitments and then proofs, as
      the handler does after every block, commits the history and proves every index up to which the delivered
      proofs leave no gap. When they cover the whole history, proven catches up with committed. */
  lemma ProofsCatchUp(p: Params, history: map<nat, Commitment>, chain: seq<L2Block>, events: seq<Event>, l1: nat,
                      n: nat)
    requires ValidHistory(p, history, chain)
    requires Legal(p, events, 0) && TopAfter(events, 0) <= l1
    requires forall e :: e in events ==> DeliversFrom(history, e)
    requires Delivered(events) == history.Keys && Run(p, EMPTY_LEDGER, events).l2 == chain
    requires AllInTime(p, history, chain, {}, {}, events)
    requires forall i :: 1 <= i <= n ==> Proved(DeliveredProofs(events), i)
    ensures var s := DrainCommitments(p, Run(p, EMPTY_LEDGER, events), l1).0;
      var (t, outcome) := DrainProofs(p, s, l1);
      && outcome == Success && t.committed == history && n <= ProvenMark(t).index
      && (n == |history| ==> ProvenMark(t) == CommittedMark(t))
  {
    hide Inv, ValidHistory, Legal, Run, DrainCommitments, DrainProofs, Tracks, KeepsProofs, AllInTime, Proved;
    hide ProvenMark, CommittedMark;
    var s := Run(p, EMPTY_LEDGER, events);
    var top := TopAfter(events, 0);
    DeliveryOrderIsIrrelevant(p, history, chain, events, l1);
    KeptAtTheEnd(p, history, chain, events, l1);
    var u := DrainCommitments(p, s, l1).0;
    RetriesProve(p, u, history, chain, DeliveredProofs(events), l1, l1, n);
    var t := DrainProofs(p, u, l1).0;
    StepKeepsInv(p, u, l1, RetryProofs(l1));
    if n == |history| {
      AllProven(p, t, l1);
    }
  }

  /** The state before the proofs are retried: invariant, complete, and with no delivered proof lost. */
  lemma KeptAtTheEnd(p: Params, history: map<nat, Commitment>, chain: seq<L2Block>, events: seq<Event>, l1: nat)
    requires ValidHistory(p, history, chain)
    requires Legal(p, events, 0) && TopAfter(events, 0) <= l1
    requires forall e :: e in events ==> DeliversFrom(history, e)
    requires Delivered(events) == history.Keys && Run(p, EMPTY_LEDGER, events).l2 == chain
    requires AllInTime(p, history, chain, {}, {}, events)
    ensures var u := DrainCommitments(p, Run(p, EMPTY_LEDGER, events), l1).0;
      && Inv(p, u, l1) && Tracks(u, history, chain, history.Keys)
      && KeepsProofs(p, u, history, chain, history.Keys, DeliveredProofs(events))
  {
    hide Inv, ValidHistory, Legal, Run, DrainCommitments, AllInTime, Tracks, KeepsProofs, Delivered, DeliveredProofs;
    hide StaysOn, HashesSeen, DeliversFrom;
    var s := Run(p, EMPTY_LEDGER, events);
    var top := TopAfter(events, 0);
    EmptyInv(p);
    EmptyKeeps(p, history, chain);
    RunKeepsInv(p, EMPTY_LEDGER, 0, events);
    EndsOnStaysOn(p, EMPTY_LEDGER, 0, events, chain);
    RunTracks(p, EMPTY_LEDGER, history, chain, {}, 0, events);
    RunKeepsProofs(p, EMPTY_LEDGER, history, chain, {}, {}, {}, 0, events);
    assert {} + Delivered(events) == history.Keys && {} + DeliveredProofs(events) == DeliveredProofs(events);
    StepKeepsInv(p, s, top, RetryCommitments(l1));
    DrainAllTracks(p, s, history, chain, history.Keys, top, l1);
    RetriedTables(p, s, history, chain, history.Keys, DeliveredProofs(events), l1);
  }

  lemma EmptyKeeps(p: Params, history: map<nat, Commitment>, chain: seq<L2Block>)
    ensures Tracks(EMPTY_LEDGER, history, chain, {}) && HashesSeen(EMPTY_LEDGER, {})
    ensures KeepsProofs(p, EMPTY_LEDGER, history, chain, {}, {})
  {
  }

  lemma RetriedTables(p: Params, s: Ledger, history: map<nat, Commitment>, chain: seq<L2Block>, seen: set<nat>,
                      proofs: set<Proof>, l1: nat)
    requires KeepsProofs(p, s, history, chain, seen, proofs)
    ensures KeepsProofs(p, DrainCommitments(p, s, l1).0, history, chain, seen, proofs)
  {
    hide KeepsProofs, DrainFrom;
    DrainKeepsProofTables(p, s, l1, AscendingNats(s.pending.Keys), s.pending);
    SameKeepsProofs(p, s, DrainCommitments(p, s, l1).0, history, chain, seen, seen, proofs);
  }

  lemma AllProven(p: Params, t: Ledger, top: nat)
    requires Inv(p, t, top) && |t.committed| <= ProvenMark(t).index
    ensures ProvenMark(t) == CommittedMark(t)
  {
    hide ProofsJustified, PendingSound, Linked, Ordered, Backed;
  }

  // ----- proofs that come too early

  /** Exactly which proofs of the history are lost: those that name an unknown L1 block, and those past the
      proven mark that speak about a commitment which is neither committed nor pending. */
  lemma ProofLostIff(p: Params, s: Ledger, history: map<nat, Commitment>, chain: seq<L2Block>, top: nat,
                     current: nat, found: nat, proof: Proof)
    requires ValidHistory(p, history, chain) && Inv(p, s, top) && Tracks(s, history, chain, {})
    requires ProofOf(p, history, chain, proof)
    ensures var o := proof.output.value; var (t, outcome) := ProcessProof(p, s, current, found, proof);
      && (outcome == Skipped ==> t == s)
      && (outcome == Skipped <==>
            || o.lastL1Hash !in s.l1Heights
            || (ProvenMark(s).index < o.last && exists i :: Speaks(o, i) && !KnownIn(s, i)))
  {
    hide Inv, ValidHistory, Tracks, RootAfter, ProcessProof, ProvenMark, AllCommitted;
    ProofVerdict(p, s, history, chain, top, current, found, proof);
  }

  /** A proof delivered before its commitments leaves no trace, whatever is delivered later. */
  lemma EarlyProofIsLost(p: Params, history: map<nat, Commitment>, chain: seq<L2Block>, proof: Proof)
    requires ValidHistory(p, history, chain) && ProofOf(p, history, chain, proof)
    ensures var known := Step(p, EMPTY_LEDGER, SeeL1(proof.output.value.lastL1Hash, 0)).0;
      Step(p, known, DeliverProof(0, proof)) == (known, Skipped)
  {
    hide ValidHistory, RootAfter, ProcessProof, Inv, LatestMark;
    var o := proof.output.value;
    var known := Step(p, EMPTY_LEDGER, SeeL1(o.lastL1Hash, 0)).0;
    EmptyInv(p);
    StepKeepsInv(p, EMPTY_LEDGER, 0, SeeL1(o.lastL1Hash, 0));
    LatestIsEntry(map[]);
    assert Speaks(o, o.last) && !KnownIn(known, o.last);
    ProofLostIff(p, known, history, chain, 0, 0, 0, proof);
  }
}
