/**
 The verdict on any proof, whatever it says: read off the commitments it names and the marks, and what one
 retry pass over the pending proofs leaves behind.
 */
module FinalityProofSteps {
  import opened Wrappers
  import opened Orders
  import opened FinalityLedger
  import opened FinalityInvariant
  import opened FinalityRuns

  /** The commitment known at index `i`, committed before pending, has the given hash. */
  ghost predicate HasHash(p: Params, s: Ledger, i: nat, hash: Hash) {
    if i in s.committed then p.commitmentHash(s.committed[i]) == hash
    else i in s.pending && p.commitmentHash(s.pending[i].0) == hash
  }

  /** The hashes, taken from index `first` on and not past `last`, are right. */
  ghost predicate RangeRight(p: Params, s: Ledger, first: nat, last: nat, hashes: seq<Hash>) {
    forall j :: 0 <= j < |hashes| && first + j <= last ==> HasHash(p, s, first + j, hashes[j])
  }

  ghost predicate RangeCommitted(committed: map<nat, Commitment>, first: nat, last: nat, hashes: seq<Hash>) {
    forall i :: first <= i <= last && i < first + |hashes| ==> i in committed
  }

  /** Every hash the output gives, for its range and for the commitment it builds on, is right. */
  ghost predicate HashesRight(p: Params, s: Ledger, o: ProofOutput) {
    && (o.prevIndex.Some? ==> o.prevHash.Some? && HasHash(p, s, o.prevIndex.value, o.prevHash.value))
    && RangeRight(p, s, o.first, o.last, o.hashes)
  }

  /** All commitments the output speaks about are committed. */
  ghost predicate OnCommitted(s: Ledger, o: ProofOutput) {
    && (o.prevIndex.Some? ==> o.prevIndex.value in s.committed)
    && RangeCommitted(s.committed, o.first, o.last, o.hashes)
  }

  /** Where the commitment the output builds on ends. */
  ghost function BuildsOn(p: Params, s: Ledger, o: ProofOutput): nat
    requires OnCommitted(s, o)
  {
    if o.prevIndex.None? then p.start - 1 else s.committed[o.prevIndex.value].end
  }

  /** The proof says nothing beyond the proven mark. */
  ghost predicate IsBehind(s: Ledger, o: ProofOutput) {
    o.lastL2Height <= ProvenMark(s).height || o.last <= ProvenMark(s).index
  }

  lemma HashChecked(p: Params, s: Ledger, i: nat, hash: Hash)
    ensures var check := CheckHash(p, s, i, hash);
      && (check.Known? <==> HasHash(p, s, i, hash) && i in s.committed)
      && (check.Awaited? <==> HasHash(p, s, i, hash) && i !in s.committed)
      && (check.Known? ==> check.end == s.committed[i].end)
  {
  }

  lemma RangeSplits(p: Params, s: Ledger, first: nat, last: nat, hashes: seq<Hash>)
    requires first <= last && hashes != []
    ensures RangeRight(p, s, first, last, hashes)
        <==> HasHash(p, s, first, hashes[0]) && RangeRight(p, s, first + 1, last, hashes[1..])
    ensures RangeCommitted(s.committed, first, last, hashes)
        <==> first in s.committed && RangeCommitted(s.committed, first + 1, last, hashes[1..])
  {
    hide HasHash;
    var tail := hashes[1..];
    if RangeRight(p, s, first + 1, last, tail) && HasHash(p, s, first, hashes[0]) {
      forall j | 0 <= j < |hashes| && first + j <= last
        ensures HasHash(p, s, first + j, hashes[j])
      {
        assert j > 0 ==> hashes[j] == tail[j - 1] && HasHash(p, s, first + 1 + (j - 1), tail[j - 1]);
      }
    }
    if RangeRight(p, s, first, last, hashes) {
      assert HasHash(p, s, first + 0, hashes[0]);
      forall j | 0 <= j < |tail| && first + 1 + j <= last
        ensures HasHash(p, s, first + 1 + j, tail[j])
      {
        assert HasHash(p, s, first + (1 + j), hashes[1 + j]);
      }
    }
  }

  lemma {:induction false} RangeChecked(p: Params, s: Ledger, first: nat, last: nat, hashes: seq<Hash>, awaited: bool)
    ensures var r := CheckHashes(p, s, first, last, hashes, awaited);
      && (r.Some? <==> RangeRight(p, s, first, last, hashes))
      && (r.Some? ==> r.value == (awaited || !RangeCommitted(s.committed, first, last, hashes)))
    decreases |hashes|
  {
    if first > last || hashes == [] {
    } else {
      hide HasHash, RangeRight, RangeCommitted, CheckHash;
      HashChecked(p, s, first, hashes[0]);
      RangeSplits(p, s, first, last, hashes);
      var check := CheckHash(p, s, first, hashes[0]);
      RangeChecked(p, s, first + 1, last, hashes[1..], awaited || check.Awaited?);
    }
  }

  /** The checks on hashes and root come down to what the output says of the ledger. */
  ghost predicate ChecksMean(p: Params, s: Ledger, o: ProofOutput)
    requires o.prevIndex.Some? ==> o.prevHash.Some?
  {
    var prev := CheckPredecessor(p, s, o);
    var checked := CheckHashes(p, s, o.first, o.last, o.hashes, prev.Awaited?);
    && (HashesRight(p, s, o) <==> (prev.Known? || prev.Awaited?) && checked.Some?)
    && (HashesRight(p, s, o) ==> checked == Some(!OnCommitted(s, o)))
    && (HashesRight(p, s, o) && OnCommitted(s, o) ==> prev == Known(BuildsOn(p, s, o)))
  }

  lemma ChecksHaveMeaning(p: Params, s: Ledger, o: ProofOutput)
    requires o.prevIndex.Some? ==> o.prevHash.Some?
    ensures ChecksMean(p, s, o)
  {
    hide HasHash, CheckHashes, CheckHash, RangeRight, RangeCommitted;
    if o.prevIndex.Some? {
      HashChecked(p, s, o.prevIndex.value, o.prevHash.value);
    }
    RangeChecked(p, s, o.first, o.last, o.hashes, CheckPredecessor(p, s, o).Awaited?);
  }

  lemma RootChecked(p: Params, s: Ledger, height: nat, root: Hash)
    ensures StateRoot(p, s, height) == Some(root) <==> RootIs(p, s, height, root)
    ensures StateRoot(p, s, height).None? <==> height > |s.l2|
  {
  }

  /** A verified proof that is past the proven mark and gives right hashes only. */
  ghost predicate Stands(p: Params, s: Ledger, proof: Proof) {
    && proof.verifies && proof.output.Some?
    && var o := proof.output.value;
    o.lastL1Hash in s.l1Heights && !IsBehind(s, o) && HashesRight(p, s, o)
  }

  /** It also speaks about committed commitments only, and starts from the state root after the one before. */
  ghost predicate Applies(p: Params, s: Ledger, proof: Proof) {
    && Stands(p, s, proof)
    && var o := proof.output.value;
    OnCommitted(s, o) && RootIs(p, s, BuildsOn(p, s, o), o.initialRoot)
  }

  /** The verdict on any proof, for each way the step can end, and what it writes. */
  lemma ProofOutcomes(p: Params, s: Ledger, top: nat, current: nat, found: nat, proof: Proof)
    requires Inv(p, s, top)
    ensures var (t, outcome) := ProcessProof(p, s, current, found, proof);
      if proof.output.None? || !proof.verifies then t == s && outcome == Discarded
      else
        var o, q := proof.output.value, ProvenMark(s).index;
        && (outcome == Success <==> Applies(p, s, proof) && o.first <= q + 1)
        && (outcome == Pending <==>
              Stands(p, s, proof) && (!OnCommitted(s, o) || (Applies(p, s, proof) && o.first > q + 1)))
        && (outcome == Discarded <==> o.lastL1Hash in s.l1Heights && IsBehind(s, o))
        && (outcome == Panicked <==>
              o.lastL1Hash in s.l1Heights && !IsBehind(s, o) && o.prevIndex.Some? && o.prevHash.None?)
        && (outcome == Failed <==> Stands(p, s, proof) && OnCommitted(s, o) && BuildsOn(p, s, o) > |s.l2|)
        && outcome != Halted
  {
    hide Inv, CheckHashes, CheckPredecessor, StateRoot, MarkAbove, LatestMark, AcceptProof, StorePendingProof;
    hide HashesRight, OnCommitted, BuildsOn, RootIs;
    if proof.output.Some? {
      var o := proof.output.value;
      ProvenWithinCommitted(p, s, top);
      if o.prevIndex.Some? ==> o.prevHash.Some? {
        ChecksHaveMeaning(p, s, o);
        if OnCommitted(s, o) {
          RootChecked(p, s, BuildsOn(p, s, o), o.initialRoot);
        }
      } else {
        LackingIsWrong(p, s, o);
      }
    }
  }

  lemma LackingIsWrong(p: Params, s: Ledger, o: ProofOutput)
    requires o.prevIndex.Some? && o.prevHash.None?
    ensures !HashesRight(p, s, o)
  {
  }

  /** What the step writes: an accepted proof is added to the list of the L1 block it was found in and moves the
      proven mark to its last commitment; one that waits is stored under its range; otherwise nothing changes. */
  lemma ProofWrites(p: Params, s: Ledger, current: nat, found: nat, proof: Proof)
    ensures var (t, outcome) := ProcessProof(p, s, current, found, proof);
      if outcome == Success then
        && proof.output.Some? && found in t.verified
        && t.verified[found] == (if found in s.verified then s.verified[found] else []) + [proof]
        && t == s.(verified := s.verified[found := t.verified[found]],
                   provenAt := s.provenAt[current := Mark(proof.output.value.lastL2Height, proof.output.value.last)])
      else if outcome == Pending then
        && proof.output.Some?
        && t == s.(pendingProofs :=
                     s.pendingProofs[(proof.output.value.first, proof.output.value.last) := (proof, found)])
      else t == s
  {
    hide CheckHashes, CheckPredecessor, StateRoot, MarkAbove, LatestMark;
  }

  // ----- one pass over the pending proofs

  /** The first of the pending proofs, in range order, is neither accepted nor discarded when it is tried. */
  ghost predicate HeadWaits(p: Params, s: Ledger, current: nat) {
    s.pendingProofs != map[] ==>
      var k := AscendingPairs(s.pendingProofs.Keys)[0];
      var outcome := ProcessProof(p, s, current, s.pendingProofs[k].1, s.pendingProofs[k].0).1;
      outcome == Pending || outcome == Skipped || outcome == Failed
  }

  /** What the pass has left to visit is what is pending. */
  ghost predicate ProofsToVisit(s: Ledger, keys: seq<(nat, nat)>, snapshot: map<(nat, nat), (Proof, nat)>) {
    && (forall k :: k in keys <==> k in s.pendingProofs)
    && (forall k :: k in keys ==> k in snapshot && s.pendingProofs[k] == snapshot[k])
    && (forall i, j :: 0 <= i < j < |keys| ==> PairLe(keys[i], keys[j]) && keys[i] != keys[j])
  }

  lemma FirstIsHead(s: Ledger, keys: seq<(nat, nat)>, snapshot: map<(nat, nat), (Proof, nat)>)
    requires ProofsToVisit(s, keys, snapshot) && keys != []
    ensures s.pendingProofs != map[] && AscendingPairs(s.pendingProofs.Keys)[0] == keys[0]
  {
    var all := AscendingPairs(s.pendingProofs.Keys);
    assert keys[0] in s.pendingProofs && keys[0] in all;
    var i :| 0 <= i < |all| && all[i] == keys[0];
    assert all[0] in keys;
    var j :| 0 <= j < |keys| && keys[j] == all[0];
    assert PairLe(all[0], keys[0]) && PairLe(keys[0], all[0]);
  }

  lemma DropVisits(s: Ledger, t: Ledger, keys: seq<(nat, nat)>, snapshot: map<(nat, nat), (Proof, nat)>)
    requires ProofsToVisit(s, keys, snapshot) && keys != [] && t.pendingProofs == s.pendingProofs - {keys[0]}
    ensures ProofsToVisit(t, keys[1..], snapshot)
  {
    forall k
      ensures k in keys[1..] <==> k in t.pendingProofs
    {
      if k in keys[1..] {
        var j :| 0 <= j < |keys[1..]| && keys[1..][j] == k;
        assert keys[j + 1] == k && k in keys;
      }
    }
  }

  /** A retry either settles the proof and drops it, or changes nothing and stops the pass. */
  lemma RetrySettlesOrStays(p: Params, s: Ledger, current: nat, key: (nat, nat), item: (Proof, nat))
    requires key in s.pendingProofs && s.pendingProofs[key] == item && IsRangeOfProof(key, item.0)
    ensures var outcome := ProcessProof(p, s, current, item.1, item.0).1;
      var (t, next) := RetryProof(p, s, current, key, item);
      if outcome == Success || outcome == Discarded
      then next == Continue && t.pendingProofs == s.pendingProofs - {key}
      else t == s && next == Stop(if outcome == Panicked then Panicked else Success)
  {
    hide ProcessProof;
    ProofWrites(p, s, current, item.1, item.0);
    ProofNeverHalts(p, s, current, item.1, item.0);
    assert s.pendingProofs[key := item] == s.pendingProofs;
  }

  lemma ProofNeverHalts(p: Params, s: Ledger, current: nat, found: nat, proof: Proof)
    ensures ProcessProof(p, s, current, found, proof).1 != Halted
  {
    hide CheckHashes, CheckPredecessor, StateRoot, MarkAbove, LatestMark, AcceptProof, StorePendingProof;
  }

  lemma {:induction false} ProofPassStops(p: Params, s: Ledger, top: nat, current: nat, keys: seq<(nat, nat)>,
                                          snapshot: map<(nat, nat), (Proof, nat)>)
    requires Inv(p, s, top) && top <= current && ProofsToVisit(s, keys, snapshot)
    ensures var (t, outcome) := DrainProofsFrom(p, s, current, keys, snapshot);
      outcome == Success ==> HeadWaits(p, t, current)
    decreases |keys|
  {
    if keys == [] {
      assert s.pendingProofs == map[];
    } else {
      hide Inv, RetryProof, ProcessProof, IsRangeOfProof, SoundProof, HeadWaits;
      var k, item := keys[0], snapshot[keys[0]];
      assert k in s.pendingProofs;
      PendingIsSound(p, s, top, k);
      RetrySettlesOrStays(p, s, current, k, item);
      var (t, next) := RetryProof(p, s, current, k, item);
      if next.Continue? {
        RetryProofKeepsInv(p, s, top, current, k, item);
        DropVisits(s, t, keys, snapshot);
        ProofPassStops(p, t, current, current, keys[1..], snapshot);
      } else if next == Stop(Success) {
        StuckWaits(p, s, current, keys, snapshot);
      }
    }
  }

  lemma PendingIsSound(p: Params, s: Ledger, top: nat, k: (nat, nat))
    requires Inv(p, s, top) && k in s.pendingProofs
    ensures SoundProof(p, s.pendingProofs[k].0) && IsRangeOfProof(k, s.pendingProofs[k].0)
  {
    hide Chained, MarksAgree, ProofsJustified, SoundProof;
  }

  lemma StuckWaits(p: Params, s: Ledger, current: nat, keys: seq<(nat, nat)>,
                   snapshot: map<(nat, nat), (Proof, nat)>)
    requires ProofsToVisit(s, keys, snapshot) && keys != []
    requires var (proof, found) := snapshot[keys[0]];
      var outcome := ProcessProof(p, s, current, found, proof).1;
      outcome != Success && outcome != Discarded && outcome != Panicked
    ensures HeadWaits(p, s, current)
  {
    hide ProcessProof;
    FirstIsHead(s, keys, snapshot);
    ProofNeverHalts(p, s, current, snapshot[keys[0]].1, snapshot[keys[0]].0);
  }

  /** A retry pass that reports no error goes on until nothing is pending or the first of what is left is one
      that cannot be settled now. */
  lemma RetryProofsUntilStuck(p: Params, s: Ledger, top: nat, current: nat)
    requires Inv(p, s, top) && top <= current && DrainProofs(p, s, current).1 == Success
    ensures HeadWaits(p, DrainProofs(p, s, current).0, current)
  {
    hide Inv, DrainProofsFrom, HeadWaits;
    ProofPassStops(p, s, top, current, AscendingPairs(s.pendingProofs.Keys), s.pendingProofs);
  }
}
