/**
 What every step of L1 processing keeps true of the ledger, and how the ledger grows.
 */
module FinalityInvariant {
  import opened Wrappers
  import opened FinalityLedger

  /** The commitment is the one the table has at its index. */
  ghost predicate Holds(table: map<nat, Commitment>, c: Commitment) {
    c.index in table && table[c.index] == c
  }

  /** End height of commitment `i`; index 0 stands for everything before Tangerine. */
  ghost function EndOf(p: Params, s: Ledger, i: nat): nat
    requires i == 0 || i in s.committed
  {
    if i == 0 then p.start - 1 else s.committed[i].end
  }

  /** Commitment `i` starts right after its predecessor, ends at a synced block past its start, and
      carries the Merkle root of exactly the L2 blocks in between. */
  ghost predicate Linked(p: Params, s: Ledger, i: nat)
    requires i in s.committed
  {
    && i >= 1
    && (i == 1 || i - 1 in s.committed)
    && s.committed[i].index == i
    && EndOf(p, s, i - 1) < s.committed[i].end <= |s.l2|
    && s.committed[i].root == p.merkleRoot(BlockHashes(s.l2, EndOf(p, s, i - 1) + 1, s.committed[i].end))
  }

  /** The committed indices are exactly 1..n, each linked to the one before. */
  ghost predicate Chained(p: Params, s: Ledger) {
    && (forall i :: i in s.committed <==> 1 <= i <= |s.committed|)
    && (forall i {:trigger Linked(p, s, i)} :: i in s.committed ==> Linked(p, s, i))
  }

  ghost predicate NotAbove(a: Mark, b: Mark) {
    a.height <= b.height && a.index <= b.index
  }

  ghost function CommittedMark(s: Ledger): Mark {
    OrZero(LatestMark(s.committedAt))
  }

  ghost function ProvenMark(s: Ledger): Mark {
    OrZero(LatestMark(s.provenAt))
  }

  /** A status table written at ascending L1 heights with marks that never go down. */
  ghost predicate Ordered(marks: map<nat, Mark>, top: nat) {
    && (forall a :: a in marks ==> a <= top)
    && (forall a, b :: a in marks && b in marks && a <= b ==> NotAbove(marks[a], marks[b]))
  }

  /** Some committed mark written no later than L1 height `k` is at least `m`. */
  ghost predicate Backed(committedAt: map<nat, Mark>, k: nat, m: Mark) {
    exists h :: h in committedAt && h <= k && NotAbove(m, committedAt[h])
  }

  /** The mark of the last commitment of the chain. */
  ghost function TipMark(committed: map<nat, Commitment>): Option<Mark>
    requires forall i :: i in committed <==> 1 <= i <= |committed|
  {
    var n := |committed|;
    if n == 0 then None else Some(Mark(committed[n].end, n))
  }

  ghost predicate MarksAgree(s: Ledger, top: nat)
    requires forall i :: i in s.committed <==> 1 <= i <= |s.committed|
  {
    && Ordered(s.committedAt, top)
    && Ordered(s.provenAt, top)
    && (forall k :: k in s.provenAt ==> Backed(s.committedAt, k, s.provenAt[k]))
    && LatestMark(s.committedAt) == TipMark(s.committed)
    && (LatestMark(s.provenAt).Some? ==>
          var q := ProvenMark(s);
          q.index in s.committed && q.height == s.committed[q.index].end)
  }

  /** What the circuit guarantees of a proof it produced: a non-empty index range starting at 1 or
      later, one hash per index, and the end height of the last commitment. */
  ghost predicate WellFormedOutput(p: Params, o: ProofOutput) {
    && 1 <= o.first <= o.last
    && |o.hashes| == o.last - o.first + 1
    && (forall c :: p.commitmentHash(c) == o.hashes[o.last - o.first] ==> c.end == o.lastL2Height)
  }

  ghost predicate SoundProof(p: Params, proof: Proof) {
    proof.verifies && proof.output.Some? ==> WellFormedOutput(p, proof.output.value)
  }

  /** Some accepted proof ranges over commitment `i`. */
  ghost predicate Covered(verified: map<nat, seq<Proof>>, i: nat) {
    exists l1, k :: l1 in verified && 0 <= k < |verified[l1]| && Covers(verified[l1][k], i)
  }

  ghost predicate Covers(proof: Proof, i: nat) {
    proof.output.Some? && proof.output.value.first <= i <= proof.output.value.last
  }

  /** The state root after a synced L2 height: that of the block, or genesis. */
  ghost predicate RootIs(p: Params, s: Ledger, height: nat, root: Hash) {
    height <= |s.l2| && root == if height == 0 then p.genesisRoot else s.l2[height - 1].stateRoot
  }

  /** The hash given is that of the committed commitment `i`. */
  ghost predicate Names(p: Params, committed: map<nat, Commitment>, i: nat, hash: Option<Hash>) {
    i in committed && hash == Some(p.commitmentHash(committed[i]))
  }

  /** An accepted proof speaks about committed commitments only, by hash, and, when it names its predecessor as
      the circuit does, gives the hash of that one too and starts from the node's own state root after it. */
  ghost predicate Justified(p: Params, s: Ledger, proof: Proof) {
    && proof.verifies && proof.output.Some?
    && var o := proof.output.value;
    && 1 <= o.first <= o.last
    && |o.hashes| == o.last - o.first + 1
    && (forall i :: o.first <= i <= o.last ==>
          i in s.committed && p.commitmentHash(s.committed[i]) == o.hashes[i - o.first])
    && (o.prevIndex == (if o.first == 1 then None else Some(o.first - 1)) ==>
          && (o.first == 1 || Names(p, s.committed, o.first - 1, o.prevHash))
          && RootIs(p, s, EndOf(p, s, o.first - 1), o.initialRoot))
  }

  ghost predicate ProofsJustified(p: Params, s: Ledger) {
    && (forall l1, k :: l1 in s.verified && 0 <= k < |s.verified[l1]| ==> Justified(p, s, s.verified[l1][k]))
    && (forall i :: 1 <= i <= ProvenMark(s).index ==> Covered(s.verified, i))
  }

  ghost predicate PendingSound(p: Params, s: Ledger) {
    && (forall i :: i in s.pending ==> i >= 1 && s.pending[i].0.index == i)
    && (forall k :: k in s.pendingProofs ==>
          SoundProof(p, s.pendingProofs[k].0) && IsRangeOfProof(k, s.pendingProofs[k].0))
  }

  /** Pending proofs are kept under the first and last index of their output. */
  ghost predicate IsRangeOfProof(k: (nat, nat), proof: Proof) {
    proof.output.Some? && k == (proof.output.value.first, proof.output.value.last)
  }

  /** The invariant of every ledger reached by processing L1 blocks up to height `top`. */
  ghost predicate Inv(p: Params, s: Ledger, top: nat) {
    Chained(p, s) && MarksAgree(s, top) && ProofsJustified(p, s) && PendingSound(p, s)
  }

  /** How a ledger may change: the L2 chain is extended, commitments are never overwritten, accepted
      proofs stay, and neither mark goes down. */
  ghost predicate Grows(s: Ledger, t: Ledger) {
    && s.l2 <= t.l2
    && (forall i :: i in s.committed ==> i in t.committed && t.committed[i] == s.committed[i])
    && (forall l1 :: l1 in s.verified ==> l1 in t.verified && s.verified[l1] <= t.verified[l1])
    && NotAbove(CommittedMark(s), CommittedMark(t))
    && NotAbove(ProvenMark(s), ProvenMark(t))
  }

  // ----- status tables

  lemma LatestAfterWrite(marks: map<nat, Mark>, k: nat, m: Mark)
    requires forall a :: a in marks ==> a <= k
    ensures LatestMark(marks[k := m]) == Some(m)
  {
    assert k in KeysUpTo(marks[k := m], None);
  }

  lemma LatestIsEntry(marks: map<nat, Mark>)
    ensures LatestMark(marks).None? <==> marks == map[]
    ensures LatestMark(marks).Some? ==> exists k :: k in marks && marks[k] == LatestMark(marks).value
  {
    if marks != map[] {
      var k :| k in marks;
      assert k in KeysUpTo(marks, None);
    }
  }

  lemma WriteKeepsOrder(marks: map<nat, Mark>, k: nat, m: Mark)
    requires Ordered(marks, k)
    requires NotAbove(OrZero(LatestMark(marks)), m)
    ensures Ordered(marks[k := m], k)
  {
    forall a | a in marks
      ensures NotAbove(marks[a], m)
    {
      assert a in KeysUpTo(marks, None);
      assert NotAbove(marks[a], LatestMark(marks).value);
    }
  }

  lemma WriteKeepsBacking(s: Ledger, t: Ledger, k: nat, m: Mark)
    requires Ordered(s.committedAt, k) && t.committedAt == s.committedAt[k := m]
    requires NotAbove(CommittedMark(s), m) && t.provenAt == s.provenAt
    requires forall j :: j in s.provenAt ==> Backed(s.committedAt, j, s.provenAt[j])
    ensures forall j :: j in t.provenAt ==> Backed(t.committedAt, j, t.provenAt[j])
  {
    WriteKeepsOrder(s.committedAt, k, m);
    forall j | j in t.provenAt
      ensures Backed(t.committedAt, j, t.provenAt[j])
    {
      var h :| h in s.committedAt && h <= j && NotAbove(s.provenAt[j], s.committedAt[h]);
      assert NotAbove(s.committedAt[h], t.committedAt[h]) by {
        assert h in KeysUpTo(s.committedAt, None);
      }
    }
  }

  // ----- the committed chain

  lemma {:induction false} EndsAscend(p: Params, s: Ledger, i: nat, j: nat)
    requires Chained(p, s) && i <= j <= |s.committed|
    ensures i < j ==> EndOf(p, s, i) < EndOf(p, s, j)
    decreases j - i
  {
    if i == j {
    } else {
      assert j in s.committed && Linked(p, s, j);
      if i < j - 1 {
        EndsAscend(p, s, i, j - 1);
      }
    }
  }

  lemma LinkedGrows(p: Params, s: Ledger, t: Ledger, i: nat)
    requires i in s.committed && Linked(p, s, i) && s.l2 <= t.l2
    requires i in t.committed && t.committed[i] == s.committed[i]
    requires i > 1 ==> i - 1 in t.committed && t.committed[i - 1] == s.committed[i - 1]
    ensures Linked(p, t, i)
  {
    assert BlockHashes(s.l2, EndOf(p, s, i - 1) + 1, s.committed[i].end)
        == BlockHashes(t.l2, EndOf(p, t, i - 1) + 1, t.committed[i].end);
  }

  lemma JustifiedGrows(p: Params, s: Ledger, t: Ledger, proof: Proof)
    requires Chained(p, s) && s.l2 <= t.l2 && Justified(p, s, proof)
    requires forall i :: i in s.committed ==> i in t.committed && t.committed[i] == s.committed[i]
    ensures Justified(p, t, proof)
  {
    var o := proof.output.value;
    if o.first > 1 && o.prevIndex == Some(o.first - 1) {
      assert Linked(p, s, o.first - 1);
    }
  }

  lemma ProofsStay(p: Params, s: Ledger, t: Ledger)
    requires Chained(p, s) && ProofsJustified(p, s)
    requires s.l2 <= t.l2 && t.verified == s.verified && t.provenAt == s.provenAt
    requires forall i :: i in s.committed ==> i in t.committed && t.committed[i] == s.committed[i]
    ensures ProofsJustified(p, t)
  {
    forall l1, k | l1 in t.verified && 0 <= k < |t.verified[l1]|
      ensures Justified(p, t, t.verified[l1][k])
    {
      JustifiedGrows(p, s, t, s.verified[l1][k]);
    }
  }

  /** A fresh commitment that passes every check is the next one and starts where the chain ends. */
  lemma CommitIsNext(p: Params, s: Ledger, current: nat, found: nat, c: Commitment)
    requires Chained(p, s) && LatestMark(s.committedAt) == TipMark(s.committed)
    requires ProcessCommitment(p, s, current, found, c).1 == Success
    ensures c.index == |s.committed| + 1
    ensures EndOf(p, s, |s.committed|) < c.end <= |s.l2|
    ensures c.root == p.merkleRoot(BlockHashes(s.l2, EndOf(p, s, |s.committed|) + 1, c.end))
    ensures ProcessCommitment(p, s, current, found, c).0
         == Commit(s, current, found, EndOf(p, s, |s.committed|) + 1, c)
  {
    hide LatestMark, Linked, BlockHashes, Commit, StorePending;
    var n := |s.committed|;
    assert c.index !in s.committed && (n >= 1 ==> n < c.index);
    if c.index > 1 {
      assert c.index - 1 in s.committed;
    }
    assert c.index == n + 1;
  }

  lemma IndicesExtend(committed: map<nat, Commitment>, extended: map<nat, Commitment>, c: Commitment)
    requires forall i :: i in committed <==> 1 <= i <= |committed|
    requires c.index == |committed| + 1 && extended == committed[c.index := c]
    ensures |extended| == c.index
    ensures forall i :: i in extended <==> 1 <= i <= c.index
  {
    assert c.index !in committed;
  }

  lemma NewLink(p: Params, s: Ledger, t: Ledger, c: Commitment)
    requires forall i :: i in s.committed <==> 1 <= i <= |s.committed|
    requires c.index == |s.committed| + 1 && EndOf(p, s, |s.committed|) < c.end <= |s.l2|
    requires c.root == p.merkleRoot(BlockHashes(s.l2, EndOf(p, s, |s.committed|) + 1, c.end))
    requires t.l2 == s.l2 && t.committed == s.committed[c.index := c]
    ensures Linked(p, t, c.index)
  {
  }

  lemma CommitKeepsChain(p: Params, s: Ledger, t: Ledger, c: Commitment)
    requires Chained(p, s) && c.index == |s.committed| + 1
    requires EndOf(p, s, |s.committed|) < c.end <= |s.l2|
    requires c.root == p.merkleRoot(BlockHashes(s.l2, EndOf(p, s, |s.committed|) + 1, c.end))
    requires t.l2 == s.l2 && t.committed == s.committed[c.index := c]
    ensures Chained(p, t) && |t.committed| == c.index
  {
    hide Linked;
    IndicesExtend(s.committed, t.committed, c);
    NewLink(p, s, t, c);
    forall i | i in t.committed
      ensures Linked(p, t, i)
    {
      if i != c.index {
        LinkedGrows(p, s, t, i);
      }
    }
  }

  lemma CommitKeepsMarks(p: Params, s: Ledger, t: Ledger, top: nat, current: nat, c: Commitment)
    requires Chained(p, s) && MarksAgree(s, top) && top <= current
    requires c.index == |s.committed| + 1 && EndOf(p, s, |s.committed|) < c.end
    requires t.committed == s.committed[c.index := c] && Chained(p, t) && |t.committed| == c.index
    requires t.committedAt == s.committedAt[current := Mark(c.end, c.index)] && t.provenAt == s.provenAt
    ensures MarksAgree(t, current) && NotAbove(CommittedMark(s), CommittedMark(t))
  {
    hide Ordered, Backed, LatestMark, Linked;
    var m := Mark(c.end, c.index);
    TipIsHigher(p, s, c);
    OrderedLater(s.committedAt, top, current);
    OrderedLater(s.provenAt, top, current);
    LatestAfterWrite(s.committedAt, current, m);
    WriteKeepsOrder(s.committedAt, current, m);
    WriteKeepsBacking(s, t, current, m);
  }

  lemma TipIsHigher(p: Params, s: Ledger, c: Commitment)
    requires Chained(p, s) && LatestMark(s.committedAt) == TipMark(s.committed)
    requires c.index == |s.committed| + 1 && EndOf(p, s, |s.committed|) < c.end
    ensures NotAbove(CommittedMark(s), Mark(c.end, c.index))
  {
    hide LatestMark, Linked;
  }

  lemma OrderedLater(marks: map<nat, Mark>, top: nat, current: nat)
    requires Ordered(marks, top) && top <= current
    ensures Ordered(marks, current) && forall a :: a in marks ==> a <= current
  {
  }

  lemma SameChain(p: Params, s: Ledger, t: Ledger)
    requires Chained(p, s) && s.l2 <= t.l2 && t.committed == s.committed
    ensures Chained(p, t)
  {
    forall i | i in t.committed
      ensures Linked(p, t, i)
    {
      assert Linked(p, s, i);
      LinkedGrows(p, s, t, i);
    }
  }

  /** Steps that touch neither commitments, marks nor accepted proofs. */
  lemma QuietStep(p: Params, s: Ledger, t: Ledger, top: nat, current: nat)
    requires Inv(p, s, top) && top <= current && s.l2 <= t.l2
    requires t.committed == s.committed && t.verified == s.verified
    requires t.committedAt == s.committedAt && t.provenAt == s.provenAt
    requires PendingSound(p, t)
    ensures Inv(p, t, current) && Grows(s, t)
  {
    hide Chained, ProofsJustified, LatestMark, TipMark, Backed;
    SameChain(p, s, t);
    ProofsStay(p, s, t);
  }

  lemma StandStill(p: Params, s: Ledger, top: nat, current: nat)
    requires Inv(p, s, top) && top <= current
    ensures Inv(p, s, current) && Grows(s, s)
  {
    hide Chained, ProofsJustified, LatestMark;
  }

  lemma CommitmentCases(p: Params, s: Ledger, current: nat, found: nat, c: Commitment)
    ensures var (t, outcome) := ProcessCommitment(p, s, current, found, c);
      || outcome == Success
      || t == s
      || (c.index >= 1 && outcome == Pending && t == StorePending(s, c, found))
  {
  }

  lemma CommitmentKeepsInv(p: Params, s: Ledger, top: nat, current: nat, found: nat, c: Commitment)
    requires Inv(p, s, top) && top <= current
    ensures var t := ProcessCommitment(p, s, current, found, c).0;
      Inv(p, t, current) && Grows(s, t)
  {
    hide Chained, ProofsJustified, Grows, ProcessCommitment;
    var (t, outcome) := ProcessCommitment(p, s, current, found, c);
    CommitmentCases(p, s, current, found, c);
    if outcome == Success {
      CommitIsNext(p, s, current, found, c);
      CommittedKeepsInv(p, s, t, top, current, c);
    } else {
      QuietStep(p, s, t, top, current);
    }
  }

  lemma CommittedKeepsInv(p: Params, s: Ledger, t: Ledger, top: nat, current: nat, c: Commitment)
    requires Inv(p, s, top) && top <= current
    requires c.index == |s.committed| + 1 && EndOf(p, s, |s.committed|) < c.end <= |s.l2|
    requires c.root == p.merkleRoot(BlockHashes(s.l2, EndOf(p, s, |s.committed|) + 1, c.end))
    requires t.l2 == s.l2 && t.committed == s.committed[c.index := c]
    requires t.committedAt == s.committedAt[current := Mark(c.end, c.index)] && t.provenAt == s.provenAt
    requires t.verified == s.verified && t.pending == s.pending && t.pendingProofs == s.pendingProofs
    ensures Inv(p, t, current) && Grows(s, t)
  {
    hide Chained, MarksAgree, ProofsJustified;
    CommitKeepsChain(p, s, t, c);
    CommitKeepsMarks(p, s, t, top, current, c);
    ProofsStay(p, s, t);
  }

  // ----- proofs

  lemma {:induction false} HashesChecked(p: Params, s: Ledger, i: nat, last: nat, hashes: seq<Hash>, awaited: bool)
    requires CheckHashes(p, s, i, last, hashes, awaited) == Some(false)
    ensures !awaited
    ensures forall j :: i <= j <= last && j < i + |hashes| ==>
      j in s.committed && p.commitmentHash(s.committed[j]) == hashes[j - i]
    decreases |hashes|
  {
    if i > last || hashes == [] {
    } else {
      HashesChecked(p, s, i + 1, last, hashes[1..], awaited || CheckHash(p, s, i, hashes[0]).Awaited?);
    }
  }

  /** Everything checked on the way to acceptance. */
  lemma PassedChecks(p: Params, s: Ledger, current: nat, found: nat, proof: Proof)
    requires ProcessProof(p, s, current, found, proof).1 == Success
    ensures proof.verifies && proof.output.Some?
    ensures var o := proof.output.value;
      && (o.prevIndex.Some? ==> o.prevHash.Some?)
      && o.first <= ProvenMark(s).index + 1 <= o.last
      && var prev := CheckPredecessor(p, s, o);
      && (prev.Known? || prev.Awaited?)
      && CheckHashes(p, s, o.first, o.last, o.hashes, prev.Awaited?) == Some(false)
      && StateRoot(p, s, prev.end) == Some(o.initialRoot)
      && ProcessProof(p, s, current, found, proof).0 == AcceptProof(s, current, found, proof, o)
  {
    hide CheckHashes, CheckPredecessor, StateRoot, MarkAbove, LatestMark, AcceptProof, StorePendingProof;
  }

  /** An accepted proof covers the gap right after the proven index, and ends at a committed one. */
  lemma AcceptedProof(p: Params, s: Ledger, current: nat, found: nat, proof: Proof)
    requires SoundProof(p, proof)
    requires ProcessProof(p, s, current, found, proof).1 == Success
    ensures Justified(p, s, proof)
    ensures var o := proof.output.value;
      && o.first <= ProvenMark(s).index + 1 <= o.last
      && o.last in s.committed && o.lastL2Height == s.committed[o.last].end
      && ProcessProof(p, s, current, found, proof).0 == AcceptProof(s, current, found, proof, o)
  {
    hide ProcessProof, LatestMark, AcceptProof, CheckHashes;
    PassedChecks(p, s, current, found, proof);
    var o := proof.output.value;
    HashesChecked(p, s, o.first, o.last, o.hashes, CheckPredecessor(p, s, o).Awaited?);
    assert p.commitmentHash(s.committed[o.last]) == o.hashes[o.last - o.first];
  }

  lemma AcceptKeepsProofs(p: Params, s: Ledger, t: Ledger, found: nat, proof: Proof)
    requires Chained(p, s) && ProofsJustified(p, s) && Justified(p, s, proof)
    requires t.l2 == s.l2 && t.committed == s.committed
    requires found in t.verified
    requires t.verified == s.verified[found := t.verified[found]]
    requires t.verified[found] == (if found in s.verified then s.verified[found] else []) + [proof]
    requires proof.output.value.first <= ProvenMark(s).index + 1
    requires ProvenMark(t).index == proof.output.value.last
    ensures ProofsJustified(p, t)
  {
    forall l1, k | l1 in t.verified && 0 <= k < |t.verified[l1]|
      ensures Justified(p, t, t.verified[l1][k])
    {
      var pf := t.verified[l1][k];
      assert pf == proof || (l1 in s.verified && k < |s.verified[l1]| && pf == s.verified[l1][k]);
      JustifiedGrows(p, s, t, pf);
    }
    forall i | 1 <= i <= ProvenMark(t).index
      ensures Covered(t.verified, i)
    {
      if i <= ProvenMark(s).index {
        assert Covered(s.verified, i);
        var l1, k :| l1 in s.verified && 0 <= k < |s.verified[l1]| && Covers(s.verified[l1][k], i);
        assert t.verified[l1][k] == s.verified[l1][k];
      } else {
        var k := |t.verified[found]| - 1;
        assert Covers(t.verified[found][k], i);
      }
    }
  }

  lemma ProvenWriteIsBacked(s: Ledger, t: Ledger, current: nat, m: Mark)
    requires LatestMark(s.committedAt).Some? && NotAbove(m, CommittedMark(s))
    requires forall k :: k in s.committedAt ==> k <= current
    requires forall k :: k in s.provenAt ==> Backed(s.committedAt, k, s.provenAt[k])
    requires t.committedAt == s.committedAt && t.provenAt == s.provenAt[current := m]
    ensures forall k :: k in t.provenAt ==> Backed(t.committedAt, k, t.provenAt[k])
  {
    LatestIsEntry(s.committedAt);
    forall k | k in t.provenAt
      ensures Backed(t.committedAt, k, t.provenAt[k])
    {
      if k != current {
        assert Backed(s.committedAt, k, s.provenAt[k]);
      }
    }
  }

  lemma AcceptKeepsMarks(p: Params, s: Ledger, t: Ledger, top: nat, current: nat, i: nat)
    requires Chained(p, s) && MarksAgree(s, top) && top <= current
    requires i in s.committed && ProvenMark(s).index < i
    requires t.committed == s.committed && t.committedAt == s.committedAt
    requires t.provenAt == s.provenAt[current := Mark(s.committed[i].end, i)]
    ensures MarksAgree(t, current) && ProvenMark(t) == Mark(s.committed[i].end, i)
    ensures NotAbove(ProvenMark(s), ProvenMark(t))
  {
    var m := Mark(s.committed[i].end, i);
    EndsAscend(p, s, i, |s.committed|);
    if LatestMark(s.provenAt).Some? {
      EndsAscend(p, s, ProvenMark(s).index, i);
    }
    LatestAfterWrite(s.provenAt, current, m);
    WriteKeepsOrder(s.provenAt, current, m);
    ProvenWriteIsBacked(s, t, current, m);
  }

  lemma AcceptedKeepsInv(p: Params, s: Ledger, t: Ledger, top: nat, current: nat, found: nat, proof: Proof)
    requires Inv(p, s, top) && top <= current && Justified(p, s, proof)
    requires var o := proof.output.value;
      && o.first <= ProvenMark(s).index + 1 <= o.last
      && o.last in s.committed && o.lastL2Height == s.committed[o.last].end
      && t == AcceptProof(s, current, found, proof, o)
    ensures Inv(p, t, current) && Grows(s, t)
  {
    hide Chained, MarksAgree, ProofsJustified;
    AcceptKeepsMarks(p, s, t, top, current, proof.output.value.last);
    AcceptKeepsProofs(p, s, t, found, proof);
    SameChain(p, s, t);
  }

  lemma ProofCases(p: Params, s: Ledger, current: nat, found: nat, proof: Proof)
    ensures var (t, outcome) := ProcessProof(p, s, current, found, proof);
      || (proof.output.Some? && outcome == Success && t == AcceptProof(s, current, found, proof, proof.output.value))
      || t == s
      || (proof.output.Some? && outcome == Pending && t == StorePendingProof(s, proof.output.value, proof, found))
  {
  }

  lemma ProofKeepsInv(p: Params, s: Ledger, top: nat, current: nat, found: nat, proof: Proof)
    requires Inv(p, s, top) && top <= current && SoundProof(p, proof)
    ensures var t := ProcessProof(p, s, current, found, proof).0;
      Inv(p, t, current) && Grows(s, t)
  {
    hide Chained, MarksAgree, ProofsJustified, Grows, ProcessProof, Justified;
    var (t, outcome) := ProcessProof(p, s, current, found, proof);
    ProofCases(p, s, current, found, proof);
    if outcome == Success {
      AcceptedProof(p, s, current, found, proof);
      AcceptedKeepsInv(p, s, t, top, current, found, proof);
    } else {
      QuietStep(p, s, t, top, current);
    }
  }

  /** The abort on a proven mark above the committed mark cannot happen. */
  lemma ProvenWithinCommitted(p: Params, s: Ledger, top: nat)
    requires Inv(p, s, top)
    ensures NotAbove(ProvenMark(s), CommittedMark(s))
    ensures !MarkAbove(ProvenMark(s), CommittedMark(s))
  {
    if LatestMark(s.provenAt).Some? {
      EndsAscend(p, s, ProvenMark(s).index, |s.committed|);
    }
  }
}
