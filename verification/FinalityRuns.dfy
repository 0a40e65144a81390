/**
 Whole runs of the full node: L2 blocks arrive, L1 blocks deliver commitments and proofs in any
 order, and pending items are retried. The theorems hold of every such run from an empty ledger.
 */
module FinalityRuns {
  import opened Wrappers
  import opened Orders
  import opened FinalityLedger
  import opened FinalityInvariant

  datatype Event =
    | SyncL2(block: L2Block)
    | SeeL1(hash: Hash, l1: nat)
    | Deliver(l1: nat, commitment: Commitment)
    | DeliverProof(l1: nat, proof: Proof)
    | RetryCommitments(l1: nat)
    | RetryProofs(l1: nat)
    | FinishScan(l1: nat)

  function Step(p: Params, s: Ledger, e: Event): (Ledger, Outcome) {
    match e
    case SyncL2(b) => (s.(l2 := s.l2 + [b]), Success)
    case SeeL1(h, l1) => (s.(l1Heights := s.l1Heights[h := l1]), Success)
    case Deliver(l1, c) => if c.index == 0 then (s, Discarded) else ProcessCommitment(p, s, l1, l1, c)
    case DeliverProof(l1, proof) => ProcessProof(p, s, l1, l1, proof)
    case RetryCommitments(l1) => DrainCommitments(p, s, l1)
    case RetryProofs(l1) => DrainProofs(p, s, l1)
    case FinishScan(l1) => (s.(lastScanned := Some(l1)), Success)
  }

  function Run(p: Params, s: Ledger, events: seq<Event>): Ledger
    decreases |events|
  {
    if events == [] then s else Run(p, Step(p, s, events[0]).0, events[1..])
  }

  /** L1 height reached once `e` has been handled. */
  function HeightAfter(e: Event, top: nat): nat {
    if e.SyncL2? then top else e.l1
  }

  function TopAfter(events: seq<Event>, top: nat): nat
    decreases |events|
  {
    if events == [] then top else TopAfter(events[1..], HeightAfter(events[0], top))
  }

  /** L1 blocks are processed at heights that never go down, and every proof that verifies has a
      well-formed output. */
  ghost predicate Legal(p: Params, events: seq<Event>, top: nat)
    decreases |events|
  {
    events != [] ==>
      && HeightAfter(events[0], top) >= top
      && (events[0].DeliverProof? ==> SoundProof(p, events[0].proof))
      && Legal(p, events[1..], HeightAfter(events[0], top))
  }

  // ----- every step keeps the invariant

  lemma GrowsTransitive(s: Ledger, t: Ledger, u: Ledger)
    requires Grows(s, t) && Grows(t, u)
    ensures Grows(s, u)
  {
    forall l1 | l1 in s.verified
      ensures l1 in u.verified && s.verified[l1] <= u.verified[l1]
    {
      assert l1 in t.verified && s.verified[l1] <= t.verified[l1];
    }
  }

  /** Removing a settled item from a pending table keeps the invariant. */
  lemma DropKeepsInv(p: Params, s: Ledger, t: Ledger, top: nat, i: nat)
    requires Inv(p, t, top) && Grows(s, t)
    ensures Inv(p, DropPending(t, i), top) && Grows(s, DropPending(t, i))
  {
    hide Chained, MarksAgree, ProofsJustified, Grows;
    QuietStep(p, t, DropPending(t, i), top, top);
    GrowsTransitive(s, t, DropPending(t, i));
  }

  lemma DropProofKeepsInv(p: Params, s: Ledger, t: Ledger, top: nat, k: (nat, nat))
    requires Inv(p, t, top) && Grows(s, t)
    ensures Inv(p, DropPendingProof(t, k), top) && Grows(s, DropPendingProof(t, k))
  {
    hide Chained, MarksAgree, ProofsJustified, Grows;
    QuietStep(p, t, DropPendingProof(t, k), top, top);
    GrowsTransitive(s, t, DropPendingProof(t, k));
  }

  lemma RetryShape(p: Params, s: Ledger, current: nat, i: nat, item: (Commitment, nat))
    ensures var t := ProcessCommitment(p, s, current, item.1, item.0).0;
      var u := RetryCommitment(p, s, current, i, item).0;
      u == s || u == t || u == DropPending(t, i)
  {
  }

  lemma RetryKeepsInv(p: Params, s: Ledger, top: nat, current: nat, i: nat, item: (Commitment, nat))
    requires Inv(p, s, top) && top <= current
    ensures var t := RetryCommitment(p, s, current, i, item).0;
      Inv(p, t, current) && Grows(s, t)
  {
    hide Grows, ProcessCommitment, RetryCommitment, Inv;
    var t := ProcessCommitment(p, s, current, item.1, item.0).0;
    RetryShape(p, s, current, i, item);
    StandStill(p, s, top, current);
    CommitmentKeepsInv(p, s, top, current, item.1, item.0);
    DropKeepsInv(p, s, t, current, i);
  }

  lemma {:induction false} DrainKeepsInv(p: Params, s: Ledger, top: nat, current: nat, keys: seq<nat>,
                                         snapshot: map<nat, (Commitment, nat)>)
    requires Inv(p, s, top) && top <= current
    requires forall k :: k in keys ==> k in snapshot
    ensures var t := DrainFrom(p, s, current, keys, snapshot).0;
      Inv(p, t, current) && Grows(s, t)
    decreases |keys|
  {
    hide Inv, Grows, RetryCommitment;
    if keys == [] {
      StandStill(p, s, top, current);
    } else {
      var (t, next) := RetryCommitment(p, s, current, keys[0], snapshot[keys[0]]);
      RetryKeepsInv(p, s, top, current, keys[0], snapshot[keys[0]]);
      if next.Continue? {
        DrainKeepsInv(p, t, current, current, keys[1..], snapshot);
        GrowsTransitive(s, t, DrainFrom(p, t, current, keys[1..], snapshot).0);
      }
    }
  }

  lemma RetryProofShape(p: Params, s: Ledger, current: nat, key: (nat, nat), item: (Proof, nat))
    ensures var t := ProcessProof(p, s, current, item.1, item.0).0;
      var u := RetryProof(p, s, current, key, item).0;
      u == t || u == DropPendingProof(t, key)
  {
  }

  lemma RetryProofKeepsInv(p: Params, s: Ledger, top: nat, current: nat, key: (nat, nat), item: (Proof, nat))
    requires Inv(p, s, top) && top <= current && SoundProof(p, item.0)
    ensures var t := RetryProof(p, s, current, key, item).0;
      Inv(p, t, current) && Grows(s, t)
  {
    hide Grows, ProcessProof, RetryProof, Inv;
    var t := ProcessProof(p, s, current, item.1, item.0).0;
    ProofKeepsInv(p, s, top, current, item.1, item.0);
    RetryProofShape(p, s, current, key, item);
    DropProofKeepsInv(p, s, t, current, key);
  }

  lemma {:induction false} DrainProofsKeepsInv(p: Params, s: Ledger, top: nat, current: nat, keys: seq<(nat, nat)>,
                                               snapshot: map<(nat, nat), (Proof, nat)>)
    requires Inv(p, s, top) && top <= current
    requires forall k :: k in keys ==> k in snapshot && SoundProof(p, snapshot[k].0)
    ensures var t := DrainProofsFrom(p, s, current, keys, snapshot).0;
      Inv(p, t, current) && Grows(s, t)
    decreases |keys|
  {
    hide Inv, Grows, RetryProof;
    if keys == [] {
      StandStill(p, s, top, current);
    } else {
      var (t, next) := RetryProof(p, s, current, keys[0], snapshot[keys[0]]);
      RetryProofKeepsInv(p, s, top, current, keys[0], snapshot[keys[0]]);
      if next.Continue? {
        DrainProofsKeepsInv(p, t, current, current, keys[1..], snapshot);
        GrowsTransitive(s, t, DrainProofsFrom(p, t, current, keys[1..], snapshot).0);
      }
    }
  }

  lemma StepKeepsInv(p: Params, s: Ledger, top: nat, e: Event)
    requires Inv(p, s, top) && HeightAfter(e, top) >= top
    requires e.DeliverProof? ==> SoundProof(p, e.proof)
    ensures var t := Step(p, s, e).0;
      Inv(p, t, HeightAfter(e, top)) && Grows(s, t)
  {
    hide Grows, ProcessCommitment, ProcessProof, Chained, MarksAgree, ProofsJustified;
    match e
    case Deliver(l1, c) =>
      if c.index == 0 {
        StandStill(p, s, top, l1);
      } else {
        CommitmentKeepsInv(p, s, top, l1, l1, c);
      }
    case DeliverProof(l1, proof) => ProofKeepsInv(p, s, top, l1, l1, proof);
    case RetryCommitments(l1) =>
      DrainKeepsInv(p, s, top, l1, AscendingNats(s.pending.Keys), s.pending);
    case RetryProofs(l1) =>
      DrainProofsKeepsInv(p, s, top, l1, AscendingPairs(s.pendingProofs.Keys), s.pendingProofs);
    case _ => QuietStep(p, s, Step(p, s, e).0, top, HeightAfter(e, top));
  }

  lemma {:induction false} RunKeepsInv(p: Params, s: Ledger, top: nat, events: seq<Event>)
    requires Inv(p, s, top) && Legal(p, events, top)
    ensures Inv(p, Run(p, s, events), TopAfter(events, top))
    ensures Grows(s, Run(p, s, events))
    decreases |events|
  {
    hide Inv, Grows, Step;
    if events == [] {
      StandStill(p, s, top, top);
    } else {
      var t := Step(p, s, events[0]).0;
      StepKeepsInv(p, s, top, events[0]);
      RunKeepsInv(p, t, HeightAfter(events[0], top), events[1..]);
      GrowsTransitive(s, t, Run(p, t, events[1..]));
    }
  }

  lemma EmptyInv(p: Params)
    ensures Inv(p, EMPTY_LEDGER, 0)
  {
  }

  // ----- what holds of every run

  /** The L2 height `h` belongs to the range of commitment `i`. */
  ghost predicate InRange(p: Params, s: Ledger, i: nat, h: nat) {
    && i in s.committed && (i == 1 || i - 1 in s.committed) && i >= 1
    && EndOf(p, s, i - 1) + 1 <= h <= s.committed[i].end
  }

  ghost predicate HasRange(p: Params, s: Ledger, h: nat) {
    exists i :: InRange(p, s, i, h)
  }

  lemma {:induction false} RangeExists(p: Params, s: Ledger, n: nat, h: nat)
    requires Chained(p, s) && n <= |s.committed| && p.start <= h <= EndOf(p, s, n)
    ensures HasRange(p, s, h)
    decreases n
  {
    assert n in s.committed && Linked(p, s, n);
    if h <= EndOf(p, s, n - 1) {
      RangeExists(p, s, n - 1, h);
    } else {
      assert InRange(p, s, n, h);
    }
  }

  lemma RangeUnique(p: Params, s: Ledger, i: nat, j: nat, h: nat)
    requires Chained(p, s) && InRange(p, s, i, h) && InRange(p, s, j, h)
    ensures i == j
  {
    if i < j {
      EndsAscend(p, s, i, j - 1);
    } else if j < i {
      EndsAscend(p, s, j, i - 1);
    }
  }

  lemma RangeWithin(p: Params, s: Ledger, i: nat, h: nat)
    requires Chained(p, s) && InRange(p, s, i, h)
    ensures p.start <= h <= EndOf(p, s, |s.committed|)
  {
    EndsAscend(p, s, i, |s.committed|);
    EndsAscend(p, s, 0, i - 1);
  }

  /** The ranges of the commitments partition the L2 heights from the Tangerine start to the last end. */
  ghost predicate Tiled(p: Params, s: Ledger)
    requires Chained(p, s)
  {
    && (forall h: nat :: p.start <= h <= EndOf(p, s, |s.committed|) <==> HasRange(p, s, h))
    && (forall i, j, h :: InRange(p, s, i, h) && InRange(p, s, j, h) ==> i == j)
  }

  lemma ChainTiles(p: Params, s: Ledger)
    requires Chained(p, s)
    ensures Tiled(p, s)
  {
    forall h: nat
      ensures p.start <= h <= EndOf(p, s, |s.committed|) <==> HasRange(p, s, h)
    {
      if p.start <= h <= EndOf(p, s, |s.committed|) {
        RangeExists(p, s, |s.committed|, h);
      }
      if HasRange(p, s, h) {
        var i :| InRange(p, s, i, h);
        RangeWithin(p, s, i, h);
      }
    }
    forall i, j, h | InRange(p, s, i, h) && InRange(p, s, j, h)
      ensures i == j
    {
      RangeUnique(p, s, i, j, h);
    }
  }

  /** Committed indices are exactly 1..n; their non-empty ranges tile the L2 heights without gap or
      overlap; every root is the Merkle root of the L2 blocks in its range. */
  lemma CommittedChainOfRun(p: Params, events: seq<Event>)
    requires Legal(p, events, 0)
    ensures var s := Run(p, EMPTY_LEDGER, events);
      Chained(p, s) && Tiled(p, s)
  {
    EmptyInv(p);
    RunKeepsInv(p, EMPTY_LEDGER, 0, events);
    ChainTiles(p, Run(p, EMPTY_LEDGER, events));
  }

  lemma {:induction false} RunSplits(p: Params, s: Ledger, first: seq<Event>, more: seq<Event>)
    ensures Run(p, s, first + more) == Run(p, Run(p, s, first), more)
    decreases |first|
  {
    if first == [] {
      assert first + more == more;
    } else {
      assert (first + more)[1..] == first[1..] + more;
      RunSplits(p, Step(p, s, first[0]).0, first[1..], more);
    }
  }

  lemma {:induction false} LegalSplits(p: Params, first: seq<Event>, more: seq<Event>, top: nat)
    requires Legal(p, first + more, top)
    ensures Legal(p, first, top) && Legal(p, more, TopAfter(first, top))
    decreases |first|
  {
    if first == [] {
      assert first + more == more;
    } else {
      assert (first + more)[1..] == first[1..] + more;
      LegalSplits(p, first[1..], more, HeightAfter(first[0], top));
    }
  }

  lemma {:induction false} LegalJoins(p: Params, first: seq<Event>, more: seq<Event>, top: nat)
    requires Legal(p, first, top) && Legal(p, more, TopAfter(first, top))
    ensures Legal(p, first + more, top) && TopAfter(first + more, top) == TopAfter(more, TopAfter(first, top))
    decreases |first|
  {
    if first == [] {
      assert first + more == more;
    } else {
      assert (first + more)[1..] == first[1..] + more;
      LegalJoins(p, first[1..], more, HeightAfter(first[0], top));
    }
  }

  /** Between any two points of a run, commitments are kept as they are, accepted proofs stay, and
      neither the committed nor the proven mark goes down. */
  lemma RunOnlyGrows(p: Params, first: seq<Event>, more: seq<Event>)
    requires Legal(p, first + more, 0)
    ensures Grows(Run(p, EMPTY_LEDGER, first), Run(p, EMPTY_LEDGER, first + more))
  {
    EmptyInv(p);
    LegalSplits(p, first, more, 0);
    RunSplits(p, EMPTY_LEDGER, first, more);
    RunKeepsInv(p, EMPTY_LEDGER, 0, first);
    RunKeepsInv(p, Run(p, EMPTY_LEDGER, first), TopAfter(first, 0), more);
  }

  /** The output names the commitment before its range but not that commitment's hash. */
  predicate LacksPrevHash(proof: Proof) {
    proof.output.Some? && proof.output.value.prevIndex.Some? && proof.output.value.prevHash.None?
  }

  /** Proven never passes committed, neither in height nor in index, and a proof step can only abort
      on an output that names a predecessor without its hash. */
  lemma ProvenNeverPassesCommitted(p: Params, events: seq<Event>, current: nat, found: nat, proof: Proof)
    requires Legal(p, events, 0)
    ensures var s := Run(p, EMPTY_LEDGER, events);
      && NotAbove(ProvenMark(s), CommittedMark(s))
      && (ProcessProof(p, s, current, found, proof).1 == Panicked ==> LacksPrevHash(proof))
  {
    hide Inv, Run, Legal, ProcessProof, NotAbove, ProvenMark, CommittedMark;
    EmptyInv(p);
    RunKeepsInv(p, EMPTY_LEDGER, 0, events);
    ProvenWithinCommitted(p, Run(p, EMPTY_LEDGER, events), TopAfter(events, 0));
    ProofAborts(p, Run(p, EMPTY_LEDGER, events), TopAfter(events, 0), current, found, proof);
  }

  // ----- aborts

  lemma ProofAborts(p: Params, s: Ledger, top: nat, current: nat, found: nat, proof: Proof)
    requires Inv(p, s, top)
    ensures ProcessProof(p, s, current, found, proof).1 == Panicked ==> LacksPrevHash(proof)
  {
    hide Inv;
    ProvenWithinCommitted(p, s, top);
  }

  lemma RetryProofAborts(p: Params, s: Ledger, current: nat, key: (nat, nat), item: (Proof, nat))
    ensures RetryProof(p, s, current, key, item).1 == Stop(Panicked) ==>
      ProcessProof(p, s, current, item.1, item.0).1 == Panicked
  {
  }

  /** Neither does any ledger inside a retry pass let the status comparison abort it. */
  lemma {:induction false} DrainProofsAborts(p: Params, s: Ledger, top: nat, current: nat, keys: seq<(nat, nat)>,
                                             snapshot: map<(nat, nat), (Proof, nat)>)
    requires Inv(p, s, top) && top <= current
    requires forall k :: k in keys ==> k in snapshot && SoundProof(p, snapshot[k].0)
    ensures DrainProofsFrom(p, s, current, keys, snapshot).1 == Panicked ==>
      exists k :: k in keys && LacksPrevHash(snapshot[k].0)
    decreases |keys|
  {
    hide Inv, RetryProof, ProcessProof, LacksPrevHash;
    if keys == [] {
    } else {
      var item := snapshot[keys[0]];
      var (t, next) := RetryProof(p, s, current, keys[0], item);
      ProofAborts(p, s, top, current, item.1, item.0);
      RetryProofAborts(p, s, current, keys[0], item);
      RetryProofKeepsInv(p, s, top, current, keys[0], item);
      if next.Continue? {
        DrainProofsAborts(p, t, current, current, keys[1..], snapshot);
      }
    }
  }

  /** Whether a proof is delivered or retried, in any run: the node aborts only on the output of that proof,
      or of one that is pending, that names a predecessor without its hash. So it never aborts because proven
      is above committed. */
  lemma ProofEventAborts(p: Params, events: seq<Event>, e: Event)
    requires Legal(p, events + [e], 0) && (e.DeliverProof? || e.RetryProofs?)
    requires Step(p, Run(p, EMPTY_LEDGER, events), e).1 == Panicked
    ensures e.DeliverProof? ==> LacksPrevHash(e.proof)
    ensures e.RetryProofs? ==>
      var pending := Run(p, EMPTY_LEDGER, events).pendingProofs;
      exists k :: k in pending && LacksPrevHash(pending[k].0)
  {
    hide Run, ProcessProof, DrainProofsFrom, LacksPrevHash;
    EmptyInv(p);
    LegalSplits(p, events, [e], 0);
    RunKeepsInv(p, EMPTY_LEDGER, 0, events);
    var s, top := Run(p, EMPTY_LEDGER, events), TopAfter(events, 0);
    if e.DeliverProof? {
      ProofAborts(p, s, top, e.l1, e.l1, e.proof);
    } else {
      DrainProofsAborts(p, s, top, e.l1, AscendingPairs(s.pendingProofs.Keys), s.pendingProofs);
    }
  }

  /** Every commitment up to the proven index lies in the range of an accepted proof, and every
      accepted proof matches the committed commitments it ranges over. */
  lemma ProvenIndicesAreCovered(p: Params, events: seq<Event>)
    requires Legal(p, events, 0)
    ensures var s := Run(p, EMPTY_LEDGER, events);
      && (forall i :: 1 <= i <= ProvenMark(s).index ==> Covered(s.verified, i))
      && (forall l1, k :: l1 in s.verified && 0 <= k < |s.verified[l1]| ==> Justified(p, s, s.verified[l1][k]))
  {
    EmptyInv(p);
    RunKeepsInv(p, EMPTY_LEDGER, 0, events);
  }

  lemma MarksAsOfOrdered(marks: map<nat, Mark>, top: nat, a: nat, b: nat)
    requires Ordered(marks, top) && a <= b
    ensures NotAbove(OrZero(MarkAsOf(marks, Some(a))), OrZero(MarkAsOf(marks, Some(b))))
  {
    assert KeysUpTo(marks, Some(a)) <= KeysUpTo(marks, Some(b));
    if KeysUpTo(marks, Some(a)) != {} {
      var k := Last(KeysUpTo(marks, Some(a)));
      assert k in KeysUpTo(marks, Some(b));
    }
  }

  lemma AsOfProvenWithinCommitted(p: Params, s: Ledger, top: nat, h: nat)
    requires Inv(p, s, top)
    ensures NotAbove(OrZero(MarkAsOf(s.provenAt, Some(h))), OrZero(MarkAsOf(s.committedAt, Some(h))))
  {
    if KeysUpTo(s.provenAt, Some(h)) != {} {
      var k := Last(KeysUpTo(s.provenAt, Some(h)));
      assert Backed(s.committedAt, k, s.provenAt[k]);
      var b :| b in s.committedAt && b <= k && NotAbove(s.provenAt[k], s.committedAt[b]);
      assert b in KeysUpTo(s.committedAt, Some(h));
    }
  }

  /** The marks reported for past L1 heights tell the same story: as of any L1 height proven is within
      committed, and a later height never reports a lower mark. */
  lemma PastMarksAgree(p: Params, events: seq<Event>, a: nat, b: nat)
    requires Legal(p, events, 0) && a <= b
    ensures var s := Run(p, EMPTY_LEDGER, events);
      && NotAbove(OrZero(MarkAsOf(s.provenAt, Some(a))), OrZero(MarkAsOf(s.committedAt, Some(a))))
      && NotAbove(OrZero(MarkAsOf(s.committedAt, Some(a))), OrZero(MarkAsOf(s.committedAt, Some(b))))
      && NotAbove(OrZero(MarkAsOf(s.provenAt, Some(a))), OrZero(MarkAsOf(s.provenAt, Some(b))))
  {
    EmptyInv(p);
    RunKeepsInv(p, EMPTY_LEDGER, 0, events);
    var s := Run(p, EMPTY_LEDGER, events);
    AsOfProvenWithinCommitted(p, s, TopAfter(events, 0), a);
    MarksAsOfOrdered(s.committedAt, TopAfter(events, 0), a, b);
    MarksAsOfOrdered(s.provenAt, TopAfter(events, 0), a, b);
  }
}
