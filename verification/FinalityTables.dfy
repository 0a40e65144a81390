/**
 The tables kept beside the commitment chain: L2 ranges by Merkle root, commitments and proofs by the L1
 block they were found in. After every run they say what the chain says, and name where things came from.
 */
module FinalityTables {
  import opened Orders
  import opened FinalityLedger
  import opened FinalityInvariant
  import opened FinalityRuns

  ghost predicate ListedAt(bySlot: map<nat, seq<Commitment>>, l1: nat, c: Commitment) {
    l1 in bySlot && c in bySlot[l1]
  }

  ghost predicate Listed(bySlot: map<nat, seq<Commitment>>, c: Commitment) {
    exists l1 :: ListedAt(bySlot, l1, c)
  }

  /** `range` is that of a committed commitment with this root. */
  ghost predicate IsRangeOf(p: Params, committed: map<nat, Commitment>, root: Hash, range: (nat, nat)) {
    exists i :: i in committed && IsRange(p, committed, i, root, range)
  }

  ghost predicate IsRange(p: Params, committed: map<nat, Commitment>, i: nat, root: Hash, range: (nat, nat))
    requires i in committed
  {
    && (i == 1 || (i > 1 && i - 1 in committed))
    && committed[i].root == root
    && range == (if i == 1 then p.start else committed[i - 1].end + 1, committed[i].end)
  }

  ghost predicate RangesAgree(p: Params, committed: map<nat, Commitment>, rangeOfRoot: map<Hash, (nat, nat)>) {
    && (forall i :: i in committed ==> committed[i].root in rangeOfRoot)
    && (forall r :: r in rangeOfRoot ==> IsRangeOf(p, committed, r, rangeOfRoot[r]))
  }

  ghost predicate ListsAgree(committed: map<nat, Commitment>, bySlot: map<nat, seq<Commitment>>) {
    forall c :: Listed(bySlot, c) <==> Holds(committed, c)
  }

  /** Ranges are recorded for exactly the committed roots, and exactly the committed commitments are listed. */
  ghost predicate TablesAgree(p: Params, committed: map<nat, Commitment>, rangeOfRoot: map<Hash, (nat, nat)>,
                              bySlot: map<nat, seq<Commitment>>)
  {
    RangesAgree(p, committed, rangeOfRoot) && ListsAgree(committed, bySlot)
  }

  /** Whatever is recorded under an L1 height was delivered at that height. */
  ghost predicate Delivered(s: Ledger, events: seq<Event>) {
    && (forall l1, c :: ListedAt(s.bySlot, l1, c) ==> Deliver(l1, c) in events)
    && (forall i :: i in s.pending ==> Deliver(s.pending[i].1, s.pending[i].0) in events)
    && (forall l1, proof :: l1 in s.verified && proof in s.verified[l1] ==> DeliverProof(l1, proof) in events)
    && (forall k :: k in s.pendingProofs ==> DeliverProof(s.pendingProofs[k].1, s.pendingProofs[k].0) in events)
    && (forall h :: h in s.l1Heights ==> SeeL1(h, s.l1Heights[h]) in events)
  }

  lemma OnSlotLists(bySlot: map<nat, seq<Commitment>>, found: nat, c: Commitment)
    ensures forall l1, d :: ListedAt(OnSlot(bySlot, found, c), l1, d) <==>
      ListedAt(bySlot, l1, d) || (l1 == found && d == c)
    ensures forall d :: Listed(OnSlot(bySlot, found, c), d) <==> Listed(bySlot, d) || d == c
  {
    var after := OnSlot(bySlot, found, c);
    assert ListedAt(after, found, c);
    forall d
      ensures Listed(after, d) <==> Listed(bySlot, d) || d == c
    {
      if Listed(bySlot, d) {
        var l1 :| ListedAt(bySlot, l1, d);
        assert ListedAt(after, l1, d);
      }
      if Listed(after, d) {
        var l1 :| ListedAt(after, l1, d);
        assert ListedAt(bySlot, l1, d) || d == c;
      }
    }
  }

  lemma OldRangeStays(p: Params, committed: map<nat, Commitment>, c: Commitment, root: Hash, range: (nat, nat))
    requires c.index !in committed && IsRangeOf(p, committed, root, range)
    ensures IsRangeOf(p, committed[c.index := c], root, range)
  {
    var i :| i in committed && IsRange(p, committed, i, root, range);
    assert IsRange(p, committed[c.index := c], i, root, range);
  }

  /** `start` is where commitment `c` begins when it comes next. */
  ghost predicate Next(p: Params, committed: map<nat, Commitment>, start: nat, c: Commitment) {
    && c.index !in committed
    && (c.index == 1 || (c.index > 1 && c.index - 1 in committed))
    && start == (if c.index == 1 then p.start else committed[c.index - 1].end + 1)
  }

  lemma NewRange(p: Params, committed: map<nat, Commitment>, start: nat, c: Commitment)
    requires Next(p, committed, start, c)
    ensures IsRangeOf(p, committed[c.index := c], c.root, (start, c.end))
  {
    assert IsRange(p, committed[c.index := c], c.index, c.root, (start, c.end));
  }

  lemma RangesExtend(p: Params, committed: map<nat, Commitment>, rangeOfRoot: map<Hash, (nat, nat)>, start: nat,
                     c: Commitment)
    requires RangesAgree(p, committed, rangeOfRoot) && Next(p, committed, start, c)
    ensures RangesAgree(p, committed[c.index := c], rangeOfRoot[c.root := (start, c.end)])
  {
    hide IsRangeOf;
    NewRange(p, committed, start, c);
    forall r | r in rangeOfRoot
      ensures IsRangeOf(p, committed[c.index := c], r, rangeOfRoot[r])
    {
      OldRangeStays(p, committed, c, r, rangeOfRoot[r]);
    }
  }

  lemma ListsExtend(committed: map<nat, Commitment>, bySlot: map<nat, seq<Commitment>>, found: nat, c: Commitment)
    requires ListsAgree(committed, bySlot) && c.index !in committed
    ensures ListsAgree(committed[c.index := c], OnSlot(bySlot, found, c))
  {
    hide OnSlot, Listed;
    OnSlotLists(bySlot, found, c);
  }

  /** Both halves, kept together along a run. */
  ghost predicate Kept(p: Params, s: Ledger, events: seq<Event>) {
    TablesAgree(p, s.committed, s.rangeOfRoot, s.bySlot) && Delivered(s, events)
  }

  lemma CommitmentKeepsTables(p: Params, s: Ledger, top: nat, current: nat, found: nat, c: Commitment,
                              events: seq<Event>)
    requires Inv(p, s, top) && Kept(p, s, events) && Deliver(found, c) in events
    ensures Kept(p, ProcessCommitment(p, s, current, found, c).0, events)
  {
    hide ProcessCommitment, RangesAgree, ListsAgree, Inv, OnSlot, ListedAt, Next;
    var (t, outcome) := ProcessCommitment(p, s, current, found, c);
    CommitmentCases(p, s, current, found, c);
    if outcome == Success {
      var start := NextIndex(p, s, top, current, found, c);
      RangesExtend(p, s.committed, s.rangeOfRoot, start, c);
      ListsExtend(s.committed, s.bySlot, found, c);
      OnSlotLists(s.bySlot, found, c);
    }
  }

  lemma NextIndex(p: Params, s: Ledger, top: nat, current: nat, found: nat, c: Commitment) returns (start: nat)
    requires Inv(p, s, top) && ProcessCommitment(p, s, current, found, c).1 == Success
    ensures Next(p, s.committed, start, c) && c.index !in s.committed
    ensures ProcessCommitment(p, s, current, found, c).0 == Commit(s, current, found, start, c)
  {
    hide ProcessCommitment, LatestMark, Linked, Commit, ProofsJustified, PendingSound, Ordered, Backed, BlockHashes;
    CommitIsNext(p, s, current, found, c);
    start := EndOf(p, s, |s.committed|) + 1;
  }

  lemma ProofKeepsTables(p: Params, s: Ledger, current: nat, found: nat, proof: Proof, events: seq<Event>)
    requires Kept(p, s, events) && DeliverProof(found, proof) in events
    ensures Kept(p, ProcessProof(p, s, current, found, proof).0, events)
  {
    hide ProcessProof, TablesAgree;
    ProofCases(p, s, current, found, proof);
  }

  lemma DropKeepsTables(p: Params, s: Ledger, events: seq<Event>, i: nat, k: (nat, nat))
    requires Kept(p, s, events)
    ensures Kept(p, DropPending(s, i), events) && Kept(p, DropPendingProof(s, k), events)
  {
    hide TablesAgree, ListedAt;
  }

  lemma {:induction false} DrainKeepsTables(p: Params, s: Ledger, top: nat, current: nat, keys: seq<nat>,
                                            snapshot: map<nat, (Commitment, nat)>, events: seq<Event>)
    requires Inv(p, s, top) && top <= current && Kept(p, s, events)
    requires forall k :: k in keys ==> k in snapshot && Deliver(snapshot[k].1, snapshot[k].0) in events
    ensures Kept(p, DrainFrom(p, s, current, keys, snapshot).0, events)
    decreases |keys|
  {
    hide Inv, Kept, RetryCommitment, ProcessCommitment;
    if keys == [] {
    } else {
      var item := snapshot[keys[0]];
      var t := ProcessCommitment(p, s, current, item.1, item.0).0;
      var (u, next) := RetryCommitment(p, s, current, keys[0], item);
      CommitmentKeepsTables(p, s, top, current, item.1, item.0, events);
      RetryShape(p, s, current, keys[0], item);
      DropKeepsTables(p, t, events, keys[0], (0, 0));
      RetryKeepsInv(p, s, top, current, keys[0], item);
      if next.Continue? {
        DrainKeepsTables(p, u, current, current, keys[1..], snapshot, events);
      }
    }
  }

  lemma {:induction false} DrainProofsKeepsTables(p: Params, s: Ledger, current: nat, keys: seq<(nat, nat)>,
                                                  snapshot: map<(nat, nat), (Proof, nat)>, events: seq<Event>)
    requires Kept(p, s, events)
    requires forall k :: k in keys ==> k in snapshot && DeliverProof(snapshot[k].1, snapshot[k].0) in events
    ensures Kept(p, DrainProofsFrom(p, s, current, keys, snapshot).0, events)
    decreases |keys|
  {
    hide Kept, RetryProof, ProcessProof;
    if keys == [] {
    } else {
      var item := snapshot[keys[0]];
      var t := ProcessProof(p, s, current, item.1, item.0).0;
      var (u, next) := RetryProof(p, s, current, keys[0], item);
      ProofKeepsTables(p, s, current, item.1, item.0, events);
      RetryProofShape(p, s, current, keys[0], item);
      DropKeepsTables(p, t, events, 0, keys[0]);
      if next.Continue? {
        DrainProofsKeepsTables(p, u, current, keys[1..], snapshot, events);
      }
    }
  }

  lemma StepKeepsTables(p: Params, s: Ledger, top: nat, e: Event, events: seq<Event>)
    requires Inv(p, s, top) && HeightAfter(e, top) >= top && Kept(p, s, events) && e in events
    ensures Kept(p, Step(p, s, e).0, events)
  {
    hide Inv, TablesAgree, ProcessCommitment, ProcessProof, DrainFrom, DrainProofsFrom;
    match e
    case Deliver(l1, c) =>
      if c.index != 0 {
        CommitmentKeepsTables(p, s, top, l1, l1, c, events);
      }
    case DeliverProof(l1, proof) => ProofKeepsTables(p, s, l1, l1, proof, events);
    case RetryCommitments(l1) =>
      DrainKeepsTables(p, s, top, l1, AscendingNats(s.pending.Keys), s.pending, events);
    case RetryProofs(l1) =>
      DrainProofsKeepsTables(p, s, l1, AscendingPairs(s.pendingProofs.Keys), s.pendingProofs, events);
    case _ =>
  }

  lemma {:induction false} RunKeepsTables(p: Params, s: Ledger, top: nat, events: seq<Event>, all: seq<Event>)
    requires Inv(p, s, top) && Legal(p, events, top) && Kept(p, s, all)
    requires forall e :: e in events ==> e in all
    ensures Kept(p, Run(p, s, events), all)
    decreases |events|
  {
    hide Inv, Kept, Step;
    if events == [] {
    } else {
      assert events[0] in events;
      StepKeepsInv(p, s, top, events[0]);
      StepKeepsTables(p, s, top, events[0], all);
      RunKeepsTables(p, Step(p, s, events[0]).0, HeightAfter(events[0], top), events[1..], all);
    }
  }

  /** After every run: a Merkle root maps to the range of a committed commitment with that root, and every
      committed one has its root mapped; exactly the committed commitments are listed by L1 block; and what
      is listed, pending or accepted under an L1 height was delivered there, and an L1 hash is mapped to its height. */
  lemma TablesOfRun(p: Params, events: seq<Event>)
    requires Legal(p, events, 0)
    ensures var s := Run(p, EMPTY_LEDGER, events);
      TablesAgree(p, s.committed, s.rangeOfRoot, s.bySlot) && Delivered(s, events)
  {
    EmptyInv(p);
    RunKeepsTables(p, EMPTY_LEDGER, 0, events, events);
  }

  /** In a run whose proofs name a predecessor together with its hash, as the circuit does, no proof event
      ever aborts the node. */
  lemma ProofEventsNeverAbort(p: Params, events: seq<Event>, e: Event)
    requires Legal(p, events + [e], 0) && (e.DeliverProof? || e.RetryProofs?)
    requires forall d :: d in events + [e] && d.DeliverProof? ==> !LacksPrevHash(d.proof)
    ensures Step(p, Run(p, EMPTY_LEDGER, events), e).1 != Panicked
  {
    hide Run, Step, LacksPrevHash;
    LegalSplits(p, events, [e], 0);
    TablesOfRun(p, events);
    if Step(p, Run(p, EMPTY_LEDGER, events), e).1 == Panicked {
      ProofEventAborts(p, events, e);
    }
  }
}
