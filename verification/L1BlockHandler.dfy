/**
 The handler itself: it updates the ledger tables in place, one L1 block at a time, and every such
 block is a legal piece of a run.
 */
module L1BlockHandling {
  import opened Wrappers
  import opened Orders
  import opened FinalityLedger
  import opened FinalityInvariant
  import opened FinalityRuns
  import opened FinalityTables
  import opened FinalityDrain
  import opened L1BlockEvents

  lemma RunOne(p: Params, s: Ledger, events: seq<Event>, e: Event)
    ensures Run(p, s, events + [e]) == Step(p, Run(p, s, events), e).0
  {
    RunSplits(p, s, events, [e]);
  }

  /** Everything the theorems about runs say of a ledger: the committed chain tiles the L2 heights, proven is
      within committed, accepted proofs cover every proven index and match the chain, and the tables beside
      the chain agree with it. */
  ghost predicate Consistent(p: Params, s: Ledger) {
    && Chained(p, s) && Tiled(p, s)
    && NotAbove(ProvenMark(s), CommittedMark(s))
    && (forall i :: 1 <= i <= ProvenMark(s).index ==> Covered(s.verified, i))
    && (forall l1, k :: l1 in s.verified && 0 <= k < |s.verified[l1]| ==> Justified(p, s, s.verified[l1][k]))
    && TablesAgree(p, s.committed, s.rangeOfRoot, s.bySlot)
  }

  lemma RunIsConsistent(p: Params, events: seq<Event>)
    requires Legal(p, events, 0)
    ensures Consistent(p, Run(p, EMPTY_LEDGER, events))
  {
    hide Run, Legal, Chained, Tiled, Covered, Justified, TablesAgree, ProvenMark, CommittedMark;
    CommittedChainOfRun(p, events);
    ProvenNeverPassesCommitted(p, events, 0, 0, Proof(0, None, false));
    ProvenIndicesAreCovered(p, events);
    TablesOfRun(p, events);
  }

  // ----- one turn of each loop

  lemma DrainTurn(p: Params, s: Ledger, current: nat, keys: seq<nat>, snapshot: map<nat, (Commitment, nat)>, k: nat)
    requires k < |keys| && forall i :: i in keys ==> i in snapshot
    ensures var (t, next) := RetryCommitment(p, s, current, keys[k], snapshot[keys[k]]);
      DrainFrom(p, s, current, keys[k..], snapshot)
      == if next.Stop? then (t, next.result) else DrainFrom(p, t, current, keys[k + 1..], snapshot)
  {
    hide RetryCommitment;
    assert keys[k..][0] == keys[k] && keys[k..][1..] == keys[k + 1..];
  }

  lemma DrainProofsTurn(p: Params, s: Ledger, current: nat, keys: seq<(nat, nat)>,
                        snapshot: map<(nat, nat), (Proof, nat)>, k: nat)
    requires k < |keys| && forall i :: i in keys ==> i in snapshot
    ensures var (t, next) := RetryProof(p, s, current, keys[k], snapshot[keys[k]]);
      DrainProofsFrom(p, s, current, keys[k..], snapshot)
      == if next.Stop? then (t, next.result) else DrainProofsFrom(p, t, current, keys[k + 1..], snapshot)
  {
    hide RetryProof;
    assert keys[k..][0] == keys[k] && keys[k..][1..] == keys[k + 1..];
  }

  /** With `done` behind and `queue` ahead, the events and what is left of the queue come out as `all`. */
  ghost predicate OnQueue(p: Params, all: (seq<Event>, seq<L1Block>, Outcome), done: seq<Event>, s: Ledger,
                          queue: seq<L1Block>)
  {
    var (events, left, result) := QueueEvents(p, s, queue);
    all == (done + events, left, result)
  }

  lemma QueueStart(p: Params, s: Ledger, queue: seq<L1Block>)
    ensures OnQueue(p, QueueEvents(p, s, queue), [], s, queue)
  {
    hide QueueEvents;
    assert [] + QueueEvents(p, s, queue).0 == QueueEvents(p, s, queue).0;
  }

  lemma QueueTurn(p: Params, all: (seq<Event>, seq<L1Block>, Outcome), done: seq<Event>, s: Ledger,
                  queue: seq<L1Block>)
    requires queue != [] && OnQueue(p, all, done, s, queue)
    ensures var (events, result) := BlockEvents(p, s, queue[0]);
      if result == Success then OnQueue(p, all, done + events, Run(p, s, events), queue[1..])
      else all == (done + events, queue, result)
  {
    hide BlockEvents, Run;
    var (events, result) := BlockEvents(p, s, queue[0]);
    var more := QueueEvents(p, Run(p, s, events), queue[1..]).0;
    assert done + (events + more) == done + events + more;
  }

  lemma QueueEnd(p: Params, all: (seq<Event>, seq<L1Block>, Outcome), done: seq<Event>, s: Ledger)
    requires OnQueue(p, all, done, s, [])
    ensures all == (done, [], Success)
  {
    assert done + [] == done;
  }

  lemma RunStaysInvariant(p: Params, events: seq<Event>)
    requires Legal(p, events, 0)
    ensures Inv(p, Run(p, EMPTY_LEDGER, events), TopAfter(events, 0))
  {
    hide Inv, Run, Legal;
    EmptyInv(p);
    RunKeepsInv(p, EMPTY_LEDGER, 0, events);
  }

  lemma HaltsOnMismatch(p: Params, s: Ledger, current: nat, found: nat, c: Commitment)
    ensures Ready(p, s) && c.index >= 1 ==>
      (ProcessCommitment(p, s, current, found, c).1 == Halted <==> Mismatched(p, s, c))
  {
    hide Ready, ProcessCommitment, Mismatched;
    if Ready(p, s) && c.index >= 1 {
      CommitmentHaltsIff(p, s, current, found, c);
    }
  }

  class L1BlockHandler {
    const p: Params
    var l2: seq<L2Block>
    var l1Heights: map<Hash, nat>
    var committed: map<nat, Commitment>
    var pending: map<nat, (Commitment, nat)>
    var pendingProofs: map<(nat, nat), (Proof, nat)>
    var bySlot: map<nat, seq<Commitment>>
    var rangeOfRoot: map<Hash, (nat, nat)>
    var verified: map<nat, seq<Proof>>
    var committedAt: map<nat, Mark>
    var provenAt: map<nat, Mark>
    var lastScanned: Option<nat>
    var queue: seq<L1Block>
    /** Everything this handler has been through. */
    ghost var trace: seq<Event>

    ghost function View(): Ledger
      reads this
    {
      Ledger(l2, l1Heights, committed, pending, pendingProofs, bySlot, rangeOfRoot, verified,
             committedAt, provenAt, lastScanned)
    }

    /** The tables are what the run recorded so far leads to. */
    ghost predicate Traced()
      reads this
    {
      View() == Run(p, EMPTY_LEDGER, trace)
    }

    ghost function Top(): nat
      reads this
    {
      TopAfter(trace, 0)
    }

    /** The run is a legal one, and the blocks queued will keep it so. */
    ghost predicate Valid()
      reads this
    {
      Traced() && Legal(p, trace, 0) && InOrder(p, queue, Top())
    }

    /** All theorems about runs hold of the tables of a handler. */
    lemma ValidIsConsistent()
      requires Valid()
      ensures Consistent(p, View())
    {
      hide Consistent, Run, Legal;
      RunIsConsistent(p, trace);
    }

    constructor (params: Params)
      ensures Valid() && p == params && View() == EMPTY_LEDGER && queue == [] && trace == []
    {
      p := params;
      l2, l1Heights, committed, pending, pendingProofs := [], map[], map[], map[], map[];
      bySlot, rangeOfRoot, verified, committedAt, provenAt := map[], map[], map[], map[], map[];
      lastScanned, queue, trace := None, [], [];
    }

    method StorePendingCommitment(c: Commitment, found: nat)
      modifies this`pending
      ensures View() == StorePending(old(View()), c, found)
    {
      pending := pending[c.index := (c, found)];
    }

    /** The four writes of an accepted commitment. */
    method RecordCommitment(current: nat, found: nat, start: nat, c: Commitment)
      modifies this`bySlot, this`rangeOfRoot, this`committed, this`committedAt
      ensures View() == Commit(old(View()), current, found, start, c)
    {
      if found in bySlot {
        if c !in bySlot[found] {
          bySlot := bySlot[found := bySlot[found] + [c]];
        }
      } else {
        bySlot := bySlot[found := [c]];
      }
      rangeOfRoot := rangeOfRoot[c.root := (start, c.end)];
      committed := committed[c.index := c];
      committedAt := committedAt[current := Mark(c.end, c.index)];
    }

    method ProcessSequencerCommitment(current: nat, found: nat, c: Commitment) returns (outcome: Outcome)
      modifies this`pending, this`bySlot, this`rangeOfRoot, this`committed, this`committedAt
      ensures (View(), outcome) == ProcessCommitment(p, old(View()), current, found, c)
      ensures Ready(p, old(View())) && c.index >= 1 ==> (outcome == Halted <==> Mismatched(p, old(View()), c))
    {
      HaltsOnMismatch(p, View(), current, found, c);
      hide LatestMark, Commit, StorePending, Ready, Mismatched;
      if c.index in committed {
        return Discarded;
      }
      var mark := LatestMark(committedAt);
      if mark.Some? {
        if c.end <= mark.value.height {
          return Discarded;
        }
        if c.index <= mark.value.index {
          return Discarded;
        }
      }
      if c.index == 0 {
        return Panicked;
      }
      var start: Height := p.start;
      if c.index != 1 {
        if c.index - 1 in committed {
          start := committed[c.index - 1].end + 1;
        } else {
          StorePendingCommitment(c, found);
          return Pending;
        }
      }
      if c.end > |l2| {
        if c.index !in pending {
          StorePendingCommitment(c, found);
        }
        return Pending;
      }
      if c.end + 1 < start {
        return Panicked;
      }
      var hashes := BlockHashes(l2, start, c.end);
      if hashes == [] {
        return Failed;
      }
      if p.merkleRoot(hashes) != c.root {
        return Halted;
      }
      RecordCommitment(current, found, start, c);
      return Success;
    }

    /** Looks up one commitment by index and compares hashes; raises `pendingIn` when it is only pending. */
    method VerifyCommitmentHash(i: nat, expected: Hash, pendingIn: bool) returns (check: HashCheck, isPending: bool)
      ensures check == CheckHash(p, View(), i, expected)
      ensures isPending == (pendingIn || (i !in committed && i in pending))
    {
      isPending := pendingIn;
      var c: Commitment;
      if i in committed {
        c := committed[i];
      } else if i in pending {
        isPending := true;
        c := pending[i].0;
      } else {
        return Unknown, isPending;
      }
      if p.commitmentHash(c) != expected {
        return Mismatch, isPending;
      }
      check := if i in committed then Known(c.end) else Awaited(c.end);
    }

    /** Checks the hashes of the proof's index range, stopping at the first unknown or differing one. */
    method VerifyCommitmentHashes(o: ProofOutput, pendingIn: bool) returns (ok: bool, isPending: bool)
      ensures CheckHashes(p, View(), o.first, o.last, o.hashes, pendingIn) == if ok then Some(isPending) else None
    {
      isPending := pendingIn;
      var k := 0;
      assert o.hashes[0..] == o.hashes;
      while k < |o.hashes| && o.first + k <= o.last
        invariant 0 <= k <= |o.hashes|
        invariant CheckHashes(p, View(), o.first + k, o.last, o.hashes[k..], isPending)
               == CheckHashes(p, View(), o.first, o.last, o.hashes, pendingIn)
      {
        var check;
        assert o.hashes[k..][0] == o.hashes[k] && o.hashes[k..][1..] == o.hashes[k + 1..];
        check, isPending := VerifyCommitmentHash(o.first + k, o.hashes[k], isPending);
        if check.Unknown? || check.Mismatch? {
          return false, isPending;
        }
        k := k + 1;
      }
      ok := true;
    }

    method StorePendingZkProof(o: ProofOutput, proof: Proof, found: nat)
      modifies this`pendingProofs
      ensures View() == StorePendingProof(old(View()), o, proof, found)
    {
      pendingProofs := pendingProofs[(o.first, o.last) := (proof, found)];
    }

    /** The two writes of an accepted proof. */
    method RecordProof(current: nat, found: nat, proof: Proof, o: ProofOutput)
      modifies this`verified, this`provenAt
      ensures View() == AcceptProof(old(View()), current, found, proof, o)
    {
      verified := verified[found := (if found in verified then verified[found] else []) + [proof]];
      provenAt := provenAt[current := Mark(o.lastL2Height, o.last)];
    }

    method ProcessTangerineProof(current: nat, found: nat, proof: Proof, o: ProofOutput) returns (outcome: Outcome)
      modifies this`pendingProofs, this`verified, this`provenAt
      ensures (View(), outcome) == ProcessVerifiedProof(p, old(View()), current, found, proof, o)
    {
      hide LatestMark, CheckHashes, MarkAbove, AcceptProof, StorePendingProof;
      if o.lastL1Hash !in l1Heights {
        return Skipped;
      }
      var proven := OrZero(LatestMark(provenAt));
      if o.lastL2Height <= proven.height || o.last <= proven.index {
        return Discarded;
      }
      if MarkAbove(proven, OrZero(LatestMark(committedAt))) {
        return Panicked;
      }
      var isPending := false;
      var prevEnd := p.start - 1;
      if o.prevIndex.Some? {
        if o.prevHash.None? {
          return Panicked;
        }
        var check;
        check, isPending := VerifyCommitmentHash(o.prevIndex.value, o.prevHash.value, isPending);
        if check.Unknown? || check.Mismatch? {
          return Skipped;
        }
        prevEnd := check.end;
      }
      var ok;
      ok, isPending := VerifyCommitmentHashes(o, isPending);
      if !ok {
        return Skipped;
      }
      if isPending {
        StorePendingZkProof(o, proof, found);
        return Pending;
      }
      if prevEnd > |l2| {
        return Failed;
      }
      var root := if prevEnd == 0 then p.genesisRoot else l2[prevEnd - 1].stateRoot;
      if root != o.initialRoot {
        return Skipped;
      }
      if o.first > proven.index + 1 {
        StorePendingZkProof(o, proof, found);
        return Pending;
      }
      RecordProof(current, found, proof, o);
      return Success;
    }

    method ProcessZkProof(current: nat, found: nat, proof: Proof) returns (outcome: Outcome)
      modifies this`pendingProofs, this`verified, this`provenAt
      ensures (View(), outcome) == ProcessProof(p, old(View()), current, found, proof)
    {
      if proof.output.None? {
        return Discarded;
      }
      if !proof.verifies {
        return Discarded;
      }
      outcome := ProcessTangerineProof(current, found, proof, proof.output.value);
    }

    method RetryPendingCommitment(current: nat, i: nat, item: (Commitment, nat)) returns (next: Progress)
      modifies this`pending, this`bySlot, this`rangeOfRoot, this`committed, this`committedAt
      ensures (View(), next) == RetryCommitment(p, old(View()), current, i, item)
    {
      if i == 0 {
        return Stop(Panicked);
      }
      var processable := if i == 1 then item.0.end <= |l2| else i - 1 in committed;
      if !processable {
        return Stop(Success);
      }
      var outcome := ProcessSequencerCommitment(current, item.1, item.0);
      match outcome {
        case Success => pending := pending - {i};
        case Discarded => pending := pending - {i};
        case Pending =>
        case Halted => return Stop(Halted);
        case Panicked => return Stop(Panicked);
        case _ => return Stop(Success);
      }
      return Continue;
    }

    /** Retries pending commitments in ascending index order, over a snapshot of the table. */
    method ProcessPendingCommitments(current: nat) returns (outcome: Outcome)
      modifies this`pending, this`bySlot, this`rangeOfRoot, this`committed, this`committedAt
      ensures (View(), outcome) == DrainCommitments(p, old(View()), current)
    {
      var snapshot := pending;
      var keys := AscendingNats(snapshot.Keys);
      assert keys[0..] == keys && forall s: Ledger :: DrainFrom(p, s, current, [], snapshot) == (s, Success);
      hide RetryCommitment, DrainFrom;
      var k := 0;
      while k < |keys|
        invariant 0 <= k <= |keys|
        invariant forall i :: i in keys ==> i in snapshot
        invariant DrainFrom(p, View(), current, keys[k..], snapshot) == DrainCommitments(p, old(View()), current)
      {
        DrainTurn(p, View(), current, keys, snapshot, k);
        var next := RetryPendingCommitment(current, keys[k], snapshot[keys[k]]);
        if next.Stop? {
          return next.result;
        }
        k := k + 1;
      }
      return Success;
    }

    method RetryPendingProof(current: nat, key: (nat, nat), item: (Proof, nat)) returns (next: Progress)
      modifies this`pendingProofs, this`verified, this`provenAt
      ensures (View(), next) == RetryProof(p, old(View()), current, key, item)
    {
      var outcome := ProcessZkProof(current, item.1, item.0);
      match outcome {
        case Success => pendingProofs := pendingProofs - {key};
        case Discarded => pendingProofs := pendingProofs - {key};
        case Panicked => return Stop(Panicked);
        case _ => return Stop(Success);
      }
      return Continue;
    }

    /** Retries pending proofs in ascending range order, over a snapshot of the table. */
    method ProcessPendingProofs(current: nat) returns (outcome: Outcome)
      modifies this`pendingProofs, this`verified, this`provenAt
      ensures (View(), outcome) == DrainProofs(p, old(View()), current)
    {
      var snapshot := pendingProofs;
      var keys := AscendingPairs(snapshot.Keys);
      assert keys[0..] == keys && forall s: Ledger :: DrainProofsFrom(p, s, current, [], snapshot) == (s, Success);
      hide RetryProof, DrainProofsFrom;
      var k := 0;
      while k < |keys|
        invariant 0 <= k <= |keys|
        invariant forall i :: i in keys ==> i in snapshot
        invariant DrainProofsFrom(p, View(), current, keys[k..], snapshot) == DrainProofs(p, old(View()), current)
      {
        DrainProofsTurn(p, View(), current, keys, snapshot, k);
        var next := RetryPendingProof(current, keys[k], snapshot[keys[k]]);
        if next.Stop? {
          return next.result;
        }
        k := k + 1;
      }
      return Success;
    }

    /** One item of an L1 block; commitments with index 0 are skipped. */
    method ProcessItem(l1: nat, item: Item) returns (next: Progress)
      requires Traced()
      modifies this
      ensures Traced() && trace == old(trace) + [ItemEvent(l1, item)] && queue == old(queue)
      ensures View() == Step(p, old(View()), ItemEvent(l1, item)).0
      ensures next == Reaction(item, Step(p, old(View()), ItemEvent(l1, item)).1)
    {
      hide Run, ProcessProof, ProcessCommitment;
      RunOne(p, EMPTY_LEDGER, trace, ItemEvent(l1, item));
      trace := trace + [ItemEvent(l1, item)];
      var outcome;
      match item {
        case CommitmentItem(c) =>
          if c.index == 0 {
            return Continue;
          }
          outcome := ProcessSequencerCommitment(l1, l1, c);
          if outcome == Halted {
            return Stop(Halted);
          }
          if outcome == Failed || outcome == Skipped || outcome == Panicked {
            return Stop(Panicked);
          }
        case ProofItem(proof) =>
          outcome := ProcessZkProof(l1, l1, proof);
          if outcome == Panicked {
            return Stop(Panicked);
          }
      }
      return Continue;
    }

    method ProcessItems(l1: nat, items: seq<Item>) returns (outcome: Outcome)
      requires Traced()
      modifies this
      ensures Traced() && queue == old(queue)
      ensures trace == old(trace) + ItemEvents(p, old(View()), l1, items).0
      ensures outcome == ItemEvents(p, old(View()), l1, items).1
    {
      hide Run, Step;
      var k := 0;
      assert items[0..] == items;
      while k < |items|
        invariant 0 <= k <= |items| && Traced() && queue == old(queue)
        invariant trace + ItemEvents(p, View(), l1, items[k..]).0
               == old(trace) + ItemEvents(p, old(View()), l1, items).0
        invariant ItemEvents(p, View(), l1, items[k..]).1 == ItemEvents(p, old(View()), l1, items).1
      {
        assert items[k..][0] == items[k] && items[k..][1..] == items[k + 1..];
        var next := ProcessItem(l1, items[k]);
        if next.Stop? {
          return next.result;
        }
        k := k + 1;
      }
      return Success;
    }

    method RetryCommitmentsStep(l1: nat) returns (outcome: Outcome)
      requires Traced()
      modifies this
      ensures Traced() && queue == old(queue) && trace == old(trace) + [RetryCommitments(l1)]
      ensures (View(), outcome) == DrainCommitments(p, old(View()), l1)
    {
      RunOne(p, EMPTY_LEDGER, trace, RetryCommitments(l1));
      outcome := ProcessPendingCommitments(l1);
      trace := trace + [RetryCommitments(l1)];
    }

    method RetryProofsStep(l1: nat) returns (outcome: Outcome)
      requires Traced()
      modifies this
      ensures Traced() && queue == old(queue) && trace == old(trace) + [RetryProofs(l1)]
      ensures outcome == DrainProofs(p, old(View()), l1).1
    {
      RunOne(p, EMPTY_LEDGER, trace, RetryProofs(l1));
      outcome := ProcessPendingProofs(l1);
      trace := trace + [RetryProofs(l1)];
    }

    method FinishScanStep(l1: nat)
      requires Traced()
      modifies this
      ensures Traced() && queue == old(queue) && trace == old(trace) + [FinishScan(l1)]
      ensures lastScanned == Some(l1)
    {
      RunOne(p, EMPTY_LEDGER, trace, FinishScan(l1));
      lastScanned := Some(l1);
      trace := trace + [FinishScan(l1)];
    }

    method RetryAll(l1: nat) returns (outcome: Outcome)
      requires Traced()
      modifies this
      ensures Traced() && queue == old(queue)
      ensures trace == old(trace) + Cut(p, old(View()), AfterItems(l1)).0
      ensures outcome == Cut(p, old(View()), AfterItems(l1)).1
    {
      RetriesAreCut(p, View(), l1);
      hide DrainCommitments, DrainProofs, Run, Cut, AfterItems;
      outcome := RetryCommitmentsStep(l1);
      if outcome == Success {
        outcome := RetryProofsStep(l1);
        if outcome == Success {
          FinishScanStep(l1);
        }
      }
    }

    method SeeBlock(b: L1Block)
      requires Traced()
      modifies this
      ensures Traced() && queue == old(queue) && trace == old(trace) + [SeeL1(b.hash, b.height)]
      ensures View() == Step(p, old(View()), SeeL1(b.hash, b.height)).0
    {
      RunOne(p, EMPTY_LEDGER, trace, SeeL1(b.hash, b.height));
      l1Heights := l1Heights[b.hash := b.height];
      trace := trace + [SeeL1(b.hash, b.height)];
    }

    /** Processes one L1 block: the recorded run grows by everything there is to do for it, up to the first event
        that halts or aborts the node. */
    method ProcessL1Block(b: L1Block) returns (outcome: Outcome)
      requires Traced()
      modifies this
      ensures Traced() && queue == old(queue)
      ensures trace == old(trace) + BlockEvents(p, old(View()), b).0
      ensures outcome == BlockEvents(p, old(View()), b).1
      ensures BlockEvents(p, old(View()), b) == Cut(p, old(View()), WholeBlock(b))
    {
      BlockIsCut(p, View(), b);
      hide Run, Step, ItemEvents, RetryEvents, Cut, WholeBlock;
      ghost var s0 := View();
      ghost var t0 := trace;
      SeeBlock(b);
      ghost var see := SeeL1(b.hash, b.height);
      ghost var items := ItemEvents(p, View(), b.height, b.items).0;
      outcome := ProcessItems(b.height, b.items);
      assert trace == t0 + ([see] + items);
      RunSplits(p, EMPTY_LEDGER, t0, [see] + items);
      assert View() == Run(p, s0, [see] + items);
      if outcome == Success {
        ghost var retries := RetryEvents(p, View(), b.height).0;
        RetriesAreCut(p, View(), b.height);
        outcome := RetryAll(b.height);
        assert trace == t0 + ([see] + items + retries);
      }
    }

    /** An L2 block has been synced. */
    method SyncL2Block(b: L2Block)
      requires Valid()
      modifies this
      ensures Valid() && queue == old(queue) && trace == old(trace) + [SyncL2(b)]
      ensures l2 == old(l2) + [b]
    {
      RunOne(p, EMPTY_LEDGER, trace, SyncL2(b));
      LegalJoins(p, trace, [SyncL2(b)], 0);
      hide Run, Legal, InOrder;
      l2 := l2 + [b];
      trace := trace + [SyncL2(b)];
    }

    /** An L1 block has arrived, not below the one before it. */
    method QueueBlock(b: L1Block)
      requires Valid() && SoundItems(p, b) && LastHeight(queue, Top()) <= b.height
      modifies this`queue
      ensures Valid() && queue == old(queue) + [b]
    {
      hide Run, Legal;
      InOrderExtends(p, queue, Top(), b);
      queue := queue + [b];
    }

    /** Processes the block at the front of the queue and takes it off once it has finished. */
    method ProcessFront() returns (outcome: Outcome)
      requires Valid() && queue != []
      modifies this
      ensures Valid()
      ensures trace == old(trace) + BlockEvents(p, old(View()), old(queue[0])).0
      ensures View() == Run(p, old(View()), BlockEvents(p, old(View()), old(queue[0])).0)
      ensures outcome == BlockEvents(p, old(View()), old(queue[0])).1
      ensures queue == if outcome == Success then old(queue)[1..] else old(queue)
    {
      hide Run, BlockEvents, Legal;
      ghost var events := BlockEvents(p, View(), queue[0]).0;
      BlockEventsLegal(p, View(), queue[0], Top());
      LegalJoins(p, trace, events, 0);
      RunSplits(p, EMPTY_LEDGER, trace, events);
      outcome := ProcessL1Block(queue[0]);
      if outcome == Success {
        queue := queue[1..];
      }
    }

    /** Takes blocks off the queue until it is empty or a block does not finish. */
    method WorkOffQueue() returns (outcome: Outcome)
      requires Valid()
      modifies this
      ensures Valid()
      ensures trace == old(trace) + QueueEvents(p, old(View()), old(queue)).0
      ensures queue == QueueEvents(p, old(View()), old(queue)).1
      ensures outcome == QueueEvents(p, old(View()), old(queue)).2
    {
      hide BlockEvents, Run, Legal, InOrder, QueueEvents, OnQueue;
      ghost var done: seq<Event> := [];
      ghost var all := QueueEvents(p, View(), queue);
      QueueStart(p, View(), queue);
      outcome := Success;
      while queue != []
        invariant Valid() && outcome == Success
        invariant trace == old(trace) + done && OnQueue(p, all, done, View(), queue)
        decreases |queue|
      {
        QueueTurn(p, all, done, View(), queue);
        ghost var events := BlockEvents(p, View(), queue[0]).0;
        outcome := ProcessFront();
        done := done + events;
        if outcome != Success {
          return;
        }
      }
      QueueEnd(p, all, done, View());
    }

    /** Works off the queue: everything there is to do for one block after the other, up to the first event that
        halts or aborts the node; the blocks from that one on stay queued. Whatever the blocks hold and however
        it ends, the tables are consistent, and nothing committed or proven before is lost. When it ends well,
        nothing pending is left that could be committed or proven, and a history that has been brought in full
        is committed, and proven as far as its proofs leave no gap. */
    method ProcessQueuedBlocks() returns (outcome: Outcome)
      requires Valid()
      modifies this
      ensures Valid() && Consistent(p, View()) && Grows(old(View()), View())
      ensures trace == old(trace) + Cut(p, old(View()), WholeQueue(old(queue))).0
      ensures outcome == Cut(p, old(View()), WholeQueue(old(queue))).1
      ensures outcome == Success ==> trace == old(trace) + WholeQueue(old(queue))
      ensures outcome == Success <==> queue == []
      ensures queue == QueueEvents(p, old(View()), old(queue)).1
      ensures outcome == Success && old(queue) != [] ==> WorkedOff(p, View(), LastHeight(old(queue), 0))
      ensures old(queue) != [] ==> CaughtUp(p, View(), outcome, old(trace) + WholeQueue(old(queue)))
    {
      hide Run, Legal, InOrder, Consistent, Grows, QueueEvents, Cut, WholeQueue, WorkedOff, CaughtUp;
      ghost var s0, t0, q0 := View(), trace, queue;
      ghost var events := QueueEvents(p, View(), queue).0;
      QueueIsCut(p, s0, q0);
      CutSplits(p, s0, WholeQueue(q0), []);
      RunSplits(p, EMPTY_LEDGER, t0, events);
      RunStaysInvariant(p, t0);
      outcome := WorkOffQueue();
      ValidIsConsistent();
      RunOnlyGrows(p, t0, events);
      if q0 != [] {
        if outcome == Success {
          QueueWorksOff(p, s0, q0, TopAfter(t0, 0));
        }
        AllCaughtUp(p, t0, q0);
      }
    }
  }

  /** A delivered first commitment that ends right before the start aborts the node in the `unreachable!` arm:
      its error is none of those expected. */
  lemma EmptyFirstCommitmentAborts(p: Params, root: Hash, hash: Hash)
    requires p.start == 1
    ensures ProcessCommitment(p, EMPTY_LEDGER, 0, 0, Commitment(root, 1, 0)).1 == Failed
    ensures BlockEvents(p, EMPTY_LEDGER, L1Block(0, hash, [CommitmentItem(Commitment(root, 1, 0))])).1 == Panicked
  {
    LatestIsEntry(map[]);
  }

  /** One that ends earlier aborts it before, when its block range is read. */
  lemma EarlyFirstCommitmentAborts(p: Params, root: Hash, hash: Hash)
    requires p.start > 1
    ensures ProcessCommitment(p, EMPTY_LEDGER, 0, 0, Commitment(root, 1, 0)).1 == Panicked
    ensures BlockEvents(p, EMPTY_LEDGER, L1Block(0, hash, [CommitmentItem(Commitment(root, 1, 0))])).1 == Panicked
  {
    LatestIsEntry(map[]);
  }
}
