/**
 What the handler does with an L1 block and with a queue of them, as events of a run, and what it achieves.
 */
module L1BlockEvents {
  import opened Wrappers
  import opened Orders
  import opened FinalityLedger
  import opened FinalityInvariant
  import opened FinalityRuns
  import opened FinalityDrain
  import opened FinalityProofSteps
  import opened FinalityConvergence
  import opened FinalityProofs

  datatype Item = CommitmentItem(commitment: Commitment) | ProofItem(proof: Proof)

  datatype L1Block = L1Block(height: nat, hash: Hash, items: seq<Item>)

  /** The event an item of an L1 block stands for. */
  function ItemEvent(l1: nat, item: Item): Event {
    match item
    case CommitmentItem(c) => Deliver(l1, c)
    case ProofItem(proof) => DeliverProof(l1, proof)
  }

  /** How the block loop reacts to an item: halting errors and aborts stop it, and a commitment error
      that is not halting hits an `unreachable!`. */
  function Reaction(item: Item, outcome: Outcome): Progress {
    if outcome == Panicked then Stop(Panicked)
    else if item.ProofItem? then Continue
    else match outcome
      case Halted => Stop(Halted)
      case Failed => Stop(Panicked)
      case Skipped => Stop(Panicked)
      case _ => Continue
  }

  /** The events the block loop gets through, and how it ends. */
  function ItemEvents(p: Params, s: Ledger, l1: nat, items: seq<Item>): (seq<Event>, Outcome)
    decreases |items|
  {
    if items == [] then ([], Success)
    else
      var e := ItemEvent(l1, items[0]);
      var (t, outcome) := Step(p, s, e);
      match Reaction(items[0], outcome)
      case Stop(result) => ([e], result)
      case Continue =>
        var (rest, result) := ItemEvents(p, t, l1, items[1..]);
        ([e] + rest, result)
  }

  /** The events after the items: retry pending commitments, then pending proofs, then record the scan. */
  function RetryEvents(p: Params, s: Ledger, l1: nat): (seq<Event>, Outcome) {
    var (s1, drained) := DrainCommitments(p, s, l1);
    if drained != Success then ([RetryCommitments(l1)], drained)
    else
      var proofs := DrainProofs(p, s1, l1).1;
      if proofs != Success then ([RetryCommitments(l1), RetryProofs(l1)], proofs)
      else ([RetryCommitments(l1), RetryProofs(l1), FinishScan(l1)], Success)
  }

  /** The events of one L1 block: learn its hash, handle its items, retry what is pending; cut short
      where the handler returns or aborts. */
  function BlockEvents(p: Params, s: Ledger, b: L1Block): (seq<Event>, Outcome) {
    var see := SeeL1(b.hash, b.height);
    var (items, result) := ItemEvents(p, Step(p, s, see).0, b.height, b.items);
    if result != Success then ([see] + items, result)
    else
      var (retries, last) := RetryEvents(p, Run(p, s, [see] + items), b.height);
      ([see] + items + retries, last)
  }

  /** The events of a queue of L1 blocks, the blocks left when one of them does not finish, and how it ends. */
  function QueueEvents(p: Params, s: Ledger, queue: seq<L1Block>): (seq<Event>, seq<L1Block>, Outcome)
    decreases |queue|
  {
    if queue == [] then ([], [], Success)
    else
      var (events, result) := BlockEvents(p, s, queue[0]);
      if result != Success then (events, queue, result)
      else
        var (more, left, last) := QueueEvents(p, Run(p, s, events), queue[1..]);
        (events + more, left, last)
  }

  /** A block whose height is not below the last one, with sound proofs, extends any run legally. */
  lemma BlockEventsLegal(p: Params, s: Ledger, b: L1Block, top: nat)
    requires top <= b.height && SoundItems(p, b)
    ensures Legal(p, BlockEvents(p, s, b).0, top)
    ensures TopAfter(BlockEvents(p, s, b).0, top) == b.height
  {
    var see := SeeL1(b.hash, b.height);
    var (items, _) := ItemEvents(p, Step(p, s, see).0, b.height, b.items);
    ItemEventsAtHeight(p, Step(p, s, see).0, b.height, b.items);
    LegalAtHeight(p, BlockEvents(p, s, b).0, top, b.height);
  }

  ghost predicate AtHeight(p: Params, e: Event, l1: nat) {
    !e.SyncL2? && e.l1 == l1 && (e.DeliverProof? ==> SoundProof(p, e.proof))
  }

  lemma {:induction false} ItemEventsAtHeight(p: Params, s: Ledger, l1: nat, items: seq<Item>)
    requires forall item :: item in items && item.ProofItem? ==> SoundProof(p, item.proof)
    ensures forall e :: e in ItemEvents(p, s, l1, items).0 ==> AtHeight(p, e, l1)
    decreases |items|
  {
    if items == [] {
    } else {
      assert items[0] in items;
      var (t, outcome) := Step(p, s, ItemEvent(l1, items[0]));
      assert AtHeight(p, ItemEvent(l1, items[0]), l1);
      if Reaction(items[0], outcome).Continue? {
        ItemEventsAtHeight(p, t, l1, items[1..]);
      }
    }
  }

  lemma {:induction false} LegalAtHeight(p: Params, events: seq<Event>, top: nat, l1: nat)
    requires top <= l1 && forall e :: e in events ==> AtHeight(p, e, l1)
    ensures Legal(p, events, top)
    ensures events != [] ==> TopAfter(events, top) == l1
    decreases |events|
  {
    if events == [] {
    } else {
      assert events[0] in events;
      LegalAtHeight(p, events[1..], l1, l1);
    }
  }

  /** Every proof in the block that verifies has a well-formed output. */
  ghost predicate SoundItems(p: Params, b: L1Block) {
    forall item :: item in b.items && item.ProofItem? ==> SoundProof(p, item.proof)
  }

  /** Blocks queued at heights that never go down from `top` on, with sound proofs. */
  ghost predicate InOrder(p: Params, queue: seq<L1Block>, top: nat)
    decreases |queue|
  {
    queue != [] ==> top <= queue[0].height && SoundItems(p, queue[0]) && InOrder(p, queue[1..], queue[0].height)
  }

  /** The height a block queued next has to reach. */
  ghost function LastHeight(queue: seq<L1Block>, top: nat): nat {
    if queue == [] then top else queue[|queue| - 1].height
  }

  lemma {:induction false} InOrderExtends(p: Params, queue: seq<L1Block>, top: nat, b: L1Block)
    requires InOrder(p, queue, top) && LastHeight(queue, top) <= b.height && SoundItems(p, b)
    ensures InOrder(p, queue + [b], top)
    decreases |queue|
  {
    if queue == [] {
    } else {
      assert (queue + [b])[1..] == queue[1..] + [b];
      InOrderExtends(p, queue[1..], queue[0].height, b);
    }
  }

  // ----- one list of events, up to the first that fails

  /** The deliveries an L1 block stands for, one per item and in their order. */
  ghost function Deliveries(l1: nat, items: seq<Item>): (r: seq<Event>)
    ensures |r| == |items|
    ensures forall k :: 0 <= k < |items| ==>
      r[k] == match items[k] case CommitmentItem(c) => Deliver(l1, c) case ProofItem(proof) => DeliverProof(l1, proof)
  {
    seq(|items|, k requires 0 <= k < |items| => ItemEvent(l1, items[k]))
  }

  ghost function AfterItems(l1: nat): seq<Event> {
    [RetryCommitments(l1), RetryProofs(l1), FinishScan(l1)]
  }

  /** Everything there is to do for an L1 block. */
  ghost function WholeBlock(b: L1Block): seq<Event> {
    [SeeL1(b.hash, b.height)] + Deliveries(b.height, b.items) + AfterItems(b.height)
  }

  ghost function WholeQueue(queue: seq<L1Block>): seq<Event>
    decreases |queue|
  {
    if queue == [] then [] else WholeBlock(queue[0]) + WholeQueue(queue[1..])
  }

  /** The event leaves the handler going. Every error of a proof is skipped; of a commitment none is. */
  ghost predicate Fine(e: Event, outcome: Outcome) {
    match e
    case Deliver(_, _) => outcome == Success || outcome == Discarded || outcome == Pending
    case DeliverProof(_, _) => outcome != Panicked
    case _ => outcome == Success
  }

  /** The events up to and including the first that is not fine; that one halts or aborts the node. */
  ghost function Cut(p: Params, s: Ledger, events: seq<Event>): (seq<Event>, Outcome)
    decreases |events|
  {
    if events == [] then ([], Success)
    else
      var (t, outcome) := Step(p, s, events[0]);
      if !Fine(events[0], outcome) then ([events[0]], if outcome == Halted then Halted else Panicked)
      else
        var (more, result) := Cut(p, t, events[1..]);
        ([events[0]] + more, result)
  }

  lemma {:induction false} CutSplits(p: Params, s: Ledger, first: seq<Event>, more: seq<Event>)
    ensures Cut(p, s, first).1 == Success ==> Cut(p, s, first).0 == first
    ensures Cut(p, s, first + more) ==
      if Cut(p, s, first).1 != Success then Cut(p, s, first)
      else (first + Cut(p, Run(p, s, first), more).0, Cut(p, Run(p, s, first), more).1)
    decreases |first|
  {
    hide Step, Fine;
    if first == [] {
      assert first + more == more;
      assert first + Cut(p, s, more).0 == Cut(p, s, more).0;
    } else {
      var t := Step(p, s, first[0]).0;
      assert (first + more)[0] == first[0] && (first + more)[1..] == first[1..] + more;
      CutSplits(p, t, first[1..], more);
      assert [first[0]] + first[1..] == first;
      var rest := Cut(p, Run(p, s, first), more).0;
      assert [first[0]] + (first[1..] + rest) == first + rest;
    }
  }

  lemma DeliveriesSplit(l1: nat, items: seq<Item>)
    requires items != []
    ensures Deliveries(l1, items) == [ItemEvent(l1, items[0])] + Deliveries(l1, items[1..])
  {
  }

  lemma {:induction false} ItemsAreCut(p: Params, s: Ledger, l1: nat, items: seq<Item>)
    ensures ItemEvents(p, s, l1, items) == Cut(p, s, Deliveries(l1, items))
    decreases |items|
  {
    hide Step;
    if items == [] {
    } else {
      DeliveriesSplit(l1, items);
      var e := ItemEvent(l1, items[0]);
      var (t, outcome) := Step(p, s, e);
      assert Deliveries(l1, items)[1..] == Deliveries(l1, items[1..]);
      ItemsAreCut(p, t, l1, items[1..]);
      assert Fine(e, outcome) <==> Reaction(items[0], outcome).Continue?;
    }
  }

  lemma {:induction false} PassResult(p: Params, s: Ledger, current: nat, keys: seq<nat>,
                                      snapshot: map<nat, (Commitment, nat)>)
    requires forall k :: k in keys ==> k in snapshot
    ensures var outcome := DrainFrom(p, s, current, keys, snapshot).1;
      outcome == Success || outcome == Halted || outcome == Panicked
    decreases |keys|
  {
    hide ProcessCommitment, Processable;
    if keys == [] {
    } else {
      PassResult(p, RetryCommitment(p, s, current, keys[0], snapshot[keys[0]]).0, current, keys[1..], snapshot);
    }
  }

  lemma {:induction false} ProofPassResult(p: Params, s: Ledger, current: nat, keys: seq<(nat, nat)>,
                                           snapshot: map<(nat, nat), (Proof, nat)>)
    requires forall k :: k in keys ==> k in snapshot
    ensures var outcome := DrainProofsFrom(p, s, current, keys, snapshot).1;
      outcome == Success || outcome == Panicked
    decreases |keys|
  {
    hide ProcessProof;
    if keys == [] {
    } else {
      ProofPassResult(p, RetryProof(p, s, current, keys[0], snapshot[keys[0]]).0, current, keys[1..], snapshot);
    }
  }

  lemma CutOne(p: Params, s: Ledger, e: Event, more: seq<Event>)
    ensures var (t, outcome) := Step(p, s, e);
      Cut(p, s, [e] + more) ==
        if Fine(e, outcome) then ([e] + Cut(p, t, more).0, Cut(p, t, more).1)
        else ([e], if outcome == Halted then Halted else Panicked)
  {
    hide Step, Fine;
    assert ([e] + more)[1..] == more;
  }

  lemma RetriesAreCut(p: Params, s: Ledger, l1: nat)
    ensures RetryEvents(p, s, l1) == Cut(p, s, AfterItems(l1))
  {
    hide DrainFrom, DrainProofsFrom, Cut, AscendingNats, AscendingPairs;
    var s1 := DrainCommitments(p, s, l1).0;
    var s2 := DrainProofs(p, s1, l1).0;
    var scan := [FinishScan(l1)];
    var proofs := [RetryProofs(l1)] + scan;
    PassResult(p, s, l1, AscendingNats(s.pending.Keys), s.pending);
    ProofPassResult(p, s1, l1, AscendingPairs(s1.pendingProofs.Keys), s1.pendingProofs);
    assert AfterItems(l1) == [RetryCommitments(l1)] + proofs && scan + [] == scan;
    CutOne(p, s, RetryCommitments(l1), proofs);
    CutOne(p, s1, RetryProofs(l1), scan);
    CutOne(p, s2, FinishScan(l1), []);
    CutNothing(p, Step(p, s2, FinishScan(l1)).0);
    assert Cut(p, s2, scan) == (scan, Success);
    assert [RetryCommitments(l1)] + [RetryProofs(l1)] == [RetryCommitments(l1), RetryProofs(l1)];
  }

  lemma CutNothing(p: Params, s: Ledger)
    ensures Cut(p, s, []) == ([], Success)
  {
  }

  lemma SeeCut(p: Params, s: Ledger, e: Event)
    requires e.SeeL1?
    ensures Cut(p, s, [e]) == ([e], Success) && Run(p, s, [e]) == Step(p, s, e).0
  {
    assert [e][1..] == [];
    assert [e] + [] == [e];
  }

  /** A block is handled by doing everything there is to do for it, in that order: learn its hash, take every
      item, retry the commitments, retry the proofs, record the scan; up to the first event that halts or aborts
      the node. */
  lemma BlockIsCut(p: Params, s: Ledger, b: L1Block)
    ensures BlockEvents(p, s, b) == Cut(p, s, WholeBlock(b))
  {
    hide Cut, ItemEvents, RetryEvents, Run, Step;
    var see := SeeL1(b.hash, b.height);
    var items := Deliveries(b.height, b.items);
    SeeCut(p, s, see);
    ItemsAreCut(p, Step(p, s, see).0, b.height, b.items);
    CutSplits(p, s, [see], items);
    CutSplits(p, Step(p, s, see).0, items, []);
    CutSplits(p, s, [see] + items, AfterItems(b.height));
    RetriesAreCut(p, Run(p, s, [see] + items), b.height);
  }

  /** And a queue by doing so for one block after the other. */
  lemma {:induction false} QueueIsCut(p: Params, s: Ledger, queue: seq<L1Block>)
    ensures var (events, left, result) := QueueEvents(p, s, queue);
      && (events, result) == Cut(p, s, WholeQueue(queue))
      && |left| <= |queue| && left == queue[|queue| - |left|..]
      && (result == Success <==> left == [])
    decreases |queue|
  {
    hide Cut, BlockEvents, Run, WholeBlock;
    if queue == [] {
      CutNothing(p, s);
    } else {
      var whole := WholeBlock(queue[0]);
      BlockIsCut(p, s, queue[0]);
      CutSplits(p, s, whole, WholeQueue(queue[1..]));
      QueueIsCut(p, Run(p, s, whole), queue[1..]);
    }
  }

  // ----- a wrong root stops the node

  lemma FirstFailure(p: Params, s: Ledger, events: seq<Event>, k: nat)
    requires k < |events| && Cut(p, s, events[..k]).1 == Success
    requires !Fine(events[k], Step(p, Run(p, s, events[..k]), events[k]).1)
    ensures var outcome := Step(p, Run(p, s, events[..k]), events[k]).1;
      Cut(p, s, events) == (events[..k + 1], if outcome == Halted then Halted else Panicked)
  {
    hide Cut, Step, Fine, Run;
    assert events == events[..k] + ([events[k]] + events[k + 1..]) && events[..k] + [events[k]] == events[..k + 1];
    CutSplits(p, s, events[..k], [events[k]] + events[k + 1..]);
    CutOne(p, Run(p, s, events[..k]), events[k], events[k + 1..]);
  }

  lemma DeliveriesAtHeight(p: Params, b: L1Block, k: nat)
    requires SoundItems(p, b) && k < |b.items|
    ensures AtHeight(p, Deliveries(b.height, b.items)[k], b.height)
  {
    assert b.items[k] in b.items;
  }

  lemma WholeAtHeight(p: Params, b: L1Block)
    requires SoundItems(p, b)
    ensures WholeBlock(b) != [] && forall e :: e in WholeBlock(b) ==> AtHeight(p, e, b.height)
  {
    hide SoundItems;
    var whole, n := WholeBlock(b), |b.items|;
    forall k | 0 <= k < |whole|
      ensures AtHeight(p, whole[k], b.height)
    {
      if 1 <= k <= n {
        DeliveriesAtHeight(p, b, k - 1);
        assert whole[k] == Deliveries(b.height, b.items)[k - 1];
      } else if k > n {
        assert whole[k] == AfterItems(b.height)[k - n - 1];
      }
    }
  }

  /** Anywhere within a block, the ledger is one that a legal run leads to. */
  lemma WithinBlock(p: Params, s: Ledger, b: L1Block, top: nat, k: nat)
    requires Inv(p, s, top) && top <= b.height && SoundItems(p, b) && 1 <= k <= |WholeBlock(b)|
    ensures Inv(p, Run(p, s, WholeBlock(b)[..k]), b.height)
  {
    hide Inv, Run, Legal, AtHeight, WholeBlock;
    WholeAtHeight(p, b);
    var events := WholeBlock(b)[..k];
    assert forall e :: e in events ==> e in WholeBlock(b);
    LegalAtHeight(p, events, top, b.height);
    RunKeepsInv(p, s, top, events);
  }

  /** An item that is the next commitment, with synced blocks and a wrong root, ends the block with the halting
      error, and nothing after it is looked at. */
  lemma DeliveredMismatchHalts(p: Params, s: Ledger, b: L1Block, top: nat, k: nat)
    requires Inv(p, s, top) && top <= b.height && SoundItems(p, b)
    requires k < |b.items| && b.items[k].CommitmentItem?
    requires var before := [SeeL1(b.hash, b.height)] + Deliveries(b.height, b.items[..k]);
      && Cut(p, s, before).1 == Success
      && Mismatched(p, Run(p, s, before), b.items[k].commitment)
    ensures BlockEvents(p, s, b)
         == ([SeeL1(b.hash, b.height)] + Deliveries(b.height, b.items[..k + 1]), Halted)
  {
    hide Inv, Run, Cut, Ready, ProcessCommitment, BlockEvents;
    var see := SeeL1(b.hash, b.height);
    var before := [see] + Deliveries(b.height, b.items[..k]);
    assert WholeBlock(b)[..k + 1] == before;
    assert WholeBlock(b)[..k + 2] == [see] + Deliveries(b.height, b.items[..k + 1]);
    WithinBlock(p, s, b, top, k + 1);
    InvIsReady(p, Run(p, s, before), b.height);
    var c := b.items[k].commitment;
    CommitmentHaltsIff(p, Run(p, s, before), b.height, b.height, c);
    assert WholeBlock(b)[k + 1] == Deliver(b.height, c);
    FirstFailure(p, s, WholeBlock(b), k + 1);
    BlockIsCut(p, s, b);
  }

  /** And so does one that is pending once the items are through, unless a stale commitment 1 hides it. */
  lemma PendingMismatchHalts(p: Params, s: Ledger, b: L1Block, top: nat)
    requires Inv(p, s, top) && top <= b.height && SoundItems(p, b)
    requires var before := [SeeL1(b.hash, b.height)] + Deliveries(b.height, b.items);
      && Cut(p, s, before).1 == Success
      && !StaleFirst(Run(p, s, before)) && NextMismatched(p, Run(p, s, before))
    ensures BlockEvents(p, s, b) ==
      ([SeeL1(b.hash, b.height)] + Deliveries(b.height, b.items) + [RetryCommitments(b.height)], Halted)
  {
    hide Inv, Run, Cut, StaleFirst, NextMismatched, DrainCommitments, BlockEvents;
    var before := [SeeL1(b.hash, b.height)] + Deliveries(b.height, b.items);
    var k := |before|;
    assert WholeBlock(b)[..k] == before && WholeBlock(b)[k] == RetryCommitments(b.height);
    assert WholeBlock(b)[..k + 1] == before + [RetryCommitments(b.height)];
    WithinBlock(p, s, b, top, k);
    RetryHaltsIff(p, Run(p, s, before), b.height, b.height);
    FirstFailure(p, s, WholeBlock(b), k);
    BlockIsCut(p, s, b);
  }

  // ----- what a finished block leaves behind

  /** No pending commitment can extend the chain, unless commitment 1 is stale or empty; the first pending proof
      cannot be settled; and the scan is recorded. */
  ghost predicate WorkedOff(p: Params, s: Ledger, l1: nat) {
    && (Maximal(s) || StaleFirst(s) || EmptyFirst(p, s))
    && HeadWaits(p, s, l1)
    && s.lastScanned == Some(l1)
  }

  lemma RetriedChain(p: Params, s: Ledger, top: nat, l1: nat)
    requires Inv(p, s, top) && top <= l1 && DrainCommitments(p, s, l1).1 == Success
    ensures var t := DrainCommitments(p, s, l1).0; Maximal(t) || StaleFirst(t) || EmptyFirst(p, t)
  {
    hide Inv, Ready, Maximal, StaleFirst, EmptyFirst, DrainCommitments;
    InvIsReady(p, s, top);
    DrainReachesMaximalPrefix(p, s, top, l1);
    if !StaleFirst(s) && EmptyFirst(p, s) {
      EmptyFirstStays(p, s, l1);
    }
  }

  lemma SameChainWorkedOff(p: Params, s: Ledger, t: Ledger)
    requires t.l2 == s.l2 && t.committed == s.committed && t.pending == s.pending
    requires Maximal(s) || StaleFirst(s) || EmptyFirst(p, s)
    ensures Maximal(t) || StaleFirst(t) || EmptyFirst(p, t)
  {
  }

  lemma {:induction false} ScanHashes(p: Params, s: Ledger, t: Ledger, i: nat, last: nat, hashes: seq<Hash>,
                                      awaited: bool)
    requires t.committed == s.committed && t.pending == s.pending
    ensures CheckHashes(p, t, i, last, hashes, awaited) == CheckHashes(p, s, i, last, hashes, awaited)
    decreases |hashes|
  {
    if i > last || hashes == [] {
    } else {
      ScanHashes(p, s, t, i + 1, last, hashes[1..], awaited || CheckHash(p, s, i, hashes[0]).Awaited?);
    }
  }

  lemma ScanKeepsVerdict(p: Params, s: Ledger, l1: nat, current: nat, found: nat, proof: Proof)
    ensures ProcessProof(p, s.(lastScanned := Some(l1)), current, found, proof).1
         == ProcessProof(p, s, current, found, proof).1
  {
    hide CheckHashes, LatestMark, MarkAbove;
    var t := s.(lastScanned := Some(l1));
    if proof.output.Some? {
      var o := proof.output.value;
      if o.prevIndex.Some? ==> o.prevHash.Some? {
        ScanHashes(p, s, t, o.first, o.last, o.hashes, CheckPredecessor(p, s, o).Awaited?);
      }
    }
  }

  lemma ScanKeepsHead(p: Params, s: Ledger, l1: nat)
    requires HeadWaits(p, s, l1)
    ensures HeadWaits(p, s.(lastScanned := Some(l1)), l1)
  {
    hide ProcessProof;
    if s.pendingProofs != map[] {
      var k := AscendingPairs(s.pendingProofs.Keys)[0];
      assert k in s.pendingProofs;
      ScanKeepsVerdict(p, s, l1, l1, s.pendingProofs[k].1, s.pendingProofs[k].0);
    }
  }

  lemma RunAfterItems(p: Params, s: Ledger, l1: nat)
    ensures Run(p, s, AfterItems(l1))
         == DrainProofs(p, DrainCommitments(p, s, l1).0, l1).0.(lastScanned := Some(l1))
  {
    hide DrainCommitments, DrainProofs;
    var events := AfterItems(l1);
    assert events[1..] == [RetryProofs(l1), FinishScan(l1)];
    assert events[1..][1..] == [FinishScan(l1)];
    assert events[1..][1..][1..] == [];
    var s1 := DrainCommitments(p, s, l1).0;
    var s2 := DrainProofs(p, s1, l1).0;
    assert Run(p, s2, [FinishScan(l1)]) == s2.(lastScanned := Some(l1));
  }

  lemma RetriesWorkOff(p: Params, s: Ledger, top: nat, l1: nat)
    requires Inv(p, s, top) && top <= l1 && RetryEvents(p, s, l1).1 == Success
    ensures WorkedOff(p, Run(p, s, AfterItems(l1)), l1)
  {
    hide Inv, Run, DrainCommitments, DrainProofs, Maximal, StaleFirst, EmptyFirst, HeadWaits;
    var s1 := DrainCommitments(p, s, l1).0;
    var s2 := DrainProofs(p, s1, l1).0;
    RunAfterItems(p, s, l1);
    RetriedChain(p, s, top, l1);
    StepKeepsInv(p, s, top, RetryCommitments(l1));
    RetryProofsUntilStuck(p, s1, l1, l1);
    ScanKeepsHead(p, s2, l1);
    ProofsLeaveChain(p, s1, l1);
    SameChainWorkedOff(p, s1, s2.(lastScanned := Some(l1)));
  }

  lemma ProofsLeaveChain(p: Params, s: Ledger, l1: nat)
    ensures SameCommitments(s, DrainProofs(p, s, l1).0)
  {
    hide DrainProofsFrom;
    DrainProofsLeavesCommitments(p, s, l1, AscendingPairs(s.pendingProofs.Keys), s.pendingProofs);
  }

  /** A block that finishes has done everything there is to do for it, and leaves nothing that could be done. */
  lemma BlockWorksOff(p: Params, s: Ledger, b: L1Block, top: nat)
    requires Inv(p, s, top) && top <= b.height && SoundItems(p, b) && BlockEvents(p, s, b).1 == Success
    ensures BlockEvents(p, s, b).0 == WholeBlock(b)
    ensures Inv(p, Run(p, s, WholeBlock(b)), b.height) && WorkedOff(p, Run(p, s, WholeBlock(b)), b.height)
  {
    hide Inv, Run, Cut, BlockEvents, RetryEvents, WorkedOff;
    var before := [SeeL1(b.hash, b.height)] + Deliveries(b.height, b.items);
    var u := Run(p, s, before);
    assert WholeBlock(b) == before + AfterItems(b.height) && WholeBlock(b)[..|before|] == before;
    assert WholeBlock(b)[..|WholeBlock(b)|] == WholeBlock(b);
    BlockIsCut(p, s, b);
    CutSplits(p, s, WholeBlock(b), []);
    CutSplits(p, s, before, AfterItems(b.height));
    RetriesAreCut(p, u, b.height);
    WithinBlock(p, s, b, top, |before|);
    WithinBlock(p, s, b, top, |WholeBlock(b)|);
    RetriesWorkOff(p, u, b.height, b.height);
    RunSplits(p, s, before, AfterItems(b.height));
  }

  lemma {:induction false} QueueWorksOff(p: Params, s: Ledger, queue: seq<L1Block>, top: nat)
    requires Inv(p, s, top) && InOrder(p, queue, top) && queue != [] && QueueEvents(p, s, queue).2 == Success
    ensures QueueEvents(p, s, queue).0 == WholeQueue(queue)
    ensures WorkedOff(p, Run(p, s, WholeQueue(queue)), queue[|queue| - 1].height)
    decreases |queue|
  {
    hide Inv, Run, BlockEvents, WorkedOff, WholeBlock, SoundItems;
    var whole := WholeBlock(queue[0]);
    BlockWorksOff(p, s, queue[0], top);
    RunSplits(p, s, whole, WholeQueue(queue[1..]));
    if queue[1..] == [] {
      assert whole + [] == whole;
      RunNothing(p, Run(p, s, whole));
    } else {
      QueueWorksOff(p, Run(p, s, whole), queue[1..], queue[0].height);
    }
  }

  lemma RunNothing(p: Params, s: Ledger)
    ensures Run(p, s, []) == s
  {
  }

  // ----- queues that bring a whole history

  /** An event of a run on a valid history is fine: no commitment of the history is refused, none of its proofs
      aborts the node, and both retry passes succeed. */
  lemma HistoryIsFine(p: Params, s: Ledger, history: map<nat, Commitment>, chain: seq<L2Block>, seen: set<nat>,
                      hashes: set<Hash>, proofs: set<Proof>, top: nat, e: Event)
    requires ValidHistory(p, history, chain) && Inv(p, s, top) && Tracks(s, history, chain, seen)
    requires KeepsProofs(p, s, history, chain, seen, proofs)
    requires HeightAfter(e, top) >= top && DeliversFrom(history, e) && InTime(p, history, chain, seen, hashes, e)
    ensures Fine(e, Step(p, s, e).1)
  {
    hide Inv, ValidHistory, Tracks, KeepsProofs, ProcessCommitment, ProcessProof, DrainCommitments, DrainProofs;
    hide Ready, ProofOf, LatestMark, Arrived, AllCommitted;
    InvIsReady(p, s, top);
    TracksLess(s, history, chain, seen);
    match e
    case Deliver(l1, c) =>
      if c.index != 0 {
        NeverRefused(p, s, history, chain, l1, l1, c);
      }
    case DeliverProof(l1, proof) =>
      OutputOf(p, history, chain, proof);
      ProofVerdict(p, s, history, chain, top, l1, l1, proof);
    case RetryCommitments(l1) => TrackedRetrySucceeds(p, s, history, chain, seen, top, l1);
    case RetryProofs(l1) => PassKeepsProofs(p, s, history, chain, seen, proofs, top, l1);
    case _ =>
  }

  lemma {:induction false} HistoryRunIsFine(p: Params, s: Ledger, history: map<nat, Commitment>, chain: seq<L2Block>,
                                            seen: set<nat>, hashes: set<Hash>, proofs: set<Proof>, top: nat,
                                            events: seq<Event>)
    requires ValidHistory(p, history, chain) && Inv(p, s, top) && Tracks(s, history, chain, seen)
    requires Legal(p, events, top) && StaysOn(p, s, events, chain)
    requires forall e :: e in events ==> DeliversFrom(history, e)
    requires KeepsProofs(p, s, history, chain, seen, proofs) && HashesSeen(s, hashes)
    requires AllInTime(p, history, chain, seen, hashes, events)
    ensures Cut(p, s, events) == (events, Success)
    decreases |events|
  {
    hide Inv, Tracks, ValidHistory, Step, KeepsProofs, HashesSeen, InTime, Delivered, Fine, DeliversFrom;
    if events == [] {
    } else {
      var e := events[0];
      assert e in events;
      var t := Step(p, s, e).0;
      HistoryIsFine(p, s, history, chain, seen, hashes, proofs, top, e);
      StepKeepsInv(p, s, top, e);
      StepTracks(p, s, history, chain, seen, top, e);
      StepSeesHashes(p, s, hashes, e);
      StepKeepsProofs(p, s, history, chain, seen, hashes, proofs, top, e);
      HistoryRunIsFine(p, t, history, chain, seen + Delivered([e]), hashes + HashesOf(e), proofs + ProofsOf(e),
                       HeightAfter(e, top), events[1..]);
      assert [e] + events[1..] == events;
    }
  }

  /** The run delivers exactly a valid history, in any order, on its synced chain, and proofs of it that leave no
      gap up to index `n`, each after what it speaks about. */
  ghost predicate Brings(p: Params, history: map<nat, Commitment>, chain: seq<L2Block>, n: nat, events: seq<Event>) {
    && ValidHistory(p, history, chain)
    && (forall e :: e in events ==> DeliversFrom(history, e))
    && Delivered(events) == history.Keys
    && Run(p, EMPTY_LEDGER, events).l2 == chain
    && AllInTime(p, history, chain, {}, {}, events)
    && (forall i :: 1 <= i <= n ==> Proved(DeliveredProofs(events), i))
  }

  lemma {:induction false} WholeQueueLegal(p: Params, queue: seq<L1Block>, top: nat)
    requires InOrder(p, queue, top)
    ensures Legal(p, WholeQueue(queue), top)
    decreases |queue|
  {
    hide Legal, WholeBlock, SoundItems, AtHeight;
    if queue == [] {
      LegalAtHeight(p, [], top, top);
    } else {
      var whole := WholeBlock(queue[0]);
      WholeAtHeight(p, queue[0]);
      LegalAtHeight(p, whole, top, queue[0].height);
      WholeQueueLegal(p, queue[1..], queue[0].height);
      LegalJoins(p, whole, WholeQueue(queue[1..]), top);
    }
  }

  /** All of the queue but the retries after its last block. */
  ghost function QueueFront(queue: seq<L1Block>): seq<Event>
    requires queue != []
    decreases |queue|
  {
    if |queue| == 1 then [SeeL1(queue[0].hash, queue[0].height)] + Deliveries(queue[0].height, queue[0].items)
    else WholeBlock(queue[0]) + QueueFront(queue[1..])
  }

  lemma OneBlockQueue(b: L1Block)
    ensures WholeQueue([b]) == QueueFront([b]) + AfterItems(b.height)
  {
    hide Deliveries, AfterItems;
    assert [b][1..] == [] && WholeQueue([]) == [];
    assert WholeBlock(b) + [] == WholeBlock(b);
  }

  lemma {:induction false} QueueEndsInRetries(queue: seq<L1Block>)
    requires queue != []
    ensures WholeQueue(queue) == QueueFront(queue) + AfterItems(queue[|queue| - 1].height)
    decreases |queue|
  {
    hide WholeBlock, AfterItems, Deliveries, WholeQueue, QueueFront;
    if |queue| == 1 {
      assert queue == [queue[0]];
      OneBlockQueue(queue[0]);
    } else {
      QueueEndsInRetries(queue[1..]);
      WholeQueueTurn(queue);
      JoinsAssociate(WholeBlock(queue[0]), QueueFront(queue[1..]), AfterItems(queue[|queue| - 1].height));
    }
  }

  lemma WholeQueueTurn(queue: seq<L1Block>)
    requires |queue| > 1
    ensures WholeQueue(queue) == WholeBlock(queue[0]) + WholeQueue(queue[1..])
    ensures QueueFront(queue) == WholeBlock(queue[0]) + QueueFront(queue[1..])
  {
    hide WholeBlock;
  }

  lemma JoinsAssociate(a: seq<Event>, b: seq<Event>, c: seq<Event>)
    ensures a + (b + c) == a + b + c
  {
  }

  lemma {:induction false} DeliveredJoins(first: seq<Event>, more: seq<Event>)
    ensures Delivered(first + more) == Delivered(first) + Delivered(more)
    ensures DeliveredProofs(first + more) == DeliveredProofs(first) + DeliveredProofs(more)
    decreases |first|
  {
    if first == [] {
      assert first + more == more;
    } else {
      assert (first + more)[0] == first[0] && (first + more)[1..] == first[1..] + more;
      DeliveredJoins(first[1..], more);
    }
  }

  lemma RetriesDeliverNothing(l1: nat)
    ensures Delivered(AfterItems(l1)) == {} && DeliveredProofs(AfterItems(l1)) == {}
  {
    var events := AfterItems(l1);
    assert events[1..] == [RetryProofs(l1), FinishScan(l1)];
    assert events[1..][1..] == [FinishScan(l1)];
    assert events[1..][1..][1..] == [];
    assert Delivered(events[1..][1..]) == {} && DeliveredProofs(events[1..][1..]) == {};
    assert Delivered(events[1..]) == {} && DeliveredProofs(events[1..]) == {};
  }

  lemma {:induction false} InTimeSplits(p: Params, history: map<nat, Commitment>, chain: seq<L2Block>, seen: set<nat>,
                                        hashes: set<Hash>, first: seq<Event>, more: seq<Event>)
    requires AllInTime(p, history, chain, seen, hashes, first + more)
    ensures AllInTime(p, history, chain, seen, hashes, first)
    decreases |first|
  {
    hide InTime, Delivered;
    if first == [] {
    } else {
      assert (first + more)[0] == first[0] && (first + more)[1..] == first[1..] + more;
      InTimeSplits(p, history, chain, seen + Delivered([first[0]]), hashes + HashesOf(first[0]), first[1..], more);
    }
  }

  lemma RetriesKeepL2(p: Params, s: Ledger, l1: nat)
    ensures Run(p, s, AfterItems(l1)).l2 == s.l2
  {
    hide DrainProofs, Run, DrainFrom;
    RunAfterItems(p, s, l1);
    ProofsLeaveChain(p, DrainCommitments(p, s, l1).0, l1);
    PassKeepsL2(p, s, l1, AscendingNats(s.pending.Keys), s.pending);
  }

  lemma RetryKeepsL2(p: Params, s: Ledger, current: nat, i: nat, item: (Commitment, nat))
    ensures RetryCommitment(p, s, current, i, item).0.l2 == s.l2
  {
    hide ProcessCommitment;
    CommitmentKeepsL2(p, s, current, item.1, item.0);
  }

  lemma CommitmentKeepsL2(p: Params, s: Ledger, current: nat, found: nat, c: Commitment)
    ensures ProcessCommitment(p, s, current, found, c).0.l2 == s.l2
  {
    hide ProcessCommitment;
    CommitmentCases(p, s, current, found, c);
    if ProcessCommitment(p, s, current, found, c).1 == Success {
      var start := CommittedFrom(p, s, current, found, c);
    }
  }

  lemma {:induction false} PassKeepsL2(p: Params, s: Ledger, current: nat, keys: seq<nat>,
                                       snapshot: map<nat, (Commitment, nat)>)
    requires forall k :: k in keys ==> k in snapshot
    ensures DrainFrom(p, s, current, keys, snapshot).0.l2 == s.l2
    decreases |keys|
  {
    hide RetryCommitment;
    if keys == [] {
    } else {
      var t := RetryCommitment(p, s, current, keys[0], snapshot[keys[0]]).0;
      RetryKeepsL2(p, s, current, keys[0], snapshot[keys[0]]);
      PassKeepsL2(p, t, current, keys[1..], snapshot);
    }
  }

  /** The run still brings the history when the retries at its end are taken off. */
  lemma BringsWithoutRetries(p: Params, history: map<nat, Commitment>, chain: seq<L2Block>, n: nat,
                             events: seq<Event>, l1: nat)
    requires Brings(p, history, chain, n, events + AfterItems(l1))
    ensures Brings(p, history, chain, n, events)
  {
    hide ValidHistory, AllInTime, DeliversFrom, Proved, Run, AfterItems;
    DeliveredJoins(events, AfterItems(l1));
    RetriesDeliverNothing(l1);
    assert DeliveredProofs(events) + {} == DeliveredProofs(events) && Delivered(events) + {} == Delivered(events);
    InTimeSplits(p, history, chain, {}, {}, events, AfterItems(l1));
    RunSplits(p, EMPTY_LEDGER, events, AfterItems(l1));
    RetriesKeepL2(p, Run(p, EMPTY_LEDGER, events), l1);
    forall e | e in events
      ensures DeliversFrom(history, e)
    {
      assert e in events + AfterItems(l1);
    }
  }

  /** A run that brings a history and ends like a block does has committed and proven it. */
  lemma BroughtHistory(p: Params, history: map<nat, Commitment>, chain: seq<L2Block>, n: nat, events: seq<Event>,
                       l1: nat)
    requires Legal(p, events, 0) && TopAfter(events, 0) <= l1
    requires Brings(p, history, chain, n, events + AfterItems(l1))
    ensures var t := Run(p, EMPTY_LEDGER, events + AfterItems(l1));
      && t.committed == history && n <= ProvenMark(t).index
      && (n == |history| ==> ProvenMark(t) == CommittedMark(t))
  {
    BringsWithoutRetries(p, history, chain, n, events, l1);
    hide ValidHistory, AllInTime, DeliversFrom, Proved, Run, AfterItems, Legal, DrainCommitments, DrainProofs;
    hide LatestMark;
    ProofsCatchUp(p, history, chain, events, l1, n);
    RunSplits(p, EMPTY_LEDGER, events, AfterItems(l1));
    RunAfterItems(p, Run(p, EMPTY_LEDGER, events), l1);
  }

  lemma BroughtIsFine(p: Params, history: map<nat, Commitment>, chain: seq<L2Block>, n: nat, events: seq<Event>)
    requires Legal(p, events, 0) && Brings(p, history, chain, n, events)
    ensures Cut(p, EMPTY_LEDGER, events) == (events, Success)
  {
    hide ValidHistory, AllInTime, DeliversFrom, Proved, Run, Legal, Inv, Tracks, KeepsProofs, HashesSeen, Cut, StaysOn;
    EmptyInv(p);
    EmptyKeeps(p, history, chain);
    EndsOnStaysOn(p, EMPTY_LEDGER, 0, events, chain);
    HistoryRunIsFine(p, EMPTY_LEDGER, history, chain, {}, {}, {}, 0, events);
  }

  /** When what went before and the blocks in the queue together bring a valid history and its proofs, every
      block finishes, and in the end the history is committed and proven as far as the proofs leave no gap. */
  lemma QueueCatchesUp(p: Params, history: map<nat, Commitment>, chain: seq<L2Block>, n: nat, before: seq<Event>,
                       queue: seq<L1Block>)
    requires Legal(p, before, 0) && queue != [] && InOrder(p, queue, TopAfter(before, 0))
    requires Brings(p, history, chain, n, before + WholeQueue(queue))
    ensures var s := Run(p, EMPTY_LEDGER, before);
      var (events, left, result) := QueueEvents(p, s, queue);
      var t := Run(p, s, events);
      && result == Success && left == [] && events == WholeQueue(queue)
      && t.committed == history && n <= ProvenMark(t).index
      && (n == |history| ==> ProvenMark(t) == CommittedMark(t))
  {
    hide Brings, Run, Legal, Cut, InOrder, WholeQueue, QueueEvents, ProvenMark, CommittedMark, AfterItems, QueueFront;
    var l1 := queue[|queue| - 1].height;
    var front := before + QueueFront(queue);
    WholeQueueLegal(p, queue, TopAfter(before, 0));
    LegalJoins(p, before, WholeQueue(queue), 0);
    BroughtIsFine(p, history, chain, n, before + WholeQueue(queue));
    CutSplits(p, EMPTY_LEDGER, before, WholeQueue(queue));
    CutSplits(p, Run(p, EMPTY_LEDGER, before), WholeQueue(queue), []);
    QueueIsCut(p, Run(p, EMPTY_LEDGER, before), queue);
    QueueEndsInRetries(queue);
    assert before + WholeQueue(queue) == front + AfterItems(l1);
    FrontLegal(p, front, l1);
    BroughtHistory(p, history, chain, n, front, l1);
    RunSplits(p, EMPTY_LEDGER, before, WholeQueue(queue));
  }

  lemma FrontLegal(p: Params, front: seq<Event>, l1: nat)
    requires Legal(p, front + AfterItems(l1), 0)
    ensures Legal(p, front, 0) && TopAfter(front, 0) <= l1
  {
    LegalSplits(p, front, AfterItems(l1), 0);
  }

  /** Whatever history the run brings, the handler has got through, and the history is committed and proven. */
  ghost predicate CaughtUp(p: Params, s: Ledger, outcome: Outcome, events: seq<Event>) {
    forall history, chain, n: nat :: Brings(p, history, chain, n, events) ==>
      && outcome == Success && s.committed == history && n <= ProvenMark(s).index
      && (n == |history| ==> ProvenMark(s) == CommittedMark(s))
  }

  lemma AllCaughtUp(p: Params, before: seq<Event>, queue: seq<L1Block>)
    requires Legal(p, before, 0) && queue != [] && InOrder(p, queue, TopAfter(before, 0))
    ensures var s := Run(p, EMPTY_LEDGER, before);
      var (events, _, result) := QueueEvents(p, s, queue);
      CaughtUp(p, Run(p, s, events), result, before + WholeQueue(queue))
  {
    hide Brings, Run, Legal, InOrder, WholeQueue, QueueEvents, ProvenMark, CommittedMark;
    forall history, chain, n: nat | Brings(p, history, chain, n, before + WholeQueue(queue)) {
      QueueCatchesUp(p, history, chain, n, before, queue);
    }
  }
}
