/**
 The full node's view of L2 finality: the ledger tables it keeps, and what each step of L1 block
 processing does to them. Hashing, Merkle trees and proof verification enter as parameters.
 */
module FinalityLedger {
  import opened Wrappers
  import opened Orders

  /** A 32-byte digest; the handler only compares digests for equality. */
  type Hash = nat

  /** L2 block numbers start at 1. */
  type Height = n: nat | n >= 1 witness 1

  datatype Commitment = Commitment(root: Hash, index: nat, end: nat)

  datatype L2Block = L2Block(hash: Hash, stateRoot: Hash)

  /** A finality mark: the end height and index of a commitment. */
  datatype Mark = Mark(height: nat, index: nat)

  datatype ProofOutput = ProofOutput(
    first: nat,
    last: nat,
    hashes: seq<Hash>,
    lastL2Height: nat,
    prevIndex: Option<nat>,
    prevHash: Option<Hash>,
    initialRoot: Hash,
    lastL1Hash: Hash)

  /** A raw proof together with what the zkVM says about it: its output if it has one, and whether
      it verifies against the code commitment of its fork. */
  datatype Proof = Proof(raw: int, output: Option<ProofOutput>, verifies: bool)

  datatype Params = Params(
    start: Height,                      // Tangerine activation height, never 0
    genesisRoot: Hash,
    merkleRoot: seq<Hash> -> Hash,      // root of a non-empty leaf sequence
    commitmentHash: Commitment -> Hash)

  datatype Ledger = Ledger(
    l2: seq<L2Block>,                             // the block of height h is l2[h - 1]
    l1Heights: map<Hash, nat>,
    committed: map<nat, Commitment>,
    pending: map<nat, (Commitment, nat)>,
    pendingProofs: map<(nat, nat), (Proof, nat)>,
    bySlot: map<nat, seq<Commitment>>,
    rangeOfRoot: map<Hash, (nat, nat)>,
    verified: map<nat, seq<Proof>>,
    committedAt: map<nat, Mark>,                  // status tables, keyed by L1 height
    provenAt: map<nat, Mark>,
    lastScanned: Option<nat>)

  /** How one step ends. `Halted` is the halting Merkle mismatch, `Skipped` a skippable proof error,
      `Failed` any other error, `Panicked` an abort of the node. */
  datatype Outcome = Success | Discarded | Pending | Halted | Skipped | Failed | Panicked

  const EMPTY_LEDGER := Ledger([], map[], map[], map[], map[], map[], map[], map[], map[], map[], None)

  function KeysUpTo(marks: map<nat, Mark>, l1: Option<nat>): set<nat> {
    set k | k in marks.Keys && (l1.Some? ==> k <= l1.value)
  }

  /** The mark in force as of an L1 height, or now: the entry with the greatest admissible key. */
  function MarkAsOf(marks: map<nat, Mark>, l1: Option<nat>): Option<Mark> {
    var keys := KeysUpTo(marks, l1);
    if keys == {} then None else Some(marks[Last(keys)])
  }

  function LatestMark(marks: map<nat, Mark>): Option<Mark> {
    MarkAsOf(marks, None)
  }

  function OrZero(m: Option<Mark>): Mark {
    match m
    case Some(v) => v
    case None => Mark(0, 0)
  }

  /** The derived lexicographic order on marks. */
  predicate MarkAbove(a: Mark, b: Mark) {
    a.height > b.height || (a.height == b.height && a.index > b.index)
  }

  /** Hashes of the L2 blocks of heights `from` to `to`, both included. */
  function BlockHashes(l2: seq<L2Block>, from: Height, to: nat): (r: seq<Hash>)
    requires from <= to + 1 && to <= |l2|
    ensures |r| == to + 1 - from
    ensures forall k :: 0 <= k < |r| ==> r[k] == l2[from - 1 + k].hash
  {
    seq<Hash>(to + 1 - from, k requires 0 <= k < to + 1 - from => l2[from - 1 + k].hash)
  }

  /** First L2 height of the commitment with index `i`, when its predecessor is committed. */
  function StartHeight(p: Params, s: Ledger, i: nat): Option<Height>
    requires i >= 1
  {
    if i == 1 then Some(p.start)
    else if i - 1 in s.committed then Some(s.committed[i - 1].end + 1)
    else None
  }

  function StorePending(s: Ledger, c: Commitment, found: nat): Ledger {
    s.(pending := s.pending[c.index := (c, found)])
  }

  function OnSlot(bySlot: map<nat, seq<Commitment>>, found: nat, c: Commitment): map<nat, seq<Commitment>> {
    if found !in bySlot then bySlot[found := [c]]
    else if c in bySlot[found] then bySlot
    else bySlot[found := bySlot[found] + [c]]
  }

  function Commit(s: Ledger, current: nat, found: nat, start: nat, c: Commitment): Ledger {
    s.(bySlot := OnSlot(s.bySlot, found, c),
       rangeOfRoot := s.rangeOfRoot[c.root := (start, c.end)],
       committed := s.committed[c.index := c],
       committedAt := s.committedAt[current := Mark(c.end, c.index)])
  }

  /** One sequencer commitment, found in L1 block `found` and processed while at L1 block `current`. */
  function ProcessCommitment(p: Params, s: Ledger, current: nat, found: nat, c: Commitment): (Ledger, Outcome) {
    if c.index in s.committed then
      (s, Discarded)
    else
      var mark := LatestMark(s.committedAt);
      if mark.Some? && (c.end <= mark.value.height || c.index <= mark.value.index) then
        (s, Discarded)
      else if c.index == 0 then
        (s, Panicked)  // `index - 1` underflows; callers filter index 0
      else
        match StartHeight(p, s, c.index)
        case None => (StorePending(s, c, found), Pending)
        case Some(start) =>
          if c.end > |s.l2| then
            (if c.index in s.pending then s else StorePending(s, c, found), Pending)
          else if c.end + 1 < start then
            (s, Panicked)  // the block range's length underflows
          else if c.end + 1 == start then
            (s, Failed)    // the empty tree has no root
          else if p.merkleRoot(BlockHashes(s.l2, start, c.end)) != c.root then
            (s, Halted)
          else
            (Commit(s, current, found, start, c), Success)
  }

  datatype HashCheck = Known(end: nat) | Awaited(end: nat) | Unknown | Mismatch

  /** Looks a commitment up, committed before pending, and compares its hash. */
  function CheckHash(p: Params, s: Ledger, i: nat, expected: Hash): HashCheck {
    if i in s.committed then
      if p.commitmentHash(s.committed[i]) == expected then Known(s.committed[i].end) else Mismatch
    else if i in s.pending then
      if p.commitmentHash(s.pending[i].0) == expected then Awaited(s.pending[i].0.end) else Mismatch
    else
      Unknown
  }

  /** Checks `hashes` against indices `i..last` pairwise; `None` when some commitment is unknown or
      differs, otherwise whether some commitment is only pending, or one was found so before. */
  function CheckHashes(p: Params, s: Ledger, i: nat, last: nat, hashes: seq<Hash>, awaited: bool): Option<bool>
    decreases |hashes|
  {
    if i > last || hashes == [] then
      Some(awaited)
    else
      var check := CheckHash(p, s, i, hashes[0]);
      if check.Unknown? || check.Mismatch? then None
      else CheckHashes(p, s, i + 1, last, hashes[1..], awaited || check.Awaited?)
  }

  /** State root after an L2 height; height 0 is genesis. */
  function StateRoot(p: Params, s: Ledger, height: nat): Option<Hash> {
    if height == 0 then Some(p.genesisRoot)
    else if height <= |s.l2| then Some(s.l2[height - 1].stateRoot)
    else None
  }

  function StorePendingProof(s: Ledger, o: ProofOutput, proof: Proof, found: nat): Ledger {
    s.(pendingProofs := s.pendingProofs[(o.first, o.last) := (proof, found)])
  }

  function AcceptProof(s: Ledger, current: nat, found: nat, proof: Proof, o: ProofOutput): Ledger {
    var there := if found in s.verified then s.verified[found] else [];
    s.(verified := s.verified[found := there + [proof]],
       provenAt := s.provenAt[current := Mark(o.lastL2Height, o.last)])
  }

  /** The commitment a proof builds on: its end height, or the height before Tangerine. */
  function CheckPredecessor(p: Params, s: Ledger, o: ProofOutput): HashCheck
    requires o.prevIndex.Some? ==> o.prevHash.Some?
  {
    if o.prevIndex.Some? then CheckHash(p, s, o.prevIndex.value, o.prevHash.value)
    else Known(p.start - 1)
  }

  /** A proof with output `o` that the zkVM verified. */
  function ProcessVerifiedProof(p: Params, s: Ledger, current: nat, found: nat, proof: Proof,
                                o: ProofOutput): (Ledger, Outcome)
  {
    var proven := OrZero(LatestMark(s.provenAt));
    if o.lastL1Hash !in s.l1Heights then (s, Skipped)
    else if o.lastL2Height <= proven.height || o.last <= proven.index then (s, Discarded)
    else if MarkAbove(proven, OrZero(LatestMark(s.committedAt))) then (s, Panicked)
    else if o.prevIndex.Some? && o.prevHash.None? then (s, Panicked)
    else
      var prev := CheckPredecessor(p, s, o);
      if prev.Unknown? || prev.Mismatch? then (s, Skipped)
      else
        var checked := CheckHashes(p, s, o.first, o.last, o.hashes, prev.Awaited?);
        if checked.None? then (s, Skipped)
        else if checked.value then (StorePendingProof(s, o, proof, found), Pending)
        else
          var root := StateRoot(p, s, prev.end);
          if root.None? then (s, Failed)
          else if root.value != o.initialRoot then (s, Skipped)
          else if o.first > proven.index + 1 then (StorePendingProof(s, o, proof, found), Pending)
          else (AcceptProof(s, current, found, proof, o), Success)
  }

  function ProcessProof(p: Params, s: Ledger, current: nat, found: nat, proof: Proof): (Ledger, Outcome) {
    if proof.output.None? || !proof.verifies then (s, Discarded)
    else ProcessVerifiedProof(p, s, current, found, proof, proof.output.value)
  }

  function DropPending(s: Ledger, i: nat): Ledger {
    s.(pending := s.pending - {i})
  }

  /** A pending commitment is worth trying once its blocks (index 1) or its predecessor are there. */
  predicate Processable(s: Ledger, i: nat, c: Commitment)
    requires i >= 1
  {
    if i == 1 then c.end <= |s.l2| else i - 1 in s.committed
  }

  /** Whether a retry loop goes on to the next item or stops, and with what result. */
  datatype Progress = Continue | Stop(result: Outcome)

  /** Retries one pending commitment. */
  function RetryCommitment(p: Params, s: Ledger, current: nat, i: nat, item: (Commitment, nat)): (Ledger, Progress) {
    if i == 0 then (s, Stop(Panicked))
    else if !Processable(s, i, item.0) then (s, Stop(Success))
    else
      var (t, outcome) := ProcessCommitment(p, s, current, item.1, item.0);
      match outcome
      case Success => (DropPending(t, i), Continue)
      case Discarded => (DropPending(t, i), Continue)
      case Pending => (t, Continue)
      case Halted => (t, Stop(Halted))
      case Panicked => (t, Stop(Panicked))
      case _ => (t, Stop(Success))
  }

  /** Retries the commitments of a snapshot of the pending table, in ascending index order. */
  function DrainFrom(p: Params, s: Ledger, current: nat, keys: seq<nat>,
                     snapshot: map<nat, (Commitment, nat)>): (Ledger, Outcome)
    requires forall k :: k in keys ==> k in snapshot
    decreases |keys|
  {
    if keys == [] then (s, Success)
    else
      var (t, next) := RetryCommitment(p, s, current, keys[0], snapshot[keys[0]]);
      if next.Stop? then (t, next.result) else DrainFrom(p, t, current, keys[1..], snapshot)
  }

  function DrainCommitments(p: Params, s: Ledger, current: nat): (Ledger, Outcome) {
    DrainFrom(p, s, current, AscendingNats(s.pending.Keys), s.pending)
  }

  function DropPendingProof(s: Ledger, k: (nat, nat)): Ledger {
    s.(pendingProofs := s.pendingProofs - {k})
  }

  /** Retries one pending proof. */
  function RetryProof(p: Params, s: Ledger, current: nat, key: (nat, nat), item: (Proof, nat)): (Ledger, Progress) {
    var (t, outcome) := ProcessProof(p, s, current, item.1, item.0);
    match outcome
    case Success => (DropPendingProof(t, key), Continue)
    case Discarded => (DropPendingProof(t, key), Continue)
    case Panicked => (t, Stop(Panicked))
    case _ => (t, Stop(Success))
  }

  /** Retries the proofs of a snapshot of the pending table until one is not settled. */
  function DrainProofsFrom(p: Params, s: Ledger, current: nat, keys: seq<(nat, nat)>,
                           snapshot: map<(nat, nat), (Proof, nat)>): (Ledger, Outcome)
    requires forall k :: k in keys ==> k in snapshot
    decreases |keys|
  {
    if keys == [] then (s, Success)
    else
      var (t, next) := RetryProof(p, s, current, keys[0], snapshot[keys[0]]);
      if next.Stop? then (t, next.result) else DrainProofsFrom(p, t, current, keys[1..], snapshot)
  }

  function DrainProofs(p: Params, s: Ledger, current: nat): (Ledger, Outcome) {
    DrainProofsFrom(p, s, current, AscendingPairs(s.pendingProofs.Keys), s.pendingProofs)
  }
}
