/**
 The rollup's transactions in a Bitcoin block: what the native side extracts from a block together with
 its proof, and what the verifier accepts for a block header.
 */
module RelevantTxs {
  import opened Wrappers
  import opened Powers
  import opened MerkleTree

  const MINIMUM_WITNESS_COMMITMENT_SIZE: nat := 38
  const WITNESS_COMMITMENT_PREFIX: seq<Byte> := [0x6a, 0x24, 0xaa, 0x21, 0xa9, 0xed]

  /** What the inscription of a transaction parses to. `hash` is present when the signature verifies. */
  datatype Parsed =
    | Complete(body: seq<Byte>, publicKey: seq<Byte>, hash: Option<Bytes32>)
    | Aggregate(body: seq<Byte>, publicKey: seq<Byte>, hash: Option<Bytes32>)
    | Chunk(body: seq<Byte>)
    | BatchProofMethodId(body: seq<Byte>, digest: Bytes32)
    | SequencerCommitment(body: seq<Byte>, publicKey: seq<Byte>, hash: Option<Bytes32>)

  /** A transaction by what is read of it: its ids, output scripts, the witness of its first input, and
      its parse, which lives in that witness. */
  datatype Tx = Tx(
    txid: Bytes32,
    wtxid: Bytes32,
    scripts: seq<seq<Byte>>,
    stack: seq<seq<Byte>>,
    parsed: Option<Parsed>)

  datatype Header = Header(merkleRoot: Bytes32, txCount: nat, txsCommitment: Bytes32)

  datatype Block = Block(header: Header, txs: seq<Tx>)

  datatype Blob = Blob(body: seq<Byte>, sender: seq<Byte>, hash: Bytes32, wtxid: Bytes32)

  datatype InclusionProof = InclusionProof(wtxids: seq<Bytes32>, coinbase: Tx, path: seq<Bytes32>)

  datatype Error =
    | HeaderInclusionTxCountMismatch
    | RelevantTxNotInProof
    | InvalidSegWitCommitment
    | InvalidBlock
    | InvalidWitnessCommitmentStructure
    | IncorrectWitnessCommitment
    | IncorrectTxidCommitment
    | Panicked

  datatype Result = Ok(blobs: seq<Blob>) | Err(error: Error)

  predicate StartsWith(s: seq<Byte>, prefix: seq<Byte>) {
    |prefix| <= |s| && s[..|prefix|] == prefix
  }

  predicate AllZero(prefix: seq<Byte>) {
    forall i :: 0 <= i < |prefix| ==> prefix[i] == 0
  }

  /** The blob a transaction stands for, if it parses and, where it carries one, its signature verifies. */
  function BlobOf(parsed: Option<Parsed>, wtxid: Bytes32): Option<Blob> {
    match parsed
    case None => None
    case Some(Complete(body, key, hash)) => if hash.Some? then Some(Blob(body, key, hash.value, wtxid)) else None
    case Some(Aggregate(body, key, hash)) => if hash.Some? then Some(Blob(body, key, hash.value, wtxid)) else None
    case Some(Chunk(body)) => Some(Blob(body, [], ZERO, wtxid))
    case Some(BatchProofMethodId(body, digest)) => Some(Blob(body, ZERO, digest, wtxid))
    case Some(SequencerCommitment(body, key, hash)) =>
      if hash.Some? then Some(Blob(body, key, hash.value, wtxid)) else None
  }

  function Blobs(txs: seq<Tx>): seq<Blob> {
    if txs == [] then []
    else (var b := BlobOf(txs[0].parsed, txs[0].wtxid); if b.Some? then [b.value] else []) + Blobs(txs[1..])
  }

  function Wtxids(txs: seq<Tx>): (r: seq<Bytes32>)
    ensures |r| == |txs|
    ensures forall i :: 0 <= i < |txs| ==> r[i] == txs[i].wtxid
  {
    if txs == [] then [] else [txs[0].wtxid] + Wtxids(txs[1..])
  }

  function Txids(txs: seq<Tx>): (r: seq<Bytes32>)
    ensures |r| == |txs|
    ensures forall i :: 0 <= i < |txs| ==> r[i] == txs[i].txid
  {
    if txs == [] then [] else [txs[0].txid] + Txids(txs[1..])
  }

  /** Transactions whose wtxid starts with the prefix, in order. */
  function Relevant(txs: seq<Tx>, prefix: seq<Byte>): seq<Tx> {
    if txs == [] then []
    else (if StartsWith(txs[0].wtxid, prefix) then [txs[0]] else []) + Relevant(txs[1..], prefix)
  }

  function RelevantIds(wtxids: seq<Bytes32>, prefix: seq<Byte>): seq<Bytes32> {
    if wtxids == [] then []
    else (if StartsWith(wtxids[0], prefix) then [wtxids[0]] else []) + RelevantIds(wtxids[1..], prefix)
  }

  // ----- what the lists hold

  /** The transaction parses, and its signature verifies where its kind carries one. */
  ghost predicate Carries(tx: Tx) {
    tx.parsed.Some? &&
    match tx.parsed.value
    case Complete(_, _, hash) => hash.Some?
    case Aggregate(_, _, hash) => hash.Some?
    case SequencerCommitment(_, _, hash) => hash.Some?
    case Chunk(_) => true
    case BatchProofMethodId(_, _) => true
  }

  /** The blob has the transaction's body and wtxid. A signed kind gives the signer's key and the hash that was
      signed; a chunk has neither, and a method id update has a zero sender and its own digest. */
  ghost predicate IsBlobOf(blob: Blob, tx: Tx) {
    && tx.parsed.Some?
    && blob.wtxid == tx.wtxid
    && blob.body == tx.parsed.value.body
    && match tx.parsed.value
       case Complete(_, key, hash) => blob.sender == key && hash == Some(blob.hash)
       case Aggregate(_, key, hash) => blob.sender == key && hash == Some(blob.hash)
       case SequencerCommitment(_, key, hash) => blob.sender == key && hash == Some(blob.hash)
       case Chunk(_) => blob.sender == [] && forall i :: 0 <= i < 32 ==> blob.hash[i] == 0
       case BatchProofMethodId(_, digest) =>
         blob.hash == digest && |blob.sender| == 32 && forall i :: 0 <= i < 32 ==> blob.sender[i] == 0
  }

  /** Positions in a list of `n` entries, in ascending order. */
  ghost predicate Positions(pos: seq<nat>, n: nat) {
    && (forall j :: 0 <= j < |pos| ==> pos[j] < n)
    && (forall i, j :: 0 <= i < j < |pos| ==> pos[i] < pos[j])
  }

  /** Exactly the transactions at these positions carry a blob. */
  ghost predicate CarriersAt(txs: seq<Tx>, pos: seq<nat>) {
    forall i :: 0 <= i < |txs| ==> (i in pos <==> Carries(txs[i]))
  }

  /** The blobs are those of the transactions at these positions. */
  ghost predicate EntriesAt(txs: seq<Tx>, blobs: seq<Blob>, pos: seq<nat>) {
    |blobs| == |pos| && forall j :: 0 <= j < |pos| ==> pos[j] < |txs| && IsBlobOf(blobs[j], txs[pos[j]])
  }

  ghost predicate BlobsAt(txs: seq<Tx>, blobs: seq<Blob>, pos: seq<nat>) {
    Positions(pos, |txs|) && CarriersAt(txs, pos) && EntriesAt(txs, blobs, pos)
  }

  /** One blob per transaction that carries one, in order. */
  ghost predicate ListsBlobs(txs: seq<Tx>, blobs: seq<Blob>) {
    exists pos :: BlobsAt(txs, blobs, pos)
  }

  /** Exactly the transactions at these positions have a wtxid that begins with the prefix. */
  ghost predicate BeginAt(txs: seq<Tx>, prefix: seq<Byte>, pos: seq<nat>) {
    forall i :: 0 <= i < |txs| ==> (i in pos <==> Begins(txs[i].wtxid, prefix))
  }

  ghost predicate TxsAt(txs: seq<Tx>, relevant: seq<Tx>, pos: seq<nat>) {
    |relevant| == |pos| && forall j :: 0 <= j < |pos| ==> pos[j] < |txs| && relevant[j] == txs[pos[j]]
  }

  ghost predicate RelevantAt(txs: seq<Tx>, prefix: seq<Byte>, relevant: seq<Tx>, pos: seq<nat>) {
    Positions(pos, |txs|) && BeginAt(txs, prefix, pos) && TxsAt(txs, relevant, pos)
  }

  /** One entry per transaction whose wtxid begins with the prefix, in order. */
  ghost predicate ListsRelevant(txs: seq<Tx>, prefix: seq<Byte>, relevant: seq<Tx>) {
    exists pos :: RelevantAt(txs, prefix, relevant, pos)
  }

  ghost predicate Begins(id: Bytes32, prefix: seq<Byte>) {
    |prefix| <= 32 && forall k :: 0 <= k < |prefix| ==> id[k] == prefix[k]
  }

  ghost function Shifted(pos: seq<nat>): (r: seq<nat>)
    ensures |r| == |pos| && forall j :: 0 <= j < |pos| ==> r[j] == pos[j] + 1
  {
    seq(|pos|, j requires 0 <= j < |pos| => pos[j] + 1)
  }

  /** Position 0 is there or not, and the others are those of the tail. */
  ghost predicate Follows(r: seq<nat>, tail: seq<nat>, head: bool) {
    (0 in r <==> head) && forall i {:trigger i in r} :: 0 < i ==> (i in r <==> i - 1 in tail)
  }

  lemma MovedFollow(pos: seq<nat>)
    ensures Follows(Shifted(pos), pos, false)
  {
    var moved := Shifted(pos);
    forall i | 0 < i
      ensures i in moved <==> i - 1 in pos
    {
      if i - 1 in pos {
        var j :| 0 <= j < |pos| && pos[j] == i - 1;
        assert moved[j] == i;
      }
      if i in moved {
        var j :| 0 <= j < |moved| && moved[j] == i;
        assert pos[j] == i - 1;
      }
    }
  }

  lemma FirstFollows(moved: seq<nat>, pos: seq<nat>)
    requires Follows(moved, pos, false)
    ensures Follows([0] + moved, pos, true)
  {
    forall i | 0 < i
      ensures i in [0] + moved <==> i - 1 in pos
    {
      assert i in [0] + moved <==> i in moved;
    }
  }

  /** Positions in the tail, moved by one, without or with position 0 before them. */
  lemma PositionsShift(pos: seq<nat>, n: nat)
    requires Positions(pos, n)
    ensures Positions(Shifted(pos), n + 1) && Follows(Shifted(pos), pos, false)
    ensures Positions([0] + Shifted(pos), n + 1) && Follows([0] + Shifted(pos), pos, true)
  {
    hide Follows;
    MovedFollow(pos);
    FirstFollows(Shifted(pos), pos);
  }

  lemma BlobFields(tx: Tx)
    ensures BlobOf(tx.parsed, tx.wtxid).Some? <==> Carries(tx)
    ensures Carries(tx) ==> IsBlobOf(BlobOf(tx.parsed, tx.wtxid).value, tx)
  {
  }

  lemma EntriesShift(txs: seq<Tx>, blobs: seq<Blob>, tail: seq<nat>)
    requires txs != [] && EntriesAt(txs[1..], blobs, tail)
    ensures EntriesAt(txs, blobs, Shifted(tail))
  {
    hide IsBlobOf;
    var pos := Shifted(tail);
    forall j | 0 <= j < |pos|
      ensures pos[j] < |txs| && IsBlobOf(blobs[j], txs[pos[j]])
    {
      assert txs[pos[j]] == txs[1..][tail[j]];
    }
  }

  lemma EntriesPrepend(txs: seq<Tx>, blobs: seq<Blob>, pos: seq<nat>, blob: Blob)
    requires txs != [] && EntriesAt(txs, blobs, pos) && IsBlobOf(blob, txs[0])
    ensures EntriesAt(txs, [blob] + blobs, [0] + pos)
  {
    hide IsBlobOf;
  }

  lemma CarriersShift(txs: seq<Tx>, tail: seq<nat>, pos: seq<nat>)
    requires txs != [] && CarriersAt(txs[1..], tail) && Follows(pos, tail, Carries(txs[0]))
    ensures CarriersAt(txs, pos)
  {
    hide Carries;
    forall i | 0 <= i < |txs|
      ensures i in pos <==> Carries(txs[i])
    {
      assert i > 0 ==> txs[i] == txs[1..][i - 1];
    }
  }

  lemma BlobsWithFirst(txs: seq<Tx>, blobs: seq<Blob>, tail: seq<nat>, blob: Blob)
    requires txs != [] && BlobsAt(txs[1..], blobs, tail) && Carries(txs[0]) && IsBlobOf(blob, txs[0])
    ensures BlobsAt(txs, [blob] + blobs, [0] + Shifted(tail))
  {
    hide Carries, IsBlobOf, Positions, CarriersAt, EntriesAt, Follows, Shifted;
    PositionsShift(tail, |txs| - 1);
    EntriesShift(txs, blobs, tail);
    CarriersShift(txs, tail, [0] + Shifted(tail));
    EntriesPrepend(txs, blobs, Shifted(tail), blob);
  }

  lemma BlobsWithoutFirst(txs: seq<Tx>, blobs: seq<Blob>, tail: seq<nat>)
    requires txs != [] && BlobsAt(txs[1..], blobs, tail) && !Carries(txs[0])
    ensures BlobsAt(txs, blobs, Shifted(tail))
  {
    hide Carries, IsBlobOf, Positions, CarriersAt, EntriesAt, Follows, Shifted;
    PositionsShift(tail, |txs| - 1);
    EntriesShift(txs, blobs, tail);
    CarriersShift(txs, tail, Shifted(tail));
  }

  lemma NoBlobsInNothing()
    ensures BlobsAt([], [], [])
  {
  }

  /** The blobs are those of the transactions that carry one, in order. */
  lemma {:induction false} BlobsInOrder(txs: seq<Tx>) returns (pos: seq<nat>)
    ensures BlobsAt(txs, Blobs(txs), pos)
    decreases |txs|
  {
    hide BlobOf, BlobsAt, Carries, IsBlobOf, Shifted;
    if txs == [] {
      NoBlobsInNothing();
      pos := [];
    } else {
      var tail := BlobsInOrder(txs[1..]);
      var rest := Blobs(txs[1..]);
      BlobFields(txs[0]);
      if Carries(txs[0]) {
        BlobsWithFirst(txs, rest, tail, BlobOf(txs[0].parsed, txs[0].wtxid).value);
        pos := [0] + Shifted(tail);
      } else {
        BlobsWithoutFirst(txs, rest, tail);
        assert [] + rest == rest;
        pos := Shifted(tail);
      }
    }
  }

  lemma BlobsAreListed(txs: seq<Tx>)
    ensures ListsBlobs(txs, Blobs(txs))
  {
    var pos := BlobsInOrder(txs);
  }

  lemma StartsBegins(id: Bytes32, prefix: seq<Byte>)
    ensures StartsWith(id, prefix) <==> Begins(id, prefix)
  {
    if StartsWith(id, prefix) {
      assert forall k :: 0 <= k < |prefix| ==> id[k] == id[..|prefix|][k];
    }
  }

  lemma BeginShift(txs: seq<Tx>, prefix: seq<Byte>, tail: seq<nat>, pos: seq<nat>)
    requires txs != [] && BeginAt(txs[1..], prefix, tail) && Follows(pos, tail, Begins(txs[0].wtxid, prefix))
    ensures BeginAt(txs, prefix, pos)
  {
    hide Begins;
    forall i | 0 <= i < |txs|
      ensures i in pos <==> Begins(txs[i].wtxid, prefix)
    {
      assert i > 0 ==> txs[i] == txs[1..][i - 1];
    }
  }

  lemma TxsShift(txs: seq<Tx>, relevant: seq<Tx>, tail: seq<nat>)
    requires txs != [] && TxsAt(txs[1..], relevant, tail)
    ensures TxsAt(txs, relevant, Shifted(tail)) && TxsAt(txs, [txs[0]] + relevant, [0] + Shifted(tail))
  {
  }

  /** Adding the first transaction, at position 0 if its wtxid begins with the prefix. */
  lemma RelevantFrom(txs: seq<Tx>, prefix: seq<Byte>, relevant: seq<Tx>, tail: seq<nat>)
    requires txs != [] && RelevantAt(txs[1..], prefix, relevant, tail)
    ensures Begins(txs[0].wtxid, prefix) ==> RelevantAt(txs, prefix, [txs[0]] + relevant, [0] + Shifted(tail))
    ensures !Begins(txs[0].wtxid, prefix) ==> RelevantAt(txs, prefix, relevant, Shifted(tail))
  {
    hide Begins, Positions, BeginAt, TxsAt, Follows, Shifted;
    PositionsShift(tail, |txs| - 1);
    TxsShift(txs, relevant, tail);
    if Begins(txs[0].wtxid, prefix) {
      BeginShift(txs, prefix, tail, [0] + Shifted(tail));
    } else {
      BeginShift(txs, prefix, tail, Shifted(tail));
    }
  }

  lemma RelevantInNothing(prefix: seq<Byte>)
    ensures RelevantAt([], prefix, [], [])
  {
  }

  lemma RelevantTurn(txs: seq<Tx>, prefix: seq<Byte>)
    requires txs != []
    ensures Relevant(txs, prefix) ==
      if Begins(txs[0].wtxid, prefix) then [txs[0]] + Relevant(txs[1..], prefix) else Relevant(txs[1..], prefix)
  {
    hide Begins, StartsWith;
    StartsBegins(txs[0].wtxid, prefix);
    var rest := Relevant(txs[1..], prefix);
    assert [] + rest == rest;
  }

  /** The relevant transactions are those of the block whose wtxid begins with the prefix, in block order. */
  lemma {:induction false} RelevantInOrder(txs: seq<Tx>, prefix: seq<Byte>) returns (pos: seq<nat>)
    ensures RelevantAt(txs, prefix, Relevant(txs, prefix), pos)
    decreases |txs|
  {
    hide Begins, RelevantAt, Shifted;
    if txs == [] {
      RelevantInNothing(prefix);
      pos := [];
    } else {
      var tail := RelevantInOrder(txs[1..], prefix);
      RelevantTurn(txs, prefix);
      RelevantFrom(txs, prefix, Relevant(txs[1..], prefix), tail);
      pos := if Begins(txs[0].wtxid, prefix) then [0] + Shifted(tail) else Shifted(tail);
    }
  }

  lemma RelevantAreListed(txs: seq<Tx>, prefix: seq<Byte>)
    ensures ListsRelevant(txs, prefix, Relevant(txs, prefix))
  {
    var pos := RelevantInOrder(txs, prefix);
  }

  predicate IsCommitmentScript(script: seq<Byte>) {
    |script| >= MINIMUM_WITNESS_COMMITMENT_SIZE && StartsWith(script, WITNESS_COMMITMENT_PREFIX)
  }

  /** The output script with the highest index that has the form of a witness commitment. */
  function CommitmentScript(scripts: seq<seq<Byte>>): (r: Option<seq<Byte>>)
    ensures r.Some? ==> r.value in scripts && IsCommitmentScript(r.value)
  {
    if scripts == [] then None
    else if IsCommitmentScript(scripts[|scripts| - 1]) then Some(scripts[|scripts| - 1])
    else CommitmentScript(scripts[..|scripts| - 1])
  }

  /** A script of at least 38 bytes that begins with the six bytes prescribed. */
  lemma CommitmentForm(script: seq<Byte>)
    ensures IsCommitmentScript(script) <==> |script| >= 38 && script[..6] == [0x6a, 0x24, 0xaa, 0x21, 0xa9, 0xed]
  {
  }

  /** There is none exactly when no script has that form, and otherwise it is the last one that has. */
  lemma {:induction false} CommitmentIsLast(scripts: seq<seq<Byte>>) returns (i: nat)
    ensures CommitmentScript(scripts).None? <==> forall k :: 0 <= k < |scripts| ==> !IsCommitmentScript(scripts[k])
    ensures CommitmentScript(scripts).Some? ==>
      && i < |scripts| && CommitmentScript(scripts) == Some(scripts[i]) && IsCommitmentScript(scripts[i])
      && forall k :: i < k < |scripts| ==> !IsCommitmentScript(scripts[k])
    decreases |scripts|
  {
    hide IsCommitmentScript;
    i := 0;
    if scripts == [] {
    } else if IsCommitmentScript(scripts[|scripts| - 1]) {
      i := |scripts| - 1;
    } else {
      i := CommitmentIsLast(scripts[..|scripts| - 1]);
      assert forall k :: 0 <= k < |scripts| - 1 ==> scripts[..|scripts| - 1][k] == scripts[k];
    }
  }

  /** Looks for the commitment from the last output script back. */
  method FindCommitment(scripts: seq<seq<Byte>>) returns (r: Option<seq<Byte>>)
    ensures r == CommitmentScript(scripts)
  {
    hide IsCommitmentScript;
    var n := |scripts|;
    assert scripts[..n] == scripts;
    while n > 0
      invariant n <= |scripts|
      invariant CommitmentScript(scripts[..n]) == CommitmentScript(scripts)
    {
      assert scripts[..n][..n - 1] == scripts[..n - 1];
      if IsCommitmentScript(scripts[n - 1]) {
        return Some(scripts[n - 1]);
      }
      n := n - 1;
    }
    r := None;
  }

  // ----- extraction

  /** The leaves of the witness tree: the coinbase counts as zero in a block with a witness commitment. */
  function WitnessLeaves(txs: seq<Tx>): (r: seq<Bytes32>)
    requires txs != []
    ensures |r| == |txs|
  {
    [if CommitmentScript(txs[0].scripts).Some? then ZERO else txs[0].wtxid] + Wtxids(txs[1..])
  }

  function WitnessRoot(sha: Digest, txs: seq<Tx>): Bytes32
    requires txs != []
  {
    if |txs| == 1 then ZERO else Root(sha, WitnessLeaves(txs))
  }

  /** The leaves that section "Commitment structure" of BIP 141 prescribes: the coinbase always counts as zero. */
  function Bip141Leaves(txs: seq<Tx>): seq<Bytes32>
    requires txs != []
  {
    [ZERO] + Wtxids(txs[1..])
  }

  method CollectLeaves(txs: seq<Tx>) returns (leaves: seq<Bytes32>)
    requires txs != []
    ensures leaves == WitnessLeaves(txs)
  {
    hide CommitmentScript;
    var commitment := FindCommitment(txs[0].scripts);
    leaves := [if commitment.Some? then ZERO else txs[0].wtxid];
    for i := 1 to |txs|
      invariant |leaves| == i && leaves[0] == WitnessLeaves(txs)[0]
      invariant forall k :: 1 <= k < i ==> leaves[k] == txs[k].wtxid
    {
      leaves := leaves + [txs[i].wtxid];
    }
  }

  /** The leaves are collected one by one and hashed into a tree; `None` is the abort on an empty list or on
      equal siblings. */
  method CalculateWitnessRoot(sha: Digest, txs: seq<Tx>, txCount: nat) returns (root: Option<Bytes32>)
    ensures txCount == 1 ==> root == Some(ZERO)
    ensures txCount != 1 && txs == [] ==> root == None
    ensures txCount != 1 && txs != [] ==>
      root == if Healthy(sha, WitnessLeaves(txs)) then Some(Root(sha, WitnessLeaves(txs))) else None
  {
    hide Healthy, Root, Levels, WitnessLeaves;
    if txCount == 1 {
      return Some(ZERO);
    }
    if txs == [] {
      return None;
    }
    var leaves := CollectLeaves(txs);
    var nodes, ok := BuildTree(sha, leaves);
    root := if ok then Some(nodes[|nodes| - 1][0]) else None;
  }

  /** The completeness list: the coinbase only under an all-zero prefix, then the relevant rest. */
  function CompletenessList(txs: seq<Tx>, prefix: seq<Byte>): seq<Tx>
    requires txs != []
  {
    (if AllZero(prefix) then [txs[0]] else []) + Relevant(txs[1..], prefix)
  }

  function ExtractedInclusion(sha: Digest, txs: seq<Tx>): InclusionProof
    requires txs != []
  {
    InclusionProof(Bip141Leaves(txs), txs[0], Path(sha, Txids(txs), 0))
  }

  lemma BlobsStep(txs: seq<Tx>, i: nat)
    requires i < |txs|
    ensures var b := BlobOf(txs[i].parsed, txs[i].wtxid);
      Blobs(txs[i..]) == (if b.Some? then [b.value] else []) + Blobs(txs[i + 1..])
  {
    assert txs[i..][0] == txs[i] && txs[i..][1..] == txs[i + 1..];
  }

  lemma RelevantStep(txs: seq<Tx>, i: nat, prefix: seq<Byte>)
    requires i < |txs|
    ensures Relevant(txs[i..], prefix)
         == (if StartsWith(txs[i].wtxid, prefix) then [txs[i]] else []) + Relevant(txs[i + 1..], prefix)
  {
    hide StartsWith;
    assert txs[i..][0] == txs[i] && txs[i..][1..] == txs[i + 1..];
  }

  method CollectBlobs(txs: seq<Tx>) returns (blobs: seq<Blob>)
    ensures blobs == Blobs(txs)
  {
    assert txs[0..] == txs && Blobs([]) == [];
    hide BlobOf, Blobs;
    blobs := [];
    for i := 0 to |txs|
      invariant blobs + Blobs(txs[i..]) == Blobs(txs)
    {
      BlobsStep(txs, i);
      var b := BlobOf(txs[i].parsed, txs[i].wtxid);
      if b.Some? {
        blobs := blobs + [b.value];
      }
    }
  }

  /** The ids of the first `n` transactions, with a zero for the coinbase. */
  ghost predicate IdsUpTo(txs: seq<Tx>, n: nat, wtxids: seq<Bytes32>) {
    && 1 <= |wtxids| == n <= |txs| && wtxids[0] == ZERO
    && forall k :: 1 <= k < n ==> wtxids[k] == txs[k].wtxid
  }

  lemma OneMoreId(txs: seq<Tx>, n: nat, wtxids: seq<Bytes32>)
    requires IdsUpTo(txs, n, wtxids) && n < |txs|
    ensures IdsUpTo(txs, n + 1, wtxids + [txs[n].wtxid])
  {
  }

  lemma AllIds(txs: seq<Tx>, wtxids: seq<Bytes32>)
    requires IdsUpTo(txs, |txs|, wtxids)
    ensures wtxids == Bip141Leaves(txs)
  {
  }

  /** Walks the transactions once, filling the list of wtxids and the completeness list. */
  method CollectLists(txs: seq<Tx>, prefix: seq<Byte>) returns (wtxids: seq<Bytes32>, completeness: seq<Tx>)
    requires txs != []
    ensures wtxids == Bip141Leaves(txs)
    ensures completeness == CompletenessList(txs, prefix)
  {
    wtxids := [ZERO];
    assert Relevant([], prefix) == [] && IdsUpTo(txs, 1, wtxids);
    hide StartsWith, AllZero, Relevant, Bip141Leaves, IdsUpTo;
    completeness := if AllZero(prefix) then [txs[0]] else [];
    ghost var goal := completeness + Relevant(txs[1..], prefix);
    for i := 1 to |txs|
      invariant IdsUpTo(txs, i, wtxids)
      invariant completeness + Relevant(txs[i..], prefix) == goal
    {
      RelevantStep(txs, i, prefix);
      OneMoreId(txs, i, wtxids);
      if StartsWith(txs[i].wtxid, prefix) {
        completeness := completeness + [txs[i]];
      }
      wtxids := wtxids + [txs[i].wtxid];
    }
    AllIds(txs, wtxids);
  }

  /** Extraction of the blobs and of their proof. It requires what the source asserts: the txid tree is
      that of the header. */
  method ExtractRelevantBlobs(sha: Digest, prefix: seq<Byte>, block: Block)
      returns (blobs: seq<Blob>, inclusion: InclusionProof, completeness: seq<Tx>)
    requires block.txs != []
    requires Healthy(sha, Txids(block.txs)) && Root(sha, Txids(block.txs)) == block.header.merkleRoot
    ensures inclusion == ExtractedInclusion(sha, block.txs)
    ensures completeness == CompletenessList(block.txs, prefix)
    ensures AllZero(prefix) ==> completeness != [] && completeness[0] == block.txs[0]
    ensures ListsRelevant(block.txs[1..], prefix, if AllZero(prefix) then completeness[1..] else completeness)
    ensures blobs == Blobs(completeness) && ListsBlobs(completeness, blobs)
  {
    hide Healthy, Root, Path, Levels, ListsBlobs, Blobs, ListsRelevant, AllZero, Relevant;
    var wtxids;
    wtxids, completeness := CollectLists(block.txs, prefix);
    var txids := Txids(block.txs);
    var nodes, ok := BuildTree(sha, txids);
    var path := GetIdxPath(nodes, 0, sha, txids);
    inclusion := InclusionProof(wtxids, block.txs[0], path);
    blobs := CollectBlobs(completeness);
    BlobsAreListed(completeness);
    RelevantAreListed(block.txs[1..], prefix);
    assert AllZero(prefix) ==> completeness[1..] == Relevant(block.txs[1..], prefix);
    assert !AllZero(prefix) ==> completeness == Relevant(block.txs[1..], prefix);
  }

  // ----- verification

  /** Matches the relevant ids with the supplied transactions one to one; lists of different length
      make the source's exact zip abort. */
  function MatchPairs(ids: seq<Bytes32>, txs: seq<Tx>): Result {
    if ids == [] && txs == [] then Ok([])
    else if ids == [] || txs == [] then Err(Panicked)
    else if txs[0].wtxid != ids[0] then Err(RelevantTxNotInProof)
    else
      var rest := MatchPairs(ids[1..], txs[1..]);
      if rest.Err? then rest
      else
        var b := BlobOf(txs[0].parsed, ids[0]);
        Ok((if b.Some? then [b.value] else []) + rest.blobs)
  }

  /** The checks that tie the list of wtxids to the header. */
  function CheckWitness(sha: Digest, header: Header, inclusion: InclusionProof, blobs: seq<Blob>): Option<Error> {
    if header.txCount == 1 && header.txsCommitment != ZERO then Some(InvalidSegWitCommitment)
    else match CommitmentScript(inclusion.coinbase.scripts)
      case None =>
        if header.txCount > 1 && header.merkleRoot != header.txsCommitment then Some(InvalidSegWitCommitment)
        else if blobs != [] then Some(InvalidBlock)
        else None
      case Some(script) =>
        if inclusion.wtxids == [] || !Healthy(sha, inclusion.wtxids) then Some(Panicked)
        else if inclusion.coinbase.stack == [] then Some(InvalidWitnessCommitmentStructure)
        else
          var root := Root(sha, inclusion.wtxids);
          if script[6..38] != sha(root + inclusion.coinbase.stack[0]) then Some(IncorrectWitnessCommitment)
          else if root != header.txsCommitment then Some(InvalidSegWitCommitment)
          else None
  }

  function Verify(sha: Digest, prefix: seq<Byte>, header: Header, inclusion: InclusionProof,
                  completeness: seq<Tx>): Result
  {
    if header.txCount != |inclusion.wtxids| then Err(HeaderInclusionTxCountMismatch)
    else
      var matched := MatchPairs(RelevantIds(inclusion.wtxids, prefix), completeness);
      if matched.Err? then matched
      else
        var bad := CheckWitness(sha, header, inclusion, matched.blobs);
        if bad.Some? then Err(bad.value)
        else if Climb(sha, inclusion.coinbase.txid, 0, inclusion.path) != Some(header.merkleRoot) then
          Err(IncorrectTxidCommitment)
        else matched
  }

  /** The verifier's loop: compares pair by pair and collects blobs. */
  method MatchLoop(ids: seq<Bytes32>, txs: seq<Tx>) returns (r: Result)
    ensures r == MatchPairs(ids, txs)
  {
    hide BlobOf;
    var blobs: seq<Blob> := [];
    var i := 0;
    assert ids[0..] == ids && txs[0..] == txs;
    while i < |ids| && i < |txs|
      invariant 0 <= i <= |ids| && i <= |txs|
      invariant MatchPairs(ids, txs) == After(blobs, MatchPairs(ids[i..], txs[i..]))
    {
      assert ids[i..][0] == ids[i] && ids[i..][1..] == ids[i + 1..];
      assert txs[i..][0] == txs[i] && txs[i..][1..] == txs[i + 1..];
      if txs[i].wtxid != ids[i] {
        return Err(RelevantTxNotInProof);
      }
      var b := BlobOf(txs[i].parsed, ids[i]);
      AfterAfter(blobs, if b.Some? then [b.value] else [], MatchPairs(ids[i + 1..], txs[i + 1..]));
      if b.Some? {
        blobs := blobs + [b.value];
      }
      i := i + 1;
    }
    if i < |ids| || i < |txs| {
      return Err(Panicked);
    }
    assert blobs + [] == blobs;
    return Ok(blobs);
  }

  function After(blobs: seq<Blob>, r: Result): Result {
    if r.Err? then r else Ok(blobs + r.blobs)
  }

  lemma AfterAfter(a: seq<Blob>, b: seq<Blob>, r: Result)
    ensures After(a, After(b, r)) == After(a + b, r)
    ensures a + [] == a
  {
    if r.Ok? {
      assert a + (b + r.blobs) == (a + b) + r.blobs;
    }
  }

  /** The same checks with the verifier's own search and tree. */
  method CheckWitnessData(sha: Digest, header: Header, inclusion: InclusionProof, blobs: seq<Blob>)
      returns (bad: Option<Error>)
    ensures bad == CheckWitness(sha, header, inclusion, blobs)
  {
    hide Healthy, Root, Levels, StartsWith;
    if header.txCount == 1 && header.txsCommitment != ZERO {
      return Some(InvalidSegWitCommitment);
    }
    var commitment := FindCommitment(inclusion.coinbase.scripts);
    if commitment.None? {
      if header.txCount > 1 && header.merkleRoot != header.txsCommitment {
        return Some(InvalidSegWitCommitment);
      }
      return if blobs != [] then Some(InvalidBlock) else None;
    }
    var nodes, ok := BuildTree(sha, inclusion.wtxids);
    if !ok || inclusion.wtxids == [] {
      return Some(Panicked);
    }
    var root := nodes[|nodes| - 1][0];
    if inclusion.coinbase.stack == [] {
      return Some(InvalidWitnessCommitmentStructure);
    }
    if commitment.value[6..38] != sha(root + inclusion.coinbase.stack[0]) {
      return Some(IncorrectWitnessCommitment);
    }
    bad := if root != header.txsCommitment then Some(InvalidSegWitCommitment) else None;
  }

  method VerifyTransactions(sha: Digest, prefix: seq<Byte>, header: Header, inclusion: InclusionProof,
                            completeness: seq<Tx>)
      returns (r: Result)
    ensures r == Verify(sha, prefix, header, inclusion, completeness)
    ensures r.Ok? ==> ListsBlobs(completeness, r.blobs)
  {
    AcceptedIff(sha, prefix, header, inclusion, completeness);
    BlobsAreListed(completeness);
    hide ListsBlobs, Blobs, WitnessTied;
    if header.txCount != |inclusion.wtxids| {
      return Err(HeaderInclusionTxCountMismatch);
    }
    r := MatchLoop(RelevantIds(inclusion.wtxids, prefix), completeness);
    if r.Err? {
      return;
    }
    var bad := CheckWitnessData(sha, header, inclusion, r.blobs);
    if bad.Some? {
      return Err(bad.value);
    }
    var root := CalculateRoot(sha, inclusion.coinbase.txid, 0, inclusion.path);
    if root != Some(header.merkleRoot) {
      return Err(IncorrectTxidCommitment);
    }
  }

  // ----- agreement

  /** What Bitcoin's consensus rules make sure of: the Merkle root is that of the txids, neither tree has
      equal siblings, a witness commitment commits to the tree of BIP 141, and without one no transaction has
      witness data, hence none differs from its txid or carries an inscription. */
  ghost predicate FollowsRules(sha: Digest, merkleRoot: Bytes32, txs: seq<Tx>) {
    && txs != []
    && Healthy(sha, Txids(txs)) && merkleRoot == Root(sha, Txids(txs))
    && Healthy(sha, WitnessLeaves(txs))
    && match CommitmentScript(txs[0].scripts)
       case Some(script) =>
         txs[0].stack != [] && script[6..38] == sha(Root(sha, Bip141Leaves(txs)) + txs[0].stack[0])
       case None => forall t :: t in txs ==> t.wtxid == t.txid && t.parsed.None?
  }

  /** Such a block under the header the node wraps it in. */
  ghost predicate ConsensusValid(sha: Digest, block: Block) {
    && FollowsRules(sha, block.header.merkleRoot, block.txs)
    && block.header.txCount == |block.txs|
    && block.header.txsCommitment == WitnessRoot(sha, block.txs)
  }

  /** The witness root in the header is the root of BIP 141 that the coinbase's witness commitment commits to,
      also in a block with nothing but a coinbase, where it is set to zero outright. */
  lemma WitnessRootIsCommitted(sha: Digest, block: Block)
    requires ConsensusValid(sha, block) && CommitmentScript(block.txs[0].scripts).Some?
    ensures block.header.txsCommitment == Root(sha, Bip141Leaves(block.txs))
    ensures CommitmentScript(block.txs[0].scripts).value[6..38]
         == sha(block.header.txsCommitment + block.txs[0].stack[0])
  {
    assert WitnessLeaves(block.txs) == Bip141Leaves(block.txs);
  }

  /** Wraps the transactions of a fetched block. For a block that follows the rules this succeeds, the block
      is as the theorems below take it to be, and its witness root is that of BIP 141. */
  method WrapBlock(sha: Digest, merkleRoot: Bytes32, txs: seq<Tx>) returns (r: Option<Block>)
    ensures r.None? <==> |txs| != 1 && (txs == [] || !Healthy(sha, WitnessLeaves(txs)))
    ensures r.Some? ==> r.value.txs == txs && r.value.header.merkleRoot == merkleRoot
    ensures FollowsRules(sha, merkleRoot, txs) ==> r.Some? && ConsensusValid(sha, r.value)
    ensures FollowsRules(sha, merkleRoot, txs) && CommitmentScript(txs[0].scripts).Some? ==>
      r.value.header.txsCommitment == Root(sha, Bip141Leaves(txs))
  {
    hide Healthy, Root, CommitmentScript, WitnessLeaves, Bip141Leaves;
    var root := CalculateWitnessRoot(sha, txs, |txs|);
    if root.None? {
      return None;
    }
    r := Some(Block(Header(merkleRoot, |txs|, root.value), txs));
    if FollowsRules(sha, merkleRoot, txs) && CommitmentScript(txs[0].scripts).Some? {
      WitnessRootIsCommitted(sha, r.value);
    }
  }

  /** A block with an all-zero prefix that the verifier refuses as extracted: a coinbase alone whose own id
      is not zero. */
  lemma ZeroPrefixIsRefused(sha: Digest, id: Bytes32)
    requires id != ZERO
    ensures var block := Block(Header(id, 1, ZERO), [Tx(id, id, [], [], None)]);
      && ConsensusValid(sha, block)
      && Verify(sha, [0], block.header, ExtractedInclusion(sha, block.txs), CompletenessList(block.txs, [0])).Err?
  {
    var block := Block(Header(id, 1, ZERO), [Tx(id, id, [], [], None)]);
    assert Txids(block.txs) == [id] && WitnessLeaves(block.txs) == [id];
    ExtractionIsAccepted(sha, [0], block);
  }

  lemma {:induction false} RelevantMatch(txs: seq<Tx>, prefix: seq<Byte>)
    ensures RelevantIds(Wtxids(txs), prefix) == Wtxids(Relevant(txs, prefix))
    decreases |txs|
  {
    if txs == [] {
    } else {
      RelevantMatch(txs[1..], prefix);
      assert Wtxids(txs)[1..] == Wtxids(txs[1..]);
      if StartsWith(txs[0].wtxid, prefix) {
        var rest := Relevant(txs[1..], prefix);
        assert ([txs[0]] + rest)[1..] == rest;
      }
    }
  }

  /** Transactions matched with their own ids yield exactly their blobs. */
  lemma {:induction false} MatchOwnIds(txs: seq<Tx>)
    ensures MatchPairs(Wtxids(txs), txs) == Ok(Blobs(txs))
    decreases |txs|
  {
    if txs == [] {
    } else {
      assert Wtxids(txs)[1..] == Wtxids(txs[1..]);
      MatchOwnIds(txs[1..]);
    }
  }

  lemma {:induction false} MatchMeansOwnIds(ids: seq<Bytes32>, txs: seq<Tx>)
    requires MatchPairs(ids, txs).Ok?
    ensures ids == Wtxids(txs)
    decreases |ids|
  {
    if ids == [] {
    } else {
      MatchMeansOwnIds(ids[1..], txs[1..]);
      assert ids == [ids[0]] + ids[1..];
    }
  }

  /** What ties an inclusion proof and the blobs found to a header. */
  ghost predicate WitnessTied(sha: Digest, header: Header, inclusion: InclusionProof, blobs: seq<Blob>) {
    && (header.txCount == 1 ==> header.txsCommitment == ZERO)
    && match CommitmentScript(inclusion.coinbase.scripts)
       case None => (header.txCount > 1 ==> header.txsCommitment == header.merkleRoot) && blobs == []
       case Some(script) =>
         && inclusion.wtxids != [] && Healthy(sha, inclusion.wtxids) && inclusion.coinbase.stack != []
         && Root(sha, inclusion.wtxids) == header.txsCommitment
         && script[6..38] == sha(header.txsCommitment + inclusion.coinbase.stack[0])
  }

  /** The verifier accepts exactly when the supplied transactions are, id by id, the ones with the prefix
      among as many wtxids as the header counts, these and the coinbase are tied to the header, and the
      coinbase leads to its Merkle root. It then returns the blobs of the supplied transactions. */
  lemma AcceptedIff(sha: Digest, prefix: seq<Byte>, header: Header, inclusion: InclusionProof, completeness: seq<Tx>)
    ensures Verify(sha, prefix, header, inclusion, completeness).Ok? <==>
      && |inclusion.wtxids| == header.txCount
      && Wtxids(completeness) == RelevantIds(inclusion.wtxids, prefix)
      && WitnessTied(sha, header, inclusion, Blobs(completeness))
      && Climb(sha, inclusion.coinbase.txid, 0, inclusion.path) == Some(header.merkleRoot)
    ensures var r := Verify(sha, prefix, header, inclusion, completeness); r.Ok? ==> r == Ok(Blobs(completeness))
  {
    hide MatchPairs, RelevantIds, Climb, Root, Healthy, Blobs, CommitmentScript;
    var ids := RelevantIds(inclusion.wtxids, prefix);
    MatchOwnIds(completeness);
    if MatchPairs(ids, completeness).Ok? {
      MatchMeansOwnIds(ids, completeness);
    }
  }

  lemma {:induction false} MatchFails(ids: seq<Bytes32>, txs: seq<Tx>)
    ensures var differ := exists i :: 0 <= i < |ids| && i < |txs| && txs[i].wtxid != ids[i];
      && (MatchPairs(ids, txs) == Err(RelevantTxNotInProof) <==> differ)
      && (MatchPairs(ids, txs) == Err(Panicked) <==> !differ && |ids| != |txs|)
      && (MatchPairs(ids, txs).Ok? <==> !differ && |ids| == |txs|)
    decreases |ids|
  {
    if ids == [] || txs == [] {
    } else {
      hide BlobOf;
      MatchFails(ids[1..], txs[1..]);
      if txs[0].wtxid == ids[0] {
        assert forall i :: 0 < i < |ids| ==> ids[i] == ids[1..][i - 1];
        assert forall i :: 0 < i < |txs| ==> txs[i] == txs[1..][i - 1];
        assert forall i :: 0 <= i < |ids| - 1 ==> ids[1..][i] == ids[i + 1];
        assert forall i :: 0 <= i < |txs| - 1 ==> txs[1..][i] == txs[i + 1];
      }
    }
  }

  /** The list of wtxids has the length the header counts, the supplied transactions have the ids in it that
      start with the prefix, and a header of one transaction has no witness root. */
  ghost predicate Matched(prefix: seq<Byte>, header: Header, inclusion: InclusionProof, completeness: seq<Tx>) {
    && |inclusion.wtxids| == header.txCount && Wtxids(completeness) == RelevantIds(inclusion.wtxids, prefix)
    && (header.txCount == 1 ==> header.txsCommitment == ZERO)
  }

  /** What each refusal stands for. The checks are made in this order. */
  lemma RefusedBecause(sha: Digest, prefix: seq<Byte>, header: Header, inclusion: InclusionProof,
                       completeness: seq<Tx>)
    ensures var r := Verify(sha, prefix, header, inclusion, completeness);
      var ids := RelevantIds(inclusion.wtxids, prefix);
      var script := CommitmentScript(inclusion.coinbase.scripts);
      var matched := Matched(prefix, header, inclusion, completeness);
      var built := matched && script.Some? && inclusion.wtxids != [] && Healthy(sha, inclusion.wtxids);
      && (r == Err(HeaderInclusionTxCountMismatch) <==> header.txCount != |inclusion.wtxids|)
      && (r == Err(RelevantTxNotInProof) <==>
            && header.txCount == |inclusion.wtxids|
            && exists i :: 0 <= i < |ids| && i < |completeness| && completeness[i].wtxid != ids[i])
      && (r == Err(InvalidBlock) <==>
            && matched && script.None? && Blobs(completeness) != []
            && (header.txCount > 1 ==> header.merkleRoot == header.txsCommitment))
      && (r == Err(InvalidWitnessCommitmentStructure) <==> built && inclusion.coinbase.stack == [])
      && (r == Err(IncorrectWitnessCommitment) <==>
            && built && inclusion.coinbase.stack != []
            && script.value[6..38] != sha(Root(sha, inclusion.wtxids) + inclusion.coinbase.stack[0]))
      && (r == Err(IncorrectTxidCommitment) <==>
            && matched && WitnessTied(sha, header, inclusion, Blobs(completeness))
            && Climb(sha, inclusion.coinbase.txid, 0, inclusion.path) != Some(header.merkleRoot))
  {
    hide MatchPairs, RelevantIds, Climb, Root, Healthy, Blobs, CommitmentScript;
    var ids := RelevantIds(inclusion.wtxids, prefix);
    MatchFails(ids, completeness);
    MatchOwnIds(completeness);
    if MatchPairs(ids, completeness).Ok? {
      MatchMeansOwnIds(ids, completeness);
    }
  }

  lemma {:induction false} RelevantSubset(txs: seq<Tx>, prefix: seq<Byte>)
    ensures forall t :: t in Relevant(txs, prefix) ==> t in txs
    decreases |txs|
  {
    if txs == [] {
    } else {
      RelevantSubset(txs[1..], prefix);
    }
  }

  lemma {:induction false} UnparsedHaveNoBlobs(txs: seq<Tx>)
    requires forall t :: t in txs ==> t.parsed.None?
    ensures Blobs(txs) == []
    decreases |txs|
  {
    if txs == [] {
    } else {
      assert txs[0] in txs;
      UnparsedHaveNoBlobs(txs[1..]);
    }
  }

  lemma ZeroStarts(prefix: seq<Byte>)
    ensures StartsWith(ZERO, prefix) <==> AllZero(prefix) && |prefix| <= 32
  {
    if StartsWith(ZERO, prefix) {
      assert forall i :: 0 <= i < |prefix| ==> prefix[i] == ZERO[..|prefix|][i] == 0;
    }
    if |prefix| <= 32 && AllZero(prefix) {
      assert ZERO[..|prefix|] == prefix;
    }
  }

  /** The relevant ids of the extracted list of wtxids, and the ids of the extracted transactions. */
  lemma ExtractedIds(txs: seq<Tx>, prefix: seq<Byte>)
    requires txs != []
    ensures var tail := Wtxids(Relevant(txs[1..], prefix));
      RelevantIds([ZERO] + Wtxids(txs[1..]), prefix) == (if StartsWith(ZERO, prefix) then [ZERO] else []) + tail
    ensures var tail := Wtxids(Relevant(txs[1..], prefix));
      Wtxids(CompletenessList(txs, prefix)) == (if AllZero(prefix) then [txs[0].wtxid] else []) + tail
  {
    hide StartsWith, AllZero;
    var rest := Wtxids(txs[1..]);
    assert ([ZERO] + rest)[1..] == rest;
    RelevantMatch(txs[1..], prefix);
  }

  /** The extracted lists match, unless the prefix is all zero and the coinbase's own id is not. */
  lemma HonestMatch(txs: seq<Tx>, prefix: seq<Byte>)
    requires txs != []
    ensures var completeness := CompletenessList(txs, prefix);
      var matched := MatchPairs(RelevantIds([ZERO] + Wtxids(txs[1..]), prefix), completeness);
      if !AllZero(prefix) || (|prefix| <= 32 && txs[0].wtxid == ZERO)
      then matched == Ok(Blobs(completeness))
      else matched.Err?
  {
    hide RelevantIds, AllZero, StartsWith, BlobOf;
    ExtractedIds(txs, prefix);
    ZeroStarts(prefix);
    MatchOwnIds(CompletenessList(txs, prefix));
    if |prefix| > 32 {
      TooLongPrefix(txs[1..], prefix);
    }
  }

  lemma {:induction false} TooLongPrefix(txs: seq<Tx>, prefix: seq<Byte>)
    requires |prefix| > 32
    ensures Relevant(txs, prefix) == []
    decreases |txs|
  {
    if txs == [] {
    } else {
      TooLongPrefix(txs[1..], prefix);
    }
  }

  lemma HonestWitness(sha: Digest, block: Block, blobs: seq<Blob>)
    requires ConsensusValid(sha, block)
    requires CommitmentScript(block.txs[0].scripts).None? ==> blobs == []
    ensures CheckWitness(sha, block.header, ExtractedInclusion(sha, block.txs), blobs) == None
  {
    var txs := block.txs;
    if CommitmentScript(txs[0].scripts).Some? {
      assert [ZERO] + Wtxids(txs[1..]) == WitnessLeaves(txs);
    } else {
      assert WitnessLeaves(txs) == Txids(txs);
    }
  }

  /** For every consensus-valid block, the verifier accepts the extracted lists and returns the extracted
      blobs in order, exactly when the prefix has a non-zero byte, or fits and the coinbase id is zero. */
  lemma ExtractionIsAccepted(sha: Digest, prefix: seq<Byte>, block: Block)
    requires ConsensusValid(sha, block)
    ensures var completeness := CompletenessList(block.txs, prefix);
      var verdict := Verify(sha, prefix, block.header, ExtractedInclusion(sha, block.txs), completeness);
      if !AllZero(prefix) || (|prefix| <= 32 && block.txs[0].wtxid == ZERO)
      then verdict == Ok(Blobs(completeness))
      else verdict.Err?
  {
    hide CheckWitness, MatchPairs, RelevantIds, Root, Path, Climb, Healthy;
    var txs := block.txs;
    var completeness := CompletenessList(txs, prefix);
    HonestMatch(txs, prefix);
    PathLeadsToRoot(sha, Txids(txs), 0);
    if CommitmentScript(txs[0].scripts).None? {
      RelevantSubset(txs[1..], prefix);
      UnparsedHaveNoBlobs(completeness);
    }
    HonestWitness(sha, block, Blobs(completeness));
  }

  // ----- nothing else is accepted

  /** The supplied transactions do not collide with the block's by wtxid. */
  ghost predicate WtxidsDistinct(supplied: seq<Tx>, txs: seq<Tx>) {
    forall t, u :: t in supplied && u in txs && t.wtxid == u.wtxid ==> t == u
  }

  /** A supplied list that matches the ids of some transactions is those transactions. */
  lemma {:induction false} MatchDetermines(txs: seq<Tx>, supplied: seq<Tx>)
    requires MatchPairs(Wtxids(txs), supplied).Ok? && WtxidsDistinct(supplied, txs)
    ensures supplied == txs
    decreases |txs|
  {
    if txs == [] {
    } else {
      assert supplied[0] in supplied && txs[0] in txs;
      assert Wtxids(txs)[1..] == Wtxids(txs[1..]);
      MatchDetermines(txs[1..], supplied[1..]);
    }
  }

  /** What has to be assumed of the hash: no collision between the trees compared, nor between the
      supplied transactions and the block's. The coinbase txid must not be the zero placeholder. */
  ghost predicate Unforged(sha: Digest, block: Block, inclusion: InclusionProof, completeness: seq<Tx>)
    requires block.txs != []
  {
    && block.txs[0].txid != ZERO
    && NoCollision(sha, Txids(block.txs), WitnessLeaves(block.txs))
    && (|inclusion.wtxids| == |block.txs| ==> NoCollision(sha, inclusion.wtxids, WitnessLeaves(block.txs)))
    && WtxidsDistinct(completeness, block.txs)
  }

  /** Any lists the verifier accepts for the header of a block with a witness commitment are the extracted
      ones: no relevant transaction can be left out, added or replaced. */
  lemma AcceptedListsAreExtracted(sha: Digest, prefix: seq<Byte>, block: Block, inclusion: InclusionProof,
                                  completeness: seq<Tx>)
    requires ConsensusValid(sha, block) && !AllZero(prefix)
    requires CommitmentScript(block.txs[0].scripts).Some? && |block.txs| > 1
    requires Unforged(sha, block, inclusion, completeness)
    requires Verify(sha, prefix, block.header, inclusion, completeness).Ok?
    ensures inclusion.wtxids == ExtractedInclusion(sha, block.txs).wtxids
    ensures completeness == CompletenessList(block.txs, prefix)
  {
    hide MatchPairs, RelevantIds, Root, Climb, Healthy, NoCollision, AllZero, StartsWith;
    var txs := block.txs;
    MerkleRootsDiffer(sha, txs);
    RootDeterminesLeaves(sha, inclusion.wtxids, WitnessLeaves(txs));
    ExtractedIds(txs, prefix);
    ZeroStarts(prefix);
    RelevantSubset(txs[1..], prefix);
    MatchDetermines(CompletenessList(txs, prefix), completeness);
  }

  lemma MerkleRootsDiffer(sha: Digest, txs: seq<Tx>)
    requires |txs| > 1 && CommitmentScript(txs[0].scripts).Some? && txs[0].txid != ZERO
    requires NoCollision(sha, Txids(txs), WitnessLeaves(txs))
    ensures Root(sha, Txids(txs)) != Root(sha, WitnessLeaves(txs))
  {
    assert Txids(txs)[0] != WitnessLeaves(txs)[0];
    if Root(sha, Txids(txs)) == Root(sha, WitnessLeaves(txs)) {
      RootDeterminesLeaves(sha, Txids(txs), WitnessLeaves(txs));
    }
  }

  /** In a block without a witness commitment, accepted lists yield no blob: where the supplied coinbase
      claims a commitment, the list of wtxids is the block's and nothing in it parses. */
  lemma NoCommitmentNoBlobs(sha: Digest, prefix: seq<Byte>, block: Block, inclusion: InclusionProof,
                            completeness: seq<Tx>)
    requires ConsensusValid(sha, block)
    requires CommitmentScript(block.txs[0].scripts).None? && |block.txs| > 1
    requires Unforged(sha, block, inclusion, completeness)
    requires Verify(sha, prefix, block.header, inclusion, completeness).Ok?
    ensures Verify(sha, prefix, block.header, inclusion, completeness) == Ok([])
  {
    hide MatchPairs, RelevantIds, Root, Climb, Healthy, NoCollision, AllZero, StartsWith;
    var txs := block.txs;
    if CommitmentScript(inclusion.coinbase.scripts).Some? {
      RootDeterminesLeaves(sha, inclusion.wtxids, WitnessLeaves(txs));
      assert WitnessLeaves(txs) == Wtxids(txs);
      var relevant := Relevant(txs, prefix);
      RelevantMatch(txs, prefix);
      RelevantSubset(txs, prefix);
      MatchDetermines(relevant, completeness);
      MatchOwnIds(relevant);
      UnparsedHaveNoBlobs(relevant);
    }
  }

  /** A coinbase alone yields no blob. */
  lemma CoinbaseAloneNoBlobs(sha: Digest, prefix: seq<Byte>, block: Block, inclusion: InclusionProof,
                             completeness: seq<Tx>)
    requires ConsensusValid(sha, block) && !AllZero(prefix) && |block.txs| == 1
    requires Verify(sha, prefix, block.header, inclusion, completeness).Ok?
    ensures Verify(sha, prefix, block.header, inclusion, completeness) == Ok([])
  {
    hide Climb, Healthy, AllZero, StartsWith;
    ZeroStarts(prefix);
    if CommitmentScript(inclusion.coinbase.scripts).Some? {
      assert inclusion.wtxids == [ZERO];
      assert RelevantIds(inclusion.wtxids, prefix) == [];
    }
  }

  /** Whatever the verifier accepts for the header of a consensus-valid block, it returns the blobs
      extracted from that block, all of them and in order. */
  lemma AcceptedBlobsAreExtracted(sha: Digest, prefix: seq<Byte>, block: Block, inclusion: InclusionProof,
                                  completeness: seq<Tx>)
    requires ConsensusValid(sha, block) && !AllZero(prefix)
    requires Unforged(sha, block, inclusion, completeness)
    requires Verify(sha, prefix, block.header, inclusion, completeness).Ok?
    ensures Verify(sha, prefix, block.header, inclusion, completeness) == Ok(Blobs(CompletenessList(block.txs, prefix)))
  {
    hide MatchPairs, RelevantIds, Root, Climb, Healthy, NoCollision, AllZero, StartsWith, CheckWitness, Unforged;
    var txs := block.txs;
    if |txs| == 1 {
      CoinbaseAloneNoBlobs(sha, prefix, block, inclusion, completeness);
    } else if CommitmentScript(txs[0].scripts).None? {
      NoCommitmentNoBlobs(sha, prefix, block, inclusion, completeness);
      RelevantSubset(txs[1..], prefix);
      UnparsedHaveNoBlobs(CompletenessList(txs, prefix));
    } else {
      AcceptedListsAreExtracted(sha, prefix, block, inclusion, completeness);
      HonestMatch(txs, prefix);
    }
  }
}
