/**
 What holds of the stored blocks, transactions and receipts after every run of the hooks, stated on the stored
 data alone, and the log queries over them.
 */
module EvmAccounts {
  import opened Wrappers
  import opened EvmHistory
  import opened EvmBlocks

  // ----- sums over stored receipts

  function GasIn(receipts: seq<Receipt>, start: nat, end: nat): nat
    requires start <= end <= |receipts|
    decreases end
  {
    if start == end then 0 else GasIn(receipts, start, end - 1) + receipts[end - 1].gasUsed
  }

  function LogsIn(receipts: seq<Receipt>, start: nat, end: nat): nat
    requires start <= end <= |receipts|
    decreases end
  {
    if start == end then 0 else LogsIn(receipts, start, end - 1) + |receipts[end - 1].logs|
  }

  lemma {:induction false} SoundRun(events: seq<Event>, blockGasLimit: nat)
    ensures Sound(Run(events, blockGasLimit))
    decreases |events|
  {
    if events == [] {
    } else {
      SoundRun(events[..|events| - 1], blockGasLimit);
    }
  }

  lemma {:induction false} CountMonotone(committed: seq<seq<Executed>>, i: nat)
    requires i <= |committed|
    ensures Count(committed[..i]) <= Count(committed)
    ensures i < |committed| ==> Count(committed[..i + 1]) == Count(committed[..i]) + |committed[i]|
    decreases |committed|
  {
    if i == |committed| {
      assert committed[..i] == committed;
    } else {
      var n := |committed| - 1;
      assert committed[..n][..i] == committed[..i];
      assert committed[..i + 1][..i] == committed[..i];
      CountMonotone(committed[..n], i);
    }
  }

  /** The record of the k-th transaction of block i sits at the start of the block's range plus k. */
  lemma {:induction false} StoredAt(committed: seq<seq<Executed>>, i: nat, k: nat)
    requires i < |committed| && k < |committed[i]|
    ensures Count(committed[..i]) + k < Count(committed)
    ensures Stored(committed)[Count(committed[..i]) + k] == RecordAt(committed[i], k, i)
    decreases |committed|
  {
    hide RecordAt;
    var n := |committed| - 1;
    CountMonotone(committed, i);
    CountMonotone(committed, i + 1);
    if i == n {
    } else {
      assert committed[..n][..i] == committed[..i];
      StoredAt(committed[..n], i, k);
    }
  }

  lemma {:induction false} SumsInBlock(committed: seq<seq<Executed>>, i: nat, k: nat)
    requires i < |committed| && k <= |committed[i]|
    ensures Count(committed[..i]) + k <= Count(committed)
    ensures var receipts := ReceiptsOf(Stored(committed)); var start := Count(committed[..i]);
      && GasIn(receipts, start, start + k) == SumGas(committed[i][..k])
      && LogsIn(receipts, start, start + k) == SumLogs(committed[i][..k])
    decreases k
  {
    hide ReceiptsOf, Stored;
    CountMonotone(committed, i);
    CountMonotone(committed, i + 1);
    if k == 0 {
    } else {
      SumsInBlock(committed, i, k - 1);
      StoredAt(committed, i, k - 1);
      assert committed[i][..k][..k - 1] == committed[i][..k - 1];
    }
  }

  // ----- the main results

  /** After every run: ended blocks are numbered in order and their ranges tile the global transaction index up
      to where the stored lists end; the head is the last of them and the sealed blocks are the first ones. */
  lemma BlocksTile(events: seq<Event>, blockGasLimit: nat)
    ensures Sound(Run(events, blockGasLimit))
    ensures var h := Run(events, blockGasLimit); var s := Realised(h); var n := |h.committed|;
      && s.head == BlockAt(h.committed, n - 1)
      && s.head.end == |s.transactions| == |s.receipts|
      && |s.blocks| <= n && (forall i :: 0 <= i < |s.blocks| ==> s.blocks[i] == BlockAt(h.committed, i))
      && forall i :: 0 <= i < n ==>
           var b := BlockAt(h.committed, i);
           && b.number == i
           && b.start == (if i == 0 then 0 else BlockAt(h.committed, i - 1).end)
           && b.start <= b.end <= s.head.end
  {
    SoundRun(events, blockGasLimit);
    var h := Run(events, blockGasLimit);
    hide Run, Stored, TxsOf, ReceiptsOf, IndexByHash, Records, AnyUser, SumGas, BlocksUpTo;
    assert h.committed[..|h.committed|] == h.committed;
    forall i | 0 <= i < |h.committed|
      ensures BlockAt(h.committed, i).start <= BlockAt(h.committed, i).end <= Count(h.committed)
    {
      CountMonotone(h.committed, i);
      CountMonotone(h.committed, i + 1);
    }
  }

  /** Of every module state: the sealed blocks and the head are numbered in order, their ranges adjoin from
      transaction 0 on, and the head ends where the stored transactions and receipts end. Blocks may have ended
      without being sealed; once all are, the last sealed one is the head. */
  lemma StoredBlocksTile(evm: Evm)
    requires evm.Valid()
    ensures evm.head.end == |evm.transactions| == |evm.receipts| && |evm.blocks| <= evm.head.number + 1
    ensures forall i :: 0 <= i < |evm.blocks| ==>
      && evm.blocks[i].number == i
      && evm.blocks[i].start == (if i == 0 then 0 else evm.blocks[i - 1].end)
      && evm.blocks[i].start <= evm.blocks[i].end <= evm.head.end
    ensures |evm.blocks| == evm.head.number + 1 ==> evm.blocks[evm.head.number] == evm.head
    ensures |evm.blocks| == evm.head.number ==>
      evm.head.start == if evm.blocks == [] then 0 else evm.blocks[|evm.blocks| - 1].end
  {
    BlocksTile(evm.trace, evm.blockGasLimit);
    var h := evm.Past();
    assert evm.View() == Realised(h);
    hide Run, Realised, Count, SumGas;
    assert BlockAt(h.committed, |h.committed| - 1) == evm.head;
    forall i | 0 <= i < |evm.blocks|
      ensures evm.blocks[i].number == i
      ensures evm.blocks[i].start == if i == 0 then 0 else evm.blocks[i - 1].end
      ensures evm.blocks[i].start <= evm.blocks[i].end <= evm.head.end
    {
      assert evm.blocks[i] == BlockAt(h.committed, i);
      assert i > 0 ==> evm.blocks[i - 1] == BlockAt(h.committed, i - 1);
    }
  }

  /** What is stored of a transaction tells what was executed and how it went. */
  ghost predicate Tells(tx: TxRecord, receipt: Receipt, t: Executed) {
    && tx.hash == t.hash && tx.system == t.system
    && receipt.success == t.outcome.success && receipt.gasUsed == t.outcome.gasUsed
    && receipt.logs == t.outcome.logs && receipt.diffSize == t.outcome.diffSize
  }

  /** The accounts of one block of executed transactions, read off the stored data. */
  ghost predicate Accounted(s: State, b: Block, executed: seq<Executed>) {
    && b.start <= b.end <= |s.receipts| == |s.transactions| && b.end - b.start == |executed|
    && b.gasUsed == GasIn(s.receipts, b.start, b.end)
    && forall i :: b.start <= i < b.end ==>
         && Tells(s.transactions[i], s.receipts[i], executed[i - b.start])
         && s.receipts[i].cumulativeGas == GasIn(s.receipts, b.start, i + 1)
         && s.receipts[i].logIndexStart == LogsIn(s.receipts, b.start, i)
         && s.transactions[i].blockNumber == b.number
  }

  /** After every run, in every ended block: what is stored tells of exactly the transactions executed, in order;
      each receipt's cumulative gas is the running sum from the start of its block, the header's gas is the
      total, each receipt's first log index counts the logs before it in the block, and each transaction names
      its block. */
  lemma BlocksAreAccounted(events: seq<Event>, blockGasLimit: nat, n: nat)
    requires n < |Run(events, blockGasLimit).committed|
    ensures Sound(Run(events, blockGasLimit))
    ensures var h := Run(events, blockGasLimit);
      Accounted(Realised(h), BlockAt(h.committed, n), h.committed[n])
  {
    SoundRun(events, blockGasLimit);
    AccountedAt(Run(events, blockGasLimit), n);
  }

  /** The accounts of the k-th transaction of block n. */
  lemma TransactionAccounted(h: History, n: nat, k: nat)
    requires Sound(h) && n < |h.committed| && k < |h.committed[n]|
    ensures var s := Realised(h); var start := Count(h.committed[..n]);
      && start + k < |s.receipts| == |s.transactions|
      && Tells(s.transactions[start + k], s.receipts[start + k], h.committed[n][k])
      && s.receipts[start + k].cumulativeGas == GasIn(s.receipts, start, start + k + 1)
      && s.receipts[start + k].logIndexStart == LogsIn(s.receipts, start, start + k)
      && s.transactions[start + k].blockNumber == n
  {
    hide Stored, TxsOf, ReceiptsOf, IndexByHash, Records, AnyUser, BlocksUpTo, SumGas, SumLogs, Count, GasIn, LogsIn;
    StoredAt(h.committed, n, k);
    SumsInBlock(h.committed, n, k);
    SumsInBlock(h.committed, n, k + 1);
  }

  lemma AccountedAt(h: History, n: nat)
    requires Sound(h) && n < |h.committed|
    ensures Accounted(Realised(h), BlockAt(h.committed, n), h.committed[n])
  {
    hide Stored, TxsOf, ReceiptsOf, IndexByHash, Records, AnyUser, BlocksUpTo, SumGas, SumLogs, Count, GasIn, LogsIn;
    var b := BlockAt(h.committed, n);
    var txs := h.committed[n];
    CountMonotone(h.committed, n);
    SumsInBlock(h.committed, n, |txs|);
    assert txs[..|txs|] == txs;
    forall i | b.start <= i < b.end
      ensures var s := Realised(h);
        && Tells(s.transactions[i], s.receipts[i], txs[i - b.start])
        && s.receipts[i].cumulativeGas == GasIn(s.receipts, b.start, i + 1)
        && s.receipts[i].logIndexStart == LogsIn(s.receipts, b.start, i)
        && s.transactions[i].blockNumber == b.number
    {
      TransactionAccounted(h, n, i - b.start);
    }
  }

  /** No event takes back or changes a stored block, transaction or receipt. */
  lemma StoredDataIsAppendOnly(events: seq<Event>, e: Event, blockGasLimit: nat)
    ensures Sound(Run(events, blockGasLimit)) && Sound(Run(events + [e], blockGasLimit))
    ensures var before, after := Realised(Run(events, blockGasLimit)), Realised(Run(events + [e], blockGasLimit));
      before.blocks <= after.blocks && before.transactions <= after.transactions && before.receipts <= after.receipts
  {
    SoundRun(events, blockGasLimit);
    RunExtend(events, e, blockGasLimit);
    var h := Run(events, blockGasLimit);
    hide Run, Realised;
    match e {
      case Begin => RealisedBegin(h, blockGasLimit);
      case Call(attempts) => RealisedCall(h, attempts, blockGasLimit);
      case End =>
        EndRefused(h, blockGasLimit);
        if h.open {
          RealisedEnd(h, blockGasLimit);
        }
      case Finalize => RealisedFinalize(h, blockGasLimit);
    }
  }

  // ----- what is executed

  ghost function AttemptGas(attempts: seq<Attempt>): nat {
    if attempts == [] then 0
    else (if attempts[0].outcome.Some? then attempts[0].outcome.value.gasUsed else 0) + AttemptGas(attempts[1..])
  }

  /** The k-th transaction of a call is one the executor takes: it runs, is no blob transaction, keeps the block
      within its gas limit, and, if it is a system transaction, was verified, succeeds and follows no user's. */
  ghost predicate Admissible(attempts: seq<Attempt>, k: nat, gasLimit: nat, gas: nat, sawUser: bool)
    requires k < |attempts|
  {
    var tx := attempts[k];
    && tx.outcome.Some? && !tx.blob
    && gas + AttemptGas(attempts[..k + 1]) <= gasLimit
    && (tx.system ==>
          tx.verified && tx.outcome.value.success && !sawUser && forall j :: 0 <= j < k ==> attempts[j].system)
  }

  lemma AdmissibleLater(attempts: seq<Attempt>, k: nat, gasLimit: nat, gas: nat, sawUser: bool)
    requires 0 < k < |attempts| && attempts[0].outcome.Some?
    ensures Admissible(attempts, k, gasLimit, gas, sawUser) <==>
      Admissible(attempts[1..], k - 1, gasLimit, gas + attempts[0].outcome.value.gasUsed,
                 sawUser || !attempts[0].system)
  {
    var tail := attempts[1..];
    assert attempts[..k + 1][1..] == tail[..k];
    assert forall j :: 0 <= j < |tail| ==> tail[j] == attempts[j + 1];
    assert forall j :: 0 < j < |attempts| ==> attempts[j] == tail[j - 1];
  }

  lemma AdmissibleFirst(attempts: seq<Attempt>, gasLimit: nat, gas: nat, sawUser: bool)
    requires attempts != []
    ensures Admissible(attempts, 0, gasLimit, gas, sawUser) <==> ExecuteOne(attempts[0], gasLimit, gas, sawUser).Ok?
  {
    assert attempts[..1][1..] == [] && AttemptGas([]) == 0;
  }

  ghost predicate AllAdmissible(attempts: seq<Attempt>, gasLimit: nat, gas: nat, sawUser: bool) {
    forall k :: 0 <= k < |attempts| ==> Admissible(attempts, k, gasLimit, gas, sawUser)
  }

  lemma AdmissibleTurn(attempts: seq<Attempt>, gasLimit: nat, gas: nat, sawUser: bool)
    requires attempts != [] && attempts[0].outcome.Some?
    ensures AllAdmissible(attempts, gasLimit, gas, sawUser) <==>
      && Admissible(attempts, 0, gasLimit, gas, sawUser)
      && AllAdmissible(attempts[1..], gasLimit, gas + attempts[0].outcome.value.gasUsed, sawUser || !attempts[0].system)
  {
    hide Admissible;
    var tail, more, saw := attempts[1..], gas + attempts[0].outcome.value.gasUsed, sawUser || !attempts[0].system;
    forall k | 0 < k < |attempts|
      ensures Admissible(attempts, k, gasLimit, gas, sawUser) <==> Admissible(tail, k - 1, gasLimit, more, saw)
    {
      AdmissibleLater(attempts, k, gasLimit, gas, sawUser);
    }
    forall k | 0 <= k < |tail|
      ensures Admissible(attempts, k + 1, gasLimit, gas, sawUser) <==> Admissible(tail, k, gasLimit, more, saw)
    {
    }
  }

  /** A call goes through exactly when every one of its transactions is taken. */
  lemma {:induction false} ExecutesIff(attempts: seq<Attempt>, gasLimit: nat, gas: nat, sawUser: bool)
    ensures Execute(attempts, gasLimit, gas, sawUser).Ok? <==> AllAdmissible(attempts, gasLimit, gas, sawUser)
    decreases |attempts|
  {
    if attempts == [] {
    } else {
      hide AllAdmissible, Admissible;
      AdmissibleFirst(attempts, gasLimit, gas, sawUser);
      if ExecuteOne(attempts[0], gasLimit, gas, sawUser).Ok? {
        AdmissibleTurn(attempts, gasLimit, gas, sawUser);
        ExecutesIff(attempts[1..], gasLimit, gas + attempts[0].outcome.value.gasUsed, sawUser || !attempts[0].system);
      } else {
        NotAllAdmissible(attempts, gasLimit, gas, sawUser);
      }
    }
  }

  lemma NotAllAdmissible(attempts: seq<Attempt>, gasLimit: nat, gas: nat, sawUser: bool)
    requires attempts != [] && !Admissible(attempts, 0, gasLimit, gas, sawUser)
    ensures !AllAdmissible(attempts, gasLimit, gas, sawUser)
  {
    hide Admissible;
  }

  /** It then executes all of them, each once and in order. */
  lemma {:induction false} ExecutesAll(attempts: seq<Attempt>, gasLimit: nat, gas: nat, sawUser: bool, k: nat)
    requires Execute(attempts, gasLimit, gas, sawUser).Ok? && k < |attempts|
    ensures var executed := Execute(attempts, gasLimit, gas, sawUser).executed;
      && |executed| == |attempts| && attempts[k].outcome.Some?
      && executed[k] == Executed(attempts[k].hash, attempts[k].system, attempts[k].outcome.value)
    decreases |attempts|
  {
    var tail, more, saw := attempts[1..], gas + attempts[0].outcome.value.gasUsed, sawUser || !attempts[0].system;
    if tail != [] {
      ExecutesAll(tail, gasLimit, more, saw, if k == 0 then 0 else k - 1);
    } else {
      assert Execute(tail, gasLimit, more, saw) == Ok([], saw);
    }
  }

  /** The calls made in a block. */
  ghost function Calls(calls: seq<seq<Attempt>>): seq<Event> {
    if calls == [] then [] else Calls(calls[..|calls| - 1]) + [Call(calls[|calls| - 1])]
  }

  /** What is executed by the calls of a block that go through. */
  ghost function ExecutedBy(calls: seq<seq<Attempt>>, gasLimit: nat): seq<Executed> {
    if calls == [] then []
    else
      var before := ExecutedBy(calls[..|calls| - 1], gasLimit);
      var result := Execute(calls[|calls| - 1], gasLimit, SumGas(before), AnyUser(before));
      if result.Ok? then before + result.executed else before
  }

  lemma {:induction false} CallsExecute(events: seq<Event>, calls: seq<seq<Attempt>>, blockGasLimit: nat)
    ensures Run(events + [Begin] + Calls(calls), blockGasLimit)
         == Run(events, blockGasLimit).(current := ExecutedBy(calls, blockGasLimit), open := true,
                                        gasLimit := blockGasLimit)
    decreases |calls|
  {
    hide Execute, SumGas, AnyUser, Run;
    if calls == [] {
      RunExtend(events, Begin, blockGasLimit);
      assert events + [Begin] + Calls(calls) == events + [Begin];
    } else {
      var before := calls[..|calls| - 1];
      CallsExecute(events, before, blockGasLimit);
      var earlier := events + [Begin] + Calls(before);
      RunExtend(earlier, Call(calls[|calls| - 1]), blockGasLimit);
      assert earlier + [Call(calls[|calls| - 1])] == events + [Begin] + Calls(calls);
    }
  }

  /** A block holds exactly what was executed by the calls made between its begin and its end, whatever was
      pending before, and is sealed next if all blocks before it are. */
  lemma BlockHoldsItsCalls(events: seq<Event>, calls: seq<seq<Attempt>>, blockGasLimit: nat)
    ensures var h := Run(events, blockGasLimit);
      var ended := events + [Begin] + Calls(calls) + [End];
      var t, u := Run(ended, blockGasLimit), Run(ended + [Finalize], blockGasLimit);
      && t.committed == u.committed == h.committed + [ExecutedBy(calls, blockGasLimit)]
      && t.sealed == h.sealed && u.sealed == h.sealed + (if h.sealed == |h.committed| then 1 else 0)
  {
    hide Run, ExecutedBy;
    CallsExecute(events, calls, blockGasLimit);
    var called := events + [Begin] + Calls(calls);
    RunExtend(called, End, blockGasLimit);
    RunExtend(called + [End], Finalize, blockGasLimit);
  }

  /** Within the gas limit, system transactions first, all of these successful. */
  ghost predicate InOrder(txs: seq<Executed>, gasLimit: nat) {
    && SumGas(txs) <= gasLimit
    && forall i :: 0 <= i < |txs| && txs[i].system ==> txs[i].outcome.success && !AnyUser(txs[..i])
  }

  lemma InOrderExtends(txs: seq<Executed>, t: Executed, gasLimit: nat)
    requires InOrder(txs, gasLimit) && SumGas(txs) + t.outcome.gasUsed <= gasLimit
    requires t.system ==> t.outcome.success && !AnyUser(txs)
    ensures InOrder(txs + [t], gasLimit)
  {
    hide AnyUser;
    var all := txs + [t];
    SumsExtend(txs, t);
    forall i | 0 <= i < |all| && all[i].system
      ensures all[i].outcome.success && !AnyUser(all[..i])
    {
      assert all[..i] == if i < |txs| then txs[..i] else txs;
    }
  }

  /** A call continues the order of the calls before it. */
  lemma {:induction false} ExecuteInOrder(attempts: seq<Attempt>, gasLimit: nat, before: seq<Executed>)
    requires InOrder(before, gasLimit)
    ensures var result := Execute(attempts, gasLimit, SumGas(before), AnyUser(before));
      result.Ok? ==> InOrder(before + result.executed, gasLimit)
    decreases |attempts|
  {
    hide AnyUser, InOrder, SumGas, SumLogs, Execute;
    if attempts == [] {
      ExecuteNothing(gasLimit, SumGas(before), AnyUser(before));
      assert before + [] == before;
    } else if Execute(attempts, gasLimit, SumGas(before), AnyUser(before)).Ok? {
      var t, rest := ExecuteTurn(attempts, gasLimit, SumGas(before), AnyUser(before));
      SumsExtend(before, t);
      InOrderExtends(before, t, gasLimit);
      ExecuteInOrder(attempts[1..], gasLimit, before + [t]);
      assert before + [t] + rest.executed == before + ([t] + rest.executed);
    }
  }

  /** After every run, every ended block keeps to the gas limit and has its system transactions first, all of
      them successful, however its transactions were spread over calls and whatever calls failed. */
  lemma {:induction false} EndedBlocksAreInOrder(events: seq<Event>, blockGasLimit: nat)
    ensures var h := Run(events, blockGasLimit);
      && InOrder(h.current, h.gasLimit)
      && (h.open ==> h.gasLimit == blockGasLimit)
      && forall i :: 0 <= i < |h.committed| ==> InOrder(h.committed[i], blockGasLimit)
    decreases |events|
  {
    hide InOrder, Execute;
    EmptyInOrder(blockGasLimit);
    EmptyInOrder(DEFAULT_GAS_LIMIT);
    if events == [] {
    } else {
      var init, e := events[..|events| - 1], events[|events| - 1];
      EndedBlocksAreInOrder(init, blockGasLimit);
      if e.Call? {
        var h := Run(init, blockGasLimit);
        ExecuteInOrder(e.attempts, h.gasLimit, h.current);
      }
      EmptyInOrder(Run(init, blockGasLimit).gasLimit);
    }
  }

  lemma EmptyInOrder(gasLimit: nat)
    ensures InOrder([], gasLimit)
  {
  }

  /** Looking a stored transaction up by hash finds the last stored one with that hash. */
  lemma {:induction false} LookupByHash(txs: seq<TxRecord>, i: nat)
    requires i < |txs|
    ensures var found := IndexByHash(txs);
      && txs[i].hash in found && i <= found[txs[i].hash] < |txs| && txs[found[txs[i].hash]].hash == txs[i].hash
    decreases |txs|
  {
    var n := |txs| - 1;
    if i == n {
    } else {
      LookupByHash(txs[..n], i);
    }
  }

  // ----- logs

  datatype RpcLog = RpcLog(log: Log, blockNumber: nat, txHash: nat, txIndex: nat, logIndex: nat)

  /** The logs an RPC receipt lists, from log `j` of the receipt on. */
  function ReceiptLogs(block: Block, tx: TxRecord, n: nat, receipt: Receipt, j: nat): seq<RpcLog>
    requires block.start <= n && j <= |receipt.logs|
    decreases |receipt.logs| - j
  {
    if j == |receipt.logs| then []
    else
      [RpcLog(receipt.logs[j], block.number, tx.hash, n - block.start, receipt.logIndexStart + j)]
        + ReceiptLogs(block, tx, n, receipt, j + 1)
  }

  /** The logs that the receipts of a block list, from transaction `n` on. */
  function BlockLogs(block: Block, txs: seq<TxRecord>, receipts: seq<Receipt>, n: nat): seq<RpcLog>
    requires block.start <= n <= block.end <= |txs| == |receipts|
    decreases block.end - n
  {
    if n == block.end then []
    else ReceiptLogs(block, txs[n], n, receipts[n], 0) + BlockLogs(block, txs, receipts, n + 1)
  }

  function Matching(matches: Log -> bool, logs: seq<RpcLog>): seq<RpcLog> {
    if logs == [] then []
    else (if matches(logs[0].log) then [logs[0]] else []) + Matching(matches, logs[1..])
  }

  /** The same logs with the transaction index counted from further back. */
  function Shifted(logs: seq<RpcLog>, offset: nat): (r: seq<RpcLog>)
    ensures |r| == |logs|
    ensures forall i :: 0 <= i < |r| ==> r[i] == logs[i].(txIndex := logs[i].txIndex + offset)
  {
    if logs == [] then [] else [logs[0].(txIndex := logs[0].txIndex + offset)] + Shifted(logs[1..], offset)
  }

  /** The matching logs among those of receipts, with the transaction index counted from further back. */
  function Query(matches: Log -> bool, logs: seq<RpcLog>, offset: nat): seq<RpcLog> {
    Shifted(Matching(matches, logs), offset)
  }

  lemma {:induction false} MatchingConcat(matches: Log -> bool, a: seq<RpcLog>, b: seq<RpcLog>)
    ensures Matching(matches, a + b) == Matching(matches, a) + Matching(matches, b)
    decreases |a|
  {
    if a == [] {
      assert a + b == b;
    } else {
      assert (a + b)[1..] == a[1..] + b && (a + b)[0] == a[0];
      MatchingConcat(matches, a[1..], b);
      var own := if matches(a[0].log) then [a[0]] else [];
      var rest := Matching(matches, a[1..]);
      assert own + (rest + Matching(matches, b)) == own + rest + Matching(matches, b);
    }
  }

  lemma QueryConcat(matches: Log -> bool, a: seq<RpcLog>, b: seq<RpcLog>, offset: nat)
    ensures Query(matches, a + b, offset) == Query(matches, a, offset) + Query(matches, b, offset)
  {
    hide Matching, Shifted;
    MatchingConcat(matches, a, b);
  }

  lemma QueryOne(matches: Log -> bool, x: RpcLog, offset: nat)
    ensures Query(matches, [x], offset) == if matches(x.log) then [x.(txIndex := x.txIndex + offset)] else []
    ensures Query(matches, [], offset) == []
  {
    hide Shifted;
    assert [x][1..] == [];
    assert Matching(matches, [x]) == if matches(x.log) then [x] else [];
  }

  /** The query's loop over the logs of one receipt. */
  method AppendReceiptLogs(matches: Log -> bool, block: Block, tx: TxRecord, i: nat, receipt: Receipt, firstIndex: nat)
      returns (logs: seq<RpcLog>, logIndex: nat)
    requires block.start <= i && firstIndex == receipt.logIndexStart
    ensures logs == Query(matches, ReceiptLogs(block, tx, i, receipt, 0), block.start)
    ensures logIndex == firstIndex + |receipt.logs|
  {
    hide Query;
    logs, logIndex := [], firstIndex;
    ghost var goal := Query(matches, ReceiptLogs(block, tx, i, receipt, 0), block.start);
    for j := 0 to |receipt.logs|
      invariant logIndex == firstIndex + j
      invariant logs + Query(matches, ReceiptLogs(block, tx, i, receipt, j), block.start) == goal
    {
      ghost var x := RpcLog(receipt.logs[j], block.number, tx.hash, i - block.start, logIndex);
      QueryOne(matches, x, block.start);
      QueryConcat(matches, [x], ReceiptLogs(block, tx, i, receipt, j + 1), block.start);
      if matches(receipt.logs[j]) {
        logs := logs + [RpcLog(receipt.logs[j], block.number, tx.hash, i, logIndex)];
      }
      logIndex := logIndex + 1;
    }
    QueryOne(matches, RpcLog(Log(0, [], []), 0, 0, 0, 0), block.start);
    assert logs + [] == logs;
  }

  lemma BlockEnds(block: Block, txs: seq<TxRecord>, receipts: seq<Receipt>)
    requires block.start <= block.end <= |txs| == |receipts|
    ensures LogsIn(receipts, block.start, block.start) == 0 && BlockLogs(block, txs, receipts, block.end) == []
  {
  }

  lemma BlockTurn(matches: Log -> bool, block: Block, txs: seq<TxRecord>, receipts: seq<Receipt>, i: nat)
    requires block.start <= i < block.end <= |txs| == |receipts|
    ensures LogsIn(receipts, block.start, i + 1) == LogsIn(receipts, block.start, i) + |receipts[i].logs|
    ensures Query(matches, BlockLogs(block, txs, receipts, i), block.start)
         == Query(matches, ReceiptLogs(block, txs[i], i, receipts[i], 0), block.start)
          + Query(matches, BlockLogs(block, txs, receipts, i + 1), block.start)
  {
    hide Query, ReceiptLogs;
    var own := ReceiptLogs(block, txs[i], i, receipts[i], 0);
    QueryConcat(matches, own, BlockLogs(block, txs, receipts, i + 1), block.start);
  }

  /** The query's loop over the receipts of one block, whose first log indices count the logs before them. */
  method AppendBlockLogs(matches: Log -> bool, block: Block, txs: seq<TxRecord>, receipts: seq<Receipt>)
      returns (logs: seq<RpcLog>)
    requires block.start <= block.end <= |txs| == |receipts|
    requires forall i :: block.start <= i < block.end ==>
      receipts[i].logIndexStart == LogsIn(receipts, block.start, i)
    ensures logs == Query(matches, BlockLogs(block, txs, receipts, block.start), block.start)
  {
    hide Query, ReceiptLogs, BlockLogs, LogsIn;
    ghost var goal := Query(matches, BlockLogs(block, txs, receipts, block.start), block.start);
    var logIndex := 0;
    logs := [];
    BlockEnds(block, txs, receipts);
    for i := block.start to block.end
      invariant logIndex == LogsIn(receipts, block.start, i)
      invariant logs + Query(matches, BlockLogs(block, txs, receipts, i), block.start) == goal
    {
      var found;
      found, logIndex := AppendReceiptLogs(matches, block, txs[i], i, receipts[i], logIndex);
      BlockTurn(matches, block, txs, receipts, i);
      ghost var rest := Query(matches, BlockLogs(block, txs, receipts, i + 1), block.start);
      assert logs + (found + rest) == logs + found + rest;
      logs := logs + found;
    }
    QueryOne(matches, RpcLog(Log(0, [], []), 0, 0, 0, 0), block.start);
    assert logs + [] == logs;
  }

  /** The log query of a stored block. Its own count of logs gives every log the index that the receipt gives
      it; its transaction index is the global one. */
  method AppendMatchingBlockLogs(evm: Evm, matches: Log -> bool, b: nat) returns (logs: seq<RpcLog>)
    requires evm.Valid() && b < |evm.blocks|
    ensures var block := evm.blocks[b];
      && block.start <= block.end <= |evm.transactions| == |evm.receipts|
      && logs == Query(matches, BlockLogs(block, evm.transactions, evm.receipts, block.start), block.start)
  {
    hide Run, Realised, Query, GasIn, LogsIn, BlockLogs;
    BlockIsAccounted(evm, b);
    logs := AppendBlockLogs(matches, evm.blocks[b], evm.transactions, evm.receipts);
  }

  lemma BlockIsAccounted(evm: Evm, b: nat)
    requires evm.Valid() && b < |evm.blocks|
    ensures b < |evm.Past().committed| && Accounted(evm.View(), evm.blocks[b], evm.Past().committed[b])
  {
    hide Run, Stored, TxsOf, ReceiptsOf, IndexByHash, Records, AnyUser, SumGas, SumLogs, Count, BlocksUpTo;
    AccountedAt(evm.Past(), b);
  }

  lemma {:induction false} ReceiptLogAt(block: Block, tx: TxRecord, n: nat, receipt: Receipt, j: nat, k: nat)
    requires block.start <= n && j <= k < |receipt.logs|
    ensures |ReceiptLogs(block, tx, n, receipt, j)| == |receipt.logs| - j
    ensures ReceiptLogs(block, tx, n, receipt, j)[k - j]
         == RpcLog(receipt.logs[k], block.number, tx.hash, n - block.start, receipt.logIndexStart + k)
    decreases |receipt.logs| - j
  {
    if j + 1 < |receipt.logs| {
      ReceiptLogAt(block, tx, n, receipt, j + 1, if j < k then k else k + 1);
    }
  }

  lemma ReceiptLogCount(block: Block, tx: TxRecord, n: nat, receipt: Receipt)
    requires block.start <= n
    ensures |ReceiptLogs(block, tx, n, receipt, 0)| == |receipt.logs|
  {
    if receipt.logs != [] {
      ReceiptLogAt(block, tx, n, receipt, 0, 0);
    }
  }

  lemma {:induction false} LogsNumberedFrom(block: Block, txs: seq<TxRecord>, receipts: seq<Receipt>, n: nat, i: nat)
    requires block.start <= n <= block.end <= |txs| == |receipts|
    requires forall i :: block.start <= i < block.end ==>
      receipts[i].logIndexStart == LogsIn(receipts, block.start, i)
    ensures i < |BlockLogs(block, txs, receipts, n)| ==>
      BlockLogs(block, txs, receipts, n)[i].logIndex == LogsIn(receipts, block.start, n) + i
    decreases block.end - n
  {
    if n == block.end {
    } else {
      hide ReceiptLogs;
      var own, count := ReceiptLogs(block, txs[n], n, receipts[n], 0), |receipts[n].logs|;
      ReceiptLogCount(block, txs[n], n, receipts[n]);
      if i < count {
        ReceiptLogAt(block, txs[n], n, receipts[n], 0, i);
      } else {
        LogsNumberedFrom(block, txs, receipts, n + 1, i - count);
      }
    }
  }

  /** The logs of a stored block are numbered from 0 without a gap. */
  lemma LogsAreNumbered(evm: Evm, b: nat, i: nat)
    requires evm.Valid() && b < |evm.blocks|
    ensures var block := evm.blocks[b];
      && block.start <= block.end <= |evm.transactions| == |evm.receipts|
      && var logs := BlockLogs(block, evm.transactions, evm.receipts, block.start);
         i < |logs| ==> logs[i].logIndex == i
  {
    hide Run, Realised, GasIn;
    BlockIsAccounted(evm, b);
    LogsNumberedFrom(evm.blocks[b], evm.transactions, evm.receipts, evm.blocks[b].start, i);
  }

  /** No log of the receipt from the j-th on passes the filter. */
  ghost predicate NoneMatches(matches: Log -> bool, receipt: Receipt, j: nat) {
    forall k :: j <= k < |receipt.logs| ==> !matches(receipt.logs[k])
  }

  lemma {:induction false} NoMatchInReceipt(matches: Log -> bool, block: Block, tx: TxRecord, n: nat, receipt: Receipt,
                                            j: nat)
    requires block.start <= n && j <= |receipt.logs|
    ensures Matching(matches, ReceiptLogs(block, tx, n, receipt, j)) == [] <==> NoneMatches(matches, receipt, j)
    decreases |receipt.logs| - j
  {
    if j == |receipt.logs| {
    } else {
      var x := RpcLog(receipt.logs[j], block.number, tx.hash, n - block.start, receipt.logIndexStart + j);
      var rest := ReceiptLogs(block, tx, n, receipt, j + 1);
      assert ([x] + rest)[1..] == rest;
      NoMatchInReceipt(matches, block, tx, n, receipt, j + 1);
    }
  }

  lemma {:induction false} NoMatchInBlock(matches: Log -> bool, block: Block, txs: seq<TxRecord>,
                                          receipts: seq<Receipt>, n: nat)
    requires block.start <= n <= block.end <= |txs| == |receipts|
    ensures Matching(matches, BlockLogs(block, txs, receipts, n)) == [] <==>
      forall i :: n <= i < block.end ==> NoneMatches(matches, receipts[i], 0)
    decreases block.end - n
  {
    hide Matching, ReceiptLogs, NoneMatches;
    if n == block.end {
      QueryOne(matches, RpcLog(Log(0, [], []), 0, 0, 0, 0), 0);
      EmptyMatching(matches);
    } else {
      var own, rest := ReceiptLogs(block, txs[n], n, receipts[n], 0), BlockLogs(block, txs, receipts, n + 1);
      MatchingConcat(matches, own, rest);
      NoMatchInReceipt(matches, block, txs[n], n, receipts[n], 0);
      NoMatchInBlock(matches, block, txs, receipts, n + 1);
    }
  }

  lemma EmptyMatching(matches: Log -> bool)
    ensures Matching(matches, []) == []
  {
  }

  lemma ShiftShows(logs: seq<RpcLog>, offset: nat)
    ensures Shifted(logs, offset) == logs <==> offset == 0 || logs == []
  {
    if offset == 0 {
      assert Shifted(logs, offset) == logs;
    } else if logs != [] {
      assert Shifted(logs, offset)[0] != logs[0];
    }
  }

  /** The query of a stored block reports exactly the matching logs of its receipts when the block starts at
      transaction 0 or none of its logs passes the filter, and only then: elsewhere its transaction index is
      off by the start of the block. */
  lemma QueryMatchesReceiptsIff(evm: Evm, matches: Log -> bool, b: nat)
    requires evm.Valid() && b < |evm.blocks|
    ensures var block := evm.blocks[b];
      && block.start <= block.end <= |evm.transactions| == |evm.receipts|
      && var logs := BlockLogs(block, evm.transactions, evm.receipts, block.start);
         (Query(matches, logs, block.start) == Matching(matches, logs) <==>
            || block.start == 0
            || forall i :: block.start <= i < block.end ==> NoneMatches(matches, evm.receipts[i], 0))
  {
    hide Run, Realised, Matching, Shifted, BlockLogs, NoneMatches, GasIn, LogsIn;
    BlockIsAccounted(evm, b);
    var block := evm.blocks[b];
    NoMatchInBlock(matches, block, evm.transactions, evm.receipts, block.start);
    ShiftShows(Matching(matches, BlockLogs(block, evm.transactions, evm.receipts, block.start)), block.start);
  }

  // ----- two blocks of one transaction with one log each

  const ONE_LOG: Attempt := Attempt(7, false, true, false, Some(Outcome(true, 0, [Log(0, [], [])], 0)))
  const DONE: Executed := Executed(7, false, ONE_LOG.outcome.value)
  const ONE_BLOCK: seq<Event> := [Begin, Call([ONE_LOG]), End, Finalize]
  const TWO_BLOCKS: seq<Event> := [Finalize] + ONE_BLOCK + ONE_BLOCK

  predicate AnyLog(log: Log) {
    true
  }

  lemma OneLogExecutes(gasLimit: nat)
    ensures Execute([ONE_LOG], gasLimit, 0, false) == Ok([DONE], true)
  {
    assert [ONE_LOG][1..] == [];
  }

  lemma EmptyBlockSums()
    ensures SumGas([]) == 0 && !AnyUser([])
  {
  }

  lemma OneBlockMore(events: seq<Event>, blockGasLimit: nat)
    requires Run(events, blockGasLimit).sealed == |Run(events, blockGasLimit).committed|
    ensures var h := Run(events, blockGasLimit); var t := Run(events + ONE_BLOCK, blockGasLimit);
      t.committed == h.committed + [[DONE]] && t.sealed == |t.committed|
  {
    var calls := [[ONE_LOG]];
    hide Run;
    BlockHoldsItsCalls(events, calls, blockGasLimit);
    OneCall(blockGasLimit);
    assert events + [Begin] + [Call([ONE_LOG])] + [End] + [Finalize] == events + ONE_BLOCK;
  }

  lemma OneCall(gasLimit: nat)
    ensures Calls([[ONE_LOG]]) == [Call([ONE_LOG])] && ExecutedBy([[ONE_LOG]], gasLimit) == [DONE]
  {
    var calls := [[ONE_LOG]];
    EmptyBlockSums();
    OneLogExecutes(gasLimit);
    assert calls[..0] == [] && Calls([]) == [] && ExecutedBy([], gasLimit) == [];
    assert [] + [DONE] == [DONE] && [] + [Call([ONE_LOG])] == [Call([ONE_LOG])];
  }

  /** After a run of two sealed blocks with one log each, the query of the second one does not report what the
      receipt of its transaction lists. */
  lemma SecondBlockDiffers(blockGasLimit: nat)
    ensures Sound(Run(TWO_BLOCKS, blockGasLimit))
    ensures var s := Realised(Run(TWO_BLOCKS, blockGasLimit));
      && |s.blocks| == 3 && s.blocks[2].start == 1 && s.blocks[2].end == 2 == |s.transactions| == |s.receipts|
      && var logs := BlockLogs(s.blocks[2], s.transactions, s.receipts, 1);
         Query(AnyLog, logs, 1) != Matching(AnyLog, logs)
  {
    hide Run, Realised, BlockLogs, Query, Matching, Count, SumGas;
    TwoBlocksRun(blockGasLimit);
    SoundRun(TWO_BLOCKS, blockGasLimit);
    SecondBlockLogs(Run(TWO_BLOCKS, blockGasLimit));
  }

  lemma GenesisSealed(blockGasLimit: nat)
    ensures var h := Run([Finalize], blockGasLimit); h.committed == [[]] && h.sealed == 1
  {
    assert [Finalize][..0] == [];
  }

  lemma TwoBlocksRun(blockGasLimit: nat)
    ensures var h := Run(TWO_BLOCKS, blockGasLimit); h.committed == [[], [DONE], [DONE]] && h.sealed == 3
  {
    hide Run;
    var first := [Finalize] + ONE_BLOCK;
    GenesisSealed(blockGasLimit);
    OneBlockMore([Finalize], blockGasLimit);
    assert Run(first, blockGasLimit).committed == [[], [DONE]];
    OneBlockMore(first, blockGasLimit);
    assert Run(first + ONE_BLOCK, blockGasLimit).committed == [[], [DONE], [DONE]];
  }

  lemma SecondBlockLogs(h: History)
    requires Sound(h) && h.committed == [[], [DONE], [DONE]] && h.sealed == 3
    ensures var s := Realised(h);
      && |s.blocks| == 3 && s.blocks[2].start == 1 && s.blocks[2].end == 2 == |s.transactions| == |s.receipts|
      && var logs := BlockLogs(s.blocks[2], s.transactions, s.receipts, 1);
         Query(AnyLog, logs, 1) != Matching(AnyLog, logs)
  {
    hide Stored, TxsOf, ReceiptsOf, IndexByHash, BlocksUpTo, Count, SumGas, SumLogs, Records, AnyUser, Query, BlockLogs;
    var c := h.committed;
    SecondBlockRange(c);
    StoredAt(c, 2, 0);
    var s := Realised(h);
    assert s.blocks[2] == BlockAt(c, 2);
    assert s.receipts[1].logs == [Log(0, [], [])];
    OneLogShows(s.blocks[2], s.transactions, s.receipts);
  }

  lemma SecondBlockRange(c: seq<seq<Executed>>)
    requires c == [[], [DONE], [DONE]]
    ensures Count(c[..2]) == 1 && Count(c[..3]) == Count(c) == 2
  {
    assert c[..1][..0] == c[..0] && Count(c[..1]) == 0;
    assert c[..2][..1] == c[..1] && Count(c[..2]) == 1;
    assert c[..3] == c && c[..3][..2] == c[..2];
  }

  lemma OneLogShows(b: Block, txs: seq<TxRecord>, receipts: seq<Receipt>)
    requires b.start == 1 && b.end == 2 == |txs| == |receipts| && receipts[1].logs == [Log(0, [], [])]
    ensures Query(AnyLog, BlockLogs(b, txs, receipts, 1), 1) != Matching(AnyLog, BlockLogs(b, txs, receipts, 1))
  {
    hide BlockLogs, Matching, Shifted;
    assert !NoneMatches(AnyLog, receipts[1], 0) by {
      assert AnyLog(receipts[1].logs[0]);
    }
    NoMatchInBlock(AnyLog, b, txs, receipts, 1);
    ShiftShows(Matching(AnyLog, BlockLogs(b, txs, receipts, 1)), 1);
  }
}
