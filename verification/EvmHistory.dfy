/**
 What the EVM module's block accounting is meant to amount to: the transactions executed in each block, and
 the block ranges, receipts and indices that follow from them by closed formulas. `EvmBlocks` shows that the
 hooks, which keep running totals, always hold exactly this.
 */
module EvmHistory {
  import opened Wrappers

  datatype Log = Log(address: nat, topics: seq<nat>, data: seq<nat>)

  datatype Outcome = Outcome(success: bool, gasUsed: nat, logs: seq<Log>, diffSize: nat)

  /** A transaction handed to the executor: who signed it, whether it passes the system-transaction check,
      whether it is a blob transaction, and what running it gives, if it can be run. */
  datatype Attempt = Attempt(hash: nat, system: bool, verified: bool, blob: bool, outcome: Option<Outcome>)

  datatype Executed = Executed(hash: nat, system: bool, outcome: Outcome)

  datatype Error =
    | SystemTxAfterUserTx
    | SystemTxNotVerified
    | TxTypeNotSupported
    | ExecutionFailed
    | SystemTxNotSuccessful
    | BlockGasLimitExceeded

  datatype ExecResult = Ok(executed: seq<Executed>, sawUser: bool) | Err(error: Error)

  /** Executes transactions in order up to the first error. */
  function Execute(attempts: seq<Attempt>, gasLimit: nat, gasBefore: nat, sawUser: bool): ExecResult {
    if attempts == [] then Ok([], sawUser)
    else
      var first := ExecuteOne(attempts[0], gasLimit, gasBefore, sawUser);
      if first.Err? then first
      else
        var rest := Execute(attempts[1..], gasLimit, gasBefore + attempts[0].outcome.value.gasUsed, first.sawUser);
        if rest.Err? then rest else Ok(first.executed + rest.executed, rest.sawUser)
  }

  function ExecuteOne(tx: Attempt, gasLimit: nat, gasBefore: nat, sawUser: bool): (r: ExecResult)
    ensures r.Ok? ==> tx.outcome.Some? && r.executed == [Executed(tx.hash, tx.system, tx.outcome.value)]
  {
    if tx.system && sawUser then Err(SystemTxAfterUserTx)
    else if tx.system && !tx.verified then Err(SystemTxNotVerified)
    else if tx.blob then Err(TxTypeNotSupported)
    else if tx.outcome.None? then Err(ExecutionFailed)
    else if tx.system && !tx.outcome.value.success then Err(SystemTxNotSuccessful)
    else if gasBefore + tx.outcome.value.gasUsed > gasLimit then Err(BlockGasLimitExceeded)
    else Ok([Executed(tx.hash, tx.system, tx.outcome.value)], sawUser || !tx.system)
  }

  // ----- one block

  function SumGas(txs: seq<Executed>): nat {
    if txs == [] then 0 else SumGas(txs[..|txs| - 1]) + txs[|txs| - 1].outcome.gasUsed
  }

  function SumLogs(txs: seq<Executed>): nat {
    if txs == [] then 0 else SumLogs(txs[..|txs| - 1]) + |txs[|txs| - 1].outcome.logs|
  }

  predicate AnyUser(txs: seq<Executed>) {
    exists i :: 0 <= i < |txs| && !txs[i].system
  }

  datatype TxRecord = TxRecord(hash: nat, system: bool, blockNumber: nat)

  datatype Receipt = Receipt(
    success: bool,
    cumulativeGas: nat,
    logs: seq<Log>,
    gasUsed: nat,
    logIndexStart: nat,
    diffSize: nat)

  datatype Pending = Pending(tx: TxRecord, receipt: Receipt)

  /** The k-th transaction of a block: gas summed up to and including it, logs counted before it. */
  function RecordAt(txs: seq<Executed>, k: nat, number: nat): Pending
    requires k < |txs|
  {
    var t := txs[k];
    Pending(
      TxRecord(t.hash, t.system, number),
      Receipt(t.outcome.success, SumGas(txs[..k + 1]), t.outcome.logs, t.outcome.gasUsed, SumLogs(txs[..k]),
              t.outcome.diffSize))
  }

  function Records(txs: seq<Executed>, number: nat): (r: seq<Pending>)
    ensures |r| == |txs|
    ensures forall k :: 0 <= k < |txs| ==> r[k] == RecordAt(txs, k, number)
  {
    if txs == [] then []
    else
      var init := txs[..|txs| - 1];
      assert forall k :: 0 <= k <= |init| ==> init[..k] == txs[..k];
      assert txs[..|txs|] == txs;
      Records(init, number) + [RecordAt(txs, |txs| - 1, number)]
  }

  // ----- the chain

  datatype Block = Block(number: nat, start: nat, end: nat, gasUsed: nat)

  function Count(committed: seq<seq<Executed>>): nat {
    if committed == [] then 0 else Count(committed[..|committed| - 1]) + |committed[|committed| - 1]|
  }

  function BlockAt(committed: seq<seq<Executed>>, i: nat): Block
    requires i < |committed|
  {
    Block(i, Count(committed[..i]), Count(committed[..i + 1]), SumGas(committed[i]))
  }

  function BlocksUpTo(committed: seq<seq<Executed>>, n: nat): (r: seq<Block>)
    requires n <= |committed|
    ensures |r| == n
    ensures forall i :: 0 <= i < n ==> r[i] == BlockAt(committed, i)
  {
    if n == 0 then [] else BlocksUpTo(committed, n - 1) + [BlockAt(committed, n - 1)]
  }

  /** Everything stored about transactions: the records of block after block. */
  function Stored(committed: seq<seq<Executed>>): (r: seq<Pending>)
    ensures |r| == Count(committed)
  {
    if committed == [] then []
    else
      var n := |committed| - 1;
      Stored(committed[..n]) + Records(committed[n], n)
  }

  function TxsOf(records: seq<Pending>): (r: seq<TxRecord>)
    ensures |r| == |records|
    ensures forall i :: 0 <= i < |r| ==> r[i] == records[i].tx
  {
    if records == [] then [] else TxsOf(records[..|records| - 1]) + [records[|records| - 1].tx]
  }

  function ReceiptsOf(records: seq<Pending>): (r: seq<Receipt>)
    ensures |r| == |records|
    ensures forall i :: 0 <= i < |r| ==> r[i] == records[i].receipt
  {
    if records == [] then [] else ReceiptsOf(records[..|records| - 1]) + [records[|records| - 1].receipt]
  }

  /** The index under which each transaction hash was stored last. */
  function IndexByHash(txs: seq<TxRecord>): map<nat, nat> {
    if txs == [] then map[] else IndexByHash(txs[..|txs| - 1])[txs[|txs| - 1].hash := |txs| - 1]
  }

  // ----- histories

  const DEFAULT_GAS_LIMIT: nat := 0xffff_ffff_ffff_ffff

  /** Blocks ended so far (the first is genesis), what was executed since the last begin, whether a block has
      begun and not ended, the gas limit in force, how many blocks are sealed and whether one awaits it. */
  datatype History = History(
    committed: seq<seq<Executed>>,
    current: seq<Executed>,
    open: bool,
    gasLimit: nat,
    sealed: nat,
    awaiting: bool)

  datatype Event = Begin | Call(attempts: seq<Attempt>) | End | Finalize

  const GENESIS: History := History([[]], [], false, DEFAULT_GAS_LIMIT, 0, true)

  /** A rejected event, one whose assertion fails included, leaves the history as it is. */
  function Step(h: History, e: Event, blockGasLimit: nat): (r: History)
    requires h.committed != []
    ensures r.committed != []
  {
    match e
    case Begin => h.(current := [], open := true, gasLimit := blockGasLimit)
    case Call(attempts) =>
      var result := Execute(attempts, h.gasLimit, SumGas(h.current), AnyUser(h.current));
      if result.Ok? then h.(current := h.current + result.executed) else h
    case End =>
      if h.open then h.(committed := h.committed + [h.current], current := [], open := false, awaiting := true) else h
    case Finalize =>
      if h.awaiting && h.sealed == |h.committed| - 1 then h.(sealed := h.sealed + 1, awaiting := false) else h
  }

  function Run(events: seq<Event>, blockGasLimit: nat): (r: History)
    ensures r.committed != []
  {
    if events == [] then GENESIS
    else Step(Run(events[..|events| - 1], blockGasLimit), events[|events| - 1], blockGasLimit)
  }

  /** The state of the module that a history stands for. */
  datatype State = State(
    head: Block,
    pendingHead: Option<Block>,
    envNumber: nat,
    envGasLimit: nat,
    pending: seq<Pending>,
    sawUser: bool,
    transactions: seq<TxRecord>,
    receipts: seq<Receipt>,
    indexByHash: map<nat, nat>,
    blocks: seq<Block>)

  function EnvNumber(h: History): nat
    requires h.committed != []
  {
    if h.open then |h.committed| else |h.committed| - 1
  }

  function Realised(h: History): State
    requires h.committed != [] && h.sealed <= |h.committed|
  {
    var head := BlockAt(h.committed, |h.committed| - 1);
    var txs := TxsOf(Stored(h.committed));
    State(head, if h.awaiting then Some(head) else None, EnvNumber(h), h.gasLimit, Records(h.current, EnvNumber(h)),
          AnyUser(h.current), txs, ReceiptsOf(Stored(h.committed)), IndexByHash(txs), BlocksUpTo(h.committed, h.sealed))
  }
}
