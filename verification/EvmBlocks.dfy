/**
 The EVM module's hooks over its stored state: a block begins, any number of calls execute transactions, the
 block ends and is sealed. The state held is at all times the one its history stands for.
 */
module EvmBlocks {
  import opened Wrappers
  import opened EvmHistory

  // ----- how the closed formulas extend by one transaction, and by one block

  lemma SumsExtend(txs: seq<Executed>, t: Executed)
    ensures SumGas(txs + [t]) == SumGas(txs) + t.outcome.gasUsed
    ensures SumLogs(txs + [t]) == SumLogs(txs) + |t.outcome.logs|
    ensures AnyUser(txs + [t]) <==> AnyUser(txs) || !t.system
  {
    var all := txs + [t];
    assert all[..|all| - 1] == txs;
    assert all[|all| - 1] == t;
    forall i | 0 <= i < |txs|
      ensures all[i] == txs[i]
    {
    }
  }

  /** The record of a transaction that comes after `txs`. */
  function NextRecord(txs: seq<Executed>, t: Executed, number: nat): Pending {
    Pending(
      TxRecord(t.hash, t.system, number),
      Receipt(t.outcome.success, SumGas(txs) + t.outcome.gasUsed, t.outcome.logs, t.outcome.gasUsed, SumLogs(txs),
              t.outcome.diffSize))
  }

  lemma LastRecord(txs: seq<Executed>, t: Executed, number: nat)
    ensures RecordAt(txs + [t], |txs|, number) == NextRecord(txs, t, number)
  {
    hide SumGas, SumLogs;
    var all := txs + [t];
    assert all[..|txs|] == txs && all[..|txs| + 1] == all;
    SumsExtend(txs, t);
  }

  lemma RecordsExtend(txs: seq<Executed>, t: Executed, number: nat)
    ensures Records(txs + [t], number) == Records(txs, number) + [NextRecord(txs, t, number)]
  {
    hide RecordAt, NextRecord;
    assert (txs + [t])[..|txs|] == txs;
    LastRecord(txs, t, number);
  }

  lemma BlocksExtend(committed: seq<seq<Executed>>, txs: seq<Executed>, n: nat)
    requires n <= |committed|
    ensures var all := committed + [txs];
      && Count(all) == Count(committed) + |txs|
      && Stored(all) == Stored(committed) + Records(txs, |committed|)
      && BlockAt(all, |committed|) == Block(|committed|, Count(committed), Count(committed) + |txs|, SumGas(txs))
      && BlocksUpTo(all, n) == BlocksUpTo(committed, n)
  {
    var all := committed + [txs];
    assert all[..|committed|] == committed;
    assert all[..|all|] == all;
    forall i | 0 <= i < n
      ensures BlockAt(all, i) == BlockAt(committed, i)
    {
      assert all[..i] == committed[..i] && all[..i + 1] == committed[..i + 1];
    }
  }

  lemma RunExtend(events: seq<Event>, e: Event, blockGasLimit: nat)
    ensures Run(events + [e], blockGasLimit) == Step(Run(events, blockGasLimit), e, blockGasLimit)
  {
    var all := events + [e];
    assert all[..|all| - 1] == events;
  }

  /** The executor's loop over the transactions of a call. */
  method ExecuteMultipleTx(attempts: seq<Attempt>, gasLimit: nat, gasBefore: nat, userSeen: bool)
      returns (r: ExecResult)
    ensures r == Execute(attempts, gasLimit, gasBefore, userSeen)
  {
    hide ExecuteOne;
    var results: seq<Executed> := [];
    var gas: nat, sawUser := gasBefore, userSeen;
    ghost var goal := Execute(attempts, gasLimit, gasBefore, userSeen);
    assert attempts[0..] == attempts;
    for i := 0 to |attempts|
      invariant goal == Resume(results, Execute(attempts[i..], gasLimit, gas, sawUser))
    {
      ghost var todo := attempts[i..];
      assert todo[0] == attempts[i] && todo[1..] == attempts[i + 1..];
      var one := ExecuteOne(attempts[i], gasLimit, gas, sawUser);
      if one.Err? {
        return one;
      }
      gas, sawUser := gas + attempts[i].outcome.value.gasUsed, one.sawUser;
      ResumeTwice(results, one.executed, Execute(attempts[i + 1..], gasLimit, gas, sawUser));
      results := results + one.executed;
    }
    assert results + [] == results;
    return Ok(results, sawUser);
  }

  function Resume(done: seq<Executed>, r: ExecResult): ExecResult {
    if r.Err? then r else Ok(done + r.executed, r.sawUser)
  }

  lemma ResumeTwice(a: seq<Executed>, b: seq<Executed>, r: ExecResult)
    ensures Resume(a, Resume(b, r)) == Resume(a + b, r)
  {
    if r.Ok? {
      assert a + (b + r.executed) == a + b + r.executed;
    }
  }

  lemma StoredExtend(records: seq<Pending>, i: nat)
    requires i < |records|
    ensures TxsOf(records[..i + 1]) == TxsOf(records[..i]) + [records[i].tx]
    ensures ReceiptsOf(records[..i + 1]) == ReceiptsOf(records[..i]) + [records[i].receipt]
  {
    assert records[..i + 1][..i] == records[..i];
  }

  lemma IndexExtend(txs: seq<TxRecord>, t: TxRecord)
    ensures IndexByHash(txs + [t]) == IndexByHash(txs)[t.hash := |txs|]
  {
    assert (txs + [t])[..|txs|] == txs;
  }

  // ----- what each event does to the state a history stands for

  ghost predicate Sound(h: History) {
    h.committed != [] && h.sealed <= |h.committed|
  }

  /** What the hooks read of a state, in terms of its history. */
  lemma Held(h: History)
    requires Sound(h)
    ensures var s := Realised(h);
      && s.envNumber == EnvNumber(h) && s.pending == Records(h.current, s.envNumber)
      && s.envGasLimit == h.gasLimit && s.sawUser == AnyUser(h.current)
      && (s.envNumber == s.head.number + 1 <==> h.open)
      && (s.pendingHead.Some? && s.pendingHead.value.number == |s.blocks|
          <==> h.awaiting && h.sealed == |h.committed| - 1)
  {
    hide Stored, TxsOf, ReceiptsOf, IndexByHash, Records, AnyUser;
  }

  lemma EndRefused(h: History, blockGasLimit: nat)
    requires Sound(h)
    ensures !h.open ==> Step(h, End, blockGasLimit) == h
  {
  }

  lemma RealisedBegin(h: History, blockGasLimit: nat)
    requires Sound(h)
    ensures Sound(Step(h, Begin, blockGasLimit))
    ensures Realised(Step(h, Begin, blockGasLimit)) == Realised(h).(
      pending := [], envNumber := Realised(h).head.number + 1, envGasLimit := blockGasLimit, sawUser := false)
  {
    hide Stored, TxsOf, ReceiptsOf, IndexByHash, BlocksUpTo, Count, SumGas;
  }

  lemma RealisedCall(h: History, attempts: seq<Attempt>, blockGasLimit: nat)
    requires Sound(h)
    ensures var result := Execute(attempts, h.gasLimit, SumGas(h.current), AnyUser(h.current));
      Step(h, Call(attempts), blockGasLimit) == if result.Ok? then h.(current := h.current + result.executed) else h
    ensures Sound(Step(h, Call(attempts), blockGasLimit))
    ensures var result := Execute(attempts, h.gasLimit, SumGas(h.current), AnyUser(h.current));
      Realised(Step(h, Call(attempts), blockGasLimit)) == if result.Ok?
        then Realised(h).(pending := Records(h.current + result.executed, EnvNumber(h)), sawUser := result.sawUser)
        else Realised(h)
  {
    hide Stored, TxsOf, ReceiptsOf, IndexByHash, BlocksUpTo, Records;
    ExecutedUsers(attempts, h.gasLimit, SumGas(h.current), h.current);
  }

  /** The first transaction of a list that executes, and the rest of the list after it. */
  lemma ExecuteTurn(attempts: seq<Attempt>, gasLimit: nat, gas: nat, sawUser: bool)
      returns (t: Executed, rest: ExecResult)
    requires attempts != [] && Execute(attempts, gasLimit, gas, sawUser).Ok?
    ensures rest == Execute(attempts[1..], gasLimit, gas + t.outcome.gasUsed, sawUser || !t.system) && rest.Ok?
    ensures Execute(attempts, gasLimit, gas, sawUser) == Ok([t] + rest.executed, rest.sawUser)
    ensures gas + t.outcome.gasUsed <= gasLimit && (t.system ==> t.outcome.success && !sawUser)
  {
    t := ExecuteOne(attempts[0], gasLimit, gas, sawUser).executed[0];
    rest := Execute(attempts[1..], gasLimit, gas + t.outcome.gasUsed, sawUser || !t.system);
  }

  lemma ExecuteNothing(gasLimit: nat, gas: nat, sawUser: bool)
    ensures Execute([], gasLimit, gas, sawUser) == Ok([], sawUser)
  {
  }

  /** The flag the executor hands on says whether the block holds a user transaction. */
  lemma {:induction false} ExecutedUsers(attempts: seq<Attempt>, gasLimit: nat, gas: nat, before: seq<Executed>)
    ensures var result := Execute(attempts, gasLimit, gas, AnyUser(before));
      result.Ok? ==> result.sawUser == AnyUser(before + result.executed)
    decreases |attempts|
  {
    hide AnyUser, Execute, SumGas, SumLogs;
    if attempts == [] {
      ExecuteNothing(gasLimit, gas, AnyUser(before));
      assert before + [] == before;
    } else if Execute(attempts, gasLimit, gas, AnyUser(before)).Ok? {
      var t, rest := ExecuteTurn(attempts, gasLimit, gas, AnyUser(before));
      SumsExtend(before, t);
      ExecutedUsers(attempts[1..], gasLimit, gas + t.outcome.gasUsed, before + [t]);
      assert before + [t] + rest.executed == before + ([t] + rest.executed);
    }
  }

  /** What the last pending receipt carries over to the next call. */
  lemma CarriedOver(txs: seq<Executed>, number: nat)
    ensures |Records(txs, number)| == |txs|
    ensures txs == [] ==> SumGas(txs) == SumLogs(txs) == 0
    ensures txs != [] ==>
      var last := Records(txs, number)[|txs| - 1].receipt;
      last.cumulativeGas == SumGas(txs) && last.logIndexStart + |last.logs| == SumLogs(txs)
  {
    assert txs[..|txs|] == txs;
  }

  lemma RealisedEnd(h: History, blockGasLimit: nat)
    requires Sound(h) && h.open
    ensures Sound(Step(h, End, blockGasLimit))
    ensures var s := Realised(h);
      var block := Block(s.envNumber, s.head.end, s.head.end + |s.pending|, SumGas(h.current));
      var txs := s.transactions + TxsOf(s.pending);
      Realised(Step(h, End, blockGasLimit)) == s.(
        head := block, pendingHead := Some(block), pending := [], sawUser := false, transactions := txs,
        receipts := s.receipts + ReceiptsOf(s.pending), indexByHash := IndexByHash(txs))
    ensures var s := Realised(h); s.head.end == |s.transactions| && s.indexByHash == IndexByHash(s.transactions)
    ensures Realised(h).envNumber == Realised(h).head.number + 1
  {
    hide TxsOf, ReceiptsOf, IndexByHash, BlocksUpTo, Stored, Count;
    var n := |h.committed|;
    assert h.committed[..n] == h.committed;
    BlocksExtend(h.committed, h.current, h.sealed);
    var before, added := Stored(h.committed), Records(h.current, n);
    assert TxsOf(before + added) == TxsOf(before) + TxsOf(added);
    assert ReceiptsOf(before + added) == ReceiptsOf(before) + ReceiptsOf(added);
  }

  lemma RealisedFinalize(h: History, blockGasLimit: nat)
    requires Sound(h)
    ensures Sound(Step(h, Finalize, blockGasLimit))
    ensures var s := Realised(h);
      Realised(Step(h, Finalize, blockGasLimit)) ==
        if s.pendingHead.Some? && s.pendingHead.value.number == |s.blocks|
        then s.(blocks := s.blocks + [s.pendingHead.value], pendingHead := None) else s
  {
    hide TxsOf, ReceiptsOf, IndexByHash, Stored, Count;
  }

  class Evm {
    const blockGasLimit: nat
    var head: Block
    var pendingHead: Option<Block>
    var envNumber: nat
    var envGasLimit: nat
    var pending: seq<Pending>
    var sawUser: bool
    var transactions: seq<TxRecord>
    var receipts: seq<Receipt>
    var indexByHash: map<nat, nat>
    var blocks: seq<Block>
    ghost var trace: seq<Event>

    ghost function View(): State
      reads this
    {
      State(head, pendingHead, envNumber, envGasLimit, pending, sawUser, transactions, receipts, indexByHash, blocks)
    }

    ghost function Past(): History
      reads this
    {
      Run(trace, blockGasLimit)
    }

    /** The state is the one that the history of all calls made so far stands for. */
    ghost predicate Valid()
      reads this
    {
      Sound(Past()) && View() == Realised(Past())
    }

    /** Genesis. */
    constructor (limit: nat)
      ensures Valid() && blockGasLimit == limit && trace == []
    {
      blockGasLimit := limit;
      head, pendingHead := Block(0, 0, 0, 0), Some(Block(0, 0, 0, 0));
      envNumber, envGasLimit := 0, DEFAULT_GAS_LIMIT;
      pending, sawUser := [], false;
      transactions, receipts, indexByHash, blocks := [], [], map[], [];
      trace := [];
      new;
      assert Stored([[]]) == [] && Count([[]]) == 0;
    }

    method BeginL2Block()
      requires Valid()
      modifies this
      ensures Valid() && trace == old(trace) + [Begin]
    {
      hide Run, Step, Realised;
      RunExtend(trace, Begin, blockGasLimit);
      RealisedBegin(Past(), blockGasLimit);
      trace := trace + [Begin];
      pending := [];
      envNumber, envGasLimit := head.number + 1, blockGasLimit;
      sawUser := false;
    }

    method ExecuteCall(attempts: seq<Attempt>) returns (r: Option<Error>)
      requires Valid()
      modifies this
      ensures Valid() && trace == old(trace) + [Call(attempts)]
      ensures var h := old(Past()); var result := Execute(attempts, h.gasLimit, SumGas(h.current), AnyUser(h.current));
        r == if result.Ok? then None else Some(result.error)
    {
      hide Run, Step, Realised, Execute, Records, AnyUser, EnvNumber, SumGas, SumLogs;
      ghost var h := Past();
      Held(h);
      RunExtend(trace, Call(attempts), blockGasLimit);
      RealisedCall(h, attempts, blockGasLimit);
      trace := trace + [Call(attempts)];
      var cumulativeGas, logIndex := 0, 0;
      CarriedOver(h.current, envNumber);
      if pending != [] {
        var last := pending[|pending| - 1].receipt;
        cumulativeGas, logIndex := last.cumulativeGas, last.logIndexStart + |last.logs|;
      }
      var result := ExecuteMultipleTx(attempts, envGasLimit, cumulativeGas, sawUser);
      if result.Err? {
        return Some(result.error);
      }
      sawUser := result.sawUser;
      AppendPending(result.executed, cumulativeGas, logIndex, h.current);
      r := None;
    }

    /** The loop that turns results into pending transactions, continuing both running totals. */
    method AppendPending(executed: seq<Executed>, gas: nat, logs: nat, ghost before: seq<Executed>)
      requires pending == Records(before, envNumber) && gas == SumGas(before) && logs == SumLogs(before)
      modifies this`pending
      ensures pending == Records(before + executed, envNumber)
    {
      hide Records, SumGas, SumLogs, AnyUser;
      var cumulativeGas, logIndex := gas, logs;
      assert before + executed[..0] == before;
      for i := 0 to |executed|
        invariant pending == Records(before + executed[..i], envNumber)
        invariant cumulativeGas == SumGas(before + executed[..i]) && logIndex == SumLogs(before + executed[..i])
      {
        var t := executed[i];
        assert before + executed[..i] + [t] == before + executed[..i + 1];
        RecordsExtend(before + executed[..i], t, envNumber);
        SumsExtend(before + executed[..i], t);
        cumulativeGas := cumulativeGas + t.outcome.gasUsed;
        var o := t.outcome;
        var receipt := Receipt(o.success, cumulativeGas, o.logs, o.gasUsed, logIndex, o.diffSize);
        logIndex := logIndex + |t.outcome.logs|;
        pending := pending + [Pending(TxRecord(t.hash, t.system, envNumber), receipt)];
      }
      assert executed[..|executed|] == executed;
    }

    /** Ends the block, unless none has begun: then the source's assertion fails. */
    method EndL2Block() returns (ok: bool)
      requires Valid()
      modifies this
      ensures Valid() && trace == old(trace) + [End]
      ensures ok == old(Past().open)
    {
      hide Run, Step, Realised, Execute, Records, AnyUser, EnvNumber, TxsOf, ReceiptsOf, IndexByHash;
      ghost var h := Past();
      RunExtend(trace, End, blockGasLimit);
      Held(h);
      EndRefused(h, blockGasLimit);
      trace := trace + [End];
      ok := envNumber == head.number + 1;
      if !ok {
        return;
      }
      EndedGas(h);
      RealisedEnd(h, blockGasLimit);
      var gasUsed := if pending == [] then 0 else pending[|pending| - 1].receipt.cumulativeGas;
      CloseBlock(Block(envNumber, head.end, head.end + |pending|, gasUsed));
    }

    /** Makes the block the head, stores what is pending and clears it. */
    method CloseBlock(block: Block)
      requires block.start == |transactions| && indexByHash == IndexByHash(transactions)
      modifies this`head, this`pendingHead, this`pending, this`sawUser
      modifies this`transactions, this`receipts, this`indexByHash
      ensures var s := old(View()); var txs := s.transactions + TxsOf(s.pending);
        View() == s.(head := block, pendingHead := Some(block), pending := [], sawUser := false, transactions := txs,
          receipts := s.receipts + ReceiptsOf(s.pending), indexByHash := IndexByHash(txs))
    {
      hide TxsOf, ReceiptsOf, IndexByHash;
      head := block;
      pendingHead := Some(block);
      sawUser := false;
      StorePending(block.start);
      pending := [];
    }

    /** The loop that stores the pending transactions, their receipts and their indices. */
    method StorePending(start: nat)
      requires start == |transactions| && indexByHash == IndexByHash(transactions)
      modifies this`transactions, this`receipts, this`indexByHash
      ensures transactions == old(transactions) + TxsOf(pending)
      ensures receipts == old(receipts) + ReceiptsOf(pending)
      ensures indexByHash == IndexByHash(transactions)
    {
      hide TxsOf, ReceiptsOf, IndexByHash;
      var txIndex := start;
      for i := 0 to |pending|
        invariant transactions == old(transactions) + TxsOf(pending[..i])
        invariant receipts == old(receipts) + ReceiptsOf(pending[..i])
        invariant indexByHash == IndexByHash(transactions) && txIndex == |transactions|
      {
        StoredExtend(pending, i);
        IndexExtend(transactions, pending[i].tx);
        transactions := transactions + [pending[i].tx];
        receipts := receipts + [pending[i].receipt];
        indexByHash := indexByHash[pending[i].tx.hash := txIndex];
        txIndex := txIndex + 1;
      }
      assert pending[..|pending|] == pending;
    }

    /** Seals the ended block, unless none awaits it or an earlier one was left unsealed. */
    method FinalizeL2Block() returns (ok: bool)
      requires Valid()
      modifies this
      ensures Valid() && trace == old(trace) + [Finalize]
      ensures ok == (old(Past().awaiting) && old(Past().sealed) == |old(Past().committed)| - 1)
    {
      hide Run, Step, Realised, Execute, Records, AnyUser, EnvNumber;
      ghost var h := Past();
      Held(h);
      ok := pendingHead.Some? && pendingHead.value.number == |blocks|;
      RunExtend(trace, Finalize, blockGasLimit);
      RealisedFinalize(h, blockGasLimit);
      trace := trace + [Finalize];
      if ok {
        blocks := blocks + [pendingHead.value];
        pendingHead := None;
      }
    }
  }

  lemma EndedGas(h: History)
    requires Sound(h)
    ensures var pending := Realised(h).pending;
      SumGas(h.current) == if pending == [] then 0 else pending[|pending| - 1].receipt.cumulativeGas
  {
    CarriedOver(h.current, EnvNumber(h));
  }
}
