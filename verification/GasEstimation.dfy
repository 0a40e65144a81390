/**
 The search part of gas estimation: a binary search over gas limits, driven by executions of the call, that
 starts from an optimistic guess and may stop within 1.5% of the answer.
 */
module GasEstimation {
  import opened Wrappers

  /** The L1 fee and the state-diff size an execution reports. */
  datatype Info = Info(l1Fee: nat, diffSize: nat)

  /** One execution of the call with a given gas limit. `OutOfGas` includes the invalid opcode that a
      contract raises when its remaining gas is too low. */
  datatype Execution =
    | Success(info: Info)
    | Revert(info: Info)
    | OutOfGas
    | OtherHalt
    | LimitAboveBlock
    | CostAboveLimit
    | OtherError

  datatype Range = Range(lowest: nat, highest: nat, info: Info)

  datatype Result = Ok(gas: nat, info: Info) | Err(cause: Execution)

  const WORD: nat := 0x1_0000_0000_0000_0000

  /** The first guess, on 64-bit words. */
  function OptimisticLimit(gasUsed: nat, refund: nat): nat {
    (gasUsed + refund) % WORD * 64 % WORD / 63
  }

  /** The range is within 1.5% of its upper end. */
  predicate CloseEnough(range: Range) {
    (range.highest - range.lowest) * 1000 < 15 * range.highest
  }

  function UpdateRange(run: Execution, limit: nat, range: Range): Option<Range> {
    match run
    case Success(info) => Some(Range(range.lowest, limit, info))
    case Revert(info) => Some(Range(limit, range.highest, info))
    case OutOfGas => Some(range.(lowest := limit))
    case _ => None
  }

  /** What the search takes for granted: limits below `t` fail for lack of gas, those from `t` up to the
      block's limit `cap` succeed, higher ones are refused. */
  ghost predicate HasThreshold(exec: nat -> Execution, t: nat, cap: nat) {
    forall l: nat ::
      && (l < t ==> exec(l).Revert? || exec(l).OutOfGas? || exec(l).CostAboveLimit?)
      && (t <= l <= cap ==> exec(l).Success?)
      && (t <= l && cap < l ==> exec(l).LimitAboveBlock?)
  }

  /** Refunds within the cap of EIP-3529 and no overflow in the first guess. */
  predicate Bounded(gasUsed: nat, refund: nat) {
    5 * refund <= gasUsed + refund && (gasUsed + refund) * 64 < WORD
  }

  /** One turn of the loop at limit `mid`, where the two refusals also move the range. */
  function Narrow(run: Execution, mid: nat, range: Range): Option<Range> {
    match run
    case LimitAboveBlock => Some(range.(highest := mid))
    case CostAboveLimit => Some(range.(lowest := mid))
    case _ => UpdateRange(run, mid, range)
  }

  /** What the range says about the threshold, if there is one, and about the limit to report. */
  ghost predicate Kept(exec: nat -> Execution, first: Info, limit: nat, t: nat, cap: nat, range: Range) {
    && range.highest <= limit
    && (range.highest < limit ==> exec(range.highest).Success? || exec(range.highest).LimitAboveBlock?)
    && (HasThreshold(exec, t, cap) && t <= cap ==> (range.lowest < t || range.lowest == 0) && t <= range.highest)
    && (NeverReverts(exec, t) && limit <= cap && t <= cap && HasThreshold(exec, t, cap) ==>
          range.info == if range.highest < limit then exec(range.highest).info else first)
  }

  ghost predicate NeverReverts(exec: nat -> Execution, t: nat) {
    forall l: nat :: l < t ==> !exec(l).Revert?
  }

  lemma NarrowKeeps(exec: nat -> Execution, first: Info, limit: nat, t: nat, cap: nat, mid: nat, range: Range)
    requires Kept(exec, first, limit, t, cap, range) && mid < range.highest
    ensures UpdateRange(exec(mid), mid, range).Some? ==>
      UpdateRange(exec(mid), mid, range) == Narrow(exec(mid), mid, range)
    ensures var r := Narrow(exec(mid), mid, range); r.Some? ==> Kept(exec, first, limit, t, cap, r.value)
    ensures HasThreshold(exec, t, cap) && t <= cap ==> Narrow(exec(mid), mid, range).Some?
  {
  }

  /** One limit is left, or what is left is less than 15 thousandths of the upper end. */
  ghost predicate Done(range: Range) {
    range.highest - range.lowest <= 1 || 1000 * (range.highest - range.lowest) < 15 * range.highest
  }

  lemma CloseIsDone(range: Range)
    ensures Done(range) <==> range.highest - range.lowest <= 1 || CloseEnough(range)
  {
  }

  /** The limits tried, from a range and the limit to try next: none once the range is one wide or close enough,
      and after each the middle of what is left; an execution that does not narrow the range is the last. */
  ghost predicate Walks(exec: nat -> Execution, range: Range, mid: nat, tried: seq<nat>, last: Range)
    decreases |tried|
  {
    if Done(range) then tried == [] && last == range
    else
      && tried != [] && tried[0] == mid
      && var next := Narrow(exec(mid), mid, range);
      if next.None? then |tried| == 1 && last == range
      else Walks(exec, next.value, (next.value.highest + next.value.lowest) / 2, tried[1..], last)
  }

  /** However the search goes on from here, it has come the way from the start. */
  ghost predicate OnTheWay(exec: nat -> Execution, start: Range, firstMid: nat, tried: seq<nat>, range: Range,
                           mid: nat)
  {
    forall more, last :: Walks(exec, range, mid, more, last) ==> Walks(exec, start, firstMid, tried + more, last)
  }

  lemma WayStarts(exec: nat -> Execution, start: Range, firstMid: nat)
    ensures OnTheWay(exec, start, firstMid, [], start, firstMid)
  {
    hide Walks;
    forall more, last | Walks(exec, start, firstMid, more, last)
      ensures Walks(exec, start, firstMid, [] + more, last)
    {
      assert [] + more == more;
    }
  }

  lemma WayGoesOn(exec: nat -> Execution, start: Range, firstMid: nat, tried: seq<nat>, range: Range, mid: nat)
    requires OnTheWay(exec, start, firstMid, tried, range, mid) && !Done(range)
    ensures var next := Narrow(exec(mid), mid, range);
      if next.None? then Walks(exec, start, firstMid, tried + [mid], range)
      else OnTheWay(exec, start, firstMid, tried + [mid], next.value, (next.value.highest + next.value.lowest) / 2)
  {
    hide Done, Narrow;
    var next := Narrow(exec(mid), mid, range);
    if next.None? {
      assert Walks(exec, range, mid, [mid], range);
    } else {
      forall more, last | Walks(exec, next.value, (next.value.highest + next.value.lowest) / 2, more, last)
        ensures Walks(exec, start, firstMid, tried + [mid] + more, last)
      {
        assert ([mid] + more)[1..] == more;
        assert Walks(exec, range, mid, [mid] + more, last);
        assert tried + ([mid] + more) == tried + [mid] + more;
      }
    }
  }

  lemma WayEnds(exec: nat -> Execution, start: Range, firstMid: nat, tried: seq<nat>, range: Range, mid: nat)
    requires OnTheWay(exec, start, firstMid, tried, range, mid) && Done(range)
    ensures Walks(exec, start, firstMid, tried, range)
  {
    assert Walks(exec, range, mid, [], range);
    assert tried + [] == tried;
  }

  /** The binary search proper, from a first limit to try. It ends with a range at most one wide or close
      enough, whatever the executions return, provided the first limit is in the range or there is a threshold. */
  method Search(exec: nat -> Execution, start: Range, firstMid: nat,
                ghost first: Info, ghost limit: nat, ghost t: nat, ghost cap: nat)
      returns (r: Result, ghost last: Range, ghost tried: seq<nat>)
    requires Kept(exec, first, limit, t, cap, start)
    requires firstMid <= (start.highest + start.lowest) / 2
    requires (HasThreshold(exec, t, cap) && t <= cap) || start.lowest <= firstMid
    ensures r.Ok? ==> Kept(exec, first, limit, t, cap, last) && r == Ok(last.highest, last.info)
    ensures r.Ok? ==> last.highest - last.lowest <= 1 || CloseEnough(last)
    ensures HasThreshold(exec, t, cap) && t <= cap ==> r.Ok?
    ensures Walks(exec, start, firstMid, tried, last)
  {
    hide Kept, CloseEnough, HasThreshold, Walks, OnTheWay, Done;
    var range := start;
    var mid: nat := firstMid;
    tried := [];
    WayStarts(exec, start, firstMid);
    ghost var turned := false;
    while range.highest - range.lowest > 1
      invariant Kept(exec, first, limit, t, cap, range) && OnTheWay(exec, start, firstMid, tried, range, mid)
      invariant (HasThreshold(exec, t, cap) && t <= cap) || range.lowest <= mid
      invariant mid <= (range.highest + range.lowest) / 2
      invariant turned ==> mid == (range.highest + range.lowest) / 2
      decreases if turned then 0 else 1, range.highest - range.lowest
    {
      CloseIsDone(range);
      if CloseEnough(range) {
        break;
      }
      NarrowKeeps(exec, first, limit, t, cap, mid, range);
      WayGoesOn(exec, start, firstMid, tried, range, mid);
      tried := tried + [mid];
      var narrowed := Narrow(exec(mid), mid, range);
      if narrowed.None? {
        return Err(exec(mid)), range, tried;
      }
      range, turned := narrowed.value, true;
      mid := (range.highest + range.lowest) / 2;
    }
    CloseIsDone(range);
    WayEnds(exec, start, firstMid, tried, range, mid);
    return Ok(range.highest, range.info), range, tried;
  }

  /** Under the bounds the first guess does not wrap, and tripling the gas used stays above it. */
  lemma GuessInRange(gasUsed: nat, refund: nat)
    requires Bounded(gasUsed, refund)
    ensures OptimisticLimit(gasUsed, refund) == (gasUsed + refund) * 64 / 63
    ensures gasUsed <= OptimisticLimit(gasUsed, refund) <= gasUsed * 3 == gasUsed * 3 % WORD
  {
    var n := gasUsed + refund;
    NoWrap(n);
    NoWrap(n * 64);
    NoWrap(gasUsed * 3);
    assert OptimisticLimit(gasUsed, refund) == n * 64 / 63;
  }

  lemma NoWrap(n: nat)
    requires n < WORD
    ensures n % WORD == n
  {
  }

  /** What a final range says about the limit at its upper end. */
  lemma FinalRange(exec: nat -> Execution, first: Info, limit: nat, t: nat, cap: nat, range: Range)
    requires Kept(exec, first, limit, t, cap, range)
    requires range.highest - range.lowest <= 1 || CloseEnough(range)
    ensures range.highest <= limit
    ensures range.highest < limit ==> exec(range.highest).Success? || exec(range.highest).LimitAboveBlock?
    ensures HasThreshold(exec, t, cap) && t <= cap ==>
      t <= range.highest
      && (range.highest == t || range.highest == 1 || (range.highest - t) * 1000 < 15 * range.highest)
    ensures HasThreshold(exec, t, cap) && t <= limit <= cap && NeverReverts(exec, t) ==>
      exec(range.highest).Success? && range.info == (if range.highest < limit then exec(range.highest).info else first)
  {
  }

  lemma StartKept(exec: nat -> Execution, first: Info, limit: nat, t: nat, cap: nat, lowest: nat)
    requires t <= limit && (lowest < t || lowest == 0)
    ensures Kept(exec, first, limit, t, cap, Range(lowest, limit, first))
  {
  }

  lemma GuessFails(exec: nat -> Execution, t: nat, cap: nat, guess: nat, range: Range)
    requires HasThreshold(exec, t, cap) && t <= cap
    ensures UpdateRange(exec(guess), guess, range).None?
       <==> exec(guess).CostAboveLimit? || exec(guess).LimitAboveBlock?
  {
  }

  /** What is known before the search: the call needs what it used, the limit given suffices, and, if the first
      guess is below that limit, how the call went with it. */
  ghost function SearchedFrom(exec: nat -> Execution, first: Info, gasUsed: nat, guess: nat, limit: nat): Range {
    var given := Range(if gasUsed == 0 then 0 else gasUsed - 1, limit, first);
    if guess >= limit then given
    else match exec(guess)
      case Success(info) => Range(given.lowest, guess, info)
      case Revert(info) => Range(guess, limit, info)
      case _ => Range(guess, limit, first)
  }

  lemma GuessUpdates(exec: nat -> Execution, first: Info, gasUsed: nat, guess: nat, limit: nat)
    ensures var given := Range(if gasUsed == 0 then 0 else gasUsed - 1, limit, first);
      var updated := UpdateRange(exec(guess), guess, given);
      if guess >= limit then SearchedFrom(exec, first, gasUsed, guess, limit) == given
      else updated.Some? ==>
        && updated == Some(SearchedFrom(exec, first, gasUsed, guess, limit))
        && ((updated.value.lowest == given.lowest && updated.value.highest == guess)
            || (updated.value.lowest == guess && updated.value.highest == limit))
  {
  }

  function Smaller(a: nat, b: nat): nat {
    if a < b then a else b
  }

  /** Executes the call with the first guess, if that is below the limit given. */
  method TryGuess(exec: nat -> Execution, first: Info, gasUsed: nat, guess: nat, limit: nat,
                  ghost t: nat, ghost cap: nat)
      returns (range: Option<Range>)
    requires gasUsed <= t <= limit
    ensures HasThreshold(exec, t, cap) && t <= cap ==>
      (range.None? <==> guess < limit && (exec(guess).CostAboveLimit? || exec(guess).LimitAboveBlock?))
    ensures range.Some? ==>
      && range.value == SearchedFrom(exec, first, gasUsed, guess, limit)
      && Kept(exec, first, limit, t, cap, range.value)
      && (gasUsed <= guess <= 3 * gasUsed ==>
            range.value.lowest <= Smaller(3 * gasUsed, (range.value.highest + range.value.lowest) / 2))
  {
    hide Kept, HasThreshold, UpdateRange, Narrow, SearchedFrom;
    var given := Range(if gasUsed == 0 then 0 else gasUsed - 1, limit, first);
    StartKept(exec, first, limit, t, cap, given.lowest);
    GuessUpdates(exec, first, gasUsed, guess, limit);
    if HasThreshold(exec, t, cap) && t <= cap {
      GuessFails(exec, t, cap, guess, given);
    }
    if guess < limit {
      NarrowKeeps(exec, first, limit, t, cap, guess, given);
      range := UpdateRange(exec(guess), guess, given);
    } else {
      range := Some(given);
    }
  }

  /** The estimate, for a call that used `gasUsed` gas, was refunded `refund` and reported `first`. It ends
      for all executions whatsoever under the bounds, and with a threshold even without them. With a
      threshold it fails only in the first guess and otherwise returns it, or a limit at most 1.5% higher.
      The fee is that of the limit returned when no lower limit makes the call revert. The limits `tried` in the
      search begin with three times the gas used, or the middle of the range if that is less. */
  method EstimateGas(exec: nat -> Execution, first: Info, gasUsed: nat, refund: nat, limit: nat,
                     ghost t: nat, ghost cap: nat)
      returns (r: Result, ghost tried: seq<nat>)
    requires gasUsed <= t <= limit < WORD
    requires (HasThreshold(exec, t, cap) && t <= cap) || Bounded(gasUsed, refund)
    ensures r.Ok? ==> r.gas <= limit
    ensures r.Ok? && r.gas < limit ==> exec(r.gas).Success? || exec(r.gas).LimitAboveBlock?
    ensures HasThreshold(exec, t, cap) && t <= cap ==>
      var guess := OptimisticLimit(gasUsed, refund);
      (r.Err? <==> guess < limit && (exec(guess).CostAboveLimit? || exec(guess).LimitAboveBlock?))
    ensures HasThreshold(exec, t, cap) && t <= cap && r.Ok? ==>
      t <= r.gas && (r.gas == t || r.gas == 1 || (r.gas - t) * 1000 < 15 * r.gas)
    ensures HasThreshold(exec, t, cap) && t <= limit <= cap && NeverReverts(exec, t) && r.Ok? ==>
      exec(r.gas).Success? && r.info == (if r.gas < limit then exec(r.gas).info else first)
    ensures Bounded(gasUsed, refund) && r.Ok? ==>
      var from := SearchedFrom(exec, first, gasUsed, (gasUsed + refund) * 64 / 63, limit);
      var mid := Smaller(3 * gasUsed, (from.highest + from.lowest) / 2);
      exists last :: Walks(exec, from, mid, tried, last) && r == Ok(last.highest, last.info)
  {
    hide OptimisticLimit, Bounded, Kept, HasThreshold, NeverReverts, CloseEnough, Walks, SearchedFrom;
    var guess := OptimisticLimit(gasUsed, refund);
    if Bounded(gasUsed, refund) {
      GuessInRange(gasUsed, refund);
    }
    var range := TryGuess(exec, first, gasUsed, guess, limit, t, cap);
    if range.None? {
      return Err(exec(guess)), [];
    }
    var mid := Smaller(gasUsed * 3 % WORD, (range.value.highest + range.value.lowest) / 2);
    ghost var last;
    r, last, tried := Search(exec, range.value, mid, first, limit, t, cap);
    if r.Ok? {
      FinalRange(exec, first, limit, t, cap, last);
    }
  }
}
