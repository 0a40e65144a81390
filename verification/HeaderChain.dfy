/**
 Verification of a Bitcoin header against the light client's state, for mainnet, testnet4 and signet,
 and what holds along every accepted run of headers.
 */
module HeaderChain {
  import opened Wrappers
  import opened Powers
  import opened CompactTarget
  import opened BlockWork
  import opened Timestamps

  const BLOCKS_PER_EPOCH: nat := 2016
  const EPOCH_SPAN: nat := 60 * 60 * 24 * 14
  const EPOCH_SPAN_SIGNET: nat := EPOCH_SPAN / 60

  datatype Network = Mainnet | Testnet4 | Signet

  function MaxBits(net: Network): nat {
    if net == Signet then 0x1E0377AE else 0x1D00FFFF
  }

  function MaxTarget(net: Network): nat {
    if net == Signet
    then 0x00000377AE000000000000000000000000000000000000000000000000000000
    else 0x00000000FFFF0000000000000000000000000000000000000000000000000000
  }

  function EpochSpan(net: Network): (span: nat)
    ensures span % 4 == 0 && span == if net == Signet then 20160 else 1209600
  {
    if net == Signet then EPOCH_SPAN_SIGNET else EPOCH_SPAN
  }

  datatype Header = Header(hash: Bytes32, hashOk: bool, prev: Bytes32, height: nat, bits: nat, time: nat)

  datatype DaState = DaState(
    blockHash: Bytes32,
    height: nat,
    totalWork: nat,
    bits: nat,
    epochStart: nat,
    timestamps: Ring)

  datatype Error =
    | InvalidBlockHash
    | NonConsecutiveBlockHeight
    | InvalidPrevBlockHash
    | InvalidBlockBits
    | InvalidTargetHash
    | InvalidTimestamp
    | Panicked  // the next target cannot be encoded

  datatype Result = Accept(state: DaState) | Reject(error: Error)

  /** 32-bit wrapping addition. */
  function Add32(a: nat, b: nat): nat {
    (a + b) % 0x1_0000_0000
  }

  /** Testnet4 lets a block more than twenty minutes late use the easiest target, except the first
      block of an epoch. */
  predicate TwentyMinuteException(net: Network, s: DaState, h: Header) {
    && net == Testnet4
    && h.height % BLOCKS_PER_EPOCH != 0
    && h.time > Add32(s.timestamps[s.height % RING], 1200)
  }

  function ExpectedBits(net: Network, s: DaState, h: Header): nat {
    if TwentyMinuteException(net, s, h) then MaxBits(net) else s.bits
  }

  /** The target the header's hash must meet. */
  function TargetFor(net: Network, s: DaState, h: Header): (t: nat)
    ensures IsU256(t)
  {
    if TwentyMinuteException(net, s, h) then
      MaxTargetFits(net);
      MaxTarget(net)
    else
      DecodeIsU256(s.bits);
      DecodeBits(s.bits)
  }

  /** The checks common to all networks, in order. A header of height 0 follows no state. */
  function VerifyCommon(s: DaState, h: Header, target: nat, expectedBits: nat): Option<Error> {
    if !h.hashOk then Some(InvalidBlockHash)
    else if h.height != s.height + 1 then Some(NonConsecutiveBlockHeight)
    else if h.prev != s.blockHash then Some(InvalidPrevBlockHash)
    else if h.bits != expectedBits then Some(InvalidBlockBits)
    else if LittleEndian(h.hash) > target then Some(InvalidTargetHash)
    else if !TimestampOk(h.time, s.timestamps) then Some(InvalidTimestamp)
    else None
  }

  /** The bits a retarget starts from: the block's own, or on testnet4 those of the block before. */
  function BaseBits(net: Network, s: DaState, h: Header): nat {
    if net == Testnet4 then s.bits else h.bits
  }

  function NextEpochStart(s: DaState, h: Header): nat {
    if h.height % BLOCKS_PER_EPOCH == 0 then h.time else s.epochStart
  }

  /** Bits required of the next header: retargeted after the last block of an epoch. */
  function NextBits(net: Network, s: DaState, h: Header): Option<nat> {
    if h.height % BLOCKS_PER_EPOCH == BLOCKS_PER_EPOCH - 1 then
      TargetToBits(ToBigEndian(
        NewTarget(NextEpochStart(s, h), h.time, BaseBits(net, s, h), MaxTarget(net), EpochSpan(net)), 32))
    else
      Some(BaseBits(net, s, h))
  }

  function Step(net: Network, s: DaState, h: Header): Result {
    var target := TargetFor(net, s, h);
    var error := VerifyCommon(s, h, target, ExpectedBits(net, s, h));
    if error.Some? then Reject(error.value)
    else
      var bits := NextBits(net, s, h);
      if bits.None? then Reject(Panicked)
      else Accept(DaState(h.hash, h.height, SaturatingAdd(s.totalWork, TargetToWork(target)), bits.value,
                          NextEpochStart(s, h), Record(s.timestamps, h.height, h.time)))
  }

  /** The verifier, comparing the hash byte by byte. */
  method VerifyHeader(net: Network, s: DaState, h: Header) returns (r: Result)
    ensures r == Step(net, s, h)
  {
    hide TargetToBits, DecodeBits, TargetToWork, Median, LittleEndian, BigEndian;
    var target: Bytes32 := BitsToTarget(s.bits);
    var expected := s.bits;
    DecodeIsU256(s.bits);
    if TwentyMinuteException(net, s, h) {
      target := ToBigEndian(MaxTarget(net), 32);
      expected := MaxBits(net);
      MaxTargetFits(net);
      ToBigEndianValue(MaxTarget(net), 32);
    }
    if !h.hashOk {
      return Reject(InvalidBlockHash);
    }
    if h.height != s.height + 1 {
      return Reject(NonConsecutiveBlockHeight);
    }
    if h.prev != s.blockHash {
      return Reject(InvalidPrevBlockHash);
    }
    if h.bits != expected {
      return Reject(InvalidBlockBits);
    }
    var meets := VerifyTargetHash(h.hash, target);
    if !meets {
      return Reject(InvalidTargetHash);
    }
    if !TimestampOk(h.time, s.timestamps) {
      return Reject(InvalidTimestamp);
    }
    var timestamps := s.timestamps[h.height % RING := h.time];
    var epochStart := if h.height % BLOCKS_PER_EPOCH == 0 then h.time else s.epochStart;
    var bits := NextBits(net, s, h);
    if bits.None? {
      return Reject(Panicked);
    }
    var work := TargetToWork(TargetFor(net, s, h));
    return Accept(DaState(h.hash, h.height, SaturatingAdd(s.totalWork, work), bits.value, epochStart, timestamps));
  }

  // ----- network constants

  lemma Pow2Of216()
    ensures Pow2(208) == 0x1_0000000000000_0000000000000_0000000000000_0000000000000
    ensures Pow2(216) == 0x100_0000000000000_0000000000000_0000000000000_0000000000000
  {
    hide Pow2;
    Pow2Values();
    Pow2Add(16, 8);
    Pow2Add(24, 2);
    Pow2Small();
    Pow2Add(26, 26);
    Pow2Add(52, 52);
    Pow2Add(104, 104);
    Pow2Add(208, 8);
  }

  lemma Pow2Small()
    ensures Pow2(2) == 4 && Pow2(0) == 1
  {
  }

  /** The largest target is what the largest bits decode to, and those bits are canonical. */
  lemma MaxBitsDecode(net: Network)
    ensures Canonical(MaxBits(net)) && DecodeBits(MaxBits(net)) == MaxTarget(net)
  {
    hide Pow2, DecodeBits;
    Pow2Of216();
    DecodeCanonical(MaxBits(net));
  }

  lemma MaxTargetFits(net: Network)
    ensures IsU256(MaxTarget(net)) && IsU256(Mul(MaxTarget(net), 4 * EpochSpan(net)))
  {
    hide Pow2;
    Pow2Of216();
    Pow2Values();
    Pow2Add(24, 24);
    Pow2Add(208, 48);
  }

  // ----- accepted runs

  /** `states[i + 1]` results from accepting `headers[i]` in `states[i]`. */
  ghost predicate Accepted(net: Network, states: seq<DaState>, headers: seq<Header>) {
    && |states| == |headers| + 1
    && forall i :: 0 <= i < |headers| ==> Step(net, states[i], headers[i]) == Accept(states[i + 1])
  }

  /** What accepting one header says about it and about the new state. */
  lemma AcceptedStep(net: Network, s: DaState, h: Header, t: DaState)
    requires Step(net, s, h) == Accept(t)
    ensures h.hashOk && h.height == s.height + 1 && h.prev == s.blockHash && h.bits == ExpectedBits(net, s, h)
    ensures LittleEndian(h.hash) <= TargetFor(net, s, h) && TimestampOk(h.time, s.timestamps)
    ensures t.height == h.height && t.blockHash == h.hash && t.timestamps == Record(s.timestamps, h.height, h.time)
    ensures t.epochStart == NextEpochStart(s, h) && NextBits(net, s, h) == Some(t.bits)
    ensures t.totalWork == SaturatingAdd(s.totalWork, TargetToWork(TargetFor(net, s, h)))
  {
  }

  /** A header that carries the bits asked of it has to meet the target those bits stand for. */
  lemma TargetIsOfBits(net: Network, s: DaState, h: Header)
    requires h.bits == ExpectedBits(net, s, h)
    ensures TargetFor(net, s, h) == DecodeBits(h.bits)
  {
    hide DecodeBits;
    MaxBitsDecode(net);
  }

  /** Why a header is refused: the first of its faults, in the order of the checks. */
  ghost function Fault(net: Network, s: DaState, h: Header): Option<Error> {
    if !h.hashOk then Some(InvalidBlockHash)
    else if h.height != s.height + 1 then Some(NonConsecutiveBlockHeight)
    else if h.prev != s.blockHash then Some(InvalidPrevBlockHash)
    else if h.bits != ExpectedBits(net, s, h) then Some(InvalidBlockBits)
    else if LittleEndian(h.hash) > DecodeBits(h.bits) then Some(InvalidTargetHash)
    else if h.time <= Median(s.timestamps) then Some(InvalidTimestamp)
    else None
  }

  /** A header is accepted exactly when its hash is right and read as a number at most the target of its own
      bits, it has the next height, links to the last block, carries the bits asked of it, is later than the
      median of the last eleven times, and does not end an epoch whose new target is too small to encode. */
  lemma AcceptedExactly(net: Network, s: DaState, h: Header)
    ensures Step(net, s, h).Accept? <==>
      && h.hashOk && LittleEndian(h.hash) <= DecodeBits(h.bits)
      && h.height == s.height + 1 && h.prev == s.blockHash
      && h.bits == ExpectedBits(net, s, h)
      && h.time > Median(s.timestamps)
      && NextBits(net, s, h).Some?
    ensures forall e :: e != Panicked ==> (Step(net, s, h) == Reject(e) <==> Fault(net, s, h) == Some(e))
  {
    hide DecodeBits, NextBits, Median, LittleEndian, TargetFor, TargetToWork, SaturatingAdd;
    if h.bits == ExpectedBits(net, s, h) {
      TargetIsOfBits(net, s, h);
    }
  }

  lemma {:induction false} Heights(net: Network, states: seq<DaState>, headers: seq<Header>, i: nat)
    requires Accepted(net, states, headers) && i < |headers|
    ensures states[i].height == states[0].height + i && headers[i].height == states[0].height + i + 1
  {
    hide Step;
    AcceptedStep(net, states[i], headers[i], states[i + 1]);
    if i == 0 {
    } else {
      Heights(net, states, headers, i - 1);
      AcceptedStep(net, states[i - 1], headers[i - 1], states[i]);
    }
  }

  // ----- difficulty

  /** Bits in canonical form that stand for a target within the network's limit. */
  ghost predicate GoodBits(net: Network, bits: nat) {
    Canonical(bits) && DecodeBits(bits) <= MaxTarget(net)
  }

  lemma EncodeIsGood(net: Network, t: nat)
    requires IsU256(t) && t <= MaxTarget(net)
    requires TargetToBits(ToBigEndian(t, 32)).Some?
    ensures var bits := TargetToBits(ToBigEndian(t, 32)).value;
      GoodBits(net, bits) && DecodeBits(bits) <= t && t * 0x8000 < DecodeBits(bits) * 0x8001
  {
    hide TargetToBits, DecodeBits;
    ToBigEndianValue(t, 32);
    EncodableIff(ToBigEndian(t, 32));
    RoundTrip(ToBigEndian(t, 32));
  }

  /** Accepting a header keeps the required bits canonical and within the limit. */
  lemma StepKeepsGoodBits(net: Network, s: DaState, h: Header, t: DaState)
    requires Step(net, s, h) == Accept(t) && GoodBits(net, s.bits)
    ensures GoodBits(net, t.bits) && GoodBits(net, BaseBits(net, s, h)) && BaseBits(net, s, h) == s.bits
  {
    hide TargetToBits, DecodeBits, Step, NewTarget;
    AcceptedStep(net, s, h, t);
    if h.height % BLOCKS_PER_EPOCH == BLOCKS_PER_EPOCH - 1 {
      MaxTargetFits(net);
      EncodeIsGood(net, NewTarget(NextEpochStart(s, h), h.time, s.bits, MaxTarget(net), EpochSpan(net)));
    }
  }

  /** Along every accepted run from good bits, the required target never exceeds the network's limit. */
  lemma {:induction false} RunKeepsGoodBits(net: Network, states: seq<DaState>, headers: seq<Header>, i: nat)
    requires Accepted(net, states, headers) && GoodBits(net, states[0].bits) && i <= |headers|
    ensures GoodBits(net, states[i].bits)
    ensures i < |headers| ==> TargetFor(net, states[i], headers[i]) <= MaxTarget(net)
  {
    hide Step, Canonical, DecodeBits;
    if i == 0 {
    } else {
      RunKeepsGoodBits(net, states, headers, i - 1);
      StepKeepsGoodBits(net, states[i - 1], headers[i - 1], states[i]);
    }
  }

  /** A retarget in an accepted run multiplies without wrapping and moves the target by at most a
      factor of four, up to the rounding of the compact form. */
  lemma RetargetWithinFour(net: Network, states: seq<DaState>, headers: seq<Header>, i: nat)
    requires Accepted(net, states, headers) && GoodBits(net, states[0].bits) && i < |headers|
    requires headers[i].height % BLOCKS_PER_EPOCH == BLOCKS_PER_EPOCH - 1
    ensures var before, after := DecodeBits(states[i].bits), DecodeBits(states[i + 1].bits);
      && IsU256(Scaled(NextEpochStart(states[i], headers[i]), headers[i].time, states[i].bits, EpochSpan(net)))
      && after <= 4 * before
      && (before / 4) * 0x8000 < after * 0x8001
      && after <= MaxTarget(net)
  {
    hide Step, TargetToBits, DecodeBits, NewTarget, Scaled, Canonical;
    var s, h, t := states[i], headers[i], states[i + 1];
    RunKeepsGoodBits(net, states, headers, i);
    StepKeepsGoodBits(net, s, h, t);
    AcceptedStep(net, s, h, t);
    MaxTargetFits(net);
    RetargetExact(NextEpochStart(s, h), h.time, s.bits, MaxTarget(net), EpochSpan(net));
    EncodeIsGood(net, NewTarget(NextEpochStart(s, h), h.time, s.bits, MaxTarget(net), EpochSpan(net)));
  }

  /** A header that passes every check is still refused exactly when it ends an epoch whose new target
      has fewer than sixteen bits: such a target has no compact form. */
  lemma RetargetFailsIff(net: Network, s: DaState, h: Header)
    ensures Step(net, s, h) == Reject(Panicked) <==>
      && VerifyCommon(s, h, TargetFor(net, s, h), ExpectedBits(net, s, h)) == None
      && h.height % BLOCKS_PER_EPOCH == BLOCKS_PER_EPOCH - 1
      && Bits(NewTarget(NextEpochStart(s, h), h.time, BaseBits(net, s, h), MaxTarget(net), EpochSpan(net))) < 16
  {
    hide TargetToBits, DecodeBits, NewTarget, Bits, Pow2, TargetFor;
    var t := NewTarget(NextEpochStart(s, h), h.time, BaseBits(net, s, h), MaxTarget(net), EpochSpan(net));
    MaxTargetFits(net);
    MaxTargetBits(net);
    ToBigEndianValue(t, 32);
    EncodableIff(ToBigEndian(t, 32));
    BitsMonotone(t, MaxTarget(net));
  }

  // ----- a retarget that cannot be encoded

  const ZERO_RING: Ring := [0, 0, 0, 0, 0, 0, 0, 0, 0, 0, 0]
  /** Stands for the target 2^15. */
  const LOW_BITS: nat := 0x0300_8000
  const LOW_STATE: DaState := DaState(ZERO, 2014, 0, LOW_BITS, 0, ZERO_RING)
  /** The last header of the epoch, one second after its first. */
  const LOW_HEADER: Header := Header(ZERO, true, ZERO, 2015, LOW_BITS, 1)

  lemma LowBitsDecode()
    ensures Canonical(LOW_BITS) && DecodeBits(LOW_BITS) == 0x8000
  {
    hide DecodeBits;
    DecodeCanonical(LOW_BITS);
    Pow2Values();
  }

  lemma LowTargetQuartered()
    ensures Bits(NewTarget(0, 1, LOW_BITS, MaxTarget(Mainnet), EPOCH_SPAN)) < 16
  {
    hide DecodeBits, Modulus, Pow2;
    LowBitsDecode();
    MaxTargetFits(Mainnet);
    RetargetExact(0, 1, LOW_BITS, MaxTarget(Mainnet), EPOCH_SPAN);
    assert ClampedSpan(0, 1, EPOCH_SPAN) == EPOCH_SPAN / 4;
    assert 0x8000 * (EPOCH_SPAN / 4) / EPOCH_SPAN == 0x2000;
    assert 0x2000 < Pow2(15) by { Pow2Values(); }
    BitsBelow(0x2000, 15);
  }

  lemma {:induction false} ZeroIsLowest(s: seq<Byte>)
    requires forall i :: 0 <= i < |s| ==> s[i] == 0
    ensures LittleEndian(s) == 0
    decreases |s|
  {
    if s == [] {
    } else {
      ZeroIsLowest(s[1..]);
    }
  }

  /** A mainnet header that passes every check, from a state within the limits, and aborts the retarget. */
  lemma LowTargetAborts()
    ensures GoodBits(Mainnet, LOW_STATE.bits)
    ensures VerifyCommon(LOW_STATE, LOW_HEADER, TargetFor(Mainnet, LOW_STATE, LOW_HEADER), LOW_BITS) == None
    ensures Step(Mainnet, LOW_STATE, LOW_HEADER) == Reject(Panicked)
  {
    hide DecodeBits, LittleEndian, Median, NewTarget, TargetToBits, Bits, Modulus, TargetToWork;
    LowBitsDecode();
    ZeroIsLowest(ZERO);
    NoneAtLeast(ZERO_RING, 1);
    MedianAtLeast(ZERO_RING, 1);
    LowTargetQuartered();
    RetargetFailsIff(Mainnet, LOW_STATE, LOW_HEADER);
  }

  lemma MaxTargetBits(net: Network)
    ensures Bits(MaxTarget(net)) <= 255
  {
    hide DecodeBits, Bits, TargetToBits;
    MaxBitsDecode(net);
    DecodeCanonical(MaxBits(net));
  }

  ghost predicate SameEpoch(a: Header, b: Header) {
    a.height / BLOCKS_PER_EPOCH == b.height / BLOCKS_PER_EPOCH
  }

  /** Inside an epoch the bits that retargeting starts from do not change. */
  lemma {:induction false} EpochBits(net: Network, states: seq<DaState>, headers: seq<Header>, i: nat, j: nat)
    requires Accepted(net, states, headers) && i <= j < |headers| && SameEpoch(headers[i], headers[j])
    ensures BaseBits(net, states[i], headers[i]) == BaseBits(net, states[j], headers[j])
    decreases j
  {
    hide Step, NextBits, BaseBits, SameEpoch;
    if i == j {
    } else {
      EpochGoesOn(net, states, headers, i, j);
      StepBits(net, states[j - 1], headers[j - 1], states[j]);
      StepBits(net, states[j], headers[j], states[j + 1]);
      EpochBits(net, states, headers, i, j - 1);
    }
  }

  /** Retargeting starts from the bits required, which an accepted header that does not end its epoch hands on. */
  lemma StepBits(net: Network, s: DaState, h: Header, t: DaState)
    requires Step(net, s, h) == Accept(t)
    ensures BaseBits(net, s, h) == s.bits
    ensures h.height % BLOCKS_PER_EPOCH != BLOCKS_PER_EPOCH - 1 ==> t.bits == s.bits
  {
    hide Step, TargetToBits, NewTarget;
    AcceptedStep(net, s, h, t);
  }

  lemma EpochGoesOn(net: Network, states: seq<DaState>, headers: seq<Header>, i: nat, j: nat)
    requires Accepted(net, states, headers) && i < j < |headers| && SameEpoch(headers[i], headers[j])
    ensures SameEpoch(headers[i], headers[j - 1])
    ensures headers[j - 1].height % BLOCKS_PER_EPOCH != BLOCKS_PER_EPOCH - 1
  {
    hide Accepted;
    Heights(net, states, headers, i);
    Heights(net, states, headers, j - 1);
    Heights(net, states, headers, j);
  }

  /** On mainnet and signet all headers of an epoch carry the same bits. */
  lemma BitsConstantInEpoch(net: Network, states: seq<DaState>, headers: seq<Header>, i: nat, j: nat)
    requires net != Testnet4 && Accepted(net, states, headers)
    requires i < |headers| && j < |headers| && SameEpoch(headers[i], headers[j])
    ensures headers[i].bits == headers[j].bits
  {
    if i <= j {
      EpochBits(net, states, headers, i, j);
    } else {
      EpochBits(net, states, headers, j, i);
    }
  }

  lemma {:induction false} EpochStartKept(net: Network, states: seq<DaState>, headers: seq<Header>, first: nat, j: nat)
    requires Accepted(net, states, headers) && first <= j < |headers|
    requires headers[first].height % BLOCKS_PER_EPOCH == 0 && SameEpoch(headers[first], headers[j])
    ensures NextEpochStart(states[j], headers[j]) == headers[first].time
    decreases j
  {
    hide Step, SameEpoch;
    if first == j {
    } else {
      EpochGoesOn(net, states, headers, first, j);
      NotFirst(net, states, headers, first, j);
      StepStart(net, states[j - 1], headers[j - 1], states[j]);
      EpochStartKept(net, states, headers, first, j - 1);
    }
  }

  lemma StepStart(net: Network, s: DaState, h: Header, t: DaState)
    requires Step(net, s, h) == Accept(t)
    ensures t.epochStart == NextEpochStart(s, h)
  {
  }

  lemma NotFirst(net: Network, states: seq<DaState>, headers: seq<Header>, first: nat, j: nat)
    requires Accepted(net, states, headers) && first < j < |headers|
    requires headers[first].height % BLOCKS_PER_EPOCH == 0 && SameEpoch(headers[first], headers[j])
    ensures headers[j].height % BLOCKS_PER_EPOCH != 0
  {
    hide Accepted;
    Heights(net, states, headers, first);
    Heights(net, states, headers, j);
  }

  /** On every network, a run that contains a whole epoch retargets from the bits and time of that
      epoch's first header, whatever twenty-minute exceptions happened in between. */
  lemma RetargetUsesFirstHeader(net: Network, states: seq<DaState>, headers: seq<Header>, first: nat, last: nat)
    requires Accepted(net, states, headers) && first <= last < |headers|
    requires headers[first].height % BLOCKS_PER_EPOCH == 0
    requires headers[last].height % BLOCKS_PER_EPOCH == BLOCKS_PER_EPOCH - 1
    requires SameEpoch(headers[first], headers[last])
    ensures var a, b := headers[first], headers[last];
      Some(states[last + 1].bits)
      == TargetToBits(ToBigEndian(NewTarget(a.time, b.time, a.bits, MaxTarget(net), EpochSpan(net)), 32))
  {
    hide Step, TargetToBits, NewTarget;
    AcceptedStep(net, states[first], headers[first], states[first + 1]);
    AcceptedStep(net, states[last], headers[last], states[last + 1]);
    EpochBits(net, states, headers, first, last);
    EpochStartKept(net, states, headers, first, last);
  }

  lemma OpeningBitsAreGood(net: Network, states: seq<DaState>, headers: seq<Header>, i: nat)
    requires Accepted(net, states, headers) && i < |headers| && GoodBits(net, states[0].bits)
    requires headers[i].height % BLOCKS_PER_EPOCH == 0
    ensures GoodBits(net, headers[i].bits)
  {
    hide Step, GoodBits;
    AcceptedStep(net, states[i], headers[i], states[i + 1]);
    RunKeepsGoodBits(net, states, headers, i);
  }

  /** In numbers: the new target is that of the epoch's first header times the seconds from its first to its last
      header, taken as at least a quarter and at most four times two weeks (of a sixtieth of that on signet),
      over two weeks, rounded down and capped at the network's limit. */
  lemma RetargetMeasuresEpoch(net: Network, states: seq<DaState>, headers: seq<Header>, first: nat, last: nat)
    requires Accepted(net, states, headers) && first <= last < |headers| && GoodBits(net, states[0].bits)
    requires headers[first].height % BLOCKS_PER_EPOCH == 0
    requires headers[last].height % BLOCKS_PER_EPOCH == BLOCKS_PER_EPOCH - 1
    requires SameEpoch(headers[first], headers[last])
    requires IsU32(headers[first].time) && IsU32(headers[last].time)
    ensures var span := if net == Signet then 20160 else 1209600;
      var seconds := Nearest(Elapsed(headers[first].time, headers[last].time), span / 4, span * 4);
      var exact := Mul(DecodeBits(headers[first].bits), seconds) / span;
      Some(states[last + 1].bits)
      == TargetToBits(ToBigEndian(if exact <= MaxTarget(net) then exact else MaxTarget(net), 32))
  {
    hide Accepted, TargetToBits, NewTarget, GoodBits, Nearest, DecodeBits, SameEpoch, ToBigEndian;
    RetargetUsesFirstHeader(net, states, headers, first, last);
    OpeningBitsAreGood(net, states, headers, first);
    RetargetFrom(net, headers[first].time, headers[last].time, headers[first].bits);
  }

  lemma RetargetFrom(net: Network, start: nat, last: nat, bits: nat)
    requires GoodBits(net, bits) && IsU32(start) && IsU32(last)
    ensures var span := if net == Signet then 20160 else 1209600;
      var exact := Mul(DecodeBits(bits), Nearest(Elapsed(start, last), span / 4, span * 4)) / span;
      NewTarget(start, last, bits, MaxTarget(net), EpochSpan(net))
      == if exact <= MaxTarget(net) then exact else MaxTarget(net)
  {
    hide DecodeBits, NewTarget, Nearest, Canonical;
    MaxTargetFits(net);
    RetargetExact(start, last, bits, MaxTarget(net), EpochSpan(net));
  }

  // ----- timestamps

  lemma StepTimes(net: Network, s: DaState, h: Header, t: DaState)
    requires Step(net, s, h) == Accept(t)
    ensures t.timestamps[h.height % 11] == h.time
    ensures forall k :: 0 <= k < 11 && k != h.height % 11 ==> t.timestamps[k] == s.timestamps[k]
  {
    hide Step;
    AcceptedStep(net, s, h, t);
  }

  /** The ring slot of a recent height holds that header's time. */
  lemma {:induction false} RingSlot(net: Network, states: seq<DaState>, headers: seq<Header>, i: nat, j: nat)
    requires Accepted(net, states, headers) && j < i <= |headers| && i <= j + 11
    ensures states[i].timestamps[headers[j].height % 11] == headers[j].time
    decreases i
  {
    hide Step, Record;
    StepTimes(net, states[i - 1], headers[i - 1], states[i]);
    if j == i - 1 {
    } else {
      RingSlot(net, states, headers, i - 1, j);
      Heights(net, states, headers, j);
      Heights(net, states, headers, i - 1);
      DistinctSlots(headers[j].height, headers[i - 1].height);
    }
  }

  /** Which bits a header of an accepted run carries: the required ones, except on testnet4, where a header
      more than twenty minutes after the one before it carries the easiest, unless it opens an epoch. */
  lemma TwentyMinuteRule(net: Network, states: seq<DaState>, headers: seq<Header>, i: nat)
    requires Accepted(net, states, headers) && 0 < i < |headers|
    ensures headers[i].bits ==
      var late := headers[i].time > Add32(headers[i - 1].time, 1200);
      if net == Testnet4 && headers[i].height % BLOCKS_PER_EPOCH != 0 && late then MaxBits(net) else states[i].bits
  {
    RingSlot(net, states, headers, i, i - 1);
    AcceptedStep(net, states[i], headers[i], states[i + 1]);
    Heights(net, states, headers, i - 1);
    Heights(net, states, headers, i);
  }

  lemma DistinctSlots(a: nat, b: nat)
    requires a < b < a + 11
    ensures a % 11 != b % 11
  {
  }

  ghost function LastTimes(headers: seq<Header>, i: nat): (r: Ring)
    requires 11 <= i <= |headers|
    ensures forall k :: 0 <= k < 11 ==> r[k] == headers[i - 11 + k].time
  {
    var times := seq<nat>(11, k requires 0 <= k < 11 => headers[i - 11 + k].time);
    times
  }

  /** After eleven or more headers the ring holds exactly the last eleven times, and the median a new
      time must exceed is theirs. */
  lemma RingIsLastEleven(net: Network, states: seq<DaState>, headers: seq<Header>, i: nat)
    requires Accepted(net, states, headers) && 11 <= i <= |headers|
    ensures multiset(states[i].timestamps) == multiset(LastTimes(headers, i))
    ensures Median(states[i].timestamps) == Median(LastTimes(headers, i))
    ensures i < |headers| ==> headers[i].time > Median(LastTimes(headers, i))
  {
    hide Step, Median;
    var first := headers[i - 11].height;
    Heights(net, states, headers, i - 11);
    forall k | 0 <= k < 11
      ensures states[i].timestamps[(first + k) % 11] == LastTimes(headers, i)[k]
    {
      Heights(net, states, headers, i - 11 + k);
      RingSlot(net, states, headers, i, i - 11 + k);
    }
    RingHoldsLastEleven(states[i].timestamps, LastTimes(headers, i), first);
    if i < |headers| {
      AcceptedStep(net, states[i], headers[i], states[i + 1]);
    }
  }

  /** The median never goes down along an accepted run. */
  lemma {:induction false} MedianMonotone(net: Network, states: seq<DaState>, headers: seq<Header>, i: nat, j: nat)
    requires Accepted(net, states, headers) && i <= j <= |headers|
    ensures Median(states[i].timestamps) <= Median(states[j].timestamps)
    decreases j
  {
    hide Step, Median;
    if i == j {
    } else {
      MedianMonotone(net, states, headers, i, j - 1);
      AcceptedStep(net, states[j - 1], headers[j - 1], states[j]);
      MedianNeverDecreases(states[j - 1].timestamps, headers[j - 1].height, headers[j - 1].time);
    }
  }

  // ----- work

  /** Work of the first `n` headers, each under the target its bits stand for. */
  ghost function WorkSum(headers: seq<Header>, n: nat): nat
    requires n <= |headers|
  {
    if n == 0 then 0
    else
      DecodeIsU256(headers[n - 1].bits);
      WorkSum(headers, n - 1) + TargetToWork(DecodeBits(headers[n - 1].bits))
  }

  lemma StepAddsWork(net: Network, s: DaState, h: Header, t: DaState)
    requires Step(net, s, h) == Accept(t)
    ensures IsU256(DecodeBits(h.bits))
    ensures var total := s.totalWork + TargetToWork(DecodeBits(h.bits));
      t.totalWork == if total < Pow2(256) then total else Pow2(256) - 1
  {
    hide Step, TargetToWork, TargetFor, DecodeBits, Pow2;
    DecodeIsU256(h.bits);
    AcceptedStep(net, s, h, t);
    TargetIsOfBits(net, s, h);
  }

  /** Total work is what the run started with plus the work of its headers, or 2^256 - 1 if that is less. */
  lemma {:induction false} TotalWorkIsSum(net: Network, states: seq<DaState>, headers: seq<Header>, n: nat)
    requires Accepted(net, states, headers) && n <= |headers| && IsU256(states[0].totalWork)
    ensures var total := states[0].totalWork + WorkSum(headers, n);
      states[n].totalWork == if total < Pow2(256) then total else Pow2(256) - 1
    decreases n
  {
    hide Step, TargetToWork, DecodeBits, Pow2;
    if n == 0 {
    } else {
      TotalWorkIsSum(net, states, headers, n - 1);
      StepAddsWork(net, states[n - 1], headers[n - 1], states[n]);
    }
  }

  /** Every accepted header adds work until the total saturates. */
  lemma WorkStrictlyGrows(net: Network, states: seq<DaState>, headers: seq<Header>, i: nat)
    requires Accepted(net, states, headers) && i < |headers|
    requires states[i].totalWork < Modulus() - 1
    ensures states[i].totalWork < states[i + 1].totalWork
  {
    hide Step, TargetToWork, TargetFor, Modulus;
    AcceptedStep(net, states[i], headers[i], states[i + 1]);
    WorkPositive(TargetFor(net, states[i], headers[i]));
  }

  /** Every header of an accepted run links to the one before and its hash meets the target its bits stand for. */
  lemma RunIsLinkedAndWorked(net: Network, states: seq<DaState>, headers: seq<Header>, i: nat)
    requires Accepted(net, states, headers) && i < |headers|
    ensures i > 0 ==> headers[i].prev == headers[i - 1].hash && headers[i].height == headers[i - 1].height + 1
    ensures LittleEndian(headers[i].hash) <= DecodeBits(headers[i].bits)
    ensures GoodBits(net, states[0].bits) ==> LittleEndian(headers[i].hash) <= MaxTarget(net)
  {
    hide Step, LittleEndian, TargetFor, DecodeBits;
    AcceptedStep(net, states[i], headers[i], states[i + 1]);
    TargetIsOfBits(net, states[i], headers[i]);
    if i > 0 {
      AcceptedStep(net, states[i - 1], headers[i - 1], states[i]);
    }
    if GoodBits(net, states[0].bits) {
      RunKeepsGoodBits(net, states, headers, i);
    }
  }

  /** The states the testnet4 and signet clients start from have good bits. */
  lemma InitialBitsAreGood()
    ensures GoodBits(Testnet4, 0x190461c8) && GoodBits(Signet, 0x1e0377ae)
  {
    MaxBitsDecode(Testnet4);
    MaxBitsDecode(Signet);
    DecodeMonotone(0x190461c8, MaxBits(Testnet4));
  }
}
