/**
 Call trees turned into flat traces and into counts of function selectors.
 */
module CallTraces {
  import opened Wrappers
  import opened Powers

  datatype Frame = Frame(
    kind: string,
    from: nat,
    target: Option<nat>,
    gas: nat,
    gasUsed: nat,
    value: Option<nat>,
    input: seq<Byte>,
    output: Option<seq<Byte>>,
    error: Option<string>,
    calls: seq<Frame>)

  datatype CreationMethod = Create | Create2

  datatype CallType = Call | StaticCall | CallCode | DelegateCall

  datatype Action =
    | CreateAction(from: nat, gas: nat, init: seq<Byte>, value: nat, creationMethod: CreationMethod)
    | SelfdestructAction(address: nat, balance: nat, refundAddress: nat)
    | CallAction(from: nat, callType: CallType, gas: nat, input: seq<Byte>, target: nat, value: nat)

  datatype Output =
    | CreateOutput(address: nat, code: seq<Byte>, gasUsed: nat)
    | CallOutput(gasUsed: nat, output: seq<Byte>)

  datatype Trace = Trace(action: Action, result: Output, error: Option<string>, subtraces: nat, address: seq<nat>)

  function OrZero(x: Option<nat>): nat {
    if x.Some? then x.value else 0
  }

  function OrEmpty(x: Option<seq<Byte>>): seq<Byte> {
    if x.Some? then x.value else []
  }

  function Saturate64(n: nat): nat {
    if n < 0x1_0000_0000_0000_0000 then n else 0xffff_ffff_ffff_ffff
  }

  function LowerChar(c: char): char {
    if 'A' <= c <= 'Z' then c - 'A' + 'a' else c
  }

  function Lower(s: string): string {
    if s == "" then "" else [LowerChar(s[0])] + Lower(s[1..])
  }

  function CreationMethodOf(kind: string): Option<CreationMethod> {
    if kind == "create" then Some(Create) else if kind == "create2" then Some(Create2) else None
  }

  function CallTypeOf(kind: string): Option<CallType> {
    if kind == "call" then Some(Call)
    else if kind == "staticcall" then Some(StaticCall)
    else if kind == "callcode" then Some(CallCode)
    else if kind == "delegatecall" then Some(DelegateCall)
    else None
  }

  predicate KindSupported(kind: string) {
    CreationMethodOf(kind).Some? || kind == "selfdestruct" || CallTypeOf(kind).Some?
  }

  /** The flat trace of one frame, not of its calls; none for an unsupported kind. */
  function TraceOf(f: Frame, address: seq<nat>): (r: Option<Trace>)
    ensures r.Some? <==> KindSupported(Lower(f.kind))
    ensures r.Some? ==> r.value.subtraces == |f.calls| && r.value.address == address
  {
    var kind := Lower(f.kind);
    var created := CreateOutput(OrZero(f.target), OrEmpty(f.output), Saturate64(f.gasUsed));
    if CreationMethodOf(kind).Some? then
      Some(Trace(CreateAction(f.from, Saturate64(f.gas), f.input, OrZero(f.value), CreationMethodOf(kind).value),
                 created, f.error, |f.calls|, address))
    else if kind == "selfdestruct" then
      Some(Trace(SelfdestructAction(f.from, OrZero(f.value), OrZero(f.target)), created, f.error, |f.calls|, address))
    else if CallTypeOf(kind).Some? then
      Some(Trace(CallAction(f.from, CallTypeOf(kind).value, Saturate64(f.gas), f.input, OrZero(f.target),
                            OrZero(f.value)),
                 CallOutput(Saturate64(f.gasUsed), OrEmpty(f.output)), f.error, |f.calls|, address))
    else None
  }

  // ----- the fields of a trace

  /** The word, in letters of either case. */
  ghost predicate Spells(s: string, word: string) {
    |s| == |word| && forall i :: 0 <= i < |s| ==>
      s[i] == word[i] || ('A' <= s[i] <= 'Z' && s[i] as int + 32 == word[i] as int)
  }

  ghost predicate NoCapitals(word: string) {
    forall i :: 0 <= i < |word| ==> !('A' <= word[i] <= 'Z')
  }

  lemma {:induction false} LowerSpells(s: string, word: string)
    requires NoCapitals(word)
    ensures Lower(s) == word <==> Spells(s, word)
    decreases |s|
  {
    if s == "" {
    } else if word != "" {
      LowerSpells(s[1..], word[1..]);
      assert Lower(s)[1..] == Lower(s[1..]) && word == [word[0]] + word[1..];
      assert Spells(s, word) <==> Spells([s[0]], [word[0]]) && Spells(s[1..], word[1..]) by {
        SpellsSplit(s, word);
      }
    }
  }

  lemma SpellsSplit(s: string, word: string)
    requires s != "" && word != ""
    ensures Spells(s, word) <==> Spells([s[0]], [word[0]]) && Spells(s[1..], word[1..])
  {
    if Spells([s[0]], [word[0]]) && Spells(s[1..], word[1..]) {
      forall i | 0 <= i < |s|
        ensures s[i] == word[i] || ('A' <= s[i] <= 'Z' && s[i] as int + 32 == word[i] as int)
      {
        assert i > 0 ==> s[i] == s[1..][i - 1] && word[i] == word[1..][i - 1];
        assert i == 0 ==> s[i] == [s[0]][0];
      }
    }
  }

  ghost predicate IsOr<T>(v: T, x: Option<T>, default: T) {
    v == if x.None? then default else x.value
  }

  /** Gas numbers are cut off at the largest 64-bit number. */
  ghost predicate IsGas(v: nat, gas: nat) {
    v == if gas <= 0xffff_ffff_ffff_ffff then gas else 0xffff_ffff_ffff_ffff
  }

  ghost predicate IsCreation(t: Trace, f: Frame, creation: CreationMethod) {
    && t.action.CreateAction?
    && t.action.from == f.from && IsGas(t.action.gas, f.gas) && t.action.init == f.input
    && IsOr(t.action.value, f.value, 0) && t.action.creationMethod == creation
    && IsCreated(t.result, f)
  }

  ghost predicate IsCreated(o: Output, f: Frame) {
    o.CreateOutput? && IsOr(o.address, f.target, 0) && IsOr(o.code, f.output, []) && IsGas(o.gasUsed, f.gasUsed)
  }

  ghost predicate IsSelfdestruct(t: Trace, f: Frame) {
    && t.action.SelfdestructAction?
    && t.action.address == f.from && IsOr(t.action.balance, f.value, 0) && IsOr(t.action.refundAddress, f.target, 0)
    && IsCreated(t.result, f)
  }

  ghost predicate IsCall(t: Trace, f: Frame, callType: CallType) {
    && t.action.CallAction?
    && t.action.from == f.from && IsOr(t.action.target, f.target, 0) && t.action.callType == callType
    && IsGas(t.action.gas, f.gas) && t.action.input == f.input && IsOr(t.action.value, f.value, 0)
    && t.result.CallOutput? && IsGas(t.result.gasUsed, f.gasUsed) && IsOr(t.result.output, f.output, [])
  }

  /** What the trace of a frame of each kind says of it. */
  ghost predicate Tells(t: Trace, f: Frame) {
    && t.error == f.error && t.subtraces == |f.calls|
    && (Spells(f.kind, "create") ==> IsCreation(t, f, Create))
    && (Spells(f.kind, "create2") ==> IsCreation(t, f, Create2))
    && (Spells(f.kind, "selfdestruct") ==> IsSelfdestruct(t, f))
    && (Spells(f.kind, "call") ==> IsCall(t, f, Call))
    && (Spells(f.kind, "staticcall") ==> IsCall(t, f, StaticCall))
    && (Spells(f.kind, "callcode") ==> IsCall(t, f, CallCode))
    && (Spells(f.kind, "delegatecall") ==> IsCall(t, f, DelegateCall))
  }

  const KINDS: seq<string> := ["create", "create2", "selfdestruct", "call", "staticcall", "callcode", "delegatecall"]

  lemma KindsSpelled(kind: string)
    ensures forall word :: word in KINDS ==> (Lower(kind) == word <==> Spells(kind, word))
  {
    hide Spells, Lower;
    forall word | word in KINDS
      ensures Lower(kind) == word <==> Spells(kind, word)
    {
      assert NoCapitals(word);
      LowerSpells(kind, word);
    }
  }

  lemma TraceTells(f: Frame, address: seq<nat>)
    requires TraceOf(f, address).Some?
    ensures Tells(TraceOf(f, address).value, f)
  {
    hide Spells, Lower;
    KindsSpelled(f.kind);
  }

  lemma SupportedSpelled(kind: string)
    ensures KindSupported(Lower(kind)) <==> exists word :: word in KINDS && Spells(kind, word)
  {
    hide Spells, Lower;
    KindsSpelled(kind);
    assert "create" in KINDS && "create2" in KINDS && "selfdestruct" in KINDS && "call" in KINDS;
    assert "staticcall" in KINDS && "callcode" in KINDS && "delegatecall" in KINDS;
  }

  // ----- the list

  function Flatten(f: Frame, address: seq<nat>): Option<seq<Trace>>
    decreases f, 1
  {
    var own := TraceOf(f, address);
    if own.None? then None
    else
      var rest := FlattenFrom(f, address, 0);
      if rest.None? then None else Some([own.value] + rest.value)
  }

  /** The traces of the calls of `f` from the i-th on. */
  function FlattenFrom(f: Frame, address: seq<nat>, i: nat): Option<seq<Trace>>
    requires i <= |f.calls|
    decreases f, 0, |f.calls| - i
  {
    if i == |f.calls| then Some([])
    else
      var first := Flatten(f.calls[i], address + [i]);
      if first.None? then None
      else
        var rest := FlattenFrom(f, address, i + 1);
        if rest.None? then None else Some(first.value + rest.value)
  }

  method ConvertCallTraceIntoFlatCallFrame(f: Frame, address: seq<nat>) returns (r: Option<seq<Trace>>)
    ensures r == Flatten(f, address)
    decreases f
  {
    hide TraceOf;
    var own := TraceOf(f, address);
    if own.None? {
      return None;
    }
    var result := [own.value];
    ghost var done: seq<Trace> := [];
    PrependTwice([], [], FlattenFrom(f, address, 0));
    for i := 0 to |f.calls|
      invariant result == [own.value] + done
      invariant FlattenFrom(f, address, 0) == Prepend(done, FlattenFrom(f, address, i))
    {
      var frames := ConvertCallTraceIntoFlatCallFrame(f.calls[i], address + [i]);
      if frames.None? {
        return None;
      }
      PrependTwice(done, frames.value, FlattenFrom(f, address, i + 1));
      result, done := result + frames.value, done + frames.value;
    }
    assert done + [] == done;
    return Some(result);
  }

  function Prepend(a: seq<Trace>, r: Option<seq<Trace>>): Option<seq<Trace>> {
    if r.None? then None else Some(a + r.value)
  }

  lemma PrependTwice(a: seq<Trace>, b: seq<Trace>, r: Option<seq<Trace>>)
    ensures Prepend(a, Prepend(b, r)) == Prepend(a + b, r)
    ensures Prepend([], r) == r
    ensures a + [] == a
  {
    if r.Some? {
      assert a + (b + r.value) == a + b + r.value;
      assert [] + r.value == r.value;
    }
  }

  // ----- what a flat trace lists

  predicate Supported(f: Frame) {
    KindSupported(Lower(f.kind)) && forall i :: 0 <= i < |f.calls| ==> Supported(f.calls[i])
  }

  /** Flattening succeeds exactly on trees of supported kinds throughout. */
  lemma {:induction false} FlattensIff(f: Frame, address: seq<nat>)
    ensures Flatten(f, address).Some? <==> Supported(f)
    decreases f, 1
  {
    hide TraceOf, KindSupported;
    FlattensFromIff(f, address, 0);
  }

  lemma {:induction false} FlattensFromIff(f: Frame, address: seq<nat>, i: nat)
    requires i <= |f.calls|
    ensures FlattenFrom(f, address, i).Some? <==> forall k :: i <= k < |f.calls| ==> Supported(f.calls[k])
    decreases f, 0, |f.calls| - i
  {
    hide TraceOf, KindSupported;
    if i == |f.calls| {
    } else {
      FlattensIff(f.calls[i], address + [i]);
      FlattensFromIff(f, address, i + 1);
    }
  }

  /** The frame at the end of a path of call positions. */
  function NodeAt(f: Frame, path: seq<nat>): Option<Frame>
    decreases |path|
  {
    if path == [] then Some(f)
    else if path[0] < |f.calls| then NodeAt(f.calls[path[0]], path[1..])
    else None
  }

  /** The trace describes the node of `f` that its address, past `address`, leads to. */
  ghost predicate Describes(t: Trace, f: Frame, address: seq<nat>) {
    && address <= t.address
    && var node := NodeAt(f, t.address[|address|..]);
       node.Some? && TraceOf(node.value, t.address) == Some(t) && Tells(t, node.value)
  }

  /** Every trace in the list is that of the node its address leads to. */
  lemma {:induction false} EveryTraceIsANode(f: Frame, address: seq<nat>)
    requires Flatten(f, address).Some?
    ensures forall t :: t in Flatten(f, address).value ==> Describes(t, f, address)
    decreases f, 1
  {
    hide TraceOf, Tells;
    TraceTells(f, address);
    TracesFromAreNodes(f, address, 0);
  }

  lemma {:induction false} TracesFromAreNodes(f: Frame, address: seq<nat>, i: nat)
    requires i <= |f.calls| && FlattenFrom(f, address, i).Some?
    ensures forall t :: t in FlattenFrom(f, address, i).value ==>
      Describes(t, f, address) && |address| < |t.address| && i <= t.address[|address|]
    decreases f, 0, |f.calls| - i
  {
    hide TraceOf, Tells;
    if i == |f.calls| {
    } else {
      EveryTraceIsANode(f.calls[i], address + [i]);
      forall t | t in Flatten(f.calls[i], address + [i]).value
        ensures Describes(t, f, address) && |address| < |t.address| && t.address[|address|] == i
      {
        assert t.address[|address|..][1..] == t.address[|address + [i]|..];
      }
      TracesFromAreNodes(f, address, i + 1);
    }
  }

  /** Every node of the tree has a trace in the list. */
  lemma {:induction false} EveryNodeHasATrace(f: Frame, address: seq<nat>, path: seq<nat>)
    requires Flatten(f, address).Some? && NodeAt(f, path).Some?
    ensures exists t :: t in Flatten(f, address).value && t.address == address + path
    decreases |path|, 1
  {
    hide TraceOf;
    if path == [] {
      assert Flatten(f, address).value[0].address == address + path;
    } else {
      ChildHasATrace(f, address, path, 0);
    }
  }

  lemma {:induction false} ChildHasATrace(f: Frame, address: seq<nat>, path: seq<nat>, i: nat)
    requires path != [] && i <= path[0] < |f.calls| && NodeAt(f, path).Some? && FlattenFrom(f, address, i).Some?
    ensures exists t :: t in FlattenFrom(f, address, i).value && t.address == address + path
    decreases |path|, 0, |f.calls| - i
  {
    hide TraceOf;
    if i == path[0] {
      EveryNodeHasATrace(f.calls[i], address + [i], path[1..]);
      assert address + [i] + path[1..] == address + path;
    } else {
      ChildHasATrace(f, address, path, i + 1);
    }
  }

  /** The order of a walk that visits a node before its calls, and calls in turn. */
  predicate Before(a: seq<nat>, b: seq<nat>) {
    b != [] && (a == [] || a[0] < b[0] || (a[0] == b[0] && Before(a[1..], b[1..])))
  }

  lemma {:induction false} BeforeAfterPrefix(p: seq<nat>, a: seq<nat>, b: seq<nat>)
    ensures Before(p + a, p + b) == Before(a, b)
    decreases |p|
  {
    if p == [] {
      assert p + a == a && p + b == b;
    } else {
      assert (p + a)[1..] == p[1..] + a && (p + b)[1..] == p[1..] + b;
      BeforeAfterPrefix(p[1..], a, b);
    }
  }

  lemma {:induction false} BeforeIsStrict(a: seq<nat>)
    ensures !Before(a, a)
    decreases |a|
  {
    if a == [] {
    } else {
      BeforeIsStrict(a[1..]);
    }
  }

  ghost predicate InPreorder(traces: seq<Trace>) {
    forall j, k :: 0 <= j < k < |traces| ==> Before(traces[j].address, traces[k].address)
  }

  /** Traces come in preorder, so no address occurs twice. */
  lemma {:induction false} TracesInPreorder(f: Frame, address: seq<nat>)
    requires Flatten(f, address).Some?
    ensures InPreorder(Flatten(f, address).value)
    ensures var r := Flatten(f, address).value;
      forall j, k :: 0 <= j < k < |r| ==> r[j].address != r[k].address
    decreases f, 1
  {
    hide TraceOf;
    var rest := FlattenFrom(f, address, 0).value;
    var own := Flatten(f, address).value[0];
    TracesFromInPreorder(f, address, 0);
    TracesFromAreNodes(f, address, 0);
    forall k | 0 <= k < |rest|
      ensures Before(address, rest[k].address)
    {
      assert rest[k] in rest;
      BeforeAfterPrefix(address, [], rest[k].address[|address|..]);
      assert address + [] == address && address + rest[k].address[|address|..] == rest[k].address;
    }
    forall a: seq<nat>
      ensures !Before(a, a)
    {
      BeforeIsStrict(a);
    }
  }

  lemma {:induction false} TracesFromInPreorder(f: Frame, address: seq<nat>, i: nat)
    requires i <= |f.calls| && FlattenFrom(f, address, i).Some?
    ensures InPreorder(FlattenFrom(f, address, i).value)
    decreases f, 0, |f.calls| - i
  {
    hide TraceOf, Flatten;
    if i == |f.calls| {
    } else {
      var first, rest := Flatten(f.calls[i], address + [i]).value, FlattenFrom(f, address, i + 1).value;
      TracesInPreorder(f.calls[i], address + [i]);
      TracesFromInPreorder(f, address, i + 1);
      EveryTraceIsANode(f.calls[i], address + [i]);
      TracesFromAreNodes(f, address, i + 1);
      forall j, k | 0 <= j < |first| && 0 <= k < |rest|
        ensures Before(first[j].address, rest[k].address)
      {
        assert first[j] in first && rest[k] in rest;
        EarlierCallFirst(address, i, first[j].address, rest[k].address);
      }
    }
  }

  lemma EarlierCallFirst(address: seq<nat>, i: nat, a: seq<nat>, b: seq<nat>)
    requires address + [i] <= a && address <= b && |address| < |b| && i < b[|address|]
    ensures Before(a, b)
  {
    BeforeAfterPrefix(address, a[|address|..], b[|address|..]);
    assert address + a[|address|..] == a && address + b[|address|..] == b;
  }

  // ----- rebuilding the tree

  datatype Tree = Tree(own: Trace, kids: seq<Tree>)

  /** The call tree with each frame replaced by its trace. */
  function TreeOf(f: Frame, address: seq<nat>): Option<Tree>
    decreases f, 1
  {
    var own := TraceOf(f, address);
    var kids := TreesFrom(f, address, 0);
    if own.None? || kids.None? then None else Some(Tree(own.value, kids.value))
  }

  function TreesFrom(f: Frame, address: seq<nat>, i: nat): (r: Option<seq<Tree>>)
    requires i <= |f.calls|
    ensures r.Some? ==> |r.value| == |f.calls| - i
    decreases f, 0, |f.calls| - i
  {
    if i == |f.calls| then Some([])
    else
      var first := TreeOf(f.calls[i], address + [i]);
      var rest := TreesFrom(f, address, i + 1);
      if first.None? || rest.None? then None else Some([first.value] + rest.value)
  }

  /** Reads one tree off the front of a list, taking the shape from the subtrace counts alone. */
  function ReadTree(traces: seq<Trace>): (r: Option<(Tree, seq<Trace>)>)
    ensures r.Some? ==> |r.value.1| < |traces|
    decreases |traces|, 0
  {
    if traces == [] then None
    else
      var kids := ReadTrees(traces[1..], traces[0].subtraces);
      if kids.None? then None else Some((Tree(traces[0], kids.value.0), kids.value.1))
  }

  function ReadTrees(traces: seq<Trace>, n: nat): (r: Option<(seq<Tree>, seq<Trace>)>)
    ensures r.Some? ==> |r.value.1| <= |traces|
    decreases |traces|, 1
  {
    if n == 0 then Some(([], traces))
    else
      var first := ReadTree(traces);
      if first.None? then None
      else
        var rest := ReadTrees(first.value.1, n - 1);
        if rest.None? then None else Some(([first.value.0] + rest.value.0, rest.value.1))
  }

  /** The call tree can be read back from its flat list, whatever follows the list. */
  lemma {:induction false} ReadBack(f: Frame, address: seq<nat>, after: seq<Trace>)
    requires Flatten(f, address).Some?
    ensures TreeOf(f, address).Some?
    ensures ReadTree(Flatten(f, address).value + after) == Some((TreeOf(f, address).value, after))
    decreases f, 1
  {
    hide TraceOf;
    var rest := FlattenFrom(f, address, 0).value;
    ReadBackFrom(f, address, 0, after);
    assert (Flatten(f, address).value + after)[1..] == rest + after;
  }

  lemma {:induction false} ReadBackFrom(f: Frame, address: seq<nat>, i: nat, after: seq<Trace>)
    requires i <= |f.calls| && FlattenFrom(f, address, i).Some?
    ensures TreesFrom(f, address, i).Some?
    ensures ReadTrees(FlattenFrom(f, address, i).value + after, |f.calls| - i)
         == Some((TreesFrom(f, address, i).value, after))
    decreases f, 0, |f.calls| - i
  {
    hide TraceOf, Flatten, ReadTree, TreeOf;
    if i == |f.calls| {
      assert [] + after == after;
    } else {
      var first, rest := Flatten(f.calls[i], address + [i]).value, FlattenFrom(f, address, i + 1).value;
      ReadBack(f.calls[i], address + [i], rest + after);
      ReadBackFrom(f, address, i + 1, after);
      assert first + rest + after == first + (rest + after);
    }
  }

  // ----- selectors

  function HexDigit(n: nat): char
    requires n < 16
  {
    "0123456789abcdef"[n]
  }

  function Hex(b: seq<Byte>): string {
    if b == [] then "" else [HexDigit(b[0] as nat / 16), HexDigit(b[0] as nat % 16)] + Hex(b[1..])
  }

  function Decimal(n: nat): string {
    if n < 10 then ["0123456789"[n]] else Decimal(n / 10) + ["0123456789"[n % 10]]
  }

  /** The key of a selector and the size of what follows it. */
  function Key(selector: seq<Byte>, size: nat): string {
    Hex(selector) + "-" + Decimal(size)
  }

  lemma {:induction false} HexLength(a: seq<Byte>)
    ensures |Hex(a)| == 2 * |a|
    decreases |a|
  {
    if a == [] {
    } else {
      HexLength(a[1..]);
    }
  }

  lemma DecimalLength(n: nat)
    ensures |Decimal(n)| >= 1
  {
  }

  // ----- the text of a key

  function HexValue(c: char): int {
    if '0' <= c <= '9' then c as int - '0' as int else c as int - 'a' as int + 10
  }

  ghost predicate IsHex(c: char) {
    '0' <= c <= '9' || 'a' <= c <= 'f'
  }

  function DecimalValue(s: string): int {
    if s == "" then 0 else 10 * DecimalValue(s[..|s| - 1]) + (s[|s| - 1] as int - '0' as int)
  }

  lemma HexDigitReads(n: nat)
    requires n < 16
    ensures IsHex(HexDigit(n)) && HexValue(HexDigit(n)) == n
  {
  }

  lemma {:induction false} HexReads(b: seq<Byte>, i: nat)
    requires i < |b|
    ensures |Hex(b)| == 2 * |b|
    ensures IsHex(Hex(b)[2 * i]) && IsHex(Hex(b)[2 * i + 1])
    ensures 16 * HexValue(Hex(b)[2 * i]) + HexValue(Hex(b)[2 * i + 1]) == b[i] as int
    decreases |b|
  {
    hide HexDigit, HexValue, IsHex;
    HexLength(b);
    HexLength(b[1..]);
    if i == 0 {
      HexDigitReads(b[0] as nat / 16);
      HexDigitReads(b[0] as nat % 16);
    } else {
      HexReads(b[1..], i - 1);
      assert Hex(b)[2 * i] == Hex(b[1..])[2 * (i - 1)] && Hex(b)[2 * i + 1] == Hex(b[1..])[2 * (i - 1) + 1];
    }
  }

  lemma DecimalDigit(n: nat)
    requires n < 10
    ensures var c := "0123456789"[n]; '0' <= c <= '9' && c as int - '0' as int == n
  {
  }

  lemma {:induction false} DecimalReads(n: nat)
    ensures DecimalValue(Decimal(n)) == n
    ensures forall i :: 0 <= i < |Decimal(n)| ==> '0' <= Decimal(n)[i] <= '9'
    ensures n > 0 ==> Decimal(n)[0] != '0'
    decreases n
  {
    DecimalDigit(n % 10);
    if n < 10 {
      assert Decimal(n)[..0] == "" && DecimalValue("") == 0;
    } else {
      DecimalReads(n / 10);
      DecimalLength(n / 10);
      var s := Decimal(n);
      assert s[..|s| - 1] == Decimal(n / 10);
    }
  }

  /** A key is the selector in lower-case hexadecimal, two digits a byte, a hyphen, and the size in decimal without
      leading zeros. */
  lemma KeyText(selector: seq<Byte>, size: nat, i: nat)
    requires i < |selector|
    ensures var key, n := Key(selector, size), 2 * |selector|;
      && |key| > n + 1 && key[n] == '-'
      && IsHex(key[2 * i]) && IsHex(key[2 * i + 1])
      && 16 * HexValue(key[2 * i]) + HexValue(key[2 * i + 1]) == selector[i] as int
      && DecimalValue(key[n + 1..]) == size && (size > 0 ==> key[n + 1] != '0')
      && forall j :: n < j < |key| ==> '0' <= key[j] <= '9'
  {
    HexReads(selector, i);
    DecimalReads(size);
    DecimalLength(size);
    var key, n := Key(selector, size), 2 * |selector|;
    assert key[n + 1..] == Decimal(size);
    forall j | n < j < |key|
      ensures '0' <= key[j] <= '9'
    {
      assert key[j] == Decimal(size)[j - n - 1];
    }
  }

  /** Keys of selectors of equal length differ when the selector or the size differs. */
  lemma KeyInjective(a: seq<Byte>, m: nat, b: seq<Byte>, n: nat)
    requires |a| == |b| && Key(a, m) == Key(b, n)
    ensures a == b && m == n
  {
    HexLength(a);
    HexLength(b);
    var x, y, k := Key(a, m), Key(b, n), 2 * |a|;
    assert x[..k] == Hex(a) && y[..k] == Hex(b);
    assert x[k + 1..] == Decimal(m) && y[k + 1..] == Decimal(n);
    forall i | 0 <= i < |a|
      ensures a[i] == b[i]
    {
      HexReads(a, i);
      HexReads(b, i);
    }
    DecimalReads(m);
    DecimalReads(n);
  }

  function Bump(counts: map<string, nat>, input: seq<Byte>): map<string, nat> {
    if |input| < 4 then counts
    else
      var key := Key(input[..4], |input| - 4);
      counts[key := CountOf(counts, key) + 1]
  }

  function CountOf(counts: map<string, nat>, key: string): nat {
    if key in counts then counts[key] else 0
  }

  function Carries(input: seq<Byte>, selector: seq<Byte>, size: nat): nat {
    if |input| == size + 4 && input[..4] == selector then 1 else 0
  }

  lemma BumpCounts(counts: map<string, nat>, input: seq<Byte>, selector: seq<Byte>, size: nat)
    requires |selector| == 4
    ensures CountOf(Bump(counts, input), Key(selector, size)) ==
      CountOf(counts, Key(selector, size)) + Carries(input, selector, size)
  {
    hide Key;
    if |input| >= 4 && Key(selector, size) == Key(input[..4], |input| - 4) {
      KeyInjective(selector, size, input[..4], |input| - 4);
    }
  }

  /** How many frames, anywhere in the trees, carry this selector and this many bytes after it. */
  function Occurrences(frames: seq<Frame>, selector: seq<Byte>, size: nat): nat
    decreases frames
  {
    if frames == [] then 0
    else
      var last := frames[|frames| - 1];
      Occurrences(frames[..|frames| - 1], selector, size)
        + Carries(last.input, selector, size) + Occurrences(last.calls, selector, size)
  }

  /** Every key's count has risen by the number of frames that carry its selector and size. */
  ghost predicate CountsAdded(start: map<string, nat>, counts: map<string, nat>, frames: seq<Frame>) {
    forall selector, size: nat :: |selector| == 4 ==>
      CountOf(counts, Key(selector, size)) == CountOf(start, Key(selector, size)) + Occurrences(frames, selector, size)
  }

  ghost predicate IsKey(key: string) {
    exists selector, size: nat :: |selector| == 4 && key == Key(selector, size)
  }

  /** Whatever is not a key of a selector is as it was. */
  ghost predicate NothingElse(start: map<string, nat>, counts: map<string, nat>) {
    forall k :: !IsKey(k) ==> (k in counts <==> k in start) && CountOf(counts, k) == CountOf(start, k)
  }

  lemma OneMoreFrame(start: map<string, nat>, before: map<string, nat>, counts: map<string, nat>, frames: seq<Frame>,
                     i: nat)
    requires i < |frames| && CountsAdded(start, before, frames[..i])
    requires CountsAdded(Bump(before, frames[i].input), counts, frames[i].calls)
    ensures CountsAdded(start, counts, frames[..i + 1])
  {
    hide Key, CountOf, Bump, Carries;
    assert frames[..i + 1][..i] == frames[..i];
    forall selector, size: nat | |selector| == 4
      ensures CountOf(counts, Key(selector, size)) ==
        CountOf(start, Key(selector, size)) + Occurrences(frames[..i + 1], selector, size)
    {
      BumpCounts(before, frames[i].input, selector, size);
    }
  }

  lemma NothingAdded(start: map<string, nat>, frames: seq<Frame>)
    ensures CountsAdded(start, start, frames[..0]) && NothingElse(start, start)
  {
    hide Key, IsKey;
  }

  lemma NothingElseWritten(start: map<string, nat>, counts: map<string, nat>, key: string, n: nat)
    requires NothingElse(start, counts) && IsKey(key)
    ensures NothingElse(start, counts[key := n])
  {
    hide IsKey;
  }

  lemma NothingElseJoins(start: map<string, nat>, before: map<string, nat>, counts: map<string, nat>)
    requires NothingElse(start, before) && NothingElse(before, counts)
    ensures NothingElse(start, counts)
  {
    hide IsKey;
  }

  lemma KeyIsKey(selector: seq<Byte>, size: nat)
    requires |selector| == 4
    ensures IsKey(Key(selector, size))
  {
  }

  /** Adds the selectors of all frames, nested ones included, to the counts. */
  method ConvertCallTraceInto4ByteMap(frames: seq<Frame>, start: map<string, nat>) returns (counts: map<string, nat>)
    ensures CountsAdded(start, counts, frames) && NothingElse(start, counts)
    decreases frames
  {
    hide CountsAdded, NothingElse, Key, IsKey, CountOf;
    counts := start;
    NothingAdded(start, frames);
    for i := 0 to |frames|
      invariant CountsAdded(start, counts, frames[..i]) && NothingElse(start, counts)
    {
      ghost var before := counts;
      var input := frames[i].input;
      if |input| >= 4 {
        var key := Key(input[..4], |input| - 4);
        KeyIsKey(input[..4], |input| - 4);
        NothingElseWritten(start, counts, key, CountOf(counts, key) + 1);
        counts := counts[key := CountOf(counts, key) + 1];
      }
      ghost var bumped := counts;
      counts := ConvertCallTraceInto4ByteMap(frames[i].calls, counts);
      NothingElseJoins(start, bumped, counts);
      OneMoreFrame(start, before, counts, frames, i);
    }
    assert frames[..|frames|] == frames;
  }
}
