/**
 Nested EVM calls: how much gas a child frame gets (EIP-150, section "Specification"), the value-call
 stipend, and what a child frame inherits (EIP-214, section "Specification", for the static flag).
 */
module CallGas {
  import opened Prelude

  type Address = nat
  type Word = nat

  const CALL_STIPEND: nat := 2300

  datatype CallKind = Call | CallCode | DelegateCall | StaticCall

  datatype Frame = Frame(
    caller: Address,
    callee: Address,
    value: Word,
    gas: nat,
    isStatic: bool,
    blockNumber: nat,
    timestamp: nat,
    coinbase: Address,
    baseFee: nat,
    chainId: nat)

  /** Only a CALL that moves value gets the stipend. */
  function Stipend(kind: CallKind, transfers: bool): (s: nat)
    ensures s == 2300 <==> kind.Call? && transfers
    ensures s == 0 || s == 2300
  {
    match kind
    case Call => if transfers then CALL_STIPEND else 0
    case DelegateCall => 0
    case StaticCall => 0
    case CallCode => 0
  }

  /** The child gets what it asks for, up to all but one 64th of what the parent has left. */
  function ForwardGas(remaining: nat, request: nat): (gas: nat)
    ensures gas <= request && remaining - gas >= remaining / 64
    ensures gas < request ==> remaining - gas == remaining / 64
  {
    var retain := remaining / 64;
    Min(request, SatSub(remaining, retain))
  }

  /** A call instruction, with the gas its frame has burned before reaching it. */
  datatype CallOp = CallOp(kind: CallKind, target: Address, value: Word, transfers: bool, burned: nat, request: nat)

  function ChildGas(gas: nat, op: CallOp): nat {
    ForwardGas(SatSub(gas, op.burned), op.request) + Stipend(op.kind, op.transfers)
  }

  function Child(parent: Frame, op: CallOp): Frame {
    Frame(if op.kind.DelegateCall? then parent.caller else parent.callee,
          op.target,
          if op.kind.DelegateCall? then parent.value else op.value,
          ChildGas(parent.gas, op),
          op.kind.StaticCall? || parent.isStatic,
          parent.blockNumber, parent.timestamp, parent.coinbase, parent.baseFee, parent.chainId)
  }

  /** A child's gas: what it asks for, cut at 63 of every started 64 the parent has left, and the stipend on top. */
  lemma {:induction false} ChildGasIs(parent: Frame, op: CallOp)
    ensures var left := if parent.gas >= op.burned then parent.gas - op.burned else 0;
            var most := left - left / 64;
            Child(parent, op).gas == (if op.request <= most then op.request else most)
                                     + if op.kind == Call && op.transfers then 2300 else 0
  {
  }

  /** The frame at the end of a chain of calls. */
  function Nested(root: Frame, path: seq<CallOp>): Frame
    decreases |path|
  {
    if path == [] then root else Child(Nested(root, path[..|path| - 1]), path[|path| - 1])
  }

  // ---------------------------------------------------------------------------
  // Gas decays
  // ---------------------------------------------------------------------------

  function Pow(base: nat, e: nat): (r: nat)
    ensures base > 0 ==> r > 0
  {
    if e == 0 then 1 else base * Pow(base, e - 1)
  }

  /** One call: the margin over 63 shrinks by 63/64, stipend aside. */
  lemma {:induction false} OneCallDecays(gas: nat, op: CallOp)
    ensures 64 * (ChildGas(gas, op) - 63) <= 63 * (gas - 63) + 64 * Stipend(op.kind, op.transfers)
  {
    var remaining := SatSub(gas, op.burned);
    assert remaining == 64 * (remaining / 64) + remaining % 64;
  }

  /** What the stipends along a path add to the bound. */
  function StipendShare(path: seq<CallOp>): nat
    decreases |path|
  {
    if path == [] then 0 else
      var d, op := |path| - 1, path[|path| - 1];
      63 * StipendShare(path[..d]) + Pow(64, d + 1) * Stipend(op.kind, op.transfers)
  }

  lemma {:induction false} DecayStep(p: nat, q: nat, child: int, parent: int, start: int, share: int, stipend: int)
    requires 64 * child <= 63 * parent + 64 * stipend && p * parent <= q * start + share
    ensures (64 * p) * child <= (63 * q) * start + (63 * share + (64 * p) * stipend)
  {
    assert (64 * p) * child == p * (64 * child) <= p * (63 * parent + 64 * stipend);
    assert p * (63 * parent + 64 * stipend) == 63 * (p * parent) + (64 * p) * stipend;
    assert (63 * q) * start == 63 * (q * start);
  }

  /**
   EIP-150's depth bound: along any chain of `d` calls, whatever each frame burns and requests,
   64^d (g_d - 63) is at most 63^d (g_0 - 63) plus what value-transfer stipends contributed.
   */
  lemma {:induction false} GasDecay(root: Frame, path: seq<CallOp>)
    ensures Pow(64, |path|) * (Nested(root, path).gas - 63)
         <= Pow(63, |path|) * (root.gas - 63) + StipendShare(path)
    decreases |path|
  {
    if path != [] {
      var d, op := |path| - 1, path[|path| - 1];
      var g: int, g': int := Nested(root, path[..d]).gas, Nested(root, path).gas;
      GasDecay(root, path[..d]);
      OneCallDecays(g, op);
      DecayStep(Pow(64, d), Pow(63, d), g' - 63, g - 63, root.gas - 63, StipendShare(path[..d]),
                Stipend(op.kind, op.transfers));
    }
  }

  /** No CALL on the path moves value. */
  predicate StipendFree(path: seq<CallOp>) {
    forall i | 0 <= i < |path| :: !(path[i].kind.Call? && path[i].transfers)
  }

  lemma {:induction false} NoStipendShare(path: seq<CallOp>)
    requires StipendFree(path)
    ensures StipendShare(path) == 0
    decreases |path|
  {
    if path != [] {
      NoStipendShare(path[..|path| - 1]);
    }
  }

  /** Without value transfers the bound is EIP-150's own. */
  lemma {:induction false} StipendFreeDecay(root: Frame, path: seq<CallOp>)
    requires StipendFree(path)
    ensures Pow(64, |path|) * (Nested(root, path).gas - 63) <= Pow(63, |path|) * (root.gas - 63)
  {
    GasDecay(root, path);
    NoStipendShare(path);
  }

  // ---------------------------------------------------------------------------
  // What frames inherit
  // ---------------------------------------------------------------------------

  /** A frame is static exactly when the root was or some call on the way was a STATICCALL. */
  lemma {:induction false} StaticIff(root: Frame, path: seq<CallOp>)
    ensures Nested(root, path).isStatic <==> root.isStatic || exists i | 0 <= i < |path| :: path[i].kind.StaticCall?
    decreases |path|
  {
    if path != [] {
      var pre := path[..|path| - 1];
      StaticIff(root, pre);
      assert forall i | 0 <= i < |pre| :: pre[i] == path[i];
    }
  }

  /** The environment of the block is the same in every frame. */
  lemma {:induction false} EnvironmentShared(root: Frame, path: seq<CallOp>)
    ensures var f := Nested(root, path);
            && f.blockNumber == root.blockNumber && f.timestamp == root.timestamp && f.coinbase == root.coinbase
            && f.baseFee == root.baseFee && f.chainId == root.chainId
    decreases |path|
  {
    if path != [] { EnvironmentShared(root, path[..|path| - 1]); }
  }

  /** The last `k` calls are DELEGATECALLs. */
  predicate DelegateTail(path: seq<CallOp>, k: nat) {
    k <= |path| && forall i | |path| - k <= i < |path| :: path[i].kind.DelegateCall?
  }

  /** However long the chain of DELEGATECALLs, caller and value are those of the frame it started from. */
  lemma {:induction false} DelegatePreserves(root: Frame, path: seq<CallOp>, k: nat)
    requires DelegateTail(path, k)
    ensures var from := Nested(root, path[..|path| - k]);
            Nested(root, path).caller == from.caller && Nested(root, path).value == from.value
    decreases k
  {
    if k == 0 {
      assert path[..|path|] == path;
    } else {
      var pre := path[..|path| - 1];
      DelegatePreserves(root, pre, k - 1);
      assert pre[..|pre| - (k - 1)] == path[..|path| - k];
    }
  }

  /** A frame runs as the target of the call that opened it. */
  lemma {:induction false} RunsAsTarget(root: Frame, path: seq<CallOp>)
    ensures Nested(root, path).callee == if path == [] then root.callee else path[|path| - 1].target
  {
  }

  /**
   So the caller is the contract that made the last call of another kind, named by the call before that,
   and the value is that call's.
   */
  lemma {:induction false} CallerOfFrame(root: Frame, path: seq<CallOp>, k: nat)
    requires k < |path| && DelegateTail(path, k) && !path[|path| - k - 1].kind.DelegateCall?
    ensures var j := |path| - k - 1;
            && Nested(root, path).caller == (if j == 0 then root.callee else path[j - 1].target)
            && Nested(root, path).value == path[j].value
  {
    var j := |path| - k - 1;
    DelegatePreserves(root, path, k);
    RunsAsTarget(root, path[..j]);
    assert path[..j + 1][..j] == path[..j];
  }
}
