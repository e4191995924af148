/**
 Safety of the commit pipeline over whole runs: candidates built at any time and committed at any
 later time, blocks imported from peers, and a storage fault allowed in every commit.
 */
module ChainRuns {
  import opened Prelude
  import opened BlockProducer
  import Governance

  // ---------------------------------------------------------------------------
  // One commit: what is written before what
  // ---------------------------------------------------------------------------

  function PutAll(accounts: Accounts, diff: seq<(Address, Account)>): Accounts
    decreases |diff|
  {
    if diff == [] then accounts
    else PutAll(accounts, diff[..|diff| - 1])[diff[|diff| - 1].0 := diff[|diff| - 1].1]
  }

  lemma {:induction false} AccountsWritten(n: Node, diff: seq<(Address, Account)>, k: nat)
    requires k <= |diff|
    ensures ApplyAll(n, AccountPuts(diff)[..k]) == n.(accounts := PutAll(n.accounts, diff[..k]))
    decreases k
  {
    if k > 0 {
      AccountsWritten(n, diff, k - 1);
      assert AccountPuts(diff)[..k] == AccountPuts(diff)[..k - 1] + [AccountPuts(diff)[k - 1]];
      ApplyLast(n, AccountPuts(diff)[..k - 1], AccountPuts(diff)[k - 1]);
      assert diff[..k][..k - 1] == diff[..k - 1];
    }
  }

  /** The node once accounts and trie nodes are written. */
  function NodesWritten(n: Node, x: Exec): Node {
    n.(accounts := PutAll(n.accounts, x.diff), nodes := n.nodes + x.nodes)
  }

  /** The node once the block is stored as well, with a staking ledger and a live validator set. */
  function BlockWritten(n: Node, x: Exec, b: Block, ledger: seq<StakingOp>, live: Validators): Node {
    Node(PutAll(n.accounts, x.diff), n.nodes + x.nodes,
         n.blocks[b.header.number := Patch(b, x)], Max(n.head, b.header.number),
         ledger, n.gov, live, n.mempool, n.retained)
  }

  function LiveSet(n: Node, x: Exec, staked: bool): Validators {
    if staked then x.validators else n.validators
  }

  /** The node after each stage of the writes. */
  lemma {:induction false} StagesToBlock(n: Node, x: Exec, b: Block)
    ensures ApplyAll(n, AccountPuts(x.diff)) == n.(accounts := PutAll(n.accounts, x.diff))
    ensures ApplyAll(n, UpToNodes(x)) == NodesWritten(n, x)
    ensures ApplyAll(n, UpToBlock(x, b)) == BlockWritten(n, x, b, n.staking, n.validators)
  {
    AccountsWritten(n, x.diff, |x.diff|);
    assert AccountPuts(x.diff)[..|x.diff|] == AccountPuts(x.diff) && x.diff[..|x.diff|] == x.diff;
    ApplyLast(n, AccountPuts(x.diff), FlushNodes(x.nodes));
    ApplyLast(n, UpToNodes(x), PutBlock(Patch(b, x)));
  }

  lemma {:induction false} StagesToSwap(n: Node, x: Exec, b: Block, staked: bool)
    ensures ApplyAll(n, UpToSwap(x, b, staked))
         == BlockWritten(n, x, b, n.staking + x.staking, LiveSet(n, x, staked))
  {
    StagesToBlock(n, x, b);
    var es := UpToBlock(x, b) + When(x.staking != [], PutStaking(x.staking));
    if x.staking != [] { ApplyLast(n, UpToBlock(x, b), PutStaking(x.staking)); }
    else { assert es == UpToBlock(x, b) && n.staking + x.staking == n.staking; }
    assert ApplyAll(n, es) == BlockWritten(n, x, b, n.staking + x.staking, n.validators);
    if staked { ApplyLast(n, es, SwapValidators(x.validators)); }
    else { assert es + [] == es; }
  }

  /** The hook has run, the transactions left the mempool and the root entered the retained list. */
  function Tailed(n: Node, x: Exec, b: Block): Node {
    Node(n.accounts, n.nodes, n.blocks, n.head, n.staking, Governance.Hook(n.gov, b.header.number), n.validators,
         n.mempool - (set t | t in b.txs), n.retained + [(b.header.number, x.stateRoot)])
  }

  lemma {:induction false} TailApplied(n: Node, es: seq<Effect>, g: Governance.State, x: Exec, b: Block)
    requires ApplyAll(n, es).gov == g
    ensures ApplyAll(n, WithTail(es, g, x, b)) == Tailed(ApplyAll(n, es), x, b)
  {
    var h := b.header.number;
    var due := When(GovernanceDue(g, h), PutGovernance(Governance.Hook(g, h)));
    GovernanceWritten(n, es, h);
    ApplyLast(n, es + due, Evict(b.txs));
    ApplyLast(n, es + due + [Evict(b.txs)], PushRetained(h, x.stateRoot));
  }

  /** The node once the writes up to the validator-set swap stopped at the fault, or went through. */
  function LeftByWrites(n: Node, x: Exec, b: Block, staked: bool, f: Fault): Node {
    if Hits(f, x) then
      match f
      case SeedFault => n
      case AccountFault(k) => n.(accounts := PutAll(n.accounts, x.diff[..k]))
      case FlushFault => n.(accounts := PutAll(n.accounts, x.diff))
      case BlockFault => NodesWritten(n, x)
      case _ => BlockWritten(n, x, b, n.staking, n.validators)
    else BlockWritten(n, x, b, n.staking + x.staking, LiveSet(n, x, staked))
  }

  lemma {:induction false} WritesResult(n: Node, x: Exec, b: Block, staked: bool, f: Fault)
    ensures ApplyAll(n, Written(f, x, b, staked)) == LeftByWrites(n, x, b, staked, f)
  {
    if !Hits(f, x) {
      StagesToSwap(n, x, b, staked);
    } else {
      StagesToBlock(n, x, b);
      if f.AccountFault? { AccountsWritten(n, x.diff, f.k); }
    }
  }

  /** The node a commit attempt leaves behind, fault by fault. */
  function Left(n: Node, x: Exec, b: Block, staked: bool, f: Fault): Node {
    if Hits(f, x) || GovernanceFails(f, n.gov, b.header.number) then LeftByWrites(n, x, b, staked, f)
    else Tailed(LeftByWrites(n, x, b, staked, f), x, b)
  }

  lemma {:induction false} CommitResult(chain: Chain, n: Node, b: Block, staked: bool, f: Fault)
    ensures Commit(chain, n, b, staked, f)
         == if Admitted(chain, n, b, staked) then Left(n, Run(chain, n, b, staked).value, b, staked, f) else n
  {
    if Admitted(chain, n, b, staked) {
      var x := Run(chain, n, b, staked).value;
      WritesResult(n, x, b, staked, f);
      if !Hits(f, x) {
        StagesToSwap(n, x, b, staked);
        TailApplied(n, UpToSwap(x, b, staked), n.gov, x, b);
      }
    }
  }

  /** The entry that decides an address: its last one. */
  ghost predicate LastFor(diff: seq<(Address, Account)>, a: Address, i: int) {
    0 <= i < |diff| && diff[i].0 == a && forall j | i < j < |diff| :: diff[j].0 != a
  }

  /** An account written several times holds what was written last; any other is untouched. */
  lemma {:induction false} LastWriteWins(accounts: Accounts, diff: seq<(Address, Account)>, a: Address)
    ensures a in PutAll(accounts, diff) <==> a in accounts || exists i :: LastFor(diff, a, i)
    ensures forall i | LastFor(diff, a, i) :: PutAll(accounts, diff)[a] == diff[i].1
    ensures a in accounts && !(exists i :: LastFor(diff, a, i)) ==> PutAll(accounts, diff)[a] == accounts[a]
    decreases |diff|
  {
    if diff != [] {
      var n := |diff| - 1;
      LastWriteWins(accounts, diff[..n], a);
      if diff[n].0 == a { assert LastFor(diff, a, n); }
      else { assert forall i :: LastFor(diff, a, i) <==> LastFor(diff[..n], a, i); }
    }
  }

  /** `s` is `b` with the five results of an execution in its header, and nothing else changed. */
  ghost predicate IsSealed(b: Block, x: Exec, s: Block) {
    && s.txs == b.txs
    && s.header.gasUsed == x.gasUsed && s.header.stateRoot == x.stateRoot && s.header.logsBloom == x.logsBloom
    && s.header.transactionsRoot == x.transactionsRoot && s.header.receiptsRoot == x.receiptsRoot
    && s.header.parentHash == b.header.parentHash && s.header.coinbase == b.header.coinbase
    && s.header.number == b.header.number && s.header.gasLimit == b.header.gasLimit
    && s.header.timestamp == b.header.timestamp && s.header.baseFee == b.header.baseFee
    && s.header.epoch == b.header.epoch && s.header.epochSeed == b.header.epochSeed
  }

  /** Everything a successful commit of `b` with execution `x` leaves behind, store by store. */
  ghost predicate LeftWhole(n: Node, r: Node, b: Block, x: Exec, live: Validators) {
    var h := b.header.number;
    && r.accounts == PutAll(n.accounts, x.diff) && r.nodes == n.nodes + x.nodes
    && h in r.blocks && IsSealed(b, x, r.blocks[h]) && r.blocks == n.blocks[h := r.blocks[h]]
    && r.head == (if h > n.head then h else n.head)
    && r.staking == n.staking + x.staking && r.validators == live && r.gov == Governance.Hook(n.gov, h)
    && r.mempool == (set t | t in n.mempool && t !in b.txs) && r.retained == n.retained + [(h, x.stateRoot)]
  }

  /**
   With staking wired, the executor runs on the stored accounts, the stored trie nodes and the live validator
   set; the set it returns becomes the live one.
   */
  lemma {:induction false} StakedCommit(chain: Chain, n: Node, b: Block)
    ensures var x := chain.execute(n.accounts, n.nodes, Some(n.validators), b);
            var r := Commit(chain, n, b, true, NoFault);
            if x.Some? && n.head == SatSub(b.header.number, 1) then LeftWhole(n, r, b, x.value, x.value.validators)
            else r == n
  {
    CommitResult(chain, n, b, true, NoFault);
  }

  /** Without it, the executor runs without a set and the live one stays. */
  lemma {:induction false} BareCommit(chain: Chain, n: Node, b: Block)
    ensures var x := chain.execute(n.accounts, n.nodes, None, b);
            var r := Commit(chain, n, b, false, NoFault);
            if x.Some? && n.head == SatSub(b.header.number, 1) then LeftWhole(n, r, b, x.value, n.validators)
            else r == n
  {
    CommitResult(chain, n, b, false, NoFault);
  }

  /** Some scheduled proposal's activation height has come. */
  ghost predicate ProposalDue(g: Governance.State, height: nat) {
    exists i | 0 <= i < |g.proposals| ::
      g.proposals[i].status == Governance.Scheduled && g.proposals[i].activationBlock <= height
  }

  lemma {:induction false} DueIff(g: Governance.State, height: nat)
    ensures GovernanceDue(g, height) <==> ProposalDue(g, height)
  {
    var ids := Governance.ReadyFrom(g.proposals, height, 0);
    if ids != [] { assert ids[0] in ids; }
    if i :| 0 <= i < |g.proposals| && g.proposals[i].status == Governance.Scheduled
            && g.proposals[i].activationBlock <= height {
      assert i in ids;
    }
  }

  /** What each failing storage call leaves behind; `whole` is what no failure leaves. */
  ghost predicate LeftByFault(n: Node, r: Node, whole: Node, b: Block, x: Exec, staked: bool, f: Fault) {
    var h := b.header.number;
    var flushed := n.(accounts := PutAll(n.accounts, x.diff), nodes := n.nodes + x.nodes);
    var stored := flushed.(blocks := n.blocks[h := Patch(b, x)], head := Max(n.head, h));
    var live := if staked then x.validators else n.validators;
    var swapped := stored.(staking := n.staking + x.staking, validators := live);
    match f
    case NoFault => r == whole
    case SeedFault => r == n
    case AccountFault(k) => r == if k < |x.diff| then n.(accounts := PutAll(n.accounts, x.diff[..k])) else whole
    case FlushFault => r == n.(accounts := PutAll(n.accounts, x.diff))
    case BlockFault => r == flushed
    case StakingFault => r == if x.staking != [] then stored else whole
    case GovernanceReadFault => r == swapped
    case GovernanceWriteFault => r == if ProposalDue(n.gov, h) then swapped else whole
  }

  /** The faults a commit meets; the others strike a call it does not make. */
  ghost predicate Meets(n: Node, b: Block, x: Exec, f: Fault) {
    match f
    case NoFault => false
    case AccountFault(k) => k < |x.diff|
    case StakingFault => x.staking != []
    case GovernanceWriteFault => ProposalDue(n.gov, b.header.number)
    case _ => true
  }

  lemma {:induction false} LeftIs(n: Node, b: Block, x: Exec, staked: bool, f: Fault)
    ensures LeftByFault(n, Left(n, x, b, staked, f), Left(n, x, b, staked, NoFault), b, x, staked, f)
  {
    DueIff(n.gov, b.header.number);
  }

  /** Fault by fault, what an admitted commit leaves behind; it succeeds exactly when it does not meet the fault. */
  lemma {:induction false} FaultLeaves(chain: Chain, n: Node, b: Block, staked: bool, f: Fault, x: Exec)
    requires n.head == SatSub(b.header.number, 1)
    requires chain.execute(n.accounts, n.nodes, if staked then Some(n.validators) else None, b) == Some(x)
    ensures LeftByFault(n, Commit(chain, n, b, staked, f), Commit(chain, n, b, staked, NoFault), b, x, staked, f)
    ensures Succeeds(chain, n, b, staked, f) <==> !Meets(n, b, x, f)
  {
    DueIff(n.gov, b.header.number);
    CommitResult(chain, n, b, staked, f);
    CommitResult(chain, n, b, staked, NoFault);
    LeftIs(n, b, x, staked, f);
  }

  /** A candidate: what it takes from its parent, from the producer and from the mempool. */
  lemma {:induction false} CandidateFields(chain: Chain, parent: Block, now: nat, coinbase: Address, gasLimit: nat,
                                           txs: seq<Tx>)
    ensures var b := Candidate(chain, parent, now, coinbase, gasLimit, txs);
            && b.txs == txs && b.header.coinbase == coinbase && b.header.gasLimit == gasLimit
            && b.header.parentHash == chain.hash(parent.header) && b.header.number == parent.header.number + 1
            && b.header.timestamp >= now && b.header.timestamp > parent.header.timestamp
            && (now > parent.header.timestamp ==> b.header.timestamp == now)
            && (now <= parent.header.timestamp ==> b.header.timestamp == parent.header.timestamp + 1)
            && b.header.baseFee >= 1 && (parent.header.baseFee >= 1 ==> b.header.baseFee == parent.header.baseFee)
            && (parent.header.baseFee == 0 ==> b.header.baseFee == 1)
            && b.header.epoch == parent.header.epoch && b.header.epochSeed == None
            && b.header.gasUsed == b.header.stateRoot == b.header.transactionsRoot == b.header.receiptsRoot == 0
            && b.header.logsBloom == 0
  {
  }

  /** Nothing is built without a stored head, or from no transactions unless empty blocks are wanted. */
  lemma {:induction false} BuiltIff(chain: Chain, n: Node, now: nat, coinbase: Address, gasLimit: nat, txs: seq<Tx>,
                                    produceEmpty: bool)
    ensures var r := BuildCandidate(chain, n, now, coinbase, gasLimit, txs, produceEmpty);
            && (r == NoParent <==> n.head !in n.blocks)
            && (r.Built? <==> n.head in n.blocks && (txs != [] || produceEmpty))
            && (r.Built? ==> r.block == Candidate(chain, n.blocks[n.head], now, coinbase, gasLimit, txs))
  {
  }

  /** The fault strikes a call that comes after the block is durable: the staking delta or governance. */
  predicate StrikesLate(f: Fault, n: Node, x: Exec, height: nat) {
    (f.StakingFault? && x.staking != []) || GovernanceFails(f, n.gov, height)
  }

  /** Such a fault is exactly what stores a block and still returns an error. */
  lemma {:induction false} LateIffStoredAndFailed(chain: Chain, n: Node, b: Block, staked: bool, f: Fault)
    requires b.header.number > 0
    ensures Admitted(chain, n, b, staked) && StrikesLate(f, n, Run(chain, n, b, staked).value, b.header.number)
            <==> Commit(chain, n, b, staked, f).head != n.head && !Succeeds(chain, n, b, staked, f)
  {
    CommitResult(chain, n, b, staked, f);
  }

  /** Whatever the fault, the performed effects are a prefix of the faultless plan. */
  lemma {:induction false} PerformedIsPrefix(f: Fault, g: Governance.State, x: Exec, b: Block, staked: bool)
    ensures Performed(f, g, x, b, staked) <= Plan(g, x, b, staked)
  {
    assert AccountPuts(x.diff) <= UpToNodes(x) <= UpToBlock(x, b) <= UpToSwap(x, b, staked) <= Plan(g, x, b, staked);
    if f.AccountFault? && f.k < |x.diff| { assert AccountPuts(x.diff)[..f.k] <= AccountPuts(x.diff); }
  }

  /** The stages of a commit, each holding only with every stage before it. */
  ghost predicate AccountsIn(n: Node, r: Node, x: Exec) {
    r.accounts == PutAll(n.accounts, x.diff)
  }

  ghost predicate NodesIn(n: Node, r: Node, x: Exec) {
    r.nodes == n.nodes + x.nodes && AccountsIn(n, r, x)
  }

  ghost predicate BlockIn(n: Node, r: Node, x: Exec, b: Block) {
    r.blocks == n.blocks[b.header.number := Patch(b, x)] && r.head == Max(n.head, b.header.number) && NodesIn(n, r, x)
  }

  ghost predicate StakingIn(n: Node, r: Node, x: Exec, b: Block) {
    r.staking == n.staking + x.staking && BlockIn(n, r, x, b)
  }

  ghost predicate SwappedIn(n: Node, r: Node, x: Exec, b: Block, staked: bool) {
    r.validators == LiveSet(n, x, staked) && StakingIn(n, r, x, b)
  }

  ghost predicate HookedIn(n: Node, r: Node, x: Exec, b: Block, staked: bool) {
    r.gov == Governance.Hook(n.gov, b.header.number) && SwappedIn(n, r, x, b, staked)
  }

  ghost predicate EvictedIn(n: Node, r: Node, x: Exec, b: Block, staked: bool) {
    r.mempool == n.mempool - (set t | t in b.txs) && HookedIn(n, r, x, b, staked)
  }

  ghost predicate PushedIn(n: Node, r: Node, x: Exec, b: Block, staked: bool) {
    r.retained == n.retained + [(b.header.number, x.stateRoot)] && EvictedIn(n, r, x, b, staked)
  }

  /** A store that differs from before holds its new contents, and so does every store written before it. */
  ghost predicate InOrder(n: Node, r: Node, x: Exec, b: Block, staked: bool) {
    && (r.retained != n.retained ==> PushedIn(n, r, x, b, staked))
    && (r.mempool != n.mempool ==> EvictedIn(n, r, x, b, staked))
    && (r.gov != n.gov ==> HookedIn(n, r, x, b, staked))
    && (r.validators != n.validators ==> SwappedIn(n, r, x, b, staked))
    && (r.staking != n.staking ==> StakingIn(n, r, x, b))
    && (r.blocks != n.blocks || r.head != n.head ==> BlockIn(n, r, x, b))
    && (r.nodes != n.nodes ==> NodesIn(n, r, x))
  }

  lemma {:induction false} WritesInOrder(n: Node, x: Exec, b: Block, staked: bool, f: Fault)
    ensures InOrder(n, LeftByWrites(n, x, b, staked, f), x, b, staked)
  {
  }

  lemma {:induction false} TailInOrder(n: Node, x: Exec, b: Block, staked: bool)
    ensures InOrder(n, Tailed(BlockWritten(n, x, b, n.staking + x.staking, LiveSet(n, x, staked)), x, b), x, b, staked)
  {
  }

  /** The write order, seen in the state that any commit, failed or successful, leaves behind. */
  lemma {:induction false} WriteOrder(chain: Chain, n: Node, b: Block, staked: bool, f: Fault)
    ensures var r := Commit(chain, n, b, staked, f);
            if Admitted(chain, n, b, staked) then InOrder(n, r, Run(chain, n, b, staked).value, b, staked) else r == n
  {
    CommitResult(chain, n, b, staked, f);
    if Admitted(chain, n, b, staked) {
      WritesInOrder(n, Run(chain, n, b, staked).value, b, staked, f);
      TailInOrder(n, Run(chain, n, b, staked).value, b, staked);
    }
  }

  /** The live set is touched only once block and staking delta are durable, and then it is the executed one. */
  lemma {:induction false} LiveSetUntouched(chain: Chain, n: Node, b: Block, staked: bool, f: Fault)
    ensures var r := Commit(chain, n, b, staked, f);
            r.validators != n.validators ==>
              && staked && Admitted(chain, n, b, staked)
              && var x := Run(chain, n, b, staked).value;
                 r.validators == x.validators && StakingIn(n, r, x, b)
  {
    WriteOrder(chain, n, b, staked, f);
  }

  // ---------------------------------------------------------------------------
  // Runs
  // ---------------------------------------------------------------------------

  datatype Event =
    | Build(now: nat, coinbase: Address, gasLimit: nat, txs: seq<Tx>, produceEmpty: bool)
    | CommitCandidate(index: nat, staked: bool, fault: Fault)
    | Import(block: Block, fault: Fault)

  /** A node and every candidate ever built on it; a candidate may be committed late or again. */
  datatype Sys = Sys(node: Node, pool: seq<Block>)

  function Step(chain: Chain, s: Sys, e: Event): Sys {
    match e
    case Build(now, coinbase, gasLimit, txs, produceEmpty) =>
      (match BuildCandidate(chain, s.node, now, coinbase, gasLimit, txs, produceEmpty)
       case Built(b) => s.(pool := s.pool + [b])
       case _ => s)
    case CommitCandidate(i, staked, f) =>
      if i < |s.pool| then s.(node := Commit(chain, s.node, s.pool[i], staked, f)) else s
    case Import(b, f) =>
      if b.header.number == s.node.head + 1 then s.(node := Commit(chain, s.node, b, false, f)) else s
  }

  function Steps(chain: Chain, s: Sys, es: seq<Event>): Sys
    decreases |es|
  {
    if es == [] then s else Step(chain, Steps(chain, s, es[..|es| - 1]), es[|es| - 1])
  }

  /** Heights 0 to the head are stored, each under its own number. */
  ghost predicate Contiguous(n: Node) {
    && (forall h: nat :: h in n.blocks <==> h <= n.head)
    && (forall h | h in n.blocks :: n.blocks[h].header.number == h)
  }

  ghost predicate Unchanged(n: Node, n': Node) {
    n.head <= n'.head && forall h | h in n.blocks :: h in n'.blocks && n'.blocks[h] == n.blocks[h]
  }

  ghost predicate Positive(pool: seq<Block>) {
    forall i | 0 <= i < |pool| :: pool[i].header.number > 0
  }

  /** A commit stores nothing, or exactly one block on top of the head. */
  lemma {:induction false} CommitBlocks(chain: Chain, n: Node, b: Block, staked: bool, f: Fault)
    requires b.header.number > 0
    ensures var r := Commit(chain, n, b, staked, f);
            || (r.head == n.head && r.blocks == n.blocks && r.gov == n.gov)
            || (&& Admitted(chain, n, b, staked)
                && r.head == n.head + 1 == b.header.number
                && r.blocks == n.blocks[n.head + 1 := Sealed(chain, n, b, staked).value])
  {
    CommitResult(chain, n, b, staked, f);
  }

  lemma {:induction false} StepWritesOnce(chain: Chain, s: Sys, e: Event)
    requires Contiguous(s.node) && Positive(s.pool)
    ensures var s' := Step(chain, s, e);
            Contiguous(s'.node) && Positive(s'.pool) && Unchanged(s.node, s'.node)
  {
    match e
    case Build(_, _, _, _, _) =>
    case CommitCandidate(i, staked, f) =>
      if i < |s.pool| { CommitBlocks(chain, s.node, s.pool[i], staked, f); }
    case Import(b, f) =>
      if b.header.number == s.node.head + 1 { CommitBlocks(chain, s.node, b, false, f); }
  }

  /** A build adds one candidate on the head to those in flight, or nothing, and leaves the node alone. */
  lemma {:induction false} BuildAdds(chain: Chain, s: Sys, now: nat, coinbase: Address, gasLimit: nat, txs: seq<Tx>,
                                     produceEmpty: bool)
    ensures var s' := Step(chain, s, Build(now, coinbase, gasLimit, txs, produceEmpty));
            && s'.node == s.node
            && s'.pool == if s.node.head in s.node.blocks && (txs != [] || produceEmpty)
                          then s.pool + [Candidate(chain, s.node.blocks[s.node.head], now, coinbase, gasLimit, txs)]
                          else s.pool
  {
  }

  /** An imported block that is not next changes nothing; one that is runs without a set and leaves the live one. */
  lemma {:induction false} ImportLeavesSet(chain: Chain, s: Sys, b: Block, f: Fault)
    ensures var s' := Step(chain, s, Import(b, f));
            && s'.pool == s.pool && s'.node.validators == s.node.validators
            && (b.header.number != s.node.head + 1 ==> s' == s)
            && (b.header.number == s.node.head + 1 && f == NoFault ==>
                  var x := chain.execute(s.node.accounts, s.node.nodes, None, b);
                  if x.Some? then LeftWhole(s.node, s'.node, b, x.value, s.node.validators) else s' == s)
  {
    BareCommit(chain, s.node, b);
    CommitResult(chain, s.node, b, false, f);
  }

  /** No height is ever written twice, whatever is built, committed, imported or fails. */
  lemma {:induction false} HeightsWrittenOnce(chain: Chain, s: Sys, es: seq<Event>)
    requires Contiguous(s.node) && Positive(s.pool)
    ensures var s' := Steps(chain, s, es);
            Contiguous(s'.node) && Positive(s'.pool) && Unchanged(s.node, s'.node)
    decreases |es|
  {
    if es != [] {
      HeightsWrittenOnce(chain, s, es[..|es| - 1]);
      StepWritesOnce(chain, Steps(chain, s, es[..|es| - 1]), es[|es| - 1]);
    }
  }

  /**
   The head check alone does not exclude a candidate numbered 0: its saturated parent number is 0.
   An admitted commit overwrites a stored height exactly when the candidate is numbered 0.
   */
  lemma {:induction false} OverwritesIffZero(chain: Chain, n: Node, b: Block, staked: bool)
    requires Contiguous(n) && Admitted(chain, n, b, staked)
    ensures b.header.number in n.blocks <==> b.header.number == 0
    ensures Commit(chain, n, b, staked, NoFault).blocks
         == n.blocks[b.header.number := Sealed(chain, n, b, staked).value]
  {
    CommitResult(chain, n, b, staked, NoFault);
  }

  /** A candidate numbered 0 over a genesis-only chain replaces genesis. */
  lemma {:induction false} ZeroReplacesGenesis(chain: Chain, n: Node, genesis: Block, b: Block, x: Exec)
    requires n.head == 0 && n.blocks == map[0 := genesis] && genesis.header.number == 0
    requires b.header.number == 0 && Run(chain, n, b, false) == Some(x)
    ensures Contiguous(n) && Commit(chain, n, b, false, NoFault).blocks == map[0 := Patch(b, x)]
  {
    OverwritesIffZero(chain, n, b, false);
  }

  /** Each block names the hash of the block below it and is strictly younger. */
  ghost predicate Links(chain: Chain, parent: Block, b: Block) {
    b.header.parentHash == chain.hash(parent.header) && b.header.timestamp > parent.header.timestamp
  }

  ghost predicate LinkedAt(chain: Chain, n: Node, h: int) {
    h - 1 in n.blocks && h in n.blocks && Links(chain, n.blocks[h - 1], n.blocks[h])
  }

  ghost predicate Linked(chain: Chain, n: Node) {
    Contiguous(n) && forall h | 0 < h <= n.head :: LinkedAt(chain, n, h)
  }

  /** Every candidate extends a stored block, though maybe no longer the head. */
  ghost predicate Anchored(chain: Chain, n: Node, pool: seq<Block>) {
    forall i | 0 <= i < |pool| ::
      && 0 < pool[i].header.number <= n.head + 1
      && pool[i].header.number - 1 in n.blocks
      && Links(chain, n.blocks[pool[i].header.number - 1], pool[i])
  }

  /** A stored block keeps the chain linked exactly when it names the head and is younger than it. */
  lemma {:induction false} CommitKeepsLinkedIff(chain: Chain, n: Node, b: Block, staked: bool, f: Fault)
    requires Linked(chain, n) && b.header.number > 0
    ensures var r := Commit(chain, n, b, staked, f);
            Linked(chain, r) <==> r.head == n.head || Links(chain, n.blocks[n.head], b)
  {
    CommitBlocks(chain, n, b, staked, f);
    var r := Commit(chain, n, b, staked, f);
    if r.head != n.head { ExtendLinkedIff(chain, n, r, b, Sealed(chain, n, b, staked).value); }
    else { SameLinked(chain, n, r); }
  }

  lemma {:induction false} SameLinked(chain: Chain, n: Node, r: Node)
    requires Linked(chain, n) && r.head == n.head && r.blocks == n.blocks
    ensures Linked(chain, r)
  {
    forall h | 0 < h <= r.head ensures LinkedAt(chain, r, h) { assert LinkedAt(chain, n, h); }
  }

  lemma {:induction false} ExtendLinkedIff(chain: Chain, n: Node, r: Node, b: Block, sealed: Block)
    requires Linked(chain, n)
    requires r.head == n.head + 1 && r.blocks == n.blocks[r.head := sealed]
    requires sealed.header.parentHash == b.header.parentHash && sealed.header.timestamp == b.header.timestamp
    requires sealed.header.number == r.head
    ensures Linked(chain, r) <==> Links(chain, n.blocks[n.head], b)
  {
    assert Contiguous(r);
    assert LinkedAt(chain, r, r.head) <==> Links(chain, n.blocks[n.head], b);
    forall h | 0 < h <= n.head ensures LinkedAt(chain, r, h) {
      assert LinkedAt(chain, n, h);
    }
  }

  lemma {:induction false} CommitKeepsAnchored(chain: Chain, n: Node, pool: seq<Block>, i: nat, staked: bool, f: Fault)
    requires Linked(chain, n) && Anchored(chain, n, pool) && i < |pool|
    ensures var r := Commit(chain, n, pool[i], staked, f);
            Linked(chain, r) && Anchored(chain, r, pool)
  {
    var r := Commit(chain, n, pool[i], staked, f);
    CommitBlocks(chain, n, pool[i], staked, f);
    CommitKeepsLinkedIff(chain, n, pool[i], staked, f);
    assert Unchanged(n, r);
    assert Anchored(chain, r, pool);
  }

  lemma {:induction false} BuildKeepsAnchored(chain: Chain, n: Node, pool: seq<Block>, now: nat, coinbase: Address,
                                              gasLimit: nat, txs: seq<Tx>)
    requires Linked(chain, n) && Anchored(chain, n, pool)
    ensures Anchored(chain, n, pool + [Candidate(chain, n.blocks[n.head], now, coinbase, gasLimit, txs)])
  {
    assert Links(chain, n.blocks[n.head], Candidate(chain, n.blocks[n.head], now, coinbase, gasLimit, txs));
  }

  lemma {:induction false} StepKeepsLinked(chain: Chain, s: Sys, e: Event)
    requires Linked(chain, s.node) && Anchored(chain, s.node, s.pool) && !e.Import?
    ensures var s' := Step(chain, s, e);
            Linked(chain, s'.node) && Anchored(chain, s'.node, s'.pool)
  {
    match e
    case Build(now, coinbase, gasLimit, txs, _) =>
      BuildKeepsAnchored(chain, s.node, s.pool, now, coinbase, gasLimit, txs);
    case CommitCandidate(i, staked, f) =>
      if i < |s.pool| { CommitKeepsAnchored(chain, s.node, s.pool, i, staked, f); }
  }

  /**
   Comparing only the number against the head suffices: with any number of candidates in flight,
   built at any time under any clock and committed in any order with any faults, every stored
   block names the stored block below it and timestamps strictly increase.
   */
  lemma {:induction false} NumberCheckSuffices(chain: Chain, s: Sys, es: seq<Event>)
    requires Linked(chain, s.node) && Anchored(chain, s.node, s.pool)
    requires forall i | 0 <= i < |es| :: !es[i].Import?
    ensures var s' := Steps(chain, s, es);
            Linked(chain, s'.node) && Anchored(chain, s'.node, s'.pool)
    decreases |es|
  {
    if es != [] {
      NumberCheckSuffices(chain, s, es[..|es| - 1]);
      StepKeepsLinked(chain, Steps(chain, s, es[..|es| - 1]), es[|es| - 1]);
    }
  }

  // ---------------------------------------------------------------------------
  // Trie nodes
  // ---------------------------------------------------------------------------

  /** Run on a head whose nodes are stored, the executor hands over every node its root needs beyond those on disk. */
  ghost predicate CompleteExecutor(chain: Chain) {
    forall n: Node, b: Block, staked: bool ::
      Run(chain, n, b, staked).Some? && HeadRootStored(chain, n) ==>
        var x := Run(chain, n, b, staked).value;
        chain.proof(x.stateRoot) <= n.nodes + x.nodes
  }

  ghost predicate HeadRootStored(chain: Chain, n: Node) {
    n.head in n.blocks && chain.proof(n.blocks[n.head].header.stateRoot) <= n.nodes
  }

  ghost predicate RootsStored(chain: Chain, n: Node) {
    forall h | h in n.blocks :: chain.proof(n.blocks[h].header.stateRoot) <= n.nodes
  }

  lemma {:induction false} LeftRoots(chain: Chain, n: Node, x: Exec, b: Block, staked: bool, f: Fault)
    requires RootsStored(chain, n) && chain.proof(x.stateRoot) <= n.nodes + x.nodes
    ensures RootsStored(chain, Left(n, x, b, staked, f))
  {
    var r := Left(n, x, b, staked, f);
    assert n.nodes <= r.nodes;
    forall h | h in r.blocks ensures chain.proof(r.blocks[h].header.stateRoot) <= r.nodes {
      assert (h in n.blocks && r.blocks[h] == n.blocks[h]) || r.blocks[h] == Patch(b, x);
    }
  }

  lemma {:induction false} CommitKeepsRoots(chain: Chain, n: Node, b: Block, staked: bool, f: Fault)
    requires CompleteExecutor(chain) && RootsStored(chain, n) && n.head in n.blocks
    ensures RootsStored(chain, Commit(chain, n, b, staked, f))
  {
    CommitResult(chain, n, b, staked, f);
    assert HeadRootStored(chain, n);
    if Admitted(chain, n, b, staked) {
      LeftRoots(chain, n, Run(chain, n, b, staked).value, b, staked, f);
    }
  }

  /** Over every run, with faults anywhere, no stored block lacks a trie node of its root. */
  lemma {:induction false} StoredBlocksHaveTheirNodes(chain: Chain, s: Sys, es: seq<Event>)
    requires CompleteExecutor(chain) && Contiguous(s.node) && Positive(s.pool) && RootsStored(chain, s.node)
    ensures RootsStored(chain, Steps(chain, s, es).node)
    decreases |es|
  {
    if es != [] {
      StoredBlocksHaveTheirNodes(chain, s, es[..|es| - 1]);
      HeightsWrittenOnce(chain, s, es[..|es| - 1]);
      var p, e := Steps(chain, s, es[..|es| - 1]), es[|es| - 1];
      match e
      case Build(_, _, _, _, _) =>
      case CommitCandidate(i, staked, f) =>
        if i < |p.pool| { CommitKeepsRoots(chain, p.node, p.pool[i], staked, f); }
      case Import(b, f) =>
        if b.header.number == p.node.head + 1 { CommitKeepsRoots(chain, p.node, b, false, f); }
    }
  }

  // ---------------------------------------------------------------------------
  // Governance under faults
  // ---------------------------------------------------------------------------

  /** The block an event offers for commit, if any. */
  function Offered(s: Sys, e: Event): Option<(Block, bool, Fault)> {
    match e
    case Build(_, _, _, _, _) => None
    case CommitCandidate(i, staked, f) => if i < |s.pool| then Some((s.pool[i], staked, f)) else None
    case Import(b, f) => if b.header.number == s.node.head + 1 then Some((b, false, f)) else None
  }

  /** The tick of the height a commit makes durable, if any, saying whether the governance hook took effect. */
  function TickOf(chain: Chain, n: Node, offer: Option<(Block, bool, Fault)>): Option<Governance.Tick> {
    match offer
    case None => None
    case Some(o) =>
      if Commit(chain, n, o.0, o.1, o.2).head == n.head then None
      else Some(Governance.Tick([], HookTook(chain, n, o.0, o.1, o.2)))
  }

  function Ticks(chain: Chain, s: Sys, es: seq<Event>): seq<Governance.Tick>
    decreases |es|
  {
    if es == [] then [] else
      var rest := Ticks(chain, s, es[..|es| - 1]);
      var p := Steps(chain, s, es[..|es| - 1]);
      match TickOf(chain, p.node, Offered(p, es[|es| - 1]))
      case None => rest
      case Some(t) => rest + [t]
  }

  predicate HookTook(chain: Chain, n: Node, b: Block, staked: bool, f: Fault) {
    Admitted(chain, n, b, staked) && !Hits(f, Run(chain, n, b, staked).value)
    && !GovernanceFails(f, n.gov, b.header.number)
  }

  ghost predicate TickApplied(n: Node, n': Node, tick: Option<Governance.Tick>) {
    match tick
    case None => n'.head == n.head && n'.gov == n.gov
    case Some(t) => t.events == [] && n'.head == n.head + 1 && n'.gov == Governance.Advance(n.gov, n.head + 1, t)
  }

  /** Head and registries after an admitted commit attempt. */
  lemma {:induction false} LeftGovernance(n: Node, x: Exec, b: Block, staked: bool, f: Fault)
    requires b.header.number == n.head + 1
    ensures var r := Left(n, x, b, staked, f);
            && (r.head == n.head || r.head == n.head + 1)
            && (r.head == n.head ==> r.gov == n.gov)
            && r.gov == if !Hits(f, x) && !GovernanceFails(f, n.gov, n.head + 1) then Governance.Hook(n.gov, n.head + 1)
                        else n.gov
  {
  }

  lemma {:induction false} CommitGovernance(chain: Chain, n: Node, b: Block, staked: bool, f: Fault)
    requires b.header.number > 0
    ensures TickApplied(n, Commit(chain, n, b, staked, f), TickOf(chain, n, Some((b, staked, f))))
  {
    CommitResult(chain, n, b, staked, f);
    if Admitted(chain, n, b, staked) { LeftGovernance(n, Run(chain, n, b, staked).value, b, staked, f); }
  }

  /** The node an event leaves: it commits what it offers, and nothing else moves. */
  lemma {:induction false} StepCommits(chain: Chain, s: Sys, e: Event)
    ensures Step(chain, s, e).node == match Offered(s, e)
                                      case None => s.node
                                      case Some(o) => Commit(chain, s.node, o.0, o.1, o.2)
  {
  }

  /** One event: its tick and the registries move together. */
  lemma {:induction false} GovernanceStep(chain: Chain, p: Sys, e: Event)
    requires Contiguous(p.node) && Positive(p.pool)
    ensures TickApplied(p.node, Step(chain, p, e).node, TickOf(chain, p.node, Offered(p, e)))
  {
    StepCommits(chain, p, e);
    match Offered(p, e)
    case None =>
    case Some(o) =>
      CommitGovernance(chain, p.node, o.0, o.1, o.2);
  }

  ghost predicate GovernanceMatches(s: Sys, s': Sys, ticks: seq<Governance.Tick>) {
    && |ticks| == s'.node.head - s.node.head
    && (forall k | 0 <= k < |ticks| :: ticks[k].events == [])
    && s'.node.gov == Governance.Run(s.node.gov, s.node.head, ticks)
  }

  lemma {:induction false} TickMatches(s: Sys, p: Sys, s': Sys, rest: seq<Governance.Tick>, t: Governance.Tick)
    requires GovernanceMatches(s, p, rest) && TickApplied(p.node, s'.node, Some(t))
    ensures GovernanceMatches(s, s', rest + [t])
  {
    var all := rest + [t];
    assert all[..|all| - 1] == rest;
  }

  lemma {:induction false} GovernanceOfRun(chain: Chain, s: Sys, es: seq<Event>)
    requires Contiguous(s.node) && Positive(s.pool)
    ensures GovernanceMatches(s, Steps(chain, s, es), Ticks(chain, s, es))
    decreases |es|
  {
    if es != [] {
      var pre, e := es[..|es| - 1], es[|es| - 1];
      var p := Steps(chain, s, pre);
      GovernanceOfRun(chain, s, pre);
      HeightsWrittenOnce(chain, s, pre);
      GovernanceStep(chain, p, e);
      match TickOf(chain, p.node, Offered(p, e))
      case None =>
      case Some(t) => TickMatches(s, p, Step(chain, p, e), Ticks(chain, s, pre), t);
    }
  }

  /**
   Governance survives faults: once a commit succeeds, the version registry is the one a node
   that never lost a hook run would have at that height.
   */
  lemma {:induction false} GovernanceCatchesUp(chain: Chain, s: Sys, es: seq<Event>, all: seq<Governance.Tick>)
    requires Contiguous(s.node) && Positive(s.pool)
    requires es != []
    requires var p := Steps(chain, s, es[..|es| - 1]);
             var o := Offered(p, es[|es| - 1]);
             o.Some? && Succeeds(chain, p.node, o.value.0, o.value.1, o.value.2)
    requires |all| == Steps(chain, s, es).node.head - s.node.head
    requires forall k | 0 <= k < |all| :: all[k] == Governance.Tick([], true)
    ensures Steps(chain, s, es).node.gov.modules == Governance.Run(s.node.gov, s.node.head, all).modules
  {
    var p := Steps(chain, s, es[..|es| - 1]);
    var o := Offered(p, es[|es| - 1]).value;
    HeightsWrittenOnce(chain, s, es[..|es| - 1]);
    GovernanceOfRun(chain, s, es);
    CommitResult(chain, p.node, o.0, o.1, o.2);
    Governance.DelayIndependence(s.node.gov, s.node.head, Ticks(chain, s, es), all);
  }
}
