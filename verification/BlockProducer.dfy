/**
 The block producer: building a candidate on the head, and the commit pipeline that executes
 a candidate, checks it against the head by number and writes it out step by step.

 Accounts, validator sets and trie nodes are opaque values here; the header hash and the
 executor are parameters. Every fallible storage call of the pipeline is a fault point.
 */
module BlockProducer {
  import opened Prelude
  import Governance

  type H256 = nat
  type Address = nat
  type Tx = nat
  type Account = nat
  type Validators = nat
  type StakingOp = nat
  type Accounts = map<Address, Account>

  datatype Header = Header(
    parentHash: H256,
    coinbase: Address,
    stateRoot: H256,
    transactionsRoot: H256,
    receiptsRoot: H256,
    logsBloom: nat,
    number: nat,
    gasLimit: nat,
    gasUsed: nat,
    timestamp: nat,
    baseFee: nat,
    epoch: nat,
    epochSeed: Option<H256>)

  datatype Block = Block(header: Header, txs: seq<Tx>)

  /** What executing a block yields. */
  datatype Exec = Exec(
    gasUsed: nat,
    stateRoot: H256,
    transactionsRoot: H256,
    receiptsRoot: H256,
    logsBloom: nat,
    diff: seq<(Address, Account)>,
    nodes: set<H256>,
    staking: seq<StakingOp>,
    validators: Validators)

  /** Durable state, then the state shared in memory. */
  datatype Node = Node(
    accounts: Accounts,
    nodes: set<H256>,
    blocks: map<nat, Block>,
    head: nat,
    staking: seq<StakingOp>,
    gov: Governance.State,
    validators: Validators,
    mempool: set<Tx>,
    retained: seq<(nat, H256)>)

  /**
   `hash` is the header hash; `execute` runs a block over the accounts and trie nodes on disk,
   with a validator set when staking is wired; `proof` is the set of trie nodes a root is made of.
   */
  datatype Chain = Chain(
    hash: Header -> H256,
    execute: (Accounts, set<H256>, Option<Validators>, Block) -> Option<Exec>,
    proof: H256 -> set<H256>)

  // ---------------------------------------------------------------------------
  // Candidates
  // ---------------------------------------------------------------------------

  function Candidate(chain: Chain, parent: Block, now: nat, coinbase: Address, gasLimit: nat, txs: seq<Tx>): Block {
    Block(Header(chain.hash(parent.header), coinbase, 0, 0, 0, 0, parent.header.number + 1, gasLimit, 0,
                 Max(now, parent.header.timestamp + 1), Max(parent.header.baseFee, 1),
                 parent.header.epoch, None),
          txs)
  }

  datatype Built = NoParent | Idle | Built(block: Block)

  function BuildCandidate(chain: Chain, n: Node, now: nat, coinbase: Address, gasLimit: nat,
                          txs: seq<Tx>, produceEmpty: bool): Built {
    if n.head !in n.blocks then NoParent
    else if txs == [] && !produceEmpty then Idle
    else Built(Candidate(chain, n.blocks[n.head], now, coinbase, gasLimit, txs))
  }

  function Patch(b: Block, x: Exec): Block {
    b.(header := b.header.(gasUsed := x.gasUsed, stateRoot := x.stateRoot,
                           transactionsRoot := x.transactionsRoot, receiptsRoot := x.receiptsRoot,
                           logsBloom := x.logsBloom))
  }

  // ---------------------------------------------------------------------------
  // Effects of a commit
  // ---------------------------------------------------------------------------

  datatype Effect =
    | PutAccount(address: Address, account: Account)
    | FlushNodes(nodes: set<H256>)
    | PutBlock(block: Block)
    | PutStaking(ops: seq<StakingOp>)
    | SwapValidators(validators: Validators)
    | PutGovernance(gov: Governance.State)
    | Evict(txs: seq<Tx>)
    | PushRetained(height: nat, root: H256)

  function Apply(n: Node, e: Effect): Node {
    match e
    case PutAccount(a, acct) => n.(accounts := n.accounts[a := acct])
    case FlushNodes(ns) => n.(nodes := n.nodes + ns)
    case PutBlock(b) => n.(blocks := n.blocks[b.header.number := b], head := Max(n.head, b.header.number))
    case PutStaking(ops) => n.(staking := n.staking + ops)
    case SwapValidators(v) => n.(validators := v)
    case PutGovernance(g) => n.(gov := g)
    case Evict(txs) => n.(mempool := n.mempool - set t | t in txs)
    case PushRetained(h, r) => n.(retained := n.retained + [(h, r)])
  }

  function ApplyAll(n: Node, es: seq<Effect>): Node
    decreases |es|
  {
    if es == [] then n else Apply(ApplyAll(n, es[..|es| - 1]), es[|es| - 1])
  }

  function AccountPuts(diff: seq<(Address, Account)>): (r: seq<Effect>)
    ensures |r| == |diff|
    ensures forall i | 0 <= i < |diff| :: r[i] == PutAccount(diff[i].0, diff[i].1)
  {
    seq(|diff|, i requires 0 <= i < |diff| => PutAccount(diff[i].0, diff[i].1))
  }

  function When(c: bool, e: Effect): seq<Effect> {
    if c then [e] else []
  }

  /** The effects of a commit in which nothing fails, stage by stage and in order. */
  function UpToNodes(x: Exec): seq<Effect> {
    AccountPuts(x.diff) + [FlushNodes(x.nodes)]
  }

  function UpToBlock(x: Exec, b: Block): seq<Effect> {
    UpToNodes(x) + [PutBlock(Patch(b, x))]
  }

  function UpToSwap(x: Exec, b: Block, staked: bool): seq<Effect> {
    UpToBlock(x, b) + When(x.staking != [], PutStaking(x.staking)) + When(staked, SwapValidators(x.validators))
  }

  predicate GovernanceDue(g: Governance.State, height: nat) {
    Governance.ReadyFrom(g.proposals, height, 0) != []
  }

  function WithTail(es: seq<Effect>, g: Governance.State, x: Exec, b: Block): seq<Effect> {
    es + When(GovernanceDue(g, b.header.number), PutGovernance(Governance.Hook(g, b.header.number)))
    + [Evict(b.txs)] + [PushRetained(b.header.number, x.stateRoot)]
  }

  function Plan(g: Governance.State, x: Exec, b: Block, staked: bool): seq<Effect> {
    WithTail(UpToSwap(x, b, staked), g, x, b)
  }

  /** Where a storage call fails. */
  datatype Fault =
    | NoFault
    | SeedFault                // get_account / get_code while seeding the view
    | AccountFault(k: nat)     // the k-th put_account
    | FlushFault
    | BlockFault
    | StakingFault
    | GovernanceReadFault
    | GovernanceWriteFault

  datatype Outcome = Committed(block: Block) | Rejected

  predicate GovernanceFails(f: Fault, g: Governance.State, height: nat) {
    f.GovernanceReadFault? || (f.GovernanceWriteFault? && GovernanceDue(g, height))
  }

  /** The fault hits a call this commit makes before the block is durable, or right after. */
  predicate Hits(f: Fault, x: Exec) {
    match f
    case SeedFault => true
    case AccountFault(k) => k < |x.diff|
    case FlushFault => true
    case BlockFault => true
    case StakingFault => x.staking != []
    case _ => false
  }

  /** What happens up to the validator-set swap before the fault stops the commit. */
  function Written(f: Fault, x: Exec, b: Block, staked: bool): seq<Effect> {
    if !Hits(f, x) then UpToSwap(x, b, staked)
    else match f
      case SeedFault => []
      case AccountFault(k) => AccountPuts(x.diff)[..k]
      case FlushFault => AccountPuts(x.diff)
      case BlockFault => UpToNodes(x)
      case _ => UpToBlock(x, b)
  }

  /** The effects that happen before the fault stops the commit. */
  function Performed(f: Fault, g: Governance.State, x: Exec, b: Block, staked: bool): seq<Effect> {
    if Hits(f, x) || GovernanceFails(f, g, b.header.number) then Written(f, x, b, staked)
    else Plan(g, x, b, staked)
  }

  function Execute(chain: Chain, accounts: Accounts, nodes: set<H256>, validators: Option<Validators>, b: Block)
    : Option<Exec>
  {
    chain.execute(accounts, nodes, validators, b)
  }

  function Run(chain: Chain, n: Node, b: Block, staked: bool): Option<Exec> {
    Execute(chain, n.accounts, n.nodes, if staked then Some(n.validators) else None, b)
  }

  /** A commit gets past execution and the head check. */
  predicate Admitted(chain: Chain, n: Node, b: Block, staked: bool) {
    Run(chain, n, b, staked).Some? && n.head == SatSub(b.header.number, 1)
  }

  /** The effects a commit performs on node `n` when fault `f` strikes. */
  function Trace(chain: Chain, n: Node, b: Block, staked: bool, f: Fault): seq<Effect> {
    if !Admitted(chain, n, b, staked) then []
    else
      var x := Run(chain, n, b, staked).value;
      Performed(f, n.gov, x, b, staked)
  }

  function Commit(chain: Chain, n: Node, b: Block, staked: bool, f: Fault): Node {
    ApplyAll(n, Trace(chain, n, b, staked, f))
  }

  predicate Succeeds(chain: Chain, n: Node, b: Block, staked: bool, f: Fault) {
    Admitted(chain, n, b, staked)
    && var x := Run(chain, n, b, staked).value;
       !Hits(f, x) && !GovernanceFails(f, n.gov, b.header.number)
  }

  function Sealed(chain: Chain, n: Node, b: Block, staked: bool): Option<Block> {
    match Run(chain, n, b, staked)
    case None => None
    case Some(x) => Some(Patch(b, x))
  }

  lemma {:induction false} ApplyLast(n: Node, es: seq<Effect>, e: Effect)
    ensures ApplyAll(n, es + [e]) == Apply(ApplyAll(n, es), e)
  {
    assert (es + [e])[..|es + [e]| - 1] == es;
  }

  /** Persisting only when something is due leaves the registries as the hook computes them. */
  lemma {:induction false} GovernanceWritten(n: Node, es: seq<Effect>, height: nat)
    ensures var m := ApplyAll(n, es);
            ApplyAll(n, es + When(GovernanceDue(m.gov, height), PutGovernance(Governance.Hook(m.gov, height))))
            == m.(gov := Governance.Hook(m.gov, height))
  {
    var g := ApplyAll(n, es).gov;
    if GovernanceDue(g, height) { ApplyLast(n, es, PutGovernance(Governance.Hook(g, height))); }
    else { assert es + [] == es && Governance.Hook(g, height) == g; }
  }

  /** What governance, eviction and the pruner hook leave. */
  lemma {:induction false} TailWritten(n: Node, es: seq<Effect>, x: Exec, b: Block)
    ensures var m := ApplyAll(n, es);
            ApplyAll(n, WithTail(es, m.gov, x, b))
            == m.(gov := Governance.Hook(m.gov, b.header.number), mempool := m.mempool - (set t | t in b.txs),
                  retained := m.retained + [(b.header.number, x.stateRoot)])
  {
    var m, h := ApplyAll(n, es), b.header.number;
    var now := es + When(GovernanceDue(m.gov, h), PutGovernance(Governance.Hook(m.gov, h)));
    GovernanceWritten(n, es, h);
    ApplyLast(n, now, Evict(b.txs));
    ApplyLast(n, now + [Evict(b.txs)], PushRetained(h, x.stateRoot));
  }

  // ---------------------------------------------------------------------------
  // The pipeline as it mutates the node
  // ---------------------------------------------------------------------------

  class Producer {
    var accounts: Accounts
    var nodes: set<H256>
    var blocks: map<nat, Block>
    var head: nat
    var staking: seq<StakingOp>
    var gov: Governance.State
    var validators: Validators
    var mempool: set<Tx>
    var retained: seq<(nat, H256)>

    constructor (n: Node)
      ensures View() == n
    {
      accounts, nodes, blocks, head, staking := n.accounts, n.nodes, n.blocks, n.head, n.staking;
      gov, validators, mempool, retained := n.gov, n.validators, n.mempool, n.retained;
    }

    ghost function View(): Node
      reads this
    {
      Node(accounts, nodes, blocks, head, staking, gov, validators, mempool, retained)
    }

    /** The account loop; `limit` writes succeed. */
    method PutAccounts(diff: seq<(Address, Account)>, limit: nat)
      requires limit <= |diff|
      modifies this`accounts
      ensures View() == ApplyAll(old(View()), AccountPuts(diff)[..limit])
    {
      var puts := AccountPuts(diff);
      for i := 0 to limit
        invariant View() == ApplyAll(old(View()), puts[..i])
      {
        accounts := accounts[diff[i].0 := diff[i].1];
        assert puts[..i + 1] == puts[..i] + [puts[i]];
        ApplyLast(old(View()), puts[..i], puts[i]);
      }
    }

    /** Load the registries, run the hook on the copies, persist both in one batch if anything changed. */
    method Govern(height: nat, f: Fault) returns (ok: bool)
      modifies this`gov
      ensures ok <==> !GovernanceFails(f, old(gov), height)
      ensures gov == if ok then Governance.Hook(old(gov), height) else old(gov)
    {
      if f.GovernanceReadFault? { return false; }
      var regs := new Governance.Registries(gov);
      var changed := regs.ApplyReady(height);
      if changed {
        if f.GovernanceWriteFault? { return false; }
        gov := Governance.State(regs.modules, regs.proposals);
      }
      ok := true;
    }

    /** The state writes: the changed accounts, then the new trie nodes. */
    method WriteState(x: Exec, f: Fault) returns (ok: bool)
      modifies this`accounts, this`nodes
      ensures ok <==> !(f.FlushFault? || (f.AccountFault? && f.k < |x.diff|))
      ensures View() == ApplyAll(old(View()), if ok then UpToNodes(x)
                                              else if f.AccountFault? then AccountPuts(x.diff)[..f.k]
                                              else AccountPuts(x.diff))
    {
      if f.AccountFault? && f.k < |x.diff| {
        PutAccounts(x.diff, f.k);
        return false;
      }
      PutAccounts(x.diff, |x.diff|);
      assert AccountPuts(x.diff)[..|x.diff|] == AccountPuts(x.diff);
      if f.FlushFault? { return false; }
      nodes := nodes + x.nodes;
      ApplyLast(old(View()), AccountPuts(x.diff), FlushNodes(x.nodes));
      ok := true;
    }

    /** The writes up to the validator-set swap, under the pruner read guard. */
    method WriteBlock(x: Exec, b: Block, staked: bool, f: Fault) returns (ok: bool)
      requires !f.SeedFault?
      modifies this`accounts, this`nodes, this`blocks, this`head, this`staking, this`validators
      ensures ok <==> !Hits(f, x)
      ensures View() == ApplyAll(old(View()), Written(f, x, b, staked))
    {
      ghost var was := View();
      ok := WriteState(x, f);
      if !ok { return; }
      if f.BlockFault? { return false; }
      blocks, head := blocks[b.header.number := Patch(b, x)], Max(head, b.header.number);
      ApplyLast(was, UpToNodes(x), PutBlock(Patch(b, x)));
      ok := Stake(x, f, was, UpToBlock(x, b));
      if ok { Swap(x, staked, was, UpToBlock(x, b) + When(x.staking != [], PutStaking(x.staking))); }
    }

    /** The staking delta, in one batch. */
    method Stake(x: Exec, f: Fault, ghost was: Node, ghost done: seq<Effect>) returns (ok: bool)
      requires View() == ApplyAll(was, done)
      modifies this`staking
      ensures ok <==> !(f.StakingFault? && x.staking != [])
      ensures View() == ApplyAll(was, if ok then done + When(x.staking != [], PutStaking(x.staking)) else done)
    {
      if x.staking == [] {
        assert done + [] == done;
        return true;
      }
      if f.StakingFault? { return false; }
      staking := staking + x.staking;
      ApplyLast(was, done, PutStaking(x.staking));
      ok := true;
    }

    /** The swap of the executed validator-set clone. */
    method Swap(x: Exec, staked: bool, ghost was: Node, ghost done: seq<Effect>)
      requires View() == ApplyAll(was, done)
      modifies this`validators
      ensures View() == ApplyAll(was, done + When(staked, SwapValidators(x.validators)))
    {
      if staked {
        validators := x.validators;
        ApplyLast(was, done, SwapValidators(x.validators));
      } else {
        assert done + [] == done;
      }
    }

    /** Governance, mempool eviction and the pruner hook, once the block is durable. */
    method Finish(x: Exec, b: Block, f: Fault, ghost was: Node, ghost done: seq<Effect>) returns (ok: bool)
      requires View() == ApplyAll(was, done)
      modifies this`gov, this`mempool, this`retained
      ensures ok <==> !GovernanceFails(f, old(gov), b.header.number)
      ensures View() == ApplyAll(was, if ok then WithTail(done, old(gov), x, b) else done)
    {
      ok := Govern(b.header.number, f);
      if !ok { return; }
      mempool := mempool - set t | t in b.txs;
      retained := retained + [(b.header.number, x.stateRoot)];
      TailWritten(was, done, x, b);
    }

    /** Write out an executed candidate that extends the head. */
    method WriteOut(x: Exec, b: Block, staked: bool, f: Fault) returns (ok: bool)
      requires !f.SeedFault?
      modifies this
      ensures ok <==> !Hits(f, x) && !GovernanceFails(f, old(gov), b.header.number)
      ensures View() == ApplyAll(old(View()), Performed(f, old(gov), x, b, staked))
    {
      ok := WriteBlock(x, b, staked, f);
      if ok { ok := Finish(x, b, f, old(View()), UpToSwap(x, b, staked)); }
    }

    /** Execute a candidate, check it against the head and write it out. */
    method ExecuteAndCommit(chain: Chain, b: Block, staked: bool, f: Fault) returns (r: Outcome)
      modifies this
      ensures View() == Commit(chain, old(View()), b, staked, f)
      ensures r.Committed? <==> Succeeds(chain, old(View()), b, staked, f)
      ensures r.Committed? ==> Some(r.block) == Sealed(chain, old(View()), b, staked)
    {
      var parent := SatSub(b.header.number, 1);
      if f.SeedFault? { return Rejected; }
      var run := Execute(chain, accounts, nodes, if staked then Some(validators) else None, b);
      if run.None? { return Rejected; }
      var x := run.value;
      if head != parent { return Rejected; }
      var ok := WriteOut(x, b, staked, f);
      r := if ok then Committed(Patch(b, x)) else Rejected;
    }
  }
}
