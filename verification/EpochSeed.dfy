/**
 The proposer-shuffle seed: stamped into the first header of an epoch by the proposer, validated at
 commit, rotated when the last block of an epoch commits. A light client recomputes the same seeds
 from stored headers alone.
 */
module EpochSeed {
  import opened Prelude
  import opened BlockProducer
  import ChainRuns

  /** `mix(blockHash, epoch, seed)` is the hash over the three fixed-width fields. */
  type Mixer = (H256, nat, H256) -> H256

  predicate EpochStart(height: nat, length: nat)
    requires length > 0
  {
    height > 0 && height % length == 0
  }

  /** Commit-time validation of the seed field. */
  function Accepts(height: nat, stamp: Option<H256>, local: H256, length: nat): (ok: bool)
    requires length > 0
    ensures ok <==> if height > 0 && height % length == 0 then stamp == Some(local) || (stamp == None && local == 0)
                    else stamp == None
  {
    match (stamp, EpochStart(height, length))
    case (Some(s), true) => s == local
    case (Some(s), false) => false
    case (None, true) => local == 0
    case (None, false) => true
  }

  /** The proposer's stamp: only on the first block of an epoch, and never the zero seed. */
  function Stamp(b: Block, local: H256, length: nat): Block
    requires length > 0
  {
    if EpochStart(b.header.number, length) && local != 0
    then b.(header := b.header.(epochSeed := Some(local)))
    else b
  }

  /** Stamping writes the local seed exactly on the first block of an epoch while it is not zero, and nothing else. */
  lemma {:induction false} StampIff(b: Block, local: H256, length: nat)
    requires length > 0
    ensures var s := Stamp(b, local, length);
            && s.txs == b.txs && s.header.(epochSeed := b.header.epochSeed) == b.header
            && s.header.epochSeed == (if b.header.number > 0 && b.header.number % length == 0 && local != 0
                                      then Some(local) else b.header.epochSeed)
  {
  }

  /** A fresh candidate stamped under the local seed is always accepted under it. */
  lemma {:induction false} HonestStampAccepted(chain: Chain, parent: Block, now: nat, coinbase: Address,
                                               gasLimit: nat, txs: seq<Tx>,
                            local: H256, length: nat)
    requires length > 0
    ensures var b := Stamp(Candidate(chain, parent, now, coinbase, gasLimit, txs), local, length);
            Accepts(b.header.number, b.header.epochSeed, local, length)
  {
  }

  // ---------------------------------------------------------------------------
  // The driver
  // ---------------------------------------------------------------------------

  /**
   A driver call: the block decided by consensus, the storage fault that strikes, and what slashes
   finalised at this height write to the accounts and make of the live validator set.
   */
  datatype Call = Call(
    block: Block,
    staked: bool,
    fault: Fault,
    debits: seq<(Address, Account)>,
    slashed: Option<Validators>)

  datatype Driver = Driver(node: Node, seed: H256)

  predicate LastOfEpoch(height: nat, length: nat)
    requires length > 0
  {
    (height + 1) % length == 0
  }

  function Rotate(chain: Chain, mix: Mixer, length: nat, d: Driver, n': Node, height: nat): H256
    requires length > 0
    requires height in n'.blocks
  {
    if LastOfEpoch(height, length)
    then mix(chain.hash(n'.blocks[height].header), (height + 1) / length, d.seed)
    else d.seed
  }

  /** The node once the finalised slashes are applied, before the block is executed. */
  function Debited(n: Node, c: Call): Node {
    n.(accounts := ChainRuns.PutAll(n.accounts, c.debits),
       validators := if c.slashed.Some? then c.slashed.value else n.validators)
  }

  function AfterCommit(chain: Chain, mix: Mixer, length: nat, d: Driver, c: Call): Driver
    requires length > 0
  {
    var h := c.block.header.number;
    if !Accepts(h, c.block.header.epochSeed, d.seed, length) then d
    else
      var n := Debited(d.node, c);
      var n' := Commit(chain, n, c.block, c.staked, c.fault);
      if Succeeds(chain, n, c.block, c.staked, c.fault) && h in n'.blocks
      then Driver(n', Rotate(chain, mix, length, d, n', h))
      else Driver(n', d.seed)
  }

  /** The driver as it mutates the node and its seed. */
  class ConsensusDriver {
    const length: nat
    var producer: Producer
    var seed: H256

    constructor (p: Producer, length: nat, genesisSeed: Option<H256>)
      ensures producer == p && this.length == length
      ensures seed == if genesisSeed.Some? then genesisSeed.value else 0
    {
      producer := p;
      this.length := length;
      seed := if genesisSeed.Some? then genesisSeed.value else 0;
    }

    ghost function View(): Driver
      reads this, producer
    {
      Driver(producer.View(), seed)
    }

    /** The tick of the slashing pipeline. */
    method ApplySlashes(c: Call)
      modifies producer
      ensures producer.View() == Debited(old(producer.View()), c)
    {
      producer.PutAccounts(c.debits, |c.debits|);
      ChainRuns.AccountsWritten(old(producer.View()), c.debits, |c.debits|);
      assert c.debits[..|c.debits|] == c.debits;
      if c.slashed.Some? { producer.validators := c.slashed.value; }
    }

    method DoCommit(chain: Chain, mix: Mixer, c: Call) returns (ok: bool)
      requires length > 0
      modifies this`seed, producer
      ensures View() == AfterCommit(chain, mix, length, old(View()), c)
      ensures ok <==> && Accepts(c.block.header.number, c.block.header.epochSeed, old(seed), length)
                      && Succeeds(chain, Debited(old(producer.View()), c), c.block, c.staked, c.fault)
    {
      var h := c.block.header.number;
      if !Accepts(h, c.block.header.epochSeed, seed, length) { return false; }
      ApplySlashes(c);
      ghost var was := producer.View();
      var r := producer.ExecuteAndCommit(chain, c.block, c.staked, c.fault);
      if r.Rejected? { return false; }
      ChainRuns.CommitResult(chain, was, c.block, c.staked, c.fault);
      if LastOfEpoch(h, length) {
        seed := mix(chain.hash(r.block.header), (h + 1) / length, seed);
      }
      ok := true;
    }
  }

  /**
   What a call does with the slashes finalised at its height. A refused seed leaves everything. Otherwise each
   debited account holds its last debit and the live set is the slashed one, whatever becomes of the block;
   and the executor runs on exactly those accounts and that set.
   */
  lemma {:induction false} SlashesApplied(chain: Chain, mix: Mixer, length: nat, d: Driver, c: Call, a: Address)
    requires length > 0
    ensures var d' := AfterCommit(chain, mix, length, d, c);
            var accounts := ChainRuns.PutAll(d.node.accounts, c.debits);
            var live := if c.slashed.None? then d.node.validators else c.slashed.value;
            var x := chain.execute(accounts, d.node.nodes, if c.staked then Some(live) else None, c.block);
            if !Accepts(c.block.header.number, c.block.header.epochSeed, d.seed, length) then d' == d
            else if x.None? || d.node.head != SatSub(c.block.header.number, 1) then
              && d' == Driver(d.node.(accounts := accounts, validators := live), d.seed)
              && forall i | ChainRuns.LastFor(c.debits, a, i) ::
                   a in d'.node.accounts && d'.node.accounts[a] == c.debits[i].1
            else c.fault == NoFault ==>
              ChainRuns.LeftWhole(d.node.(accounts := accounts, validators := live), d'.node, c.block, x.value,
                                  if c.staked then x.value.validators else live)
  {
    var n := Debited(d.node, c);
    ChainRuns.LastWriteWins(d.node.accounts, c.debits, a);
    ChainRuns.StakedCommit(chain, n, c.block);
    ChainRuns.BareCommit(chain, n, c.block);
    ChainRuns.WriteOrder(chain, n, c.block, c.staked, c.fault);
  }

  // ---------------------------------------------------------------------------
  // The light client's view
  // ---------------------------------------------------------------------------

  /** The height of the last block of epoch `j - 1`. */
  function LastHeight(j: nat, length: nat): int {
    j * length - 1
  }

  /** The seed of epoch `k`, folded from the stored last headers of epochs `0 … k - 1`. */
  function Fold(chain: Chain, mix: Mixer, length: nat, genesis: H256, blocks: map<nat, Block>, k: nat): H256
    requires length > 0
    requires forall j: nat | 1 <= j <= k :: LastHeight(j, length) in blocks
    decreases k
  {
    if k == 0 then genesis
    else mix(chain.hash(blocks[LastHeight(k, length)].header), k, Fold(chain, mix, length, genesis, blocks, k - 1))
  }

  /** Enough headers are stored to fold every epoch that has started by the next height. */
  lemma {:induction false} EpochsCovered(n: Node, length: nat, k: nat)
    requires ChainRuns.Contiguous(n) && length > 0 && k * length <= n.head + 1
    ensures forall j: nat | 1 <= j <= k :: LastHeight(j, length) in n.blocks
  {
    forall j: nat | 1 <= j <= k ensures LastHeight(j, length) in n.blocks {
      assert 1 <= j * length <= k * length by { MulOrder(1, j, length); MulOrder(j, k, length); }
    }
  }

  lemma {:induction false} MulOrder(a: nat, b: nat, c: nat)
    requires a <= b
    ensures a * c <= b * c
    ensures c > 0 ==> a <= a * c
  {
  }

  /** The fold only looks at the headers it names. */
  lemma {:induction false} FoldFrame(chain: Chain, mix: Mixer, length: nat, genesis: H256,
                                     a: map<nat, Block>, b: map<nat, Block>, k: nat)
    requires length > 0
    requires forall j: nat | 1 <= j <= k :: LastHeight(j, length) in a && LastHeight(j, length) in b
    requires forall j: nat | 1 <= j <= k :: a[LastHeight(j, length)] == b[LastHeight(j, length)]
    ensures Fold(chain, mix, length, genesis, a, k) == Fold(chain, mix, length, genesis, b, k)
    decreases k
  {
    if k > 0 { FoldFrame(chain, mix, length, genesis, a, b, k - 1); }
  }

  // ---------------------------------------------------------------------------
  // Runs
  // ---------------------------------------------------------------------------

  function Calls(chain: Chain, mix: Mixer, length: nat, d: Driver, cs: seq<Call>): Driver
    requires length > 0
    decreases |cs|
  {
    if cs == [] then d
    else AfterCommit(chain, mix, length, Calls(chain, mix, length, d, cs[..|cs| - 1]), cs[|cs| - 1])
  }

  /** The block ends an epoch and gets as far as being stored, but a later storage call fails: no rotation. */
  predicate Misses(chain: Chain, length: nat, d: Driver, c: Call)
    requires length > 0
  {
    var h := c.block.header.number;
    && Accepts(h, c.block.header.epochSeed, d.seed, length) && LastOfEpoch(h, length)
    && var n := Debited(d.node, c);
       && Admitted(chain, n, c.block, c.staked)
       && ChainRuns.StrikesLate(c.fault, n, Run(chain, n, c.block, c.staked).value, h)
  }

  predicate EverMisses(chain: Chain, mix: Mixer, length: nat, d: Driver, cs: seq<Call>)
    requires length > 0
    decreases |cs|
  {
    cs != [] && (EverMisses(chain, mix, length, d, cs[..|cs| - 1])
                 || Misses(chain, length, Calls(chain, mix, length, d, cs[..|cs| - 1]), cs[|cs| - 1]))
  }

  /** A driver freshly built on a node that stores only the genesis block. */
  ghost predicate AtGenesis(d: Driver) {
    ChainRuns.Contiguous(d.node) && d.node.head == 0
  }

  ghost predicate Proper(cs: seq<Call>) {
    forall i | 0 <= i < |cs| :: cs[i].block.header.number > 0
  }

  /** The number of epochs whose seed is fixed by the stored blocks. */
  function EpochIndex(n: Node, length: nat): nat
    requires length > 0
  {
    (n.head + 1) / length
  }

  ghost function Expected(chain: Chain, mix: Mixer, length: nat, genesis: H256, n: Node): H256
    requires length > 0 && ChainRuns.Contiguous(n)
  {
    EpochsCovered(n, length, EpochIndex(n, length));
    Fold(chain, mix, length, genesis, n.blocks, EpochIndex(n, length))
  }

  /** What the commit inside a call does to the chain. */
  lemma {:induction false} CommitGrows(chain: Chain, n: Node, c: Call)
    requires ChainRuns.Contiguous(n) && c.block.header.number > 0
    ensures var n' := Commit(chain, n, c.block, c.staked, c.fault);
            && ChainRuns.Contiguous(n') && ChainRuns.Unchanged(n, n')
            && (n'.head == n.head ==> n'.blocks == n.blocks)
            && (n'.head != n.head ==> && n'.head == n.head + 1 == c.block.header.number
                                      && n'.blocks[n'.head].header.epochSeed == c.block.header.epochSeed)
            && (Succeeds(chain, n, c.block, c.staked, c.fault) ==> n'.head != n.head)
  {
    ChainRuns.CommitBlocks(chain, n, c.block, c.staked, c.fault);
    if Succeeds(chain, n, c.block, c.staked, c.fault) {
      ChainRuns.CommitResult(chain, n, c.block, c.staked, c.fault);
    }
  }

  /** What one call does to the node and the seed. */
  lemma {:induction false} CallEffect(chain: Chain, mix: Mixer, length: nat, d: Driver, c: Call)
    requires length >= 2 && ChainRuns.Contiguous(d.node) && c.block.header.number > 0
    ensures var d' := AfterCommit(chain, mix, length, d, c);
            && ChainRuns.Contiguous(d'.node) && ChainRuns.Unchanged(d.node, d'.node)
            && (d'.node.head == d.node.head ==> d'.seed == d.seed && d'.node.blocks == d.node.blocks)
            && (d'.node.head != d.node.head ==>
                  var h := d.node.head + 1;
                  && d'.node.head == h == c.block.header.number
                  && d'.node.blocks[h].header.epochSeed == c.block.header.epochSeed
                  && Accepts(h, c.block.header.epochSeed, d.seed, length)
                  && (if LastOfEpoch(h, length) && !Misses(chain, length, d, c)
                      then d'.seed == mix(chain.hash(d'.node.blocks[h].header), (h + 1) / length, d.seed)
                      else d'.seed == d.seed))
            && (Misses(chain, length, d, c) ==> d'.node.head != d.node.head)
  {
    if Accepts(c.block.header.number, c.block.header.epochSeed, d.seed, length) {
      CommitGrows(chain, Debited(d.node, c), c);
      SeedAfter(chain, mix, length, d, c);
    }
  }

  /** The seed of a call that gets as far as the commit. */
  lemma {:induction false} SeedAfter(chain: Chain, mix: Mixer, length: nat, d: Driver, c: Call)
    requires length >= 2 && ChainRuns.Contiguous(d.node) && c.block.header.number > 0
    requires Accepts(c.block.header.number, c.block.header.epochSeed, d.seed, length)
    ensures var h, d' := c.block.header.number, AfterCommit(chain, mix, length, d, c);
            && (d'.node.head == d.node.head ==> d'.seed == d.seed && !Misses(chain, length, d, c))
            && (d'.node.head != d.node.head ==>
                  && h in d'.node.blocks
                  && (if LastOfEpoch(h, length) && !Misses(chain, length, d, c)
                      then d'.seed == mix(chain.hash(d'.node.blocks[h].header), (h + 1) / length, d.seed)
                      else d'.seed == d.seed))
  {
    var n := Debited(d.node, c);
    ChainRuns.LateIffStoredAndFailed(chain, n, c.block, c.staked, c.fault);
    CommitGrows(chain, n, c);
  }

  lemma {:induction false} NextEpoch(h: nat, length: nat)
    requires length > 0
    ensures LastOfEpoch(h, length) ==> (h + 1) / length == h / length + 1 && (h + 1) / length * length == h + 1
    ensures !LastOfEpoch(h, length) ==> (h + 1) / length == h / length
  {
    var q, r := h / length, h % length;
    assert h == q * length + r;
    if r == length - 1 {
      assert h + 1 == (q + 1) * length;
      DivUnique(h + 1, length, q + 1, 0);
    } else {
      DivUnique(h + 1, length, q, r + 1);
    }
  }

  lemma {:induction false} DivUnique(a: nat, d: nat, q: nat, r: nat)
    requires d > 0 && r < d && a == q * d + r
    ensures a / d == q && a % d == r
  {
    if a / d < q { MulOrder(a / d + 1, q, d); assert false; }
    if a / d > q { MulOrder(q + 1, a / d, d); assert false; }
  }

  /** The expected seed moves exactly when an epoch's last block is stored. */
  lemma {:induction false} ExpectedStep(chain: Chain, mix: Mixer, length: nat, genesis: H256, n: Node, n': Node)
    requires length >= 2 && ChainRuns.Contiguous(n) && ChainRuns.Contiguous(n') && ChainRuns.Unchanged(n, n')
    requires n'.head == n.head + 1
    ensures var h := n'.head;
            Expected(chain, mix, length, genesis, n') ==
            if LastOfEpoch(h, length)
            then mix(chain.hash(n'.blocks[h].header), (h + 1) / length, Expected(chain, mix, length, genesis, n))
            else Expected(chain, mix, length, genesis, n)
  {
    var h, k := n'.head, EpochIndex(n, length);
    NextEpoch(h, length);
    WholeEpochs(n.head + 1, length);
    FoldKept(chain, mix, length, genesis, n, n', k);
    if LastOfEpoch(h, length) {
      EpochsCovered(n', length, k + 1);
      assert LastHeight(k + 1, length) == h;
    }
  }

  lemma {:induction false} WholeEpochs(a: nat, length: nat)
    requires length > 0
    ensures a / length * length <= a
  {
    assert a == a / length * length + a % length;
  }

  /** A longer chain folds to the same seed for the epochs it had before. */
  lemma {:induction false} FoldKept(chain: Chain, mix: Mixer, length: nat, genesis: H256, n: Node, n': Node, k: nat)
    requires length > 0 && ChainRuns.Contiguous(n) && ChainRuns.Contiguous(n') && ChainRuns.Unchanged(n, n')
    requires k * length <= n.head + 1
    ensures forall j: nat | 1 <= j <= k :: LastHeight(j, length) in n.blocks && LastHeight(j, length) in n'.blocks
    ensures Fold(chain, mix, length, genesis, n'.blocks, k) == Fold(chain, mix, length, genesis, n.blocks, k)
  {
    EpochsCovered(n, length, k);
    EpochsCovered(n', length, k);
    FoldFrame(chain, mix, length, genesis, n.blocks, n'.blocks, k);
  }

  /** The light client's seed for the epoch of a stored height. */
  ghost function SeedAt(chain: Chain, mix: Mixer, length: nat, genesis: H256, n: Node, h: nat): H256
    requires length > 0 && ChainRuns.Contiguous(n) && h <= n.head
  {
    NextEpoch(h, length);
    assert h / length * length <= h by { assert h == h / length * length + h % length; }
    EpochsCovered(n, length, h / length);
    Fold(chain, mix, length, genesis, n.blocks, h / length)
  }

  /** Every stored header carries what a light client expects at its height. */
  ghost predicate HeadersAgree(chain: Chain, mix: Mixer, length: nat, genesis: H256, n: Node)
    requires length > 0 && ChainRuns.Contiguous(n)
  {
    forall h | 0 < h <= n.head ::
      Accepts(h, n.blocks[h].header.epochSeed, SeedAt(chain, mix, length, genesis, n, h), length)
  }

  lemma {:induction false} SeedAtFrame(chain: Chain, mix: Mixer, length: nat, genesis: H256, n: Node, n': Node, h: nat)
    requires length > 0 && ChainRuns.Contiguous(n) && ChainRuns.Contiguous(n') && ChainRuns.Unchanged(n, n')
    requires h <= n.head
    ensures SeedAt(chain, mix, length, genesis, n, h) == SeedAt(chain, mix, length, genesis, n', h)
  {
    assert h / length * length <= h by { assert h == h / length * length + h % length; }
    EpochsCovered(n, length, h / length);
    EpochsCovered(n', length, h / length);
    FoldFrame(chain, mix, length, genesis, n.blocks, n'.blocks, h / length);
  }

  /** The seed expected before the next height is the seed of the next height's epoch. */
  lemma {:induction false} ExpectedIsNext(chain: Chain, mix: Mixer, length: nat, genesis: H256, n: Node, n': Node)
    requires length >= 2 && ChainRuns.Contiguous(n) && ChainRuns.Contiguous(n') && ChainRuns.Unchanged(n, n')
    requires n'.head == n.head + 1
    ensures SeedAt(chain, mix, length, genesis, n', n'.head) == Expected(chain, mix, length, genesis, n)
  {
    var k := EpochIndex(n, length);
    assert k * length <= n'.head by { assert n'.head == k * length + n'.head % length; }
    EpochsCovered(n, length, k);
    EpochsCovered(n', length, k);
    FoldFrame(chain, mix, length, genesis, n.blocks, n'.blocks, k);
  }

  lemma {:induction false} CallAgrees(chain: Chain, mix: Mixer, length: nat, genesis: H256, d: Driver, c: Call)
    requires length >= 2 && ChainRuns.Contiguous(d.node) && c.block.header.number > 0
    requires d.seed == Expected(chain, mix, length, genesis, d.node)
    requires HeadersAgree(chain, mix, length, genesis, d.node)
    requires !Misses(chain, length, d, c)
    ensures var d' := AfterCommit(chain, mix, length, d, c);
            && ChainRuns.Contiguous(d'.node)
            && d'.seed == Expected(chain, mix, length, genesis, d'.node)
            && HeadersAgree(chain, mix, length, genesis, d'.node)
  {
    var d' := AfterCommit(chain, mix, length, d, c);
    CallEffect(chain, mix, length, d, c);
    forall h | 0 < h <= d.node.head
      ensures Accepts(h, d'.node.blocks[h].header.epochSeed, SeedAt(chain, mix, length, genesis, d'.node, h), length)
    {
      assert Accepts(h, d.node.blocks[h].header.epochSeed, SeedAt(chain, mix, length, genesis, d.node, h), length);
      SeedAtFrame(chain, mix, length, genesis, d.node, d'.node, h);
    }
    if d'.node.head != d.node.head {
      ExpectedStep(chain, mix, length, genesis, d.node, d'.node);
      ExpectedIsNext(chain, mix, length, genesis, d.node, d'.node);
    }
  }

  /**
   Light-client agreement. From genesis, in every run of driver calls that never stores an epoch's
   last block while returning an error, the local seed is the fold over stored headers, every
   boundary header carries exactly that fold (absent only while it is zero), and no other header
   carries a seed.
   */
  lemma {:induction false} LightClientAgreement(chain: Chain, mix: Mixer, length: nat, d: Driver, cs: seq<Call>)
    requires length >= 2 && AtGenesis(d) && Proper(cs)
    requires !EverMisses(chain, mix, length, d, cs)
    ensures var r := Calls(chain, mix, length, d, cs);
            && ChainRuns.Contiguous(r.node)
            && r.seed == Expected(chain, mix, length, d.seed, r.node)
            && HeadersAgree(chain, mix, length, d.seed, r.node)
    decreases |cs|
  {
    if cs == [] {
      assert EpochIndex(d.node, length) == 0;
    } else {
      LightClientAgreement(chain, mix, length, d, cs[..|cs| - 1]);
      CallAgrees(chain, mix, length, d.seed, Calls(chain, mix, length, d, cs[..|cs| - 1]), cs[|cs| - 1]);
    }
  }

  /**
   What that says header by header: a seed stands only in blocks whose height is a multiple of the epoch length,
   it is the light client's seed there, and it is missing only where that is zero.
   */
  lemma {:induction false} HeadersSay(chain: Chain, mix: Mixer, length: nat, genesis: H256, n: Node, h: nat)
    requires length > 0 && ChainRuns.Contiguous(n) && HeadersAgree(chain, mix, length, genesis, n)
    requires 0 < h <= n.head
    ensures var stamp := n.blocks[h].header.epochSeed;
            && (stamp.Some? ==> h % length == 0 && stamp.value == SeedAt(chain, mix, length, genesis, n, h))
            && (stamp.None? ==> h % length != 0 || SeedAt(chain, mix, length, genesis, n, h) == 0)
  {
    assert Accepts(h, n.blocks[h].header.epochSeed, SeedAt(chain, mix, length, genesis, n, h), length);
  }

  /** The hash has no collisions, and the genesis seed is not a rotation result. */
  ghost predicate CollisionFree(mix: Mixer, genesis: H256) {
    && (forall h: H256, e: nat, s: H256, h': H256, e': nat, s': H256 ::
          mix(h, e, s) == mix(h', e', s') ==> h == h' && e == e' && s == s')
    && (forall h: H256, e: nat, s: H256 :: mix(h, e, s) != genesis)
  }

  /** The seed is the genesis seed or was mixed for an epoch no later than `k`. */
  ghost predicate Labelled(mix: Mixer, genesis: H256, seed: H256, k: nat) {
    seed == genesis || exists h: H256, e: nat, s: H256 :: e <= k && seed == mix(h, e, s)
  }

  /** Rotating agreeing seeds keeps them equal; skipping a rotation, or differing before, keeps them apart. */
  lemma {:induction false} RotationSeparates(mix: Mixer, genesis: H256, seed: H256, expected: H256, x: H256, k: nat)
    requires CollisionFree(mix, genesis) && Labelled(mix, genesis, seed, k)
    ensures mix(x, k + 1, seed) == mix(x, k + 1, expected) <==> seed == expected
    ensures seed != mix(x, k + 1, expected)
    ensures Labelled(mix, genesis, seed, k + 1) && Labelled(mix, genesis, mix(x, k + 1, seed), k + 1)
  {
  }

  /** One stored block, with the seed rotated or not. */
  lemma {:induction false} AdvanceDiverges(chain: Chain, mix: Mixer, length: nat, genesis: H256, n: Node, n': Node,
                        seed: H256, seed': H256, missed: bool)
    requires length >= 2 && ChainRuns.Contiguous(n) && ChainRuns.Contiguous(n') && ChainRuns.Unchanged(n, n')
    requires n'.head == n.head + 1
    requires CollisionFree(mix, genesis) && Labelled(mix, genesis, seed, EpochIndex(n, length))
    requires missed ==> LastOfEpoch(n'.head, length)
    requires seed' == if LastOfEpoch(n'.head, length) && !missed
                      then mix(chain.hash(n'.blocks[n'.head].header), (n'.head + 1) / length, seed) else seed
    ensures Labelled(mix, genesis, seed', EpochIndex(n', length))
    ensures seed' == Expected(chain, mix, length, genesis, n')
            <==> seed == Expected(chain, mix, length, genesis, n) && !missed
  {
    ExpectedStep(chain, mix, length, genesis, n, n');
    NextEpoch(n'.head, length);
    RotationSeparates(mix, genesis, seed, Expected(chain, mix, length, genesis, n),
                      chain.hash(n'.blocks[n'.head].header), EpochIndex(n, length));
  }

  lemma {:induction false} CallDiverges(chain: Chain, mix: Mixer, length: nat, genesis: H256, d: Driver, c: Call)
    requires length >= 2 && ChainRuns.Contiguous(d.node) && c.block.header.number > 0
    requires CollisionFree(mix, genesis) && Labelled(mix, genesis, d.seed, EpochIndex(d.node, length))
    ensures var d' := AfterCommit(chain, mix, length, d, c);
            && ChainRuns.Contiguous(d'.node)
            && Labelled(mix, genesis, d'.seed, EpochIndex(d'.node, length))
            && (d'.seed == Expected(chain, mix, length, genesis, d'.node)
                <==> d.seed == Expected(chain, mix, length, genesis, d.node) && !Misses(chain, length, d, c))
  {
    var d' := AfterCommit(chain, mix, length, d, c);
    CallEffect(chain, mix, length, d, c);
    if d'.node.head == d.node.head {
      SameExpected(chain, mix, length, genesis, d.node, d'.node);
    } else {
      AdvanceDiverges(chain, mix, length, genesis, d.node, d'.node, d.seed, d'.seed, Misses(chain, length, d, c));
    }
  }

  lemma {:induction false} SameExpected(chain: Chain, mix: Mixer, length: nat, genesis: H256, n: Node, n': Node)
    requires length > 0 && ChainRuns.Contiguous(n) && ChainRuns.Contiguous(n')
    requires n.head == n'.head && n.blocks == n'.blocks
    ensures Expected(chain, mix, length, genesis, n) == Expected(chain, mix, length, genesis, n')
  {
  }

  /**
   Whatever each of them went through, two nodes that missed no rotation and store the same chain agree on
   what comes next: a candidate one builds and stamps is accepted by the other.
   */
  lemma {:induction false} PeersAcceptStamp(chain: Chain, mix: Mixer, length: nat, d: Driver, d': Driver,
                                            cs: seq<Call>, cs': seq<Call>, now: nat, coinbase: Address,
                                            gasLimit: nat, txs: seq<Tx>)
    requires length >= 2 && AtGenesis(d) && AtGenesis(d') && d.seed == d'.seed && Proper(cs) && Proper(cs')
    requires !EverMisses(chain, mix, length, d, cs) && !EverMisses(chain, mix, length, d', cs')
    requires var r, r' := Calls(chain, mix, length, d, cs), Calls(chain, mix, length, d', cs');
             r.node.head == r'.node.head && r.node.blocks == r'.node.blocks
    ensures var r, r' := Calls(chain, mix, length, d, cs), Calls(chain, mix, length, d', cs');
            && r.node.head in r.node.blocks
            && var built := Candidate(chain, r.node.blocks[r.node.head], now, coinbase, gasLimit, txs);
               var b := Stamp(built, r.seed, length);
               b.header.number == r'.node.head + 1 && Accepts(b.header.number, b.header.epochSeed, r'.seed, length)
  {
    var r, r' := Calls(chain, mix, length, d, cs), Calls(chain, mix, length, d', cs');
    LightClientAgreement(chain, mix, length, d, cs);
    LightClientAgreement(chain, mix, length, d', cs');
    SameExpected(chain, mix, length, d.seed, r.node, r'.node);
    HonestStampAccepted(chain, r.node.blocks[r.node.head], now, coinbase, gasLimit, txs, r.seed, length);
  }

  /**
   Exactly when agreement holds: under a collision-free hash the local seed equals the light
   client's fold if and only if no call ever stored an epoch's last block and then failed. One
   governance or staking write error at that height splits the node from light clients for good.
   */
  lemma {:induction false} SeedAgreesIff(chain: Chain, mix: Mixer, length: nat, d: Driver, cs: seq<Call>)
    requires length >= 2 && AtGenesis(d) && Proper(cs) && CollisionFree(mix, d.seed)
    ensures var r := Calls(chain, mix, length, d, cs);
            && ChainRuns.Contiguous(r.node)
            && Labelled(mix, d.seed, r.seed, EpochIndex(r.node, length))
            && (r.seed == Expected(chain, mix, length, d.seed, r.node) <==> !EverMisses(chain, mix, length, d, cs))
    decreases |cs|
  {
    if cs == [] {
      assert EpochIndex(d.node, length) == 0;
    } else {
      SeedAgreesIff(chain, mix, length, d, cs[..|cs| - 1]);
      CallDiverges(chain, mix, length, d.seed, Calls(chain, mix, length, d, cs[..|cs| - 1]), cs[|cs| - 1]);
    }
  }

  /** One such failure is reachable: a governance read error while the first epoch's last block commits. */
  lemma {:induction false} OneFaultSplits(chain: Chain, mix: Mixer, d: Driver, b: Block)
    requires AtGenesis(d) && CollisionFree(mix, d.seed)
    requires b.header.number == 1 && b.header.epochSeed == None && Run(chain, d.node, b, false).Some?
    ensures var cs := [Call(b, false, GovernanceReadFault, [], None)];
            var r := Calls(chain, mix, 2, d, cs);
            ChainRuns.Contiguous(r.node) && r.node.head == 1 && r.seed != Expected(chain, mix, 2, d.seed, r.node)
  {
    var c := Call(b, false, GovernanceReadFault, [], None);
    assert [c][..0] == [];
    ChainRuns.CommitResult(chain, d.node, b, false, GovernanceReadFault);
    assert Misses(chain, 2, d, c) && EverMisses(chain, mix, 2, d, [c]);
    SeedAgreesIff(chain, mix, 2, d, [c]);
  }
}
