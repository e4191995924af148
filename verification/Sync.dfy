/**
 Block sync between peers: serving block and header ranges, importing blocks by height, and what a
 client can end up storing whatever the network does to the messages.
 */
module Sync {
  import opened Prelude
  import opened BlockProducer
  import ChainRuns

  const MAX_BLOCK_RANGE: nat := 64
  const MAX_HEADERS_PER_RESP: nat := 192
  const U64_MAX: nat := 0xFFFF_FFFF_FFFF_FFFF

  function SatAdd(a: nat, b: nat): nat {
    Min(a + b, U64_MAX)
  }

  lemma {:induction false} SatAddIs(a: nat, b: nat)
    ensures SatAdd(a, b) == if a + b <= 0xFFFF_FFFF_FFFF_FFFF then a + b else 0xFFFF_FFFF_FFFF_FFFF
  {
  }

  // ---------------------------------------------------------------------------
  // Serving
  // ---------------------------------------------------------------------------

  ghost predicate StoredAt(blocks: map<nat, Block>, height: int, b: Block) {
    height in blocks && blocks[height] == b
  }

  ghost predicate HeaderAt(blocks: map<nat, Block>, height: int, header: Header) {
    height in blocks && blocks[height].header == header
  }

  /** `reply` is what is stored at `from, from + 1, …`, stopping at the first gap and before `end`. */
  ghost predicate IsRange(blocks: map<nat, Block>, from: nat, end: nat, reply: seq<Block>) {
    && (forall i | 0 <= i < |reply| :: StoredAt(blocks, from + i, reply[i]))
    && (reply == [] || from + |reply| <= end)
    && (from + |reply| >= end || from + |reply| !in blocks)
  }

  method ServeBlockRange(blocks: map<nat, Block>, from: nat, to: nat) returns (reply: seq<Block>)
    ensures IsRange(blocks, from, Min(to, SatAdd(from, MAX_BLOCK_RANGE - 1)) + 1, reply)
    ensures |reply| <= 64
  {
    var last := Min(to, SatAdd(from, MAX_BLOCK_RANGE - 1));
    reply := [];
    var n := from;
    while n <= last
      invariant n == from + |reply|
      invariant reply == [] || n <= last + 1
      invariant forall i | 0 <= i < |reply| :: StoredAt(blocks, from + i, reply[i])
      decreases last + 1 - n
    {
      if n !in blocks { break; }
      reply := reply + [blocks[n]];
      n := n + 1;
    }
  }

  ghost predicate IsForward(blocks: map<nat, Block>, from: nat, count: nat, headers: seq<Header>) {
    && (forall i | 0 <= i < |headers| :: HeaderAt(blocks, from + i, headers[i]))
    && (headers == [] || from + |headers| <= SatAdd(from, count))
    && (from + |headers| >= SatAdd(from, count) || from + |headers| !in blocks)
  }

  ghost predicate IsReverse(blocks: map<nat, Block>, from: nat, count: nat, headers: seq<Header>) {
    && |headers| <= count && |headers| <= from + 1
    && (forall i | 0 <= i < |headers| :: HeaderAt(blocks, from - i, headers[i]))
    && (|headers| == count || |headers| == from + 1 || from - |headers| !in blocks)
  }

  method ServeHeaders(blocks: map<nat, Block>, from: nat, requested: nat, reverse: bool) returns (headers: seq<Header>)
    ensures !reverse ==> IsForward(blocks, from, Min(requested, 192), headers)
    ensures reverse ==> IsReverse(blocks, from, Min(requested, 192), headers)
  {
    var count := Min(requested, MAX_HEADERS_PER_RESP);
    headers := [];
    if reverse {
      var n := from;
      for k := 0 to count
        invariant |headers| == k && n == from - k
        invariant forall i | 0 <= i < |headers| :: HeaderAt(blocks, from - i, headers[i])
      {
        if n !in blocks { return; }
        headers := headers + [blocks[n].header];
        if n == 0 { return; }
        n := n - 1;
      }
    } else {
      var n := from;
      while n < SatAdd(from, count)
        invariant n == from + |headers|
        invariant headers == [] || n <= SatAdd(from, count)
        invariant forall i | 0 <= i < |headers| :: HeaderAt(blocks, from + i, headers[i])
        decreases SatAdd(from, count) - n
      {
        if n !in blocks { break; }
        headers := headers + [blocks[n].header];
        n := n + 1;
      }
    }
  }

  function Reversed<T>(s: seq<T>): (r: seq<T>)
    ensures |r| == |s|
    ensures forall i | 0 <= i < |s| :: r[i] == s[|s| - 1 - i]
  {
    seq(|s|, i requires 0 <= i < |s| => s[|s| - 1 - i])
  }

  /**
   The two directions agree: read backwards, a forward reply is the reverse reply from its last
   height, and asking for more only extends it below the starting height.
   */
  lemma {:induction false} ForwardReverseAgree(blocks: map<nat, Block>, from: nat, count: nat, more: nat,
                            forward: seq<Header>, backward: seq<Header>)
    requires IsForward(blocks, from, count, forward) && forward != []
    requires more >= |forward|
    requires IsReverse(blocks, from + |forward| - 1, more, backward)
    ensures Reversed(forward) <= backward
    ensures more == |forward| ==> Reversed(forward) == backward
  {
    var last := from + |forward| - 1;
    forall h | from <= h <= last ensures h in blocks {
      assert HeaderAt(blocks, from + (h - from), forward[h - from]);
    }
    assert |backward| >= |forward|;
    forall i | 0 <= i < |forward| ensures backward[i] == Reversed(forward)[i] {
      assert HeaderAt(blocks, last - i, backward[i]);
      assert HeaderAt(blocks, from + (|forward| - 1 - i), forward[|forward| - 1 - i]);
    }
  }

  // ---------------------------------------------------------------------------
  // Importing
  // ---------------------------------------------------------------------------

  /** The `Blocks` arm: import in order, skip what is not next, stop at the first failure. */
  function ImportBatch(chain: Chain, n: Node, blocks: seq<Block>, faults: seq<Fault>): Node
    requires |faults| == |blocks|
    decreases |blocks|
  {
    if blocks == [] then n
    else if blocks[0].header.number != n.head + 1 then ImportBatch(chain, n, blocks[1..], faults[1..])
    else
      var n' := Commit(chain, n, blocks[0], false, faults[0]);
      if Succeeds(chain, n, blocks[0], false, faults[0]) then ImportBatch(chain, n', blocks[1..], faults[1..]) else n'
  }

  method ImportBlocks(p: Producer, chain: Chain, blocks: seq<Block>, faults: seq<Fault>)
    requires |faults| == |blocks|
    modifies p
    ensures p.View() == ImportBatch(chain, old(p.View()), blocks, faults)
  {
    for i := 0 to |blocks|
      invariant ImportBatch(chain, p.View(), blocks[i..], faults[i..])
             == ImportBatch(chain, old(p.View()), blocks, faults)
    {
      assert blocks[i..][0] == blocks[i] && blocks[i..][1..] == blocks[i + 1..] && faults[i..][1..] == faults[i + 1..];
      if blocks[i].header.number == p.head + 1 {
        var r := p.ExecuteAndCommit(chain, blocks[i], false, faults[i]);
        if r.Rejected? { return; }
      }
    }
  }

  /** A batch is its first part, then, if all of that went through, the rest. */
  predicate AllThrough(chain: Chain, n: Node, blocks: seq<Block>, faults: seq<Fault>)
    requires |faults| == |blocks|
    decreases |blocks|
  {
    blocks == []
    || (if blocks[0].header.number != n.head + 1 then AllThrough(chain, n, blocks[1..], faults[1..])
        else Succeeds(chain, n, blocks[0], false, faults[0])
             && AllThrough(chain, Commit(chain, n, blocks[0], false, faults[0]), blocks[1..], faults[1..]))
  }

  lemma {:induction false} BatchSplits(chain: Chain, n: Node, a: seq<Block>, fa: seq<Fault>, b: seq<Block>,
                                       fb: seq<Fault>)
    requires |fa| == |a| && |fb| == |b|
    ensures ImportBatch(chain, n, a + b, fa + fb)
         == if AllThrough(chain, n, a, fa) then ImportBatch(chain, ImportBatch(chain, n, a, fa), b, fb)
            else ImportBatch(chain, n, a, fa)
    decreases |a|
  {
    if a == [] {
      assert a + b == b && fa + fb == fb;
    } else {
      assert (a + b)[0] == a[0] && (a + b)[1..] == a[1..] + b;
      assert (fa + fb)[0] == fa[0] && (fa + fb)[1..] == fa[1..] + fb;
      if a[0].header.number != n.head + 1 {
        BatchSplits(chain, n, a[1..], fa[1..], b, fb);
      } else {
        BatchSplits(chain, Commit(chain, n, a[0], false, fa[0]), a[1..], fa[1..], b, fb);
      }
    }
  }

  /**
   Wherever in a batch it stands, a block that is not next when its turn comes makes no difference: it is
   neither imported nor does it end the batch.
   */
  lemma {:induction false} OthersSkipped(chain: Chain, n: Node, a: seq<Block>, fa: seq<Fault>, skip: Block, f: Fault,
                                         b: seq<Block>, fb: seq<Fault>)
    requires |fa| == |a| && |fb| == |b| && skip.header.number != ImportBatch(chain, n, a, fa).head + 1
    ensures ImportBatch(chain, n, a + [skip] + b, fa + [f] + fb) == ImportBatch(chain, n, a + b, fa + fb)
  {
    assert a + [skip] + b == a + ([skip] + b) && fa + [f] + fb == fa + ([f] + fb);
    BatchSplits(chain, n, a, fa, [skip] + b, [f] + fb);
    BatchSplits(chain, n, a, fa, b, fb);
    assert ([skip] + b)[1..] == b && ([f] + fb)[1..] == fb;
  }

  /** The block after an import that went well is committed without a validator set; a failure ends the batch there. */
  lemma {:induction false} NextImported(chain: Chain, n: Node, next: Block, f: Fault, b: seq<Block>, fb: seq<Fault>)
    requires |fb| == |b| && next.header.number == n.head + 1
    ensures ImportBatch(chain, n, [next] + b, [f] + fb)
         == if Succeeds(chain, n, next, false, f) then ImportBatch(chain, Commit(chain, n, next, false, f), b, fb)
            else Commit(chain, n, next, false, f)
  {
    assert ([next] + b)[1..] == b && ([f] + fb)[1..] == fb;
  }

  // ---------------------------------------------------------------------------
  // Replica safety
  // ---------------------------------------------------------------------------

  /** A block without the five header fields execution fills in. */
  function Unpatched(b: Block): Block {
    b.(header := b.header.(gasUsed := 0, stateRoot := 0, transactionsRoot := 0, receiptsRoot := 0, logsBloom := 0))
  }

  /** Whatever is delivered, each delivered block is one the server stores at its number. */
  ghost predicate FromServer(server: map<nat, Block>, blocks: seq<Block>) {
    forall i | 0 <= i < |blocks| :: StoredAt(server, blocks[i].header.number, blocks[i])
  }

  /** The client stores, up to its head, the server's blocks apart from execution results. */
  ghost predicate Prefix(n: Node, server: map<nat, Block>) {
    && ChainRuns.Contiguous(n)
    && forall h: nat | h <= n.head :: h in server && Unpatched(n.blocks[h]) == Unpatched(server[h])
  }

  lemma {:induction false} BatchKeepsPrefix(chain: Chain, n: Node, server: map<nat, Block>,
                                            blocks: seq<Block>, faults: seq<Fault>)
    requires |faults| == |blocks| && FromServer(server, blocks) && Prefix(n, server)
    ensures Prefix(ImportBatch(chain, n, blocks, faults), server)
    decreases |blocks|
  {
    if blocks != [] {
      if blocks[0].header.number == n.head + 1 {
        ChainRuns.CommitBlocks(chain, n, blocks[0], false, faults[0]);
        var n' := Commit(chain, n, blocks[0], false, faults[0]);
        assert Prefix(n', server);
        BatchKeepsPrefix(chain, n', server, blocks[1..], faults[1..]);
      } else {
        BatchKeepsPrefix(chain, n, server, blocks[1..], faults[1..]);
      }
    }
  }

  /** A delivered message with the storage faults that strike while it is handled. */
  datatype Delivery = Delivery(blocks: seq<Block>, faults: seq<Fault>)

  function Deliver(chain: Chain, n: Node, ds: seq<Delivery>): Node
    requires forall i | 0 <= i < |ds| :: |ds[i].faults| == |ds[i].blocks|
    decreases |ds|
  {
    if ds == [] then n
    else ImportBatch(chain, Deliver(chain, n, ds[..|ds| - 1]), ds[|ds| - 1].blocks, ds[|ds| - 1].faults)
  }

  /**
   Replica safety: however messages from one server are lost, duplicated, reordered or batched, and
   whatever storage faults strike, the client's headers (before execution) and bodies are a prefix
   of the server's.
   */
  lemma {:induction false} ReplicaSafety(chain: Chain, n: Node, server: map<nat, Block>, ds: seq<Delivery>)
    requires Prefix(n, server)
    requires forall i | 0 <= i < |ds| :: |ds[i].faults| == |ds[i].blocks| && FromServer(server, ds[i].blocks)
    ensures Prefix(Deliver(chain, n, ds), server)
    decreases |ds|
  {
    if ds != [] {
      ReplicaSafety(chain, n, server, ds[..|ds| - 1]);
      BatchKeepsPrefix(chain, Deliver(chain, n, ds[..|ds| - 1]), server, ds[|ds| - 1].blocks, ds[|ds| - 1].faults);
    }
  }

  // ---------------------------------------------------------------------------
  // Equal states
  // ---------------------------------------------------------------------------

  /** The server's node after each height, grown one committed candidate at a time. */
  ghost predicate History(chain: Chain, srv: seq<Node>, cands: seq<Block>, staked: bool) {
    && |srv| == |cands| + 1
    && (forall h | 0 <= h < |srv| :: AtHeight(srv[h], h))
    && (forall h | 0 <= h < |cands| :: Grows(chain, srv[h], cands[h], staked, srv[h + 1]))
  }

  ghost predicate AtHeight(n: Node, h: nat) {
    ChainRuns.Contiguous(n) && n.head == h
  }

  ghost predicate Grows(chain: Chain, n: Node, cand: Block, staked: bool, n': Node) {
    && cand.header.number == n.head + 1
    && Succeeds(chain, n, cand, staked, NoFault)
    && n' == Commit(chain, n, cand, staked, NoFault)
  }

  /** Two executions write the same accounts, nodes and header commitments. */
  ghost predicate SameEffect(x: Exec, y: Exec) {
    && x.gasUsed == y.gasUsed && x.stateRoot == y.stateRoot && x.transactionsRoot == y.transactionsRoot
    && x.receiptsRoot == y.receiptsRoot && x.logsBloom == y.logsBloom
    && x.diff == y.diff && x.nodes == y.nodes
  }

  /**
   The client's executor, run on the sealed block without a validator set, does at height `h + 1`
   what the server's did on the candidate.
   */
  ghost predicate ExecutorsAgree(chain: Chain, srv: seq<Node>, cands: seq<Block>, staked: bool, h: nat)
    requires History(chain, srv, cands, staked) && h < |cands|
  {
    var x := Run(chain, srv[h], cands[h], staked);
    && x.Some?
    && var y := Execute(chain, srv[h].accounts, srv[h].nodes, None, Patch(cands[h], x.value));
       y.Some? && SameEffect(x.value, y.value)
  }

  ghost predicate AlwaysAgree(chain: Chain, srv: seq<Node>, cands: seq<Block>, staked: bool) {
    History(chain, srv, cands, staked)
    && forall h | 0 <= h < |cands| :: ExecutorsAgree(chain, srv, cands, staked, h)
  }

  /** The client holds exactly the server's chain and world state at its own height. */
  ghost predicate InSync(n: Node, srv: seq<Node>) {
    && ChainRuns.Contiguous(n) && n.head < |srv|
    && n.accounts == srv[n.head].accounts && n.nodes == srv[n.head].nodes
    && n.blocks == srv[n.head].blocks
  }

  /** Faults that strike before the first write or after the block is durable. */
  predicate LeavesNoPartialWrite(f: Fault) {
    match f
    case AccountFault(k) => k == 0
    case FlushFault => false
    case BlockFault => false
    case _ => true
  }

  lemma {:induction false} ServerStep(chain: Chain, srv: seq<Node>, cands: seq<Block>, staked: bool, h: nat)
    requires History(chain, srv, cands, staked) && h < |cands|
    ensures Run(chain, srv[h], cands[h], staked).Some?
    ensures var x := Run(chain, srv[h], cands[h], staked).value;
            && srv[h + 1].blocks == srv[h].blocks[h + 1 := Patch(cands[h], x)]
            && srv[h + 1].accounts == ChainRuns.PutAll(srv[h].accounts, x.diff)
            && srv[h + 1].nodes == srv[h].nodes + x.nodes
  {
    assert Grows(chain, srv[h], cands[h], staked, srv[h + 1]) && AtHeight(srv[h], h);
    ChainRuns.CommitResult(chain, srv[h], cands[h], staked, NoFault);
  }

  /** A sealed block that execution reproduces: stored whole, or nothing changes. */
  lemma {:induction false} Replay(chain: Chain, n: Node, b: Block, y: Exec, f: Fault)
    requires Run(chain, n, b, false) == Some(y) && Patch(b, y) == b && b.header.number == n.head + 1
    requires LeavesNoPartialWrite(f)
    ensures var r := Commit(chain, n, b, false, f);
            || (!f.NoFault? && r.head == n.head && r.blocks == n.blocks && r.accounts == n.accounts
                && r.nodes == n.nodes)
            || (&& r.head == n.head + 1 && r.blocks == n.blocks[n.head + 1 := b]
                && r.accounts == ChainRuns.PutAll(n.accounts, y.diff) && r.nodes == n.nodes + y.nodes)
    ensures f.NoFault? ==> Succeeds(chain, n, b, false, f)
  {
    ChainRuns.CommitResult(chain, n, b, false, f);
  }

  /** Importing the server's next block keeps a synced client synced, one height further or not at all. */
  lemma {:induction false} ImportKeepsSync(chain: Chain, srv: seq<Node>, cands: seq<Block>, staked: bool, n: Node,
                                           f: Fault)
    requires History(chain, srv, cands, staked) && InSync(n, srv) && n.head < |cands|
    requires ExecutorsAgree(chain, srv, cands, staked, n.head) && LeavesNoPartialWrite(f)
    ensures var b := srv[n.head + 1].blocks[n.head + 1];
            var r := Commit(chain, n, b, false, f);
            && InSync(r, srv)
            && n.head <= r.head <= n.head + 1
            && (f.NoFault? ==> r.head == n.head + 1 && Succeeds(chain, n, b, false, f))
  {
    var h := n.head;
    ServerStep(chain, srv, cands, staked, h);
    var x := Run(chain, srv[h], cands[h], staked).value;
    var b := srv[h + 1].blocks[h + 1];
    assert b == Patch(cands[h], x);
    assert Grows(chain, srv[h], cands[h], staked, srv[h + 1]) && AtHeight(srv[h], h);
    var run := Run(chain, n, b, false);
    assert run == Execute(chain, srv[h].accounts, srv[h].nodes, None, b);
    Replay(chain, n, b, run.value, f);
    assert AtHeight(srv[h + 1], h + 1);
  }

  ghost predicate Benign(ds: seq<Delivery>) {
    forall i | 0 <= i < |ds| ::
      |ds[i].faults| == |ds[i].blocks| && forall k | 0 <= k < |ds[i].faults| :: LeavesNoPartialWrite(ds[i].faults[k])
  }

  /** A further block leaves the earlier ones as they are. */
  lemma {:induction false} ServerKeeps(chain: Chain, srv: seq<Node>, cands: seq<Block>, staked: bool, h: nat, k: nat)
    requires History(chain, srv, cands, staked) && h <= k < |cands| && h in srv[k].blocks
    ensures h in srv[k + 1].blocks && srv[k + 1].blocks[h] == srv[k].blocks[h]
  {
    ServerStep(chain, srv, cands, staked, k);
  }

  lemma {:induction false} HistoryStable(chain: Chain, srv: seq<Node>, cands: seq<Block>, staked: bool, h: nat, k: nat)
    requires History(chain, srv, cands, staked) && h <= k < |srv|
    ensures h in srv[h].blocks && h in srv[k].blocks && srv[k].blocks[h] == srv[h].blocks[h]
    decreases k - h
  {
    assert AtHeight(srv[h], h);
    if h < k {
      HistoryStable(chain, srv, cands, staked, h, k - 1);
      ServerKeeps(chain, srv, cands, staked, h, k - 1);
    }
  }

  /** A delivered block that is next for the client is the block the server sealed at that height. */
  lemma {:induction false} NextBlock(chain: Chain, srv: seq<Node>, cands: seq<Block>, staked: bool, n: Node, b: Block)
    requires History(chain, srv, cands, staked) && InSync(n, srv)
    requires StoredAt(srv[|srv| - 1].blocks, b.header.number, b) && b.header.number == n.head + 1
    ensures n.head < |cands| && StoredAt(srv[n.head + 1].blocks, n.head + 1, b)
  {
    assert AtHeight(srv[|srv| - 1], |srv| - 1);
    HistoryStable(chain, srv, cands, staked, n.head + 1, |srv| - 1);
  }

  lemma {:induction false} BatchKeepsSync(chain: Chain, srv: seq<Node>, cands: seq<Block>, staked: bool, n: Node,
                                          blocks: seq<Block>, faults: seq<Fault>)
    requires AlwaysAgree(chain, srv, cands, staked) && InSync(n, srv)
    requires FromServer(srv[|srv| - 1].blocks, blocks)
    requires |faults| == |blocks| && forall k | 0 <= k < |faults| :: LeavesNoPartialWrite(faults[k])
    ensures InSync(ImportBatch(chain, n, blocks, faults), srv)
    decreases |blocks|
  {
    if blocks != [] {
      if blocks[0].header.number == n.head + 1 {
        NextBlock(chain, srv, cands, staked, n, blocks[0]);
        ImportKeepsSync(chain, srv, cands, staked, n, faults[0]);
        var n' := Commit(chain, n, blocks[0], false, faults[0]);
        BatchKeepsSync(chain, srv, cands, staked, n', blocks[1..], faults[1..]);
      } else {
        BatchKeepsSync(chain, srv, cands, staked, n, blocks[1..], faults[1..]);
      }
    }
  }

  /**
   State replication: if the executors agree on the server's blocks and no fault leaves a partial
   write, the client's sealed headers, accounts and trie nodes are always the server's at that height.
   */
  lemma {:induction false} StateReplication(chain: Chain, srv: seq<Node>, cands: seq<Block>, staked: bool, n: Node,
                                            ds: seq<Delivery>)
    requires AlwaysAgree(chain, srv, cands, staked) && InSync(n, srv)
    requires Benign(ds)
    requires forall i | 0 <= i < |ds| :: FromServer(srv[|srv| - 1].blocks, ds[i].blocks)
    ensures InSync(Deliver(chain, n, ds), srv)
    decreases |ds|
  {
    if ds != [] {
      StateReplication(chain, srv, cands, staked, n, ds[..|ds| - 1]);
      BatchKeepsSync(chain, srv, cands, staked, Deliver(chain, n, ds[..|ds| - 1]),
                     ds[|ds| - 1].blocks, ds[|ds| - 1].faults);
    }
  }

  /**
   Import never compares the execution results with the ones in the received header: the block is
   stored as sent exactly when the client's own execution reproduces them.
   */
  lemma {:induction false} StoredAsSentIff(chain: Chain, n: Node, b: Block, y: Exec)
    requires Run(chain, n, b, false) == Some(y) && b.header.number == n.head + 1
    ensures Succeeds(chain, n, b, false, NoFault)
    ensures StoredAt(Commit(chain, n, b, false, NoFault).blocks, n.head + 1, b) <==>
            && y.gasUsed == b.header.gasUsed && y.stateRoot == b.header.stateRoot
            && y.transactionsRoot == b.header.transactionsRoot && y.receiptsRoot == b.header.receiptsRoot
            && y.logsBloom == b.header.logsBloom
  {
    ChainRuns.CommitResult(chain, n, b, false, NoFault);
  }

  // ---------------------------------------------------------------------------
  // One sync exchange
  // ---------------------------------------------------------------------------

  /** The range a peer asks for when the handshake shows it is behind by at least two blocks. */
  function HandshakeRequest(local: nat, best: nat): Option<(nat, nat)> {
    if best > local + 1 then Some((local + 1, Min(local + MAX_BLOCK_RANGE, best))) else None
  }

  /** A peer behind by one block or none asks for nothing. */
  lemma {:induction false} AsksIff(local: nat, best: nat)
    ensures HandshakeRequest(local, best).Some? <==> best >= local + 2
    ensures best >= local + 2 ==>
              var (from, to) := HandshakeRequest(local, best).value;
              from == local + 1 && to == (if best <= local + 64 then best else local + 64)
  {
  }

  ghost predicate Faultless(faults: seq<Fault>) {
    forall k | 0 <= k < |faults| :: faults[k] == NoFault
  }

  lemma {:induction false} FirstIsNext(chain: Chain, srv: seq<Node>, cands: seq<Block>, staked: bool, n: Node, b: Block)
    requires History(chain, srv, cands, staked) && InSync(n, srv)
    requires StoredAt(srv[|srv| - 1].blocks, n.head + 1, b)
    ensures b.header.number == n.head + 1
    ensures n.head < |cands| && StoredAt(srv[n.head + 1].blocks, n.head + 1, b)
  {
    assert AtHeight(srv[|srv| - 1], |srv| - 1);
    NextBlock(chain, srv, cands, staked, n, b);
  }

  /** `blocks` is what the server stores from height `from` on. */
  ghost predicate Stretch(server: map<nat, Block>, from: nat, blocks: seq<Block>) {
    forall i | 0 <= i < |blocks| :: StoredAt(server, from + i, blocks[i])
  }

  lemma {:induction false} StretchTail(server: map<nat, Block>, from: nat, blocks: seq<Block>)
    requires Stretch(server, from, blocks) && blocks != []
    ensures StoredAt(server, from, blocks[0]) && Stretch(server, from + 1, blocks[1..])
  {
    assert StoredAt(server, from + 0, blocks[0]);
    forall i | 0 <= i < |blocks| - 1 ensures StoredAt(server, from + 1 + i, blocks[1..][i]) {
      assert StoredAt(server, from + (i + 1), blocks[i + 1]);
    }
  }

  /** Importing the first block of a contiguous reply moves a synced client up by one. */
  lemma {:induction false} ImportFirst(chain: Chain, srv: seq<Node>, cands: seq<Block>, staked: bool, n: Node,
                                       blocks: seq<Block>, faults: seq<Fault>)
    returns (n': Node)
    requires AlwaysAgree(chain, srv, cands, staked) && InSync(n, srv)
    requires blocks != [] && StoredAt(srv[|srv| - 1].blocks, n.head + 1, blocks[0])
    requires |faults| == |blocks| && faults[0] == NoFault
    ensures InSync(n', srv) && n'.head == n.head + 1
    ensures ImportBatch(chain, n, blocks, faults) == ImportBatch(chain, n', blocks[1..], faults[1..])
  {
    n' := Commit(chain, n, blocks[0], false, NoFault);
    FirstIsNext(chain, srv, cands, staked, n, blocks[0]);
    ImportKeepsSync(chain, srv, cands, staked, n, NoFault);
  }

  lemma {:induction false} ContiguousImport(chain: Chain, srv: seq<Node>, cands: seq<Block>, staked: bool, n: Node,
                                            blocks: seq<Block>, faults: seq<Fault>)
    requires AlwaysAgree(chain, srv, cands, staked) && InSync(n, srv)
    requires Stretch(srv[|srv| - 1].blocks, n.head + 1, blocks)
    requires |faults| == |blocks| && Faultless(faults)
    ensures var r := ImportBatch(chain, n, blocks, faults);
            InSync(r, srv) && r.head == n.head + |blocks|
    decreases |blocks|
  {
    if blocks != [] {
      StretchTail(srv[|srv| - 1].blocks, n.head + 1, blocks);
      var n' := ImportFirst(chain, srv, cands, staked, n, blocks, faults);
      ContiguousImport(chain, srv, cands, staked, n', blocks[1..], faults[1..]);
    }
  }

  /** Request, reply and batch import compose: the client advances by exactly min(64, gap). */
  lemma {:induction false} SyncExchange(chain: Chain, srv: seq<Node>, cands: seq<Block>, staked: bool, n: Node,
                                        reply: seq<Block>, faults: seq<Fault>)
    requires AlwaysAgree(chain, srv, cands, staked) && InSync(n, srv)
    requires |srv| - 1 <= U64_MAX && |faults| == |reply| && Faultless(faults)
    requires |srv| - 1 >= n.head + 2
    requires var req := HandshakeRequest(n.head, |srv| - 1);
             req.Some? ==> IsRange(srv[|srv| - 1].blocks, req.value.0,
                                   Min(req.value.1, SatAdd(req.value.0, MAX_BLOCK_RANGE - 1)) + 1, reply)
    ensures HandshakeRequest(n.head, |srv| - 1).Some?
    ensures var r := ImportBatch(chain, n, reply, faults);
            InSync(r, srv) && r.head == n.head + Min(64, |srv| - 1 - n.head)
  {
    var best := |srv| - 1;
    var end := Min(n.head + MAX_BLOCK_RANGE, best) + 1;
    assert AtHeight(srv[best], best);
    assert n.head + 1 + |reply| == end;
    ContiguousImport(chain, srv, cands, staked, n, reply, faults);
  }
}
