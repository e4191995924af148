/**
 Whole commits as runs of their storage calls, and the interleavings that lose a state.
 */
module PrunerRaces {
  import opened Prelude
  import opened BlockProducer
  import opened Pruner
  import opened PrunerRuns
  import ChainRuns
  import Governance

  // ---------------------------------------------------------------------------
  // An uninterrupted commit
  // ---------------------------------------------------------------------------

  lemma {:induction false} ReachesJoin(w: World, s: Sys, es: seq<Event>, t: Sys, fs: seq<Event>, u: Sys)
    requires Reaches(w, s, es, t) && Reaches(w, t, fs, u)
    ensures Reaches(w, s, es + fs, u)
    decreases |es|
  {
    if es == [] {
      assert es + fs == fs;
    } else {
      ReachesJoin(w, Step(w, s, es[0]), es[1..], t, fs, u);
      assert (es + fs)[0] == es[0] && (es + fs)[1..] == es[1..] + fs;
    }
  }

  lemma {:induction false} ReachesOne(w: World, s: Sys, e: Event)
    requires Enabled(w, s, e)
    ensures Reaches(w, s, [e], Step(w, s, e))
  {
    assert [e][1..] == [];
  }

  function Writes(k: nat): seq<Event> {
    seq(k, _ => Write)
  }

  /** The job after `at` effects. */
  function Done(j: Job, at: nat): Option<Job> {
    Some(j.(at := at, held := true))
  }

  /** From its `i`-th effect to its `k`-th a commit that is left alone just applies them. */
  lemma {:induction false} WritesReach(w: World, s: Sys, n: Node, j: Job, i: nat, k: nat)
    requires i <= k <= |Effects(j)| && s.job == Done(j, i) && s.node == ApplyAll(n, Effects(j)[..i])
    ensures Reaches(w, s, Writes(k - i), s.(node := ApplyAll(n, Effects(j)[..k]), job := Done(j, k)))
    decreases k - i
  {
    if i == k {
      assert Writes(0) == [];
    } else {
      var es := Effects(j);
      assert Effects(s.job.value) == es;
      assert es[..i + 1] == es[..i] + [es[i]];
      ApplyLast(n, es[..i], es[i]);
      WritesReach(w, Step(w, s, Write), n, j, i + 1, k);
      assert Writes(k - i)[0] == Write && Writes(k - i)[1..] == Writes(k - i - 1);
    }
  }

  /** Execute, check the head, take the guard and perform the first `k` effects. */
  function Part(k: nat, b: Block, staked: bool, f: Fault): seq<Event> {
    [Begin(b, staked, f), Guard] + Writes(k)
  }

  lemma {:induction false} PartReaches(w: World, s: Sys, b: Block, staked: bool, f: Fault, k: nat)
    requires s.job.None? && !s.phase.Sweeping? && b.header.number > 0 && Admitted(w.chain, s.node, b, staked)
    requires k <= |Effects(Started(w.chain, s.node, b, staked, f))|
    ensures var j := Started(w.chain, s.node, b, staked, f);
            Reaches(w, s, Part(k, b, staked, f), s.(node := ApplyAll(s.node, Effects(j)[..k]), job := Done(j, k)))
  {
    var j := Started(w.chain, s.node, b, staked, f);
    var s1, s2 := s.(job := Some(j)), s.(job := Done(j, 0));
    ReachesOne(w, s, Begin(b, staked, f));
    ReachesOne(w, s1, Guard);
    ReachesJoin(w, s, [Begin(b, staked, f)], s1, [Guard], s2);
    assert [Begin(b, staked, f)] + [Guard] == [Begin(b, staked, f), Guard];
    assert Effects(j)[..0] == [];
    WritesReach(w, s2, s.node, j, 0, k);
    ReachesJoin(w, s, [Begin(b, staked, f), Guard], s2, Writes(k),
                s.(node := ApplyAll(s.node, Effects(j)[..k]), job := Done(j, k)));
  }

  /** The commit stores its block, and a staking or governance fault strikes afterwards. */
  predicate Late(chain: Chain, n: Node, b: Block, staked: bool, f: Fault) {
    Admitted(chain, n, b, staked)
    && ChainRuns.StrikesLate(f, n, Run(chain, n, b, staked).value, b.header.number)
  }

  /** The state a whole commit leaves. */
  function Committed(w: World, s: Sys, b: Block, staked: bool, f: Fault): Sys {
    s.(node := Commit(w.chain, s.node, b, staked, f),
       missed := s.missed + if Late(w.chain, s.node, b, staked, f) then {b.header.number} else {})
  }

  function WholeCommit(w: World, s: Sys, b: Block, staked: bool, f: Fault): seq<Event> {
    if Admitted(w.chain, s.node, b, staked)
    then Part(|Effects(Started(w.chain, s.node, b, staked, f))|, b, staked, f) + [End]
    else [Begin(b, staked, f)]
  }

  /** Left alone, the storage calls of a commit add up to the commit pipeline. */
  lemma {:induction false} WholeCommitReaches(w: World, s: Sys, b: Block, staked: bool, f: Fault)
    requires s.job.None? && !s.phase.Sweeping? && b.header.number > 0
    ensures Reaches(w, s, WholeCommit(w, s, b, staked, f), Committed(w, s, b, staked, f))
  {
    if Admitted(w.chain, s.node, b, staked) {
      var j := Started(w.chain, s.node, b, staked, f);
      var k := |Effects(j)|;
      var t := s.(node := ApplyAll(s.node, Effects(j)[..k]), job := Done(j, k));
      assert Effects(j)[..k] == Effects(j) == Trace(w.chain, s.node, b, staked, f);
      PartReaches(w, s, b, staked, f, k);
      assert Effects(t.job.value) == Effects(j);
      ReachesOne(w, t, End);
      ReachesJoin(w, s, Part(k, b, staked, f), t, [End], Committed(w, s, b, staked, f));
    } else {
      ReachesOne(w, s, Begin(b, staked, f));
    }
  }

  /** A commit stores its block and lists it, stores it only, or leaves chain and list alone. */
  lemma {:induction false} CommitEffect(chain: Chain, n: Node, b: Block, staked: bool, f: Fault)
    requires b.header.number > 0
    ensures var r := Commit(chain, n, b, staked, f);
            if Succeeds(chain, n, b, staked, f) || Late(chain, n, b, staked, f) then
              var x := Run(chain, n, b, staked).value;
              && r.head == n.head + 1 && r.blocks == n.blocks[r.head := Patch(b, x)] && r.nodes == n.nodes + x.nodes
              && r.retained == if Late(chain, n, b, staked, f) then n.retained else n.retained + [(r.head, x.stateRoot)]
            else r.head == n.head && r.blocks == n.blocks && n.nodes <= r.nodes && r.retained == n.retained
  {
    ChainRuns.CommitResult(chain, n, b, staked, f);
  }


  // ---------------------------------------------------------------------------
  // A commit between mark and lock
  // ---------------------------------------------------------------------------

  /** The lock is taken and every unmarked node deleted. */
  function SweptOut(w: World, s: Sys): Sys
    requires s.phase.Marked?
  {
    Step(w, Step(w, s, Lock), Delete(s.node.nodes * s.phase.live))
  }

  lemma {:induction false} SweptOutReaches(w: World, s: Sys)
    requires s.phase.Marked? && !Held(s)
    ensures Reaches(w, s, [Lock, Delete(s.node.nodes * s.phase.live)], SweptOut(w, s))
  {
    var s1 := Step(w, s, Lock);
    ReachesOne(w, s, Lock);
    ReachesOne(w, s1, Delete(s.node.nodes * s.phase.live));
    ReachesJoin(w, s, [Lock], s1, [Delete(s.node.nodes * s.phase.live)], SweptOut(w, s));
  }

  /** A complete sweep keeps the head's state exactly when its root is marked. */
  lemma {:induction false} HeadKeptIff(w: World, s: Sys)
    requires s.phase.Marked? && Closed(w.trie, s.node.nodes, s.phase.live) && s.node.head in s.node.blocks
    ensures HeadComplete(w, SweptOut(w, s).node) <==> In(s.phase.live, s.node.blocks[s.node.head].header.stateRoot)
  {
    LiveComplete(w.trie, s.node.nodes, s.phase.live, s.node.nodes * s.phase.live,
                 s.node.blocks[s.node.head].header.stateRoot);
  }

  /** Every block that commits between mark and sweep with a root that was not marked loses its state. */
  lemma {:induction false} UnmarkedCommitIsLost(w: World, s: Sys, b: Block, staked: bool)
    requires s.phase.Marked? && Closed(w.trie, s.node.nodes, s.phase.live)
    requires b.header.number > 0 && Succeeds(w.chain, s.node, b, staked, NoFault)
    requires !In(s.phase.live, Run(w.chain, s.node, b, staked).value.stateRoot)
    ensures !HeadComplete(w, SweptOut(w, Committed(w, s, b, staked, NoFault)).node)
  {
    var t := Committed(w, s, b, staked, NoFault);
    CommitEffect(w.chain, s.node, b, staked, NoFault);
    LiveStaysClosed(w.trie, s.node.nodes, t.node.nodes, s.phase.live);
    HeadKeptIff(w, t);
  }

  // ---------------------------------------------------------------------------
  // A snapshot between store and push
  // ---------------------------------------------------------------------------

  /** `b` is stored by a commit that will succeed, and not yet pushed. */
  function StoredOnly(w: World, s: Sys, b: Block, staked: bool): Sys
    requires Admitted(w.chain, s.node, b, staked)
  {
    var j := Started(w.chain, s.node, b, staked, NoFault);
    s.(node := ChainRuns.BlockWritten(s.node, j.exec, b, s.node.staking, s.node.validators),
       job := Done(j, |j.exec.diff| + 2))
  }

  lemma {:induction false} StoredOnlyReaches(w: World, s: Sys, b: Block, staked: bool)
    requires s.job.None? && !s.phase.Sweeping? && b.header.number > 0 && Admitted(w.chain, s.node, b, staked)
    ensures var k := |Run(w.chain, s.node, b, staked).value.diff| + 2;
            Reaches(w, s, Part(k, b, staked, NoFault), StoredOnly(w, s, b, staked))
  {
    var j := Started(w.chain, s.node, b, staked, NoFault);
    var k := |j.exec.diff| + 2;
    EffectCount(j);
    PartReaches(w, s, b, staked, NoFault, k);
    ChainRuns.StagesToBlock(s.node, j.exec, b);
    UpToBlockFirst(j);
  }

  lemma {:induction false} UpToBlockFirst(j: Job)
    requires !Fails(j)
    ensures |Effects(j)| >= |j.exec.diff| + 2 && Effects(j)[..|j.exec.diff| + 2] == UpToBlock(j.exec, j.block)
  {
    var mid := PlanParts(j.gov, j.exec, j.block, j.staked);
  }

  /** A cycle reads the head, takes its snapshot and marks. */
  function Cycle(unreadable: set<H256>, live: set<H256>): seq<Event> {
    [Observe, Snap, Mark(unreadable, live)]
  }

  /** The snapshot a cycle takes that starts now. */
  function SnapNow(w: World, s: Sys): Checkpoints {
    Snapshot(s.node.retained, w.retain, s.node.head)
  }

  ghost predicate CanMark(w: World, s: Sys, unreadable: set<H256>, live: set<H256>) {
    && s.phase.Resting? && s.node.head > 0 && SnapNow(w, s) != []
    && IsLiveSet(w.trie, s.node.nodes - unreadable, SnapNow(w, s), live)
  }

  lemma {:induction false} CycleReaches(w: World, s: Sys, unreadable: set<H256>, live: set<H256>)
    requires CanMark(w, s, unreadable, live)
    ensures Reaches(w, s, Cycle(unreadable, live), s.(phase := Marked(SnapNow(w, s), live)))
  {
    var s1, s2 := s.(phase := Observed(s.node.head)), s.(phase := Noted(SnapNow(w, s)));
    var s3 := s.(phase := Marked(SnapNow(w, s), live));
    ReachesOne(w, s, Observe);
    ReachesOne(w, s1, Snap);
    ReachesOne(w, s2, Mark(unreadable, live));
    ReachesJoin(w, s, [Observe], s1, [Snap], s2);
    ReachesJoin(w, s, [Observe] + [Snap], s2, [Mark(unreadable, live)], s3);
    assert [Observe] + [Snap] + [Mark(unreadable, live)] == Cycle(unreadable, live);
  }

  /** The rest of the commit after its block was stored. */
  function Remainder(w: World, s: Sys, b: Block, staked: bool): seq<Event>
    requires Admitted(w.chain, s.node, b, staked)
  {
    var j := Started(w.chain, s.node, b, staked, NoFault);
    Writes(SatSub(|Effects(j)|, |j.exec.diff| + 2)) + [End]
  }

  lemma {:induction false} RemainderReaches(w: World, s: Sys, b: Block, staked: bool, p: Phase)
    requires s.job.None? && b.header.number > 0 && Admitted(w.chain, s.node, b, staked)
    ensures Reaches(w, StoredOnly(w, s, b, staked).(phase := p), Remainder(w, s, b, staked),
                    Committed(w, s, b, staked, NoFault).(phase := p))
  {
    var j := Started(w.chain, s.node, b, staked, NoFault);
    var i, k := |j.exec.diff| + 2, |Effects(j)|;
    var t := StoredOnly(w, s, b, staked).(phase := p);
    UpToBlockFirst(j);
    ChainRuns.StagesToBlock(s.node, j.exec, b);
    WritesReach(w, t, s.node, j, i, k);
    var u := t.(node := ApplyAll(s.node, Effects(j)[..k]), job := Done(j, k));
    assert Effects(j)[..k] == Effects(j) == Trace(w.chain, s.node, b, staked, NoFault);
    assert Effects(u.job.value) == Effects(j);
    ReachesOne(w, u, End);
    ReachesJoin(w, t, Writes(k - i), u, [End], Committed(w, s, b, staked, NoFault).(phase := p));
  }

  /** Store `b`, run a cycle up to its mark, finish the commit, then take the lock and sweep. */
  function MidCommitRun(w: World, s: Sys, b: Block, staked: bool, unreadable: set<H256>, live: set<H256>): seq<Event>
    requires Admitted(w.chain, s.node, b, staked)
  {
    Part(|Run(w.chain, s.node, b, staked).value.diff| + 2, b, staked, NoFault) + Cycle(unreadable, live)
    + Remainder(w, s, b, staked)
    + [Lock, Delete(Commit(w.chain, s.node, b, staked, NoFault).nodes * live)]
  }

  /** The committed state with the mark taken in the middle of the commit. */
  function MidCommitted(w: World, s: Sys, b: Block, staked: bool, live: set<H256>): Sys
    requires Admitted(w.chain, s.node, b, staked)
  {
    Committed(w, s, b, staked, NoFault).(phase := Marked(SnapNow(w, StoredOnly(w, s, b, staked)), live))
  }

  lemma {:induction false} MidCommitReaches(w: World, s: Sys, b: Block, staked: bool, unreadable: set<H256>,
                                            live: set<H256>)
    requires s.job.None? && b.header.number > 0 && Admitted(w.chain, s.node, b, staked)
    requires CanMark(w, StoredOnly(w, s, b, staked), unreadable, live)
    ensures Reaches(w, s, MidCommitRun(w, s, b, staked, unreadable, live),
                    SweptOut(w, MidCommitted(w, s, b, staked, live)))
  {
    var t, u := StoredOnly(w, s, b, staked), MidCommitted(w, s, b, staked, live);
    var p := u.phase;
    var e1 := Part(|Run(w.chain, s.node, b, staked).value.diff| + 2, b, staked, NoFault);
    var e2, e3 := Cycle(unreadable, live), Remainder(w, s, b, staked);
    StoredOnlyReaches(w, s, b, staked);
    CycleReaches(w, t, unreadable, live);
    RemainderReaches(w, s, b, staked, p);
    SweptOutReaches(w, u);
    ReachesJoin(w, s, e1, t, e2, t.(phase := p));
    ReachesJoin(w, s, e1 + e2, t.(phase := p), e3, u);
    ReachesJoin(w, s, e1 + e2 + e3, u, [Lock, Delete(u.node.nodes * live)], SweptOut(w, u));
  }

  /**
   No commit fails and no block is stored after the head was read, yet: if the snapshot is taken between the
   block's store and its push, the next complete sweep keeps the head's state exactly when its root is
   among the nodes of the other listed states.
   */
  lemma {:induction false} MidCommitKeptIff(w: World, s: Sys, b: Block, staked: bool, unreadable: set<H256>,
                                            live: set<H256>)
    requires Tracked(w, s) && s.job.None? && b.header.number > 0 && Admitted(w.chain, s.node, b, staked)
    requires w.retain > 0 && CanMark(w, StoredOnly(w, s, b, staked), unreadable, live)
    ensures var u := MidCommitted(w, s, b, staked, live);
            && Reaches(w, s, MidCommitRun(w, s, b, staked, unreadable, live), SweptOut(w, u))
            && u.node.head == StoredOnly(w, s, b, staked).node.head && u.missed == s.missed
            && !Listed(u.phase.snap, u.node.head)
            && (HeadComplete(w, SweptOut(w, u).node) <==> In(live, Run(w.chain, s.node, b, staked).value.stateRoot))
  {
    var t, u := StoredOnly(w, s, b, staked), MidCommitted(w, s, b, staked, live);
    MidCommitReaches(w, s, b, staked, unreadable, live);
    StoredOnlyReaches(w, s, b, staked);
    WindowAlways(w, s, Part(|Run(w.chain, s.node, b, staked).value.diff| + 2, b, staked, NoFault), t);
    UpToBlockFirst(t.job.value);
    EffectCount(t.job.value);
    assert t.node.head in Between(t);
    SnapshotListed(t.node.retained, w.retain, t.node.head);
    CommitEffect(w.chain, s.node, b, staked, NoFault);
    LiveStaysClosed(w.trie, t.node.nodes - unreadable, u.node.nodes, live);
    HeadKeptIff(w, u);
  }

  // ---------------------------------------------------------------------------
  // A block that never reached the list
  // ---------------------------------------------------------------------------

  /**
   Without any race: a block struck late keeps its state through the next complete prune cycle exactly
   when its root happens to be among the nodes of listed states.
   */
  lemma {:induction false} LateCommitKeptIff(w: World, s: Sys, b: Block, staked: bool, f: Fault,
                                             unreadable: set<H256>, live: set<H256>)
    requires b.header.number > 0 && Late(w.chain, s.node, b, staked, f)
    requires CanMark(w, Committed(w, s, b, staked, f), unreadable, live)
    ensures var t := Committed(w, s, b, staked, f);
            HeadComplete(w, SweptOut(w, t.(phase := Marked(SnapNow(w, t), live))).node) <==>
            In(live, Run(w.chain, s.node, b, staked).value.stateRoot)
  {
    var t := Committed(w, s, b, staked, f);
    CommitEffect(w.chain, s.node, b, staked, f);
    LiveStaysClosed(w.trie, t.node.nodes - unreadable, t.node.nodes, live);
    HeadKeptIff(w, t.(phase := Marked(SnapNow(w, t), live)));
  }

  // ---------------------------------------------------------------------------
  // Concrete cases
  // ---------------------------------------------------------------------------

  function FlatExec(b: Block): Exec {
    Exec(0, 100 + b.header.number, 0, 0, 0, [], {100 + b.header.number}, [], 0)
  }

  /** Every block has a one-node state, named after its height. */
  function FlatWorld(retain: nat): World {
    World(Chain(h => 0, (a, ns, v, b) => Some(FlatExec(b)), r => {r}), Trie(h => Some([]), h => true), retain)
  }

  function FlatBlock(number: nat, root: H256): Block {
    Block(Header(0, 0, root, 0, 0, 0, number, 0, 0, number, 1, 0, None), [])
  }

  function FlatStart(): Sys {
    Sys(Node(map[], {100, 101}, map[0 := FlatBlock(0, 100), 1 := FlatBlock(1, 101)], 1, [],
             Governance.State(map[], []), 0, {}, [(0, 100), (1, 101)]), Resting, {}, None)
  }

  lemma {:induction false} FlatClosed(w: World, disk: set<H256>, s: set<H256>)
    requires w.trie == FlatWorld(w.retain).trie
    ensures Closed(w.trie, disk, s) <==> s <= disk
  {
    assert forall h :: Refs(w.trie, h) == Some([]);
    if Closed(w.trie, disk, s) {
      forall h | h in s ensures h in disk { assert Settled(w.trie, disk, s, h); }
    }
  }

  lemma {:induction false} FlatComplete(w: World, disk: set<H256>, root: H256)
    requires w.trie == FlatWorld(w.retain).trie
    ensures Complete(w.trie, disk, root) <==> In(disk, root)
  {
    if In(disk, root) {
      FlatClosed(w, disk, disk);
    }
    if Complete(w.trie, disk, root) {
      var s: set<H256> :| In(s, root) && Closed(w.trie, disk, s);
      FlatClosed(w, disk, s);
    }
  }

  lemma {:induction false} FlatStartSound()
    ensures CarriesNodes(FlatWorld(2)) && Sound(FlatWorld(2), FlatStart())
  {
    var w, n := FlatWorld(2), FlatStart().node;
    FlatCarries();
    FlatComplete(w, n.nodes, 100);
    FlatComplete(w, n.nodes, 101);
    assert n.retained[0].0 == 0 && n.retained[1].0 == 1;
    assert Unlisted(FlatStart()) == {} && Covers(n, 0, {});
  }

  lemma {:induction false} FlatCarries()
    ensures CarriesNodes(FlatWorld(2))
  {
    var w := FlatWorld(2);
    forall m: Node, b: Block, staked: bool | Run(w.chain, m, b, staked).Some? && m.head in m.blocks
      ensures Carries(w, m.blocks[m.head].header.stateRoot, Run(w.chain, m, b, staked).value)
    {
      forall disk: set<H256> ensures Complete(w.trie, disk + FlatExec(b).nodes, FlatExec(b).stateRoot) {
        FlatComplete(w, disk + FlatExec(b).nodes, FlatExec(b).stateRoot);
      }
    }
  }

  lemma {:induction false} FlatMark()
    ensures IsLiveSet(FlatWorld(2).trie, {100, 101}, [(0, 100), (1, 101)], {100, 101})
  {
    var w, cps: Checkpoints := FlatWorld(2), [(0, 100), (1, 101)];
    FlatClosed(w, {100, 101}, {100, 101});
    forall s: set<H256> | AllIn(s, cps) ensures {100, 101} <= s {
      assert In(s, cps[0].1) && In(s, cps[1].1);
    }
  }

  lemma {:induction false} FlatSnapshot()
    ensures Snapshot([(0, 100), (1, 101)], 2, 1) == [(0, 100), (1, 101)]
  {
    var cps: Checkpoints := [(0, 100), (1, 101)];
    assert cps[..1] == [(0, 100)] && cps[..1][..0] == [];
    assert Snapshot([], 2, 1) == [];
    assert Snapshot(cps[..1], 2, 1) == [(0, 100)];
  }

  /** The flat node once the first prune cycle has marked. */
  function FlatMarked(): Sys {
    FlatStart().(phase := Marked([(0, 100), (1, 101)], {100, 101}))
  }

  lemma {:induction false} FlatMarkReached()
    ensures Reaches(FlatWorld(2), FlatStart(), Cycle({}, {100, 101}), FlatMarked())
  {
    FlatSnapshot();
    FlatMark();
    assert FlatStart().node.nodes - {} == {100, 101};
    CycleReaches(FlatWorld(2), FlatStart(), {}, {100, 101});
  }

  /**
   The race is reachable: from a sound start the pruner marks, block 2 commits, the pruner takes the
   lock and sweeps, and the head state is gone.
   */
  lemma {:induction false} RaceReachable()
    ensures var w, s, b := FlatWorld(2), FlatMarked(), FlatBlock(2, 0);
            var t := Committed(w, s, b, false, NoFault);
            && CarriesNodes(w) && Sound(w, FlatStart())
            && Reaches(w, FlatStart(), Cycle({}, {100, 101}), s)
            && Reaches(w, s, WholeCommit(w, s, b, false, NoFault), t)
            && Reaches(w, t, [Lock, Delete(t.node.nodes * t.phase.live)], SweptOut(w, t))
            && !HeadComplete(w, SweptOut(w, t).node)
  {
    var w, s, b := FlatWorld(2), FlatMarked(), FlatBlock(2, 0);
    FlatStartSound();
    FlatMarkReached();
    WholeCommitReaches(w, s, b, false, NoFault);
    SweptOutReaches(w, Committed(w, s, b, false, NoFault));
    FlatRaceLost();
  }

  lemma {:induction false} FlatRaceLost()
    ensures var t := Committed(FlatWorld(2), FlatMarked(), FlatBlock(2, 0), false, NoFault);
            !HeadComplete(FlatWorld(2), SweptOut(FlatWorld(2), t).node)
  {
    var w, s, b := FlatWorld(2), FlatMarked(), FlatBlock(2, 0);
    FlatClosed(w, s.node.nodes, s.phase.live);
    assert Run(w.chain, s.node, b, false) == Some(FlatExec(b));
    UnmarkedCommitIsLost(w, s, b, false);
  }

  lemma {:induction false} FlatLateMark()
    ensures Snapshot([(0, 100), (1, 101)], 2, 2) == [(1, 101)]
    ensures IsLiveSet(FlatWorld(2).trie, {100, 101, 102} - {}, [(1, 101)], {101})
  {
    var cps: Checkpoints := [(0, 100), (1, 101)];
    assert cps[..1] == [(0, 100)] && cps[..1][..0] == [];
    assert Snapshot([], 2, 2) == [];
    assert Snapshot(cps[..1], 2, 2) == [];
    var one: Checkpoints := [(1, 101)];
    FlatClosed(FlatWorld(2), {100, 101, 102} - {}, {101});
    forall s: set<H256> | AllIn(s, one) ensures {101} <= s { assert In(s, one[0].1); }
  }

  lemma {:induction false} FlatStored()
    ensures var w, s, b := FlatWorld(2), FlatStart(), FlatBlock(2, 0);
            && Admitted(w.chain, s.node, b, false)
            && CanMark(w, StoredOnly(w, s, b, false), {}, {101})
            && Run(w.chain, s.node, b, false).value.stateRoot == 102
  {
    var w, s, b := FlatWorld(2), FlatStart(), FlatBlock(2, 0);
    assert Run(w.chain, s.node, b, false) == Some(FlatExec(b));
    var t := StoredOnly(w, s, b, false);
    assert t.node.nodes == {100, 101, 102} && t.node.retained == [(0, 100), (1, 101)] && t.node.head == 2;
    FlatLateMark();
  }

  /**
   Block 2 is stored, the cycle reads head 2 and marks what the list has, block 2 is pushed and its commit
   succeeds, and the sweep deletes the head's state.
   */
  lemma {:induction false} MidCommitLost()
    ensures var w, s, b := FlatWorld(2), FlatStart(), FlatBlock(2, 0);
            && CarriesNodes(w) && Sound(w, s) && Succeeds(w.chain, s.node, b, false, NoFault)
            && var u := MidCommitted(w, s, b, false, {101});
               && Reaches(w, s, MidCommitRun(w, s, b, false, {}, {101}), SweptOut(w, u))
               && u.missed == {} && !HeadComplete(w, SweptOut(w, u).node)
  {
    FlatStartSound();
    FlatStored();
    MidCommitKeptIff(FlatWorld(2), FlatStart(), FlatBlock(2, 0), false, {}, {101});
  }

  lemma {:induction false} FlatLateState()
    ensures var s := Committed(FlatWorld(2), FlatStart(), FlatBlock(2, 0), false, GovernanceReadFault);
            s.node.head == 2 && s.node.nodes == {100, 101, 102} && s.node.retained == [(0, 100), (1, 101)]
  {
    var w, s, b := FlatWorld(2), FlatStart(), FlatBlock(2, 0);
    assert Run(w.chain, s.node, b, false) == Some(FlatExec(b));
    CommitEffect(w.chain, s.node, b, false, GovernanceReadFault);
  }

  /** One governance read error in block 2, and the next prune cycle deletes the head's state. */
  lemma {:induction false} LateCommitLost()
    ensures var w, s, b := FlatWorld(2), FlatStart(), FlatBlock(2, 0);
            var t := Committed(w, s, b, false, GovernanceReadFault);
            && Late(w.chain, s.node, b, false, GovernanceReadFault) && CanMark(w, t, {}, {101})
            && !HeadComplete(w, SweptOut(w, t.(phase := Marked(SnapNow(w, t), {101}))).node)
  {
    var w, s, b := FlatWorld(2), FlatStart(), FlatBlock(2, 0);
    assert Run(w.chain, s.node, b, false) == Some(FlatExec(b));
    FlatLateState();
    FlatLateMark();
    LateCommitKeptIff(w, s, b, false, GovernanceReadFault, {}, {101});
  }
}
