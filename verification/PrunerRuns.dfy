/**
 Commits, trims and prune cycles interleaved, storage call by storage call: which heights the retained
 list holds at every moment and which states a sweep may remove.
 */
module PrunerRuns {
  import opened Prelude
  import opened BlockProducer
  import opened Pruner
  import ChainRuns
  import Governance

  /**
   A prune cycle reads the head, takes its snapshot of the list, walks the snapshot's tries, and only then
   takes the write lock and deletes in batches. Nothing before the lock waits for a commit.
   */
  datatype Phase =
    | Resting
    | Observed(head: nat)
    | Noted(snap: Checkpoints)
    | Marked(snap: Checkpoints, live: set<H256>)
    | Sweeping(snap: Checkpoints, live: set<H256>)

  /**
   A commit that has been executed and passed the head check, with the governance state it found; the first
   `at` of its effects are performed, and `held` says whether it has the read guard.
   */
  datatype Job = Job(
    block: Block,
    staked: bool,
    fault: Fault,
    exec: Exec,
    gov: Governance.State,
    at: nat,
    held: bool)

  /** `missed` are the heights stored by a commit that then failed, and so never reached the list. */
  datatype Sys = Sys(node: Node, phase: Phase, missed: set<nat>, job: Option<Job>)

  /** The environment of a run: header hash and executor, trie contents, configured window. */
  datatype World = World(chain: Chain, trie: Trie, retain: nat)

  datatype Event =
    | Begin(block: Block, staked: bool, fault: Fault)
    | Guard
    | Write
    | End
    | Trim
    | Observe
    | Snap
    | Mark(unreadable: set<H256>, live: set<H256>)
    | Lock
    | Delete(left: set<H256>)
    | Rest

  function Effects(j: Job): seq<Effect> {
    Performed(j.fault, j.gov, j.exec, j.block, j.staked)
  }

  /** The block is written right after the accounts and the trie nodes. */
  predicate Stored(j: Job) {
    j.at > |j.exec.diff| + 1
  }

  predicate Fails(j: Job) {
    Hits(j.fault, j.exec) || GovernanceFails(j.fault, j.gov, j.block.header.number)
  }

  /** The root enters the list last. */
  predicate Pushed(j: Job) {
    !Fails(j) && j.at == |Effects(j)|
  }

  /** A staking or governance fault strikes after the block is stored. */
  predicate StruckLate(j: Job) {
    (j.fault.StakingFault? && j.exec.staking != []) || GovernanceFails(j.fault, j.gov, j.block.header.number)
  }

  predicate Held(s: Sys) {
    s.job.Some? && s.job.value.held
  }

  ghost predicate Enabled(w: World, s: Sys, e: Event) {
    match e
    case Begin(b, _, _) => s.job.None? && b.header.number > 0
    case Guard => s.job.Some? && !s.phase.Sweeping?
    case Write => Held(s) && s.job.value.at < |Effects(s.job.value)|
    case End => s.job.Some? && s.job.value.at == |Effects(s.job.value)|
    case Trim => true
    case Observe => s.phase.Resting?
    case Snap => s.phase.Observed? && Snapshot(s.node.retained, w.retain, s.phase.head) != []
    case Mark(unreadable, live) =>
      s.phase.Noted? && IsLiveSet(w.trie, s.node.nodes - unreadable, s.phase.snap, live)
    case Lock => s.phase.Marked? && !Held(s)
    case Delete(left) => s.phase.Sweeping? && s.node.nodes * s.phase.live <= left <= s.node.nodes
    case Rest => true
  }

  function Started(chain: Chain, n: Node, b: Block, staked: bool, f: Fault): Job
    requires Admitted(chain, n, b, staked)
  {
    Job(b, staked, f, Run(chain, n, b, staked).value, n.gov, 0, false)
  }

  function Step(w: World, s: Sys, e: Event): Sys {
    match e
    case Begin(b, staked, f) =>
      if Admitted(w.chain, s.node, b, staked) then s.(job := Some(Started(w.chain, s.node, b, staked, f))) else s
    case Guard => if s.job.Some? then s.(job := Some(s.job.value.(held := true))) else s
    case Write =>
      if s.job.Some? && s.job.value.at < |Effects(s.job.value)| then
        var j := s.job.value;
        s.(node := Apply(s.node, Effects(j)[j.at]), job := Some(j.(at := j.at + 1)))
      else s
    case End =>
      if s.job.Some? then
        var j := s.job.value;
        s.(job := None, missed := s.missed + if StruckLate(j) then {j.block.header.number} else {})
      else s
    case Trim => s.(node := s.node.(retained := Trimmed(s.node.retained, MaxKeep(w.retain))))
    case Observe => if s.node.head == 0 then s else s.(phase := Observed(s.node.head))
    case Snap =>
      if s.phase.Observed? then s.(phase := Noted(Snapshot(s.node.retained, w.retain, s.phase.head))) else s
    case Mark(_, live) => if s.phase.Noted? then s.(phase := Marked(s.phase.snap, live)) else s
    case Lock => if s.phase.Marked? then s.(phase := Sweeping(s.phase.snap, s.phase.live)) else s
    case Delete(left) => s.(node := s.node.(nodes := left))
    case Rest => s.(phase := Resting)
  }

  ghost predicate Reaches(w: World, s: Sys, es: seq<Event>, s': Sys)
    decreases |es|
  {
    if es == [] then s == s'
    else Enabled(w, s, es[0]) && Reaches(w, Step(w, s, es[0]), es[1..], s')
  }

  // ---------------------------------------------------------------------------
  // The effects of a commit, one by one
  // ---------------------------------------------------------------------------

  /** An effect the pruner does not see. */
  predicate Plain(e: Effect) {
    !e.FlushNodes? && !e.PutBlock? && !e.PushRetained?
  }

  lemma {:induction false} PlanParts(g: Governance.State, x: Exec, b: Block, staked: bool) returns (mid: seq<Effect>)
    ensures Plan(g, x, b, staked) == UpToBlock(x, b) + mid + [PushRetained(b.header.number, x.stateRoot)]
    ensures mid != [] && forall i | 0 <= i < |mid| :: Plain(mid[i])
    ensures |UpToSwap(x, b, staked)| < |UpToBlock(x, b)| + |mid|
  {
    var h := b.header.number;
    var a, c := When(x.staking != [], PutStaking(x.staking)), When(staked, SwapValidators(x.validators));
    var d := When(GovernanceDue(g, h), PutGovernance(Governance.Hook(g, h)));
    mid := a + c + d + [Evict(b.txs)];
    Regroup(UpToBlock(x, b), a, c, d, Evict(b.txs));
  }

  lemma {:induction false} Regroup(p: seq<Effect>, a: seq<Effect>, c: seq<Effect>, d: seq<Effect>, e: Effect)
    ensures p + a + c + d + [e] == p + (a + c + d + [e])
  {
  }

  lemma {:induction false} ShortWhenFailing(j: Job)
    requires Fails(j)
    ensures |Effects(j)| <= |UpToSwap(j.exec, j.block, j.staked)|
  {
  }

  /** What each effect of a commit is, by its place. */
  lemma {:induction false} EffectAt(j: Job, i: nat)
    requires i < |Effects(j)|
    ensures var e, k := Effects(j)[i], |j.exec.diff|;
            if i == k then e == FlushNodes(j.exec.nodes)
            else if i == k + 1 then e == PutBlock(Patch(j.block, j.exec))
            else if !Fails(j) && i == |Effects(j)| - 1
            then e == PushRetained(j.block.header.number, j.exec.stateRoot)
            else Plain(e)
  {
    var k, whole := |j.exec.diff|, Plan(j.gov, j.exec, j.block, j.staked);
    ChainRuns.PerformedIsPrefix(j.fault, j.gov, j.exec, j.block, j.staked);
    var mid := PlanParts(j.gov, j.exec, j.block, j.staked);
    assert Effects(j)[i] == whole[i];
    if Fails(j) { ShortWhenFailing(j); }
    if i < k { assert whole[i] == AccountPuts(j.exec.diff)[i]; }
    else if k + 1 < i < |whole| - 1 { assert whole[i] == mid[i - k - 2]; }
  }

  /** A commit that fails has stored its block exactly when it was struck late. */
  lemma {:induction false} EffectCount(j: Job)
    ensures !Fails(j) ==> |Effects(j)| > |j.exec.diff| + 3
    ensures Fails(j) ==> (|Effects(j)| > |j.exec.diff| + 1 <==> StruckLate(j))
  {
    var mid := PlanParts(j.gov, j.exec, j.block, j.staked);
  }

  // ---------------------------------------------------------------------------
  // The list at every moment
  // ---------------------------------------------------------------------------

  /** The height a running commit has stored and not pushed. */
  function Between(s: Sys): set<nat> {
    if s.job.Some? && Stored(s.job.value) && !Pushed(s.job.value) then {s.job.value.block.header.number} else {}
  }

  function Unlisted(s: Sys): set<nat> {
    s.missed + Between(s)
  }

  /** Only stored heights are missed. */
  ghost predicate NoneAhead(s: Sys) {
    forall h | h in s.missed :: h <= s.node.head
  }

  /** Where a running commit stands: on top of the head, or its block is the head. */
  ghost predicate JobPlace(s: Sys) {
    s.job.Some? ==>
      var j := s.job.value;
      var h := j.block.header.number;
      && h > 0 && h !in s.missed && j.at <= |Effects(j)| && (j.at > 0 ==> j.held)
      && (if Stored(j) then s.node.head == h && h in s.node.blocks && s.node.blocks[h] == Patch(j.block, j.exec)
          else s.node.head + 1 == h)
  }

  ghost predicate Tracked(w: World, s: Sys) {
    && Window(s.node, w.retain, Unlisted(s)) && NoneAhead(s) && JobPlace(s)
    && (s.phase.Observed? ==> s.phase.head <= s.node.head)
  }

  /** Chain and list are the same. */
  ghost predicate SameList(n: Node, r: Node) {
    r.head == n.head && r.blocks == n.blocks && r.retained == n.retained
  }

  lemma {:induction false} SameListWindow(n: Node, r: Node, retain: nat, missed: set<nat>)
    requires SameList(n, r) && Window(n, retain, missed)
    ensures Window(r, retain, missed)
  {
    var from: nat :| from <= SatSub(n.head + 1, retain) && Covers(n, from, missed);
    assert forall cp, h :: Checkpoint(n, cp, h) <==> Checkpoint(r, cp, h);
    assert Covers(r, from, missed);
  }

  lemma {:induction false} StoreKeepsCover(n: Node, r: Node, b: Block, from: nat, missed: set<nat>)
    requires Covers(n, from, missed) && r.head == n.head + 1 && r.blocks == n.blocks[r.head := b]
    requires r.retained == n.retained
    ensures Covers(r, from, missed + {r.head})
  {
    forall i | 0 <= i < |n.retained|
      ensures n.retained[i].0 <= n.head && Checkpoint(r, r.retained[i], r.retained[i].0)
    {
      assert Listed(n.retained, n.retained[i].0) && Checkpoint(n, n.retained[i], n.retained[i].0);
    }
  }

  lemma {:induction false} PushKeepsCover(n: Node, r: Node, from: nat, missed: set<nat>)
    requires Covers(n, from, missed + {n.head}) && n.head in n.blocks && n.head !in missed && from <= n.head + 1
    requires r == n.(retained := n.retained + [(n.head, n.blocks[n.head].header.stateRoot)])
    ensures Covers(r, Min(from, n.head), missed)
  {
    ListedLast(n.retained, (n.head, n.blocks[n.head].header.stateRoot));
    forall i | 0 <= i < |n.retained|
      ensures n.retained[i].0 < n.head && Checkpoint(r, r.retained[i], r.retained[i].0)
    {
      assert Listed(n.retained, n.retained[i].0) && Checkpoint(n, n.retained[i], n.retained[i].0);
    }
  }

  /** Ascending heights are at least as far apart as their positions. */
  lemma {:induction false} RisingGap(cps: Checkpoints, i: nat, j: nat)
    requires Rising(cps) && i <= j < |cps|
    ensures cps[i].0 + (j - i) <= cps[j].0
    decreases j
  {
    if i < j { RisingGap(cps, i, j - 1); }
  }

  lemma {:induction false} TrimKeepsWindow(n: Node, retain: nat, missed: set<nat>)
    requires Window(n, retain, missed)
    ensures Window(n.(retained := Trimmed(n.retained, MaxKeep(retain))), retain, missed)
  {
    var r, d := n.(retained := Trimmed(n.retained, MaxKeep(retain))), |n.retained| - MaxKeep(retain);
    var from: nat :| from <= SatSub(n.head + 1, retain) && Covers(n, from, missed);
    if d > 0 {
      var last := |n.retained| - 1;
      assert Listed(n.retained, n.retained[last].0);
      RisingGap(n.retained, d, last);
      DropKeepsCover(n, r, from, missed, d);
    } else {
      assert r == n;
    }
  }

  lemma {:induction false} DropKeepsCover(n: Node, r: Node, from: nat, missed: set<nat>, d: nat)
    requires Covers(n, from, missed) && d < |n.retained| && r == n.(retained := n.retained[d..])
    ensures Covers(r, n.retained[d].0, missed)
  {
    var cps := n.retained;
    forall i | 0 <= i < |r.retained| ensures Checkpoint(r, r.retained[i], r.retained[i].0) {
      assert r.retained[i] == cps[d + i] && Checkpoint(n, cps[d + i], cps[d + i].0);
    }
    forall h: nat ensures Listed(r.retained, h) <==> Listed(cps, h) && cps[d].0 <= h {
      if i :| 0 <= i < |r.retained| && r.retained[i].0 == h { assert cps[d + i].0 == h; }
      if Listed(cps, h) && cps[d].0 <= h {
        var i :| 0 <= i < |cps| && cps[i].0 == h;
        assert i >= d && r.retained[i - d].0 == h;
      }
    }
    assert Listed(cps, cps[d].0);
  }

  lemma {:induction false} StoreTracks(w: World, s: Sys)
    requires Tracked(w, s) && Held(s) && s.job.value.at == |s.job.value.exec.diff| + 1
    requires s.job.value.at < |Effects(s.job.value)|
    ensures Tracked(w, Step(w, s, Write))
  {
    var s', j := Step(w, s, Write), s.job.value;
    EffectAt(j, j.at);
    EffectCount(j);
    var from: nat :| from <= SatSub(s.node.head + 1, w.retain) && Covers(s.node, from, Unlisted(s));
    StoreKeepsCover(s.node, s'.node, Patch(j.block, j.exec), from, Unlisted(s));
    assert Unlisted(s') == Unlisted(s) + {s'.node.head};
    assert Covers(s'.node, from, Unlisted(s'));
  }

  lemma {:induction false} PushTracks(w: World, s: Sys)
    requires Tracked(w, s) && Held(s)
    requires !Fails(s.job.value) && s.job.value.at == |Effects(s.job.value)| - 1
    ensures Tracked(w, Step(w, s, Write))
  {
    var s', j := Step(w, s, Write), s.job.value;
    EffectAt(j, j.at);
    EffectCount(j);
    var from: nat :| from <= SatSub(s.node.head + 1, w.retain) && Covers(s.node, from, Unlisted(s));
    assert Unlisted(s) == s.missed + {s.node.head} && Unlisted(s') == s.missed;
    PushKeepsCover(s.node, s'.node, from, s.missed);
  }

  lemma {:induction false} WriteTracks(w: World, s: Sys)
    requires Tracked(w, s) && Enabled(w, s, Write)
    ensures Tracked(w, Step(w, s, Write))
  {
    var s', j := Step(w, s, Write), s.job.value;
    EffectAt(j, j.at);
    EffectCount(j);
    if j.at == |j.exec.diff| + 1 {
      StoreTracks(w, s);
    } else if !Fails(j) && j.at == |Effects(j)| - 1 {
      PushTracks(w, s);
    } else {
      SameListWindow(s.node, s'.node, w.retain, Unlisted(s));
      assert Between(s') == Between(s);
    }
  }

  lemma {:induction false} EndTracks(w: World, s: Sys)
    requires Tracked(w, s) && Enabled(w, s, End)
    ensures Tracked(w, Step(w, s, End))
  {
    EffectCount(s.job.value);
    assert Unlisted(Step(w, s, End)) == Unlisted(s);
  }

  lemma {:induction false} BeginTracks(w: World, s: Sys, b: Block, staked: bool, f: Fault)
    requires Tracked(w, s) && Enabled(w, s, Begin(b, staked, f))
    ensures Tracked(w, Step(w, s, Begin(b, staked, f)))
  {
    assert Unlisted(Step(w, s, Begin(b, staked, f))) == Unlisted(s);
  }

  lemma {:induction false} StepTracks(w: World, s: Sys, e: Event)
    requires Tracked(w, s) && Enabled(w, s, e)
    ensures Tracked(w, Step(w, s, e))
  {
    var s' := Step(w, s, e);
    match e
    case Begin(b, staked, f) => BeginTracks(w, s, b, staked, f);
    case Write => WriteTracks(w, s);
    case End => EndTracks(w, s);
    case Trim => TrimKeepsWindow(s.node, w.retain, Unlisted(s));
    case Delete(left) => SameListWindow(s.node, s'.node, w.retain, Unlisted(s));
    case _ => assert Unlisted(s') == Unlisted(s);
  }

  /** A trim bounds the list; between trims each commit lengthens it by at most one, and nothing else does. */
  lemma {:induction false} ListBounded(w: World, s: Sys, e: Event)
    requires Enabled(w, s, e)
    ensures var was, now := |s.node.retained|, |Step(w, s, e).node.retained|;
            && now <= was + (if e.Write? then 1 else 0)
            && (e.Trim? ==> now <= (if 4 * w.retain > 64 then 4 * w.retain else 64))
            && (e.Write? && now > was ==> Pushed(Step(w, s, e).job.value))
  {
    if e.Write? { EffectAt(s.job.value, s.job.value.at); }
    TrimBounds(s.node.retained, w.retain);
  }

  /** A cycle can be given up or ended at any moment, and the next one begun. */
  lemma {:induction false} NextCycle(w: World, s: Sys)
    ensures var s' := Step(w, s, Rest); Enabled(w, s', Observe) && s'.node == s.node && s'.job == s.job
  {
  }

  lemma {:induction false} ListedIff(w: World, s: Sys)
    requires Tracked(w, s)
    ensures forall h: nat | SatSub(s.node.head + 1, w.retain) <= h <= s.node.head ::
              Listed(s.node.retained, h) <==> h !in s.missed && h !in Between(s)
    ensures forall i | 0 <= i < |s.node.retained| :: Checkpoint(s.node, s.node.retained[i], s.node.retained[i].0)
  {
    var from: nat :| from <= SatSub(s.node.head + 1, w.retain) && Covers(s.node, from, Unlisted(s));
  }

  /**
   In every interleaving of commits with any fault, trims and prune cycles, at every moment, the list holds,
   back over the last `retain` heights at least, exactly the stored heights whose commit was not struck late
   and is not between storing the block and pushing its root.
   */
  lemma {:induction false} WindowAlways(w: World, s: Sys, es: seq<Event>, s': Sys)
    requires Tracked(w, s) && Reaches(w, s, es, s')
    ensures Tracked(w, s')
    ensures forall h: nat | SatSub(s'.node.head + 1, w.retain) <= h <= s'.node.head ::
              Listed(s'.node.retained, h) <==> h !in s'.missed && h !in Between(s')
    decreases |es|
  {
    if es == [] {
      ListedIff(w, s);
    } else {
      StepTracks(w, s, es[0]);
      WindowAlways(w, Step(w, s, es[0]), es[1..], s');
    }
  }

  // ---------------------------------------------------------------------------
  // What a sweep may remove
  // ---------------------------------------------------------------------------

  ghost predicate InWindow(n: Node, retain: nat, h: int) {
    h in n.blocks && h <= n.head < h + retain
  }

  /** The state of each of the last `retain` blocks is readable in full. */
  ghost predicate WindowComplete(w: World, n: Node) {
    forall h | InWindow(n, w.retain, h) :: Complete(w.trie, n.nodes, n.blocks[h].header.stateRoot)
  }

  ghost predicate HeadComplete(w: World, n: Node) {
    n.head in n.blocks && Complete(w.trie, n.nodes, n.blocks[n.head].header.stateRoot)
  }

  /** On top of any disk that has the state under `root`, the executed nodes complete the new state. */
  ghost predicate Carries(w: World, root: H256, x: Exec) {
    forall disk: set<H256> | Complete(w.trie, disk, root) :: Complete(w.trie, disk + x.nodes, x.stateRoot)
  }

  /** Executing hands over every node of the new state that the head's state does not have. */
  ghost predicate CarriesNodes(w: World) {
    forall n: Node, b: Block, staked: bool | Run(w.chain, n, b, staked).Some? && n.head in n.blocks ::
      Carries(w, n.blocks[n.head].header.stateRoot, Run(w.chain, n, b, staked).value)
  }

  predicate HasSnap(p: Phase) {
    p.Noted? || p.Marked? || p.Sweeping?
  }

  predicate HasMark(p: Phase) {
    p.Marked? || p.Sweeping?
  }

  /** What a pending prune cycle knows: stored roots, and a closed set of nodes that holds them. */
  ghost predicate MarkSound(w: World, s: Sys) {
    && (HasSnap(s.phase) ==>
          forall i | 0 <= i < |s.phase.snap| :: Checkpoint(s.node, s.phase.snap[i], s.phase.snap[i].0))
    && (HasMark(s.phase) ==> Closed(w.trie, s.node.nodes, s.phase.live) && AllIn(s.phase.live, s.phase.snap))
  }

  /** Every block of the window that the snapshot lacks has a root that was marked anyway. */
  ghost predicate Timely(w: World, s: Sys) {
    HasMark(s.phase) ==>
      forall h: nat | InWindow(s.node, w.retain, h) && !Listed(s.phase.snap, h) ::
        In(s.phase.live, s.node.blocks[h].header.stateRoot)
  }

  lemma {:induction false} MoreDisk(t: Trie, disk: set<H256>, disk': set<H256>, root: H256)
    requires disk <= disk' && Complete(t, disk, root)
    ensures Complete(t, disk', root)
  {
    var s: set<H256> :| In(s, root) && Closed(t, disk, s);
    assert Closed(t, disk', s);
  }

  /** Keeping at least the marked nodes keeps a marked root complete; keeping no more loses every other root. */
  lemma {:induction false} LiveComplete(t: Trie, disk: set<H256>, live: set<H256>, left: set<H256>, root: H256)
    requires Closed(t, disk, live) && disk * live <= left
    ensures In(live, root) ==> Complete(t, left, root)
    ensures left == disk * live && Complete(t, left, root) ==> In(live, root)
  {
    forall h | h in live ensures Settled(t, left, live, h) { assert Settled(t, disk, live, h); }
    if left == disk * live && Complete(t, left, root) {
      var s: set<H256> :| In(s, root) && Closed(t, left, s);
      assert root != 0 ==> Settled(t, left, s, root);
    }
  }

  lemma {:induction false} LiveStaysClosed(t: Trie, disk: set<H256>, disk': set<H256>, live: set<H256>)
    requires Closed(t, disk, live) && disk <= disk'
    ensures Closed(t, disk', live)
  {
    forall h | h in live ensures Settled(t, disk', live, h) { assert Settled(t, disk, live, h); }
  }

  /** A listed root is marked. */
  lemma {:induction false} ListedIsMarked(w: World, s: Sys, h: nat)
    requires HasMark(s.phase) && MarkSound(w, s) && Listed(s.phase.snap, h)
    ensures h in s.node.blocks && In(s.phase.live, s.node.blocks[h].header.stateRoot)
  {
    var i :| 0 <= i < |s.phase.snap| && s.phase.snap[i].0 == h;
    assert Checkpoint(s.node, s.phase.snap[i], s.phase.snap[i].0) && In(s.phase.live, s.phase.snap[i].1);
  }

  /**
   Head, list and tries are read before the write lock is taken, so a sweep that deletes every unmarked node
   keeps the window readable exactly when no block the snapshot lacks has an unmarked root.
   */
  lemma {:induction false} SweepKeepsWindowIff(w: World, s: Sys)
    requires s.phase.Sweeping? && MarkSound(w, s)
    ensures WindowComplete(w, Step(w, s, Delete(s.node.nodes * s.phase.live)).node) <==> Timely(w, s)
  {
    var left := s.node.nodes * s.phase.live;
    forall h: nat | InWindow(s.node, w.retain, h)
      ensures Complete(w.trie, left, s.node.blocks[h].header.stateRoot) <==>
          In(s.phase.live, s.node.blocks[h].header.stateRoot)
      ensures Listed(s.phase.snap, h) ==> In(s.phase.live, s.node.blocks[h].header.stateRoot)
    {
      LiveComplete(w.trie, s.node.nodes, s.phase.live, left, s.node.blocks[h].header.stateRoot);
      if Listed(s.phase.snap, h) { ListedIsMarked(w, s, h); }
    }
    var n := Step(w, s, Delete(left)).node;
    assert forall h :: InWindow(n, w.retain, h) <==> InWindow(s.node, w.retain, h);
  }

  /** What a running commit will complete, or already has. */
  ghost predicate JobCarries(w: World, s: Sys) {
    s.job.Some? ==>
      var j := s.job.value;
      && (!Stored(j) ==> s.node.head in s.node.blocks
                         && Carries(w, s.node.blocks[s.node.head].header.stateRoot, j.exec))
      && (j.at > |j.exec.diff| ==> j.exec.nodes <= s.node.nodes)
  }

  /** A sweep runs only while no commit writes, and was timely when it started. */
  ghost predicate SweepAlone(w: World, s: Sys) {
    s.phase.Sweeping? ==> !Held(s) && Timely(w, s)
  }

  ghost predicate Sound(w: World, s: Sys) {
    && ChainRuns.Contiguous(s.node) && Tracked(w, s) && WindowComplete(w, s.node)
    && MarkSound(w, s) && JobCarries(w, s) && SweepAlone(w, s)
  }

  /** More nodes on the same chain keep what was complete and what was marked. */
  lemma {:induction false} MoreNodes(w: World, s: Sys, s': Sys)
    requires WindowComplete(w, s.node) && MarkSound(w, s) && s'.phase == s.phase
    requires s'.node.head == s.node.head && s'.node.blocks == s.node.blocks && s.node.nodes <= s'.node.nodes
    ensures WindowComplete(w, s'.node) && MarkSound(w, s')
  {
    forall h | InWindow(s'.node, w.retain, h)
      ensures Complete(w.trie, s'.node.nodes, s'.node.blocks[h].header.stateRoot)
    {
      assert InWindow(s.node, w.retain, h);
      MoreDisk(w.trie, s.node.nodes, s'.node.nodes, s.node.blocks[h].header.stateRoot);
    }
    if HasMark(s.phase) { LiveStaysClosed(w.trie, s.node.nodes, s'.node.nodes, s.phase.live); }
    if HasSnap(s.phase) {
      forall i | 0 <= i < |s.phase.snap| ensures Checkpoint(s'.node, s.phase.snap[i], s.phase.snap[i].0) {
        assert Checkpoint(s.node, s.phase.snap[i], s.phase.snap[i].0);
      }
    }
  }

  /** A block with a complete state on top of the chain. */
  lemma {:induction false} StoreComplete(w: World, s: Sys, s': Sys, b: Block)
    requires ChainRuns.Contiguous(s.node) && WindowComplete(w, s.node) && MarkSound(w, s) && s'.phase == s.phase
    requires s'.node.head == s.node.head + 1 && s'.node.blocks == s.node.blocks[s'.node.head := b]
    requires s'.node.nodes == s.node.nodes
    requires HeadComplete(w, s.node) ==> Complete(w.trie, s.node.nodes, b.header.stateRoot)
    ensures WindowComplete(w, s'.node) && MarkSound(w, s')
  {
    var n, r := s.node, s'.node;
    forall h | InWindow(r, w.retain, h) ensures Complete(w.trie, r.nodes, r.blocks[h].header.stateRoot) {
      if h < r.head { assert InWindow(n, w.retain, h); } else { assert InWindow(n, w.retain, n.head); }
    }
    if HasSnap(s.phase) {
      forall i | 0 <= i < |s.phase.snap| ensures Checkpoint(r, s.phase.snap[i], s.phase.snap[i].0) {
        assert Checkpoint(n, s.phase.snap[i], s.phase.snap[i].0);
      }
    }
  }

  lemma {:induction false} StoreSound(w: World, s: Sys)
    requires Sound(w, s) && Enabled(w, s, Write) && s.job.value.at == |s.job.value.exec.diff| + 1
    ensures Sound(w, Step(w, s, Write))
  {
    var s', j := Step(w, s, Write), s.job.value;
    StepTracks(w, s, Write);
    EffectAt(j, j.at);
    var b := Patch(j.block, j.exec);
    assert s'.node.blocks == s.node.blocks[s'.node.head := b] && s'.node.head == s.node.head + 1;
    if HeadComplete(w, s.node) { assert s.node.nodes + j.exec.nodes == s.node.nodes; }
    StoreComplete(w, s, s', b);
  }

  lemma {:induction false} WriteSound(w: World, s: Sys)
    requires Sound(w, s) && Enabled(w, s, Write)
    ensures Sound(w, Step(w, s, Write))
  {
    var s', j := Step(w, s, Write), s.job.value;
    EffectAt(j, j.at);
    if j.at == |j.exec.diff| + 1 {
      StoreSound(w, s);
    } else {
      StepTracks(w, s, Write);
      EffectCount(j);
      MoreNodes(w, s, s');
    }
  }

  lemma {:induction false} BeginSound(w: World, s: Sys, b: Block, staked: bool, f: Fault)
    requires CarriesNodes(w) && Sound(w, s) && Enabled(w, s, Begin(b, staked, f))
    ensures Sound(w, Step(w, s, Begin(b, staked, f)))
  {
    StepTracks(w, s, Begin(b, staked, f));
    assert s.node.head in s.node.blocks;
  }

  lemma {:induction false} SnapSound(w: World, s: Sys)
    requires Sound(w, s) && Enabled(w, s, Snap)
    ensures Sound(w, Step(w, s, Snap))
  {
    var s' := Step(w, s, Snap);
    StepTracks(w, s, Snap);
    ListedIff(w, s);
    SnapshotListed(s.node.retained, w.retain, s.phase.head);
    forall i | 0 <= i < |s'.phase.snap| ensures Checkpoint(s.node, s'.phase.snap[i], s'.phase.snap[i].0) {
      assert s'.phase.snap[i] in s.node.retained;
    }
  }

  lemma {:induction false} DeleteSound(w: World, s: Sys, left: set<H256>)
    requires Sound(w, s) && Enabled(w, s, Delete(left))
    ensures Sound(w, Step(w, s, Delete(left)))
  {
    var s' := Step(w, s, Delete(left));
    StepTracks(w, s, Delete(left));
    forall h: nat | InWindow(s'.node, w.retain, h)
      ensures Complete(w.trie, left, s'.node.blocks[h].header.stateRoot)
    {
      assert InWindow(s.node, w.retain, h);
      if Listed(s.phase.snap, h) { ListedIsMarked(w, s, h); }
      LiveComplete(w.trie, s.node.nodes, s.phase.live, left, s.node.blocks[h].header.stateRoot);
    }
    forall h | h in s.phase.live ensures Settled(w.trie, left, s.phase.live, h) {
      assert Settled(w.trie, s.node.nodes, s.phase.live, h);
    }
    assert forall h :: InWindow(s'.node, w.retain, h) <==> InWindow(s.node, w.retain, h);
    assert forall i | 0 <= i < |s.phase.snap| :: Checkpoint(s.node, s.phase.snap[i], s.phase.snap[i].0);
  }

  lemma {:induction false} StepKeepsSound(w: World, s: Sys, e: Event)
    requires CarriesNodes(w) && Sound(w, s) && Enabled(w, s, e) && (e.Lock? ==> Timely(w, s))
    ensures Sound(w, Step(w, s, e))
  {
    match e
    case Begin(b, staked, f) => BeginSound(w, s, b, staked, f);
    case Write => WriteSound(w, s);
    case Snap => SnapSound(w, s);
    case Delete(left) => DeleteSound(w, s, left);
    case Mark(unreadable, live) =>
      StepTracks(w, s, e);
      LiveStaysClosed(w.trie, s.node.nodes - unreadable, s.node.nodes, live);
    case Trim =>
      StepTracks(w, s, e);
      MoreNodes(w, s, Step(w, s, e));
    case _ => StepTracks(w, s, e);
  }

  ghost predicate SweepsTimely(w: World, s: Sys, es: seq<Event>)
    decreases |es|
  {
    es == [] || ((es[0].Lock? ==> Timely(w, s)) && SweepsTimely(w, Step(w, s, es[0]), es[1..]))
  }

  /**
   Sweep safety over every interleaving of the storage calls of commits, with any fault, with trims, head
   reads, snapshots, marks and batch deletes: as long as each sweep is timely when it takes the lock, no
   sweep removes a node of the last `retain` blocks' states.
   */
  lemma {:induction false} SweepSafety(w: World, s: Sys, es: seq<Event>, s': Sys)
    requires CarriesNodes(w) && Sound(w, s) && Reaches(w, s, es, s') && SweepsTimely(w, s, es)
    ensures Sound(w, s')
    decreases |es|
  {
    if es != [] {
      StepKeepsSound(w, s, es[0]);
      SweepSafety(w, Step(w, s, es[0]), es[1..], s');
    }
  }

  // ---------------------------------------------------------------------------
  // When a sweep is timely
  // ---------------------------------------------------------------------------

  /**
   What a snapshot lacks: exactly the blocks of the window stored after the head was read, those struck late,
   and the one a running commit has stored and not yet pushed.
   */
  lemma {:induction false} SnapshotLacks(w: World, s: Sys)
    requires Tracked(w, s) && s.phase.Observed?
    ensures forall h: nat | InWindow(s.node, w.retain, h) ::
              !Listed(Step(w, s, Snap).phase.snap, h) <==> h > s.phase.head || h in s.missed || h in Between(s)
  {
    ListedIff(w, s);
    SnapshotListed(s.node.retained, w.retain, s.phase.head);
  }

  ghost predicate NoRest(es: seq<Event>) {
    forall i | 0 <= i < |es| :: !es[i].Rest?
  }

  /** Within a cycle the snapshot stays. */
  lemma {:induction false} CycleKeepsSnap(w: World, s: Sys, es: seq<Event>, s': Sys)
    requires Reaches(w, s, es, s') && NoRest(es) && HasSnap(s.phase)
    ensures HasSnap(s'.phase) && s'.phase.snap == s.phase.snap
    decreases |es|
  {
    if es != [] {
      assert !es[0].Rest?;
      assert forall i | 0 <= i < |es| - 1 :: es[1..][i] == es[i + 1];
      CycleKeepsSnap(w, Step(w, s, es[0]), es[1..], s');
    }
  }

  lemma {:induction false} StepGrows(w: World, s: Sys, e: Event)
    requires Tracked(w, s) && Enabled(w, s, e)
    ensures var s' := Step(w, s, e);
            s'.node.head >= s.node.head && (s'.node.head == s.node.head ==> s'.node.blocks == s.node.blocks)
  {
    if e.Write? { EffectAt(s.job.value, s.job.value.at); }
  }

  lemma {:induction false} RunGrows(w: World, s: Sys, es: seq<Event>, s': Sys)
    requires Tracked(w, s) && Reaches(w, s, es, s')
    ensures s'.node.head >= s.node.head && (s'.node.head == s.node.head ==> s'.node.blocks == s.node.blocks)
    decreases |es|
  {
    if es != [] {
      StepGrows(w, s, es[0]);
      StepTracks(w, s, es[0]);
      RunGrows(w, Step(w, s, es[0]), es[1..], s');
    }
  }

  /**
   A cycle that reads the current head and takes its snapshot while no block of the window is struck late or
   stands between store and push stays timely until another block is stored, whatever else happens.
   */
  lemma {:induction false} QuietSweepTimely(w: World, s: Sys, es: seq<Event>, s': Sys)
    requires Tracked(w, s) && s.phase == Observed(s.node.head) && Enabled(w, s, Snap)
    requires forall h: nat | InWindow(s.node, w.retain, h) :: h !in s.missed && h !in Between(s)
    requires Reaches(w, Step(w, s, Snap), es, s') && NoRest(es) && s'.node.head == s.node.head
    ensures Timely(w, s')
  {
    var s1 := Step(w, s, Snap);
    SnapshotLacks(w, s);
    StepTracks(w, s, Snap);
    CycleKeepsSnap(w, s1, es, s');
    RunGrows(w, s1, es, s');
    assert forall h :: InWindow(s'.node, w.retain, h) <==> InWindow(s.node, w.retain, h);
  }
}
