/**
 The background trie pruner: the retained-roots window, the mark phase that walks every retained
 root, and the sweep that deletes what was not marked.

 A node's content is a function of its hash, so a trie is a function from hashes to references.
 References found in inline nodes are listed with the hashed node that embeds them.
 */
module Pruner {
  import opened Prelude
  import opened BlockProducer
  import ChainRuns

  datatype Ref = Child(hash: H256) | StorageRoot(hash: H256)

  /** `refs` is None for bytes that do not decode; `account` tells account-trie from storage-trie nodes. */
  datatype Trie = Trie(refs: H256 -> Option<seq<Ref>>, account: H256 -> bool)

  function Refs(t: Trie, h: H256): Option<seq<Ref>> {
    t.refs(h)
  }

  /** Storage roots are followed from account leaves only. */
  predicate Follows(accounts: bool, r: Ref) {
    r.Child? || accounts
  }

  ghost predicate WellPlaced(t: Trie, h: H256, r: Ref) {
    match r
    case Child(c) => c == 0 || t.account(c) == t.account(h)
    case StorageRoot(c) => c == 0 || (t.account(h) ==> !t.account(c))
  }

  /** Account tries and storage tries share no node. */
  ghost predicate Separate(t: Trie) {
    forall h, i | Refs(t, h).Some? && 0 <= i < |Refs(t, h).value| :: WellPlaced(t, h, Refs(t, h).value[i])
  }

  /** `h` is on disk, decodes, and everything it refers to is in `s`. */
  ghost predicate Settled(t: Trie, disk: set<H256>, s: set<H256>, h: H256) {
    && h in disk && Refs(t, h).Some?
    && forall i | 0 <= i < |Refs(t, h).value| ::
         Follows(t.account(h), Refs(t, h).value[i]) ==> In(s, Refs(t, h).value[i].hash)
  }

  predicate In(s: set<H256>, h: H256) {
    h == 0 || h in s
  }

  ghost predicate Closed(t: Trie, disk: set<H256>, s: set<H256>) {
    forall h | h in s :: Settled(t, disk, s, h)
  }

  /** The whole trie under `root`, storage tries included, is on disk. */
  ghost predicate Complete(t: Trie, disk: set<H256>, root: H256) {
    exists s: set<H256> :: In(s, root) && Closed(t, disk, s)
  }

  // ---------------------------------------------------------------------------
  // Mark
  // ---------------------------------------------------------------------------

  /** Depth-first walk; None when a node is missing, unreadable or does not decode. */
  method Walk(t: Trie, disk: set<H256>, root: H256, accounts: bool, live: set<H256>) returns (r: Option<set<H256>>)
    requires Separate(t) && (root == 0 || t.account(root) == accounts)
    ensures r.Some? ==> live <= r.value && In(r.value, root)
    ensures r.Some? ==> forall h | h in r.value && h !in live :: Settled(t, disk, r.value, h)
    ensures forall s | Closed(t, disk, s) && In(s, root) :: r.Some? && r.value <= live + s
    decreases disk - live
  {
    if root == 0 || root in live { return Some(live); }
    if root !in disk { return None; }
    var content := Refs(t, root);
    if content.None? { return None; }
    var refs, i, now := content.value, 0, live + {root};
    while i < |refs|
      invariant 0 <= i <= |refs| && live + {root} <= now
      invariant forall j | 0 <= j < i :: Follows(accounts, refs[j]) ==> In(now, refs[j].hash)
      invariant forall h | h in now && h !in live && h != root :: Settled(t, disk, now, h)
      invariant forall s | Closed(t, disk, s) && root in s :: now <= live + s
    {
      assert WellPlaced(t, root, refs[i]);
      if Follows(accounts, refs[i]) {
        assert forall s | Closed(t, disk, s) && root in s :: Settled(t, disk, s, root);
        var next := Walk(t, disk, refs[i].hash, accounts && refs[i].Child?, now);
        if next.None? { return None; }
        now := next.value;
      }
      i := i + 1;
    }
    assert Settled(t, disk, now, root);
    return Some(now);
  }

  type Checkpoints = seq<(nat, H256)>

  ghost predicate AllIn(s: set<H256>, cps: Checkpoints) {
    forall i | 0 <= i < |cps| :: In(s, cps[i].1)
  }

  /** The least closed set of nodes that holds every checkpoint's root. */
  ghost predicate IsLiveSet(t: Trie, disk: set<H256>, cps: Checkpoints, live: set<H256>) {
    && Closed(t, disk, live) && AllIn(live, cps)
    && forall s: set<H256> | Closed(t, disk, s) && AllIn(s, cps) :: live <= s
  }

  ghost predicate AllComplete(t: Trie, disk: set<H256>, cps: Checkpoints) {
    forall i | 0 <= i < |cps| :: Complete(t, disk, cps[i].1)
  }

  lemma {:induction false} CompleteTogether(t: Trie, disk: set<H256>, cps: Checkpoints) returns (s: set<H256>)
    requires AllComplete(t, disk, cps)
    ensures Closed(t, disk, s) && AllIn(s, cps)
    decreases |cps|
  {
    if cps == [] {
      s := {};
    } else {
      var n := |cps| - 1;
      var rest := CompleteTogether(t, disk, cps[..n]);
      assert Complete(t, disk, cps[n].1);
      var own: set<H256> :| In(own, cps[n].1) && Closed(t, disk, own);
      s := rest + own;
      forall h | h in s ensures Settled(t, disk, s, h) {
        assert Settled(t, disk, rest, h) || Settled(t, disk, own, h);
      }
      forall i | 0 <= i < |cps| ensures In(s, cps[i].1) {
        assert i < n ==> In(rest, cps[..n][i].1);
      }
    }
  }

  /** The mark phase succeeds exactly when every retained trie is complete on disk, and marks no more than it must. */
  method MarkLiveSet(t: Trie, disk: set<H256>, cps: Checkpoints) returns (r: Option<set<H256>>)
    requires Separate(t)
    requires forall i | 0 <= i < |cps| :: cps[i].1 == 0 || t.account(cps[i].1)
    ensures r.Some? <==> AllComplete(t, disk, cps)
    ensures r.Some? ==> IsLiveSet(t, disk, cps, r.value)
  {
    var live: set<H256>, i := {}, 0;
    while i < |cps|
      invariant 0 <= i <= |cps| && Closed(t, disk, live)
      invariant forall j | 0 <= j < i :: In(live, cps[j].1)
      invariant forall s | Closed(t, disk, s) && AllIn(s, cps) :: live <= s
    {
      var next := Walk(t, disk, cps[i].1, true, live);
      if next.None? {
        if AllComplete(t, disk, cps) {
          var s := CompleteTogether(t, disk, cps);
          assert false;
        }
        return None;
      }
      forall h | h in next.value ensures Settled(t, disk, next.value, h) {
        assert h in live ==> Settled(t, disk, live, h);
      }
      live := next.value;
      i := i + 1;
    }
    forall i | 0 <= i < |cps| ensures Complete(t, disk, cps[i].1) { assert In(live, cps[i].1); }
    return Some(live);
  }

  // ---------------------------------------------------------------------------
  // Sweep
  // ---------------------------------------------------------------------------

  ghost predicate Distinct(s: seq<H256>) {
    forall i, j | 0 <= i < j < |s| :: s[i] != s[j]
  }

  function Elements(s: seq<H256>): set<H256> {
    set h | h in s
  }

  lemma {:induction false} DistinctSize(s: seq<H256>)
    requires Distinct(s)
    ensures |Elements(s)| == |s|
    decreases |s|
  {
    if s != [] {
      var n := |s| - 1;
      DistinctSize(s[..n]);
      assert s == s[..n] + [s[n]];
      assert Elements(s) == Elements(s[..n]) + {s[n]};
    }
  }

  /** Deleting distinct stored nodes removes exactly that many. */
  lemma {:induction false} DeletedSize(nodes: set<H256>, batch: seq<H256>)
    requires Distinct(batch) && Elements(batch) <= nodes
    ensures |nodes - Elements(batch)| == |nodes| - |batch|
  {
    DistinctSize(batch);
    assert nodes == (nodes - Elements(batch)) + Elements(batch);
  }

  /** Of the nodes visited so far, only unmarked ones are gone or queued for deletion. */
  ghost predicate Swept(nodes: set<H256>, seen: set<H256>, live: set<H256>, left: set<H256>, queue: set<H256>) {
    && left <= nodes && nodes - left <= seen - live
    && queue <= left && queue <= seen - live
  }

  /** Every unmarked node visited so far is gone or queued. */
  ghost predicate NoneMissed(seen: set<H256>, live: set<H256>, left: set<H256>, queue: set<H256>) {
    forall h | h in seen && h in left :: h in live || h in queue
  }

  ghost predicate AllDeleted(deletes: nat -> bool) {
    forall b: nat :: deletes(b)
  }

  /** What a sweep has done so far: nodes left, nodes queued for the next batch, its counters, batches sent. */
  datatype Books = Books(left: set<H256>, pending: seq<H256>, kept: nat, swept: nat, failed: nat, batches: nat)

  /** The books after the first `i` nodes. */
  ghost predicate Ledger(nodes: set<H256>, order: seq<H256>, live: set<H256>, deletes: nat -> bool, i: nat, b: Books) {
    && i <= |order| && Distinct(b.pending)
    && Swept(nodes, Elements(order[..i]), live, b.left, Elements(b.pending))
    && (AllDeleted(deletes) ==>
          b.failed == 0 && NoneMissed(Elements(order[..i]), live, b.left, Elements(b.pending)))
    && b.kept + b.swept + b.failed + |b.pending| == i && b.swept == |nodes| - |b.left|
  }

  /**
   Sweep in batches: `order` is what the iterator yields before it ends or fails, and `deletes(k)`
   tells whether the k-th batch delete succeeds. Nodes of a failed batch stay on disk.
   */
  method Sweep(nodes: set<H256>, order: seq<H256>, live: set<H256>, batch: nat, deletes: nat -> bool)
    returns (left: set<H256>, kept: nat, swept: nat, failed: nat)
    requires Distinct(order) && Elements(order) <= nodes
    ensures nodes * live <= left <= nodes
    ensures AllDeleted(deletes) && Elements(order) == nodes ==> left == nodes * live && failed == 0
    ensures kept + swept + failed == |order| && swept == |nodes| - |left|
  {
    var books, i := Books(nodes, [], 0, 0, 0, 0), 0;
    while i < |order|
      invariant Ledger(nodes, order, live, deletes, i, books)
    {
      books := Visit(nodes, order, live, batch, deletes, i, books);
      i := i + 1;
    }
    if books.pending != [] { books := Flush(nodes, order, live, deletes, i, books); }
    assert order[..i] == order;
    return books.left, books.kept, books.swept, books.failed;
  }

  /** One node: kept if marked, else queued, and the queue deleted once it is full. */
  method Visit(nodes: set<H256>, order: seq<H256>, live: set<H256>, batch: nat, deletes: nat -> bool, i: nat, b: Books)
    returns (b': Books)
    requires Distinct(order) && Elements(order) <= nodes && i < |order|
    requires Ledger(nodes, order, live, deletes, i, b)
    ensures Ledger(nodes, order, live, deletes, i + 1, b')
  {
    var h := order[i];
    Visited(order, i);
    VisitKeeps(nodes, Elements(order[..i]), live, b.left, Elements(b.pending), h);
    if h in live {
      return b.(kept := b.kept + 1);
    }
    Queued(b.pending, h);
    b' := b.(pending := b.pending + [h]);
    if |b'.pending| >= batch { b' := Flush(nodes, order, live, deletes, i + 1, b'); }
  }

  /** Delete the queued nodes in one batch; a failed batch only counts. */
  method Flush(ghost nodes: set<H256>, ghost order: seq<H256>, ghost live: set<H256>, deletes: nat -> bool,
               ghost i: nat, b: Books)
    returns (b': Books)
    requires Ledger(nodes, order, live, deletes, i, b)
    ensures Ledger(nodes, order, live, deletes, i, b') && b'.pending == []
  {
    FlushKeeps(nodes, Elements(order[..i]), live, b.left, b.pending, deletes(b.batches));
    if deletes(b.batches) {
      DeletedSize(b.left, b.pending);
      return Books(b.left - Elements(b.pending), [], b.kept, b.swept + |b.pending|, b.failed, b.batches + 1);
    }
    return Books(b.left, [], b.kept, b.swept, b.failed + |b.pending|, b.batches + 1);
  }

  /** Deleting the queue, or failing to, keeps the books; deleting it leaves nothing behind. */
  lemma {:induction false} FlushKeeps(nodes: set<H256>, seen: set<H256>, live: set<H256>, left: set<H256>,
                                      queue: seq<H256>, ok: bool)
    requires Swept(nodes, seen, live, left, Elements(queue))
    ensures var left' := if ok then left - Elements(queue) else left;
            && Swept(nodes, seen, live, left', Elements([]))
            && (ok && NoneMissed(seen, live, left, Elements(queue)) ==> NoneMissed(seen, live, left', Elements([])))
  {
    assert Elements([]) == {};
  }

  lemma {:induction false} VisitKeeps(nodes: set<H256>, seen: set<H256>, live: set<H256>, left: set<H256>,
                                      queue: set<H256>, h: H256)
    requires Swept(nodes, seen, live, left, queue) && h in nodes && h !in seen
    ensures var queue' := if h in live then queue else queue + {h};
            && h !in queue
            && Swept(nodes, seen + {h}, live, left, queue')
            && (NoneMissed(seen, live, left, queue) ==> NoneMissed(seen + {h}, live, left, queue'))
  {
    assert h !in nodes - left;
  }

  lemma {:induction false} Visited(order: seq<H256>, i: nat)
    requires Distinct(order) && i < |order|
    ensures Elements(order[..i + 1]) == Elements(order[..i]) + {order[i]}
    ensures order[i] !in Elements(order[..i]) && order[i] in Elements(order)
  {
    assert order[..i + 1] == order[..i] + [order[i]];
  }

  lemma {:induction false} Queued(pending: seq<H256>, h: H256)
    requires Distinct(pending) && h !in Elements(pending)
    ensures Distinct(pending + [h]) && Elements(pending + [h]) == Elements(pending) + {h}
  {
  }

  // ---------------------------------------------------------------------------
  // The retained window
  // ---------------------------------------------------------------------------

  ghost predicate Checkpoint(n: Node, cp: (nat, H256), height: int) {
    cp.0 == height && height in n.blocks && cp.1 == n.blocks[height].header.stateRoot
  }

  ghost predicate Listed(cps: Checkpoints, h: nat) {
    exists i | 0 <= i < |cps| :: cps[i].0 == h
  }

  ghost predicate Rising(cps: Checkpoints) {
    forall i, j | 0 <= i < j < |cps| :: cps[i].0 < cps[j].0
  }

  /** In ascending order, each with the stored block's root: the heights from `from` to the head but the missed. */
  ghost predicate Covers(n: Node, from: nat, missed: set<nat>) {
    && Rising(n.retained)
    && (forall i | 0 <= i < |n.retained| :: Checkpoint(n, n.retained[i], n.retained[i].0))
    && (forall h: nat :: Listed(n.retained, h) <==> from <= h <= n.head && h !in missed)
  }

  /** The list reaches back over the last `retain` heights at least. */
  ghost predicate Window(n: Node, retain: nat, missed: set<nat>) {
    exists from: nat | from <= SatSub(n.head + 1, retain) :: Covers(n, from, missed)
  }

  /** Startup: read the last `retain` blocks back from disk, skipping heights that cannot be read. */
  method SeedWindow(n: Node, retain: nat, unreadable: set<nat>) returns (seeded: Checkpoints)
    ensures forall i | 0 <= i < |seeded| :: seeded[i].0 <= n.head && Checkpoint(n, seeded[i], seeded[i].0)
    ensures Rising(seeded)
    ensures forall i | 0 <= i < |seeded| :: n.head < seeded[i].0 + Max(retain, 1)
    ensures ChainRuns.Contiguous(n) ==> Window(n.(retained := seeded), retain, unreadable)
  {
    var start := SatSub(n.head, SatSub(retain, 1));
    seeded := [];
    var h := start;
    while h <= n.head
      invariant start <= h <= n.head + 1
      invariant Seeded(n, start, h, unreadable, seeded)
    {
      if h in n.blocks && h !in unreadable {
        SeededOn(n, start, h, unreadable, seeded);
        seeded := seeded + [(h, n.blocks[h].header.stateRoot)];
      }
      h := h + 1;
    }
    if ChainRuns.Contiguous(n) { SeededCovers(n, start, unreadable, seeded); }
  }

  /** The readable heights from `start` up to but not including `h`. */
  ghost predicate Seeded(n: Node, start: nat, h: nat, unreadable: set<nat>, cps: Checkpoints) {
    && Rising(cps)
    && (forall i | 0 <= i < |cps| :: cps[i].0 < h && Checkpoint(n, cps[i], cps[i].0))
    && (forall k: nat :: Listed(cps, k) <==> start <= k < h && k in n.blocks && k !in unreadable)
  }

  lemma {:induction false} SeededOn(n: Node, start: nat, h: nat, unreadable: set<nat>, cps: Checkpoints)
    requires Seeded(n, start, h, unreadable, cps) && start <= h && h in n.blocks && h !in unreadable
    ensures Seeded(n, start, h + 1, unreadable, cps + [(h, n.blocks[h].header.stateRoot)])
  {
    ListedLast(cps, (h, n.blocks[h].header.stateRoot));
  }

  lemma {:induction false} SeededCovers(n: Node, start: nat, unreadable: set<nat>, cps: Checkpoints)
    requires ChainRuns.Contiguous(n) && Seeded(n, start, n.head + 1, unreadable, cps)
    ensures Covers(n.(retained := cps), start, unreadable)
  {
    var r := n.(retained := cps);
    forall i | 0 <= i < |cps| ensures Checkpoint(r, cps[i], cps[i].0) { assert Checkpoint(n, cps[i], cps[i].0); }
  }

  lemma {:induction false} ListedLast(cps: Checkpoints, cp: (nat, H256))
    ensures forall h: nat :: Listed(cps + [cp], h) <==> Listed(cps, h) || h == cp.0
  {
    forall h: nat ensures Listed(cps + [cp], h) <==> Listed(cps, h) || h == cp.0 {
      assert (cps + [cp])[|cps|] == cp;
      if i :| 0 <= i < |cps| && cps[i].0 == h { assert (cps + [cp])[i].0 == h; }
    }
  }

  function MaxKeep(retain: nat): nat {
    Max(4 * retain, 64)
  }

  function Trimmed(cps: Checkpoints, keep: nat): Checkpoints {
    if |cps| > keep then cps[|cps| - keep..] else cps
  }

  /** A trim bounds the list by four windows, or 64 entries, and drops only the oldest. */
  lemma {:induction false} TrimBounds(cps: Checkpoints, retain: nat)
    ensures var t := Trimmed(cps, MaxKeep(retain));
            && |t| == Min(|cps|, if 4 * retain > 64 then 4 * retain else 64)
            && t == cps[|cps| - |t|..]
  {
  }

  /** The checkpoints among the last `retain` heights up to `head`. */
  function Snapshot(cps: Checkpoints, retain: nat, head: nat): Checkpoints
    decreases |cps|
  {
    if cps == [] then []
    else Snapshot(cps[..|cps| - 1], retain, head)
         + if SatSub(head + 1, retain) <= cps[|cps| - 1].0 <= head then [cps[|cps| - 1]] else []
  }

  /** The snapshot lists what the list does within those heights, entry for entry. */
  lemma {:induction false} SnapshotListed(cps: Checkpoints, retain: nat, head: nat)
    ensures forall h: nat :: Listed(Snapshot(cps, retain, head), h) <==>
                             Listed(cps, h) && SatSub(head + 1, retain) <= h <= head
    ensures forall j | 0 <= j < |Snapshot(cps, retain, head)| :: Snapshot(cps, retain, head)[j] in cps
    decreases |cps|
  {
    if cps != [] {
      var n := |cps| - 1;
      SnapshotListed(cps[..n], retain, head);
      assert cps == cps[..n] + [cps[n]];
      ListedLast(cps[..n], cps[n]);
      ListedLast(Snapshot(cps[..n], retain, head), cps[n]);
      assert Snapshot(cps[..n], retain, head) + [] == Snapshot(cps[..n], retain, head);
    }
  }
}
