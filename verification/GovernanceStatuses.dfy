/**
 When a proposal's final status depends on which hook runs were lost. Versions never do; a status
 does exactly when a rival for a higher version is inverted against the proposal.
 */
module GovernanceStatuses {
  import opened Prelude
  import opened Governance

  // ---------------------------------------------------------------------------
  // One hook run
  // ---------------------------------------------------------------------------

  lemma {:induction false} ProcessSplit(s: State, a: seq<nat>, b: seq<nat>)
    requires Within(a, |s.proposals|) && Within(b, |s.proposals|)
    ensures Within(a + b, |s.proposals|) && |Process(s, a).proposals| == |s.proposals|
    ensures Process(s, a + b) == Process(Process(s, a), b)
    decreases |a|
  {
    if a == [] {
      assert a + b == b;
    } else {
      var p := s.proposals[a[0]];
      var (m, st) := Promote(s.modules, p);
      var s' := State(m, s.proposals[a[0] := Mark(p, st)]);
      assert Within(a[1..], |s'.proposals|);
      ProcessSplit(s', a[1..], b);
      assert (a + b)[0] == a[0] && (a + b)[1..] == a[1..] + b;
    }
  }

  /** A proposal is judged against the versions its predecessors in the list leave. */
  lemma {:induction false} JudgedInTurn(s: State, ids: seq<nat>, k: nat)
    requires Within(ids, |s.proposals|) && Ascending(ids) && k < |ids| && s.proposals[ids[k]].status.Scheduled?
    ensures Within(ids[..k], |s.proposals|)
    ensures ids[k] < |Process(s, ids).proposals|
    ensures Process(s, ids).proposals[ids[k]].status == Promote(Process(s, ids[..k]).modules, s.proposals[ids[k]]).1
  {
    var i, pre, post := ids[k], ids[..k], ids[k + 1..];
    var mid := Process(s, pre);
    ProcessSplit(s, pre, [i] + post);
    assert ids == pre + ([i] + post);
    ProcessProposals(s, pre, i);
    assert i !in pre && i !in post;
    var (m, st) := Promote(mid.modules, mid.proposals[i]);
    var after := State(m, mid.proposals[i := Mark(mid.proposals[i], st)]);
    assert ([i] + post)[1..] == post;
    assert Process(mid, [i] + post) == Process(after, post);
    ProcessProposals(after, post, i);
  }

  /** `j` asks for a higher version of the module `i` is about. */
  predicate Outbids(ps: seq<Proposal>, j: nat, i: nat)
    requires i < |ps|
  {
    && j < |ps| && ps[j].moduleName == ps[i].moduleName && ps[j].newVersion > ps[i].newVersion
  }

  /** The registry already holds a higher version. */
  predicate Surpassed(m: Modules, p: Proposal) {
    p.moduleName in m && p.newVersion < m[p.moduleName]
  }

  /** A join surpasses a proposal when the start did or one of the offers does. */
  lemma {:induction false} JoinSurpasses(start: Modules, offers: set<Offer>, m: Modules, p: Proposal)
    requires IsJoin(start, offers, m)
    ensures Surpassed(m, p) <==>
            Surpassed(start, p) || exists o | o in offers :: o.0 == p.moduleName && o.1 > p.newVersion
  {
    if Surpassed(m, p) && !Surpassed(start, p) {
      assert (p.moduleName, m[p.moduleName]) in offers;
      var o := (p.moduleName, m[p.moduleName]);
      assert o in offers && o.0 == p.moduleName && o.1 > p.newVersion;
    }
  }

  /** Some ready proposal earlier in the registry outbids `i`. */
  ghost predicate OutbidEarlier(ps: seq<Proposal>, height: nat, i: nat)
    requires i < |ps|
  {
    exists j | 0 <= j < i :: Ready(ps[j], height) && Outbids(ps, j, i)
  }

  lemma {:induction false} EarlierIds(ids: seq<nat>, k: nat, j: nat)
    requires Ascending(ids) && k < |ids|
    ensures j in ids[..k] <==> j in ids && j < ids[k]
  {
    if j in ids && j < ids[k] {
      var x :| 0 <= x < |ids| && ids[x] == j;
      assert x < k && ids[..k][x] == j;
    }
  }

  lemma {:induction false} EarlierOffers(ps: seq<Proposal>, height: nat, i: nat, pre: seq<nat>)
    requires i < |ps| && ValidName(ps[i].moduleName) && Within(pre, |ps|)
    requires forall j :: j in pre <==> 0 <= j < i && Ready(ps[j], height)
    ensures (exists o | o in OffersAt(ps, pre) :: o.0 == ps[i].moduleName && o.1 > ps[i].newVersion)
            <==> OutbidEarlier(ps, height, i)
  {
    if o :| o in OffersAt(ps, pre) && o.0 == ps[i].moduleName && o.1 > ps[i].newVersion {
      OffersAtMember(ps, pre, o);
      var j :| j in pre && o in OfferOf(ps[j]);
      assert Ready(ps[j], height) && Outbids(ps, j, i);
    }
    if OutbidEarlier(ps, height, i) {
      var j :| 0 <= j < i && Ready(ps[j], height) && Outbids(ps, j, i);
      var o := (ps[j].moduleName, ps[j].newVersion);
      OffersAtMember(ps, pre, o);
      assert o in OffersAt(ps, pre) && o.0 == ps[i].moduleName && o.1 > ps[i].newVersion;
    }
  }

  /** What one hook run makes of a ready proposal. */
  lemma {:induction false} HookStatus(s: State, height: nat, i: nat)
    requires i < |s.proposals| && Ready(s.proposals[i], height)
    ensures i < |Hook(s, height).proposals|
    ensures Hook(s, height).proposals[i].status
         == if ValidName(s.proposals[i].moduleName) && !Surpassed(s.modules, s.proposals[i])
               && !OutbidEarlier(s.proposals, height, i)
            then Executed else Failed
  {
    var ids := ReadyFrom(s.proposals, height, 0);
    ReadyInOrder(s.proposals, height, 0);
    assert i in ids;
    var k :| 0 <= k < |ids| && ids[k] == i;
    JudgedInTurn(s, ids, k);
    if ValidName(s.proposals[i].moduleName) {
      ProcessIsJoin(s, ids[..k]);
      JoinSurpasses(s.modules, OffersAt(s.proposals, ids[..k]), Process(s, ids[..k]).modules, s.proposals[i]);
      forall j: nat ensures j in ids[..k] <==> 0 <= j < i && Ready(s.proposals[j], height) { EarlierIds(ids, k, j); }
      EarlierOffers(s.proposals, height, i, ids[..k]);
    }
  }

  // ---------------------------------------------------------------------------
  // Schedules of hook runs
  // ---------------------------------------------------------------------------

  /** A run of `n` blocks without registry events, whose last block runs the hook. */
  ghost predicate Schedule(ticks: seq<Tick>, n: nat) {
    |ticks| == n > 0 && Quiet(ticks) && ticks[n - 1].hookRuns
  }

  ghost predicate Quiet(ticks: seq<Tick>) {
    forall k | 0 <= k < |ticks| :: ticks[k].events == []
  }

  /** The first tick whose hook sees a proposal with this activation height, or the number of ticks. */
  function FirstHook(h0: nat, ticks: seq<Tick>, activation: nat): (k: nat)
    ensures k <= |ticks|
    ensures k < |ticks| ==> ticks[k].hookRuns && activation <= h0 + k + 1
    decreases |ticks|
  {
    if ticks == [] then 0
    else
      var n := |ticks| - 1;
      var k := FirstHook(h0, ticks[..n], activation);
      if k < n then k else if ticks[n].hookRuns && activation <= h0 + |ticks| then n else n + 1
  }

  /** The hook run that decides `j` comes before the turn of `i`. */
  predicate Precedes(h0: nat, ticks: seq<Tick>, ps: seq<Proposal>, j: nat, i: nat)
    requires i < |ps| && j < |ps|
  {
    var a, b := FirstHook(h0, ticks, ps[j].activationBlock), FirstHook(h0, ticks, ps[i].activationBlock);
    a < b || (a == b && j < i)
  }

  /** A scheduled proposal outbids `i` and is decided before it. */
  ghost predicate OutbidInRun(h0: nat, ticks: seq<Tick>, ps: seq<Proposal>, i: nat)
    requires i < |ps|
  {
    exists j | 0 <= j < |ps| :: ps[j].status.Scheduled? && Outbids(ps, j, i) && Precedes(h0, ticks, ps, j, i)
  }

  /** The offers a run has taken up. */
  ghost function Taken(h0: nat, ticks: seq<Tick>, ps: seq<Proposal>): set<Offer> {
    set i | 0 <= i < |ps| && ps[i].status.Scheduled? && ValidName(ps[i].moduleName)
            && FirstHook(h0, ticks, ps[i].activationBlock) < |ticks| :: (ps[i].moduleName, ps[i].newVersion)
  }

  /** What a run has done to proposal `i`, statuses aside. */
  ghost predicate Touched(h0: nat, ticks: seq<Tick>, ps: seq<Proposal>, r: State, i: nat)
    requires i < |ps|
  {
    && i < |r.proposals| && SameBody(ps[i], r.proposals[i])
    && (if ps[i].status.Scheduled? && FirstHook(h0, ticks, ps[i].activationBlock) < |ticks|
        then r.proposals[i].status in {Executed, Failed} else r.proposals[i] == ps[i])
  }

  ghost predicate Progress(h0: nat, ticks: seq<Tick>, s: State, r: State) {
    && |r.proposals| == |s.proposals|
    && (forall i | 0 <= i < |s.proposals| :: Touched(h0, ticks, s.proposals, r, i))
    && IsJoin(s.modules, Taken(h0, ticks, s.proposals), r.modules)
  }

  /** The proposals a further hook run finds ready are those it is the first to see. */
  lemma {:induction false} ReadyNow(h0: nat, ticks: seq<Tick>, s: State, r: State, i: nat)
    requires ticks != [] && i < |s.proposals| && Touched(h0, ticks[..|ticks| - 1], s.proposals, r, i)
    ensures var n := |ticks| - 1;
            ticks[n].hookRuns ==>
              (Ready(r.proposals[i], h0 + |ticks|) <==>
               s.proposals[i].status.Scheduled? && FirstHook(h0, ticks, s.proposals[i].activationBlock) == n)
  {
  }

  lemma {:induction false} TakenGrows(h0: nat, ticks: seq<Tick>, s: State, r: State)
    requires ticks != [] && ticks[|ticks| - 1].hookRuns && Progress(h0, ticks[..|ticks| - 1], s, r)
    ensures Taken(h0, ticks, s.proposals)
         == Taken(h0, ticks[..|ticks| - 1], s.proposals) + Offers(r.proposals, h0 + |ticks|)
  {
    var n, ps := |ticks| - 1, s.proposals;
    var was, more := Taken(h0, ticks[..n], ps), Offers(r.proposals, h0 + |ticks|);
    forall o | o in Taken(h0, ticks, ps) ensures o in was + more {
      var i :| 0 <= i < |ps| && ps[i].status.Scheduled? && ValidName(ps[i].moduleName)
               && FirstHook(h0, ticks, ps[i].activationBlock) < |ticks| && o == (ps[i].moduleName, ps[i].newVersion);
      assert Touched(h0, ticks[..n], ps, r, i);
      ReadyNow(h0, ticks, s, r, i);
      if FirstHook(h0, ticks[..n], ps[i].activationBlock) == n { assert r.proposals[i] in r.proposals; }
    }
    forall o | o in more ensures o in Taken(h0, ticks, ps) {
      var q :| q in r.proposals && Ready(q, h0 + |ticks|) && ValidName(q.moduleName)
               && o == (q.moduleName, q.newVersion);
      var i :| 0 <= i < |r.proposals| && r.proposals[i] == q;
      assert Touched(h0, ticks[..n], ps, r, i);
      ReadyNow(h0, ticks, s, r, i);
    }
  }

  lemma {:induction false} TouchedStep(h0: nat, ticks: seq<Tick>, s: State, r: State, i: nat)
    requires ticks != [] && Quiet(ticks) && i < |s.proposals| && Touched(h0, ticks[..|ticks| - 1], s.proposals, r, i)
    ensures Touched(h0, ticks, s.proposals, Advance(r, h0 + |ticks|, ticks[|ticks| - 1]), i)
  {
    ReadyNow(h0, ticks, s, r, i);
    HookProposals(r, h0 + |ticks|);
  }

  lemma {:induction false} TakenStays(h0: nat, ticks: seq<Tick>, ps: seq<Proposal>)
    requires ticks != [] && !ticks[|ticks| - 1].hookRuns
    ensures Taken(h0, ticks, ps) == Taken(h0, ticks[..|ticks| - 1], ps)
  {
    var n := |ticks| - 1;
    assert forall a: nat :: FirstHook(h0, ticks, a) < |ticks| <==> FirstHook(h0, ticks[..n], a) < n;
  }

  lemma {:induction false} JoinStep(h0: nat, ticks: seq<Tick>, s: State, r: State)
    requires ticks != [] && Quiet(ticks) && Progress(h0, ticks[..|ticks| - 1], s, r)
    ensures IsJoin(s.modules, Taken(h0, ticks, s.proposals), Advance(r, h0 + |ticks|, ticks[|ticks| - 1]).modules)
  {
    var n := |ticks| - 1;
    if ticks[n].hookRuns {
      TakenGrows(h0, ticks, s, r);
      HookIsJoin(r, h0 + |ticks|);
      JoinCompose(s.modules, Taken(h0, ticks[..n], s.proposals), Offers(r.proposals, h0 + |ticks|), r.modules,
                  Hook(r, h0 + |ticks|).modules);
    } else {
      TakenStays(h0, ticks, s.proposals);
    }
  }

  lemma {:induction false} RunProgress(s: State, h0: nat, ticks: seq<Tick>)
    requires Quiet(ticks)
    ensures Progress(h0, ticks, s, Run(s, h0, ticks))
    decreases |ticks|
  {
    if ticks == [] {
      assert Taken(h0, ticks, s.proposals) == {};
    } else {
      var n := |ticks| - 1;
      var r := Run(s, h0, ticks[..n]);
      RunProgress(s, h0, ticks[..n]);
      forall i | 0 <= i < |s.proposals| ensures Touched(h0, ticks, s.proposals, Run(s, h0, ticks), i) {
        TouchedStep(h0, ticks, s, r, i);
      }
      assert |Run(s, h0, ticks).proposals| == |s.proposals| by { HookProposals(r, h0 + |ticks|); }
      JoinStep(h0, ticks, s, r);
    }
  }

  // ---------------------------------------------------------------------------
  // The status a run gives
  // ---------------------------------------------------------------------------

  /** The offers taken up outbid `i`. */
  ghost predicate OutbidByTaken(h0: nat, ticks: seq<Tick>, ps: seq<Proposal>, i: nat)
    requires i < |ps|
  {
    exists o | o in Taken(h0, ticks, ps) :: o.0 == ps[i].moduleName && o.1 > ps[i].newVersion
  }

  lemma {:induction false} OutbidFound(h0: nat, ticks: seq<Tick>, s: State, r: State, i: nat, j: nat)
    requires ticks != [] && ticks[|ticks| - 1].hookRuns && Progress(h0, ticks[..|ticks| - 1], s, r)
    requires i < |s.proposals| && ValidName(s.proposals[i].moduleName)
    requires FirstHook(h0, ticks, s.proposals[i].activationBlock) == |ticks| - 1
    requires j < |s.proposals| && s.proposals[j].status.Scheduled? && Outbids(s.proposals, j, i)
    requires Precedes(h0, ticks, s.proposals, j, i)
    ensures OutbidByTaken(h0, ticks[..|ticks| - 1], s.proposals, i) || OutbidEarlier(r.proposals, h0 + |ticks|, i)
  {
    var n, ps := |ticks| - 1, s.proposals;
    assert Touched(h0, ticks[..n], ps, r, i) && Touched(h0, ticks[..n], ps, r, j);
    ReadyNow(h0, ticks, s, r, j);
    if FirstHook(h0, ticks, ps[j].activationBlock) < n {
      var o := (ps[j].moduleName, ps[j].newVersion);
      assert o in Taken(h0, ticks[..n], ps) && o.0 == ps[i].moduleName && o.1 > ps[i].newVersion;
    } else {
      assert Ready(r.proposals[j], h0 + |ticks|) && Outbids(r.proposals, j, i);
    }
  }

  lemma {:induction false} TakenOutbids(h0: nat, ticks: seq<Tick>, ps: seq<Proposal>, i: nat)
    requires ticks != [] && i < |ps| && FirstHook(h0, ticks, ps[i].activationBlock) == |ticks| - 1
    requires OutbidByTaken(h0, ticks[..|ticks| - 1], ps, i)
    ensures OutbidInRun(h0, ticks, ps, i)
  {
    var n := |ticks| - 1;
    var o :| o in Taken(h0, ticks[..n], ps) && o.0 == ps[i].moduleName && o.1 > ps[i].newVersion;
    var j :| 0 <= j < |ps| && ps[j].status.Scheduled? && ValidName(ps[j].moduleName)
             && FirstHook(h0, ticks[..n], ps[j].activationBlock) < n && o == (ps[j].moduleName, ps[j].newVersion);
    assert Outbids(ps, j, i) && Precedes(h0, ticks, ps, j, i);
  }

  lemma {:induction false} EarlierOutbids(h0: nat, ticks: seq<Tick>, s: State, r: State, i: nat)
    requires ticks != [] && ticks[|ticks| - 1].hookRuns && Progress(h0, ticks[..|ticks| - 1], s, r)
    requires i < |s.proposals| && FirstHook(h0, ticks, s.proposals[i].activationBlock) == |ticks| - 1
    requires OutbidEarlier(r.proposals, h0 + |ticks|, i)
    ensures OutbidInRun(h0, ticks, s.proposals, i)
  {
    var n, ps := |ticks| - 1, s.proposals;
    var j :| 0 <= j < i && Ready(r.proposals[j], h0 + |ticks|) && Outbids(r.proposals, j, i);
    assert Touched(h0, ticks[..n], ps, r, i) && Touched(h0, ticks[..n], ps, r, j);
    ReadyNow(h0, ticks, s, r, j);
    assert Outbids(ps, j, i) && Precedes(h0, ticks, ps, j, i);
  }

  /** At the hook run that decides `i`: outbid by what was taken up before, or by an earlier one in this run. */
  lemma {:induction false} OutbidSplit(h0: nat, ticks: seq<Tick>, s: State, r: State, i: nat)
    requires ticks != [] && ticks[|ticks| - 1].hookRuns && Progress(h0, ticks[..|ticks| - 1], s, r)
    requires i < |s.proposals| && ValidName(s.proposals[i].moduleName)
    requires FirstHook(h0, ticks, s.proposals[i].activationBlock) == |ticks| - 1
    ensures OutbidInRun(h0, ticks, s.proposals, i) <==>
            OutbidByTaken(h0, ticks[..|ticks| - 1], s.proposals, i) || OutbidEarlier(r.proposals, h0 + |ticks|, i)
  {
    var ps := s.proposals;
    if OutbidInRun(h0, ticks, ps, i) {
      var j :| 0 <= j < |ps| && ps[j].status.Scheduled? && Outbids(ps, j, i) && Precedes(h0, ticks, ps, j, i);
      OutbidFound(h0, ticks, s, r, i, j);
    }
    if OutbidByTaken(h0, ticks[..|ticks| - 1], ps, i) { TakenOutbids(h0, ticks, ps, i); }
    if OutbidEarlier(r.proposals, h0 + |ticks|, i) { EarlierOutbids(h0, ticks, s, r, i); }
  }

  /** Once `i` is decided, later ticks do not change what came before it. */
  lemma {:induction false} OutbidStays(h0: nat, ticks: seq<Tick>, ps: seq<Proposal>, i: nat)
    requires ticks != [] && i < |ps| && FirstHook(h0, ticks[..|ticks| - 1], ps[i].activationBlock) < |ticks| - 1
    ensures OutbidInRun(h0, ticks, ps, i) <==> OutbidInRun(h0, ticks[..|ticks| - 1], ps, i)
  {
    var n := |ticks| - 1;
    forall j | 0 <= j < |ps| ensures Precedes(h0, ticks, ps, j, i) <==> Precedes(h0, ticks[..n], ps, j, i) {
      assert FirstHook(h0, ticks, ps[j].activationBlock) == FirstHook(h0, ticks[..n], ps[j].activationBlock)
          || FirstHook(h0, ticks, ps[j].activationBlock) >= n;
    }
  }

  ghost predicate Succeeds(s: State, h0: nat, ticks: seq<Tick>, i: nat)
    requires i < |s.proposals|
  {
    && ValidName(s.proposals[i].moduleName) && !Surpassed(s.modules, s.proposals[i])
    && !OutbidInRun(h0, ticks, s.proposals, i)
  }

  /**
   The status a quiet schedule gives: a decided proposal is executed exactly when its name is valid, the
   starting registry does not surpass it and no scheduled proposal decided before it outbids it.
   */
  lemma {:induction false} QuietStatus(s: State, h0: nat, ticks: seq<Tick>, i: nat)
    requires Quiet(ticks) && i < |s.proposals| && s.proposals[i].status.Scheduled?
    requires FirstHook(h0, ticks, s.proposals[i].activationBlock) < |ticks|
    ensures i < |Run(s, h0, ticks).proposals|
    ensures Run(s, h0, ticks).proposals[i].status == if Succeeds(s, h0, ticks, i) then Executed else Failed
    decreases |ticks|
  {
    var n, p := |ticks| - 1, s.proposals[i];
    var r := Run(s, h0, ticks[..n]);
    RunProgress(s, h0, ticks[..n]);
    assert Touched(h0, ticks[..n], s.proposals, r, i);
    HookProposals(r, h0 + |ticks|);
    if FirstHook(h0, ticks[..n], p.activationBlock) < n {
      QuietStatus(s, h0, ticks[..n], i);
      OutbidStays(h0, ticks, s.proposals, i);
    } else {
      HookStatus(r, h0 + |ticks|, i);
      if ValidName(p.moduleName) {
        JoinSurpasses(s.modules, Taken(h0, ticks[..n], s.proposals), r.modules, p);
        OutbidSplit(h0, ticks, s, r, i);
      }
    }
  }

  // ---------------------------------------------------------------------------
  // Which statuses are independent of the schedule
  // ---------------------------------------------------------------------------

  /** Tick `k` runs the hook at a height the proposal has reached. */
  predicate Sees(h0: nat, ticks: seq<Tick>, activation: nat, k: nat) {
    k < |ticks| && ticks[k].hookRuns && activation <= h0 + k + 1
  }

  lemma {:induction false} NoneBeforeFirst(h0: nat, ticks: seq<Tick>, activation: nat, k: nat)
    requires k < FirstHook(h0, ticks, activation)
    ensures !Sees(h0, ticks, activation, k)
    decreases |ticks|
  {
    var n := |ticks| - 1;
    if k < FirstHook(h0, ticks[..n], activation) { NoneBeforeFirst(h0, ticks[..n], activation, k); }
  }

  lemma {:induction false} FirstHookIs(h0: nat, ticks: seq<Tick>, activation: nat, k: nat)
    requires Sees(h0, ticks, activation, k) && forall m: nat | m < k :: !Sees(h0, ticks, activation, m)
    ensures FirstHook(h0, ticks, activation) == k
  {
    var f := FirstHook(h0, ticks, activation);
    if k < f {
      NoneBeforeFirst(h0, ticks, activation, k);
      assert false;
    }
    assert f < k ==> Sees(h0, ticks, activation, f);
  }

  /** The first height of the run at which a proposal can be ready. */
  function Act(h0: nat, p: Proposal): nat {
    Max(p.activationBlock, h0 + 1)
  }

  lemma {:induction false} EarlierActFirst(h0: nat, ticks: seq<Tick>, p: Proposal, q: Proposal)
    requires Act(h0, p) <= Act(h0, q)
    ensures FirstHook(h0, ticks, p.activationBlock) <= FirstHook(h0, ticks, q.activationBlock)
  {
    var f, g := FirstHook(h0, ticks, p.activationBlock), FirstHook(h0, ticks, q.activationBlock);
    if g < f {
      NoneBeforeFirst(h0, ticks, p.activationBlock, g);
      assert false;
    }
  }

  /** `j` comes before `i` in the registry but later in time, or the other way round. */
  predicate Inverted(h0: nat, ps: seq<Proposal>, j: nat, i: nat)
    requires i < |ps| && j < |ps|
  {
    (j < i && Act(h0, ps[j]) > Act(h0, ps[i])) || (j > i && Act(h0, ps[j]) < Act(h0, ps[i]))
  }

  /** A rival for a higher version that is due by height `n`. */
  predicate Rival(ps: seq<Proposal>, n: nat, j: nat, i: nat)
    requires i < |ps|
  {
    Outbids(ps, j, i) && Ready(ps[j], n)
  }

  /** Some rival is ahead of `i` in the registry and in time. */
  ghost predicate Dominated(h0: nat, ps: seq<Proposal>, n: nat, i: nat)
    requires i < |ps|
  {
    exists j | 0 <= j < |ps| :: Rival(ps, n, j, i) && j < i && Act(h0, ps[j]) <= Act(h0, ps[i])
  }

  ghost predicate Contested(h0: nat, ps: seq<Proposal>, n: nat, i: nat)
    requires i < |ps|
  {
    exists j | 0 <= j < |ps| :: Rival(ps, n, j, i) && Inverted(h0, ps, j, i)
  }

  /** Read off the registry: nothing about `i` is open, or no rival is inverted against it. */
  ghost predicate Decided(s: State, h0: nat, n: nat, i: nat)
    requires i < |s.proposals|
  {
    || !Ready(s.proposals[i], n)
    || !ValidName(s.proposals[i].moduleName)
    || Surpassed(s.modules, s.proposals[i])
    || Dominated(h0, s.proposals, n, i)
    || !Contested(h0, s.proposals, n, i)
  }

  /** The one status a decided proposal can end with. */
  ghost function FixedStatus(s: State, h0: nat, n: nat, i: nat): Status
    requires i < |s.proposals|
  {
    if !Ready(s.proposals[i], n) then s.proposals[i].status
    else if ValidName(s.proposals[i].moduleName) && !Surpassed(s.modules, s.proposals[i])
            && !Dominated(h0, s.proposals, n, i)
    then Executed else Failed
  }

  /** A schedule decides every proposal due by its end. */
  lemma {:induction false} DueIsSeen(h0: nat, ticks: seq<Tick>, activation: nat)
    requires Schedule(ticks, |ticks|)
    ensures FirstHook(h0, ticks, activation) < |ticks| <==> activation <= h0 + |ticks|
  {
    var n := |ticks| - 1;
    if n < FirstHook(h0, ticks, activation) { NoneBeforeFirst(h0, ticks, activation, n); }
  }

  lemma {:induction false} DominatedIsOutbid(h0: nat, ticks: seq<Tick>, ps: seq<Proposal>, i: nat)
    requires i < |ps| && Dominated(h0, ps, h0 + |ticks|, i)
    ensures OutbidInRun(h0, ticks, ps, i)
  {
    var j :| 0 <= j < |ps| && Rival(ps, h0 + |ticks|, j, i) && j < i && Act(h0, ps[j]) <= Act(h0, ps[i]);
    EarlierActFirst(h0, ticks, ps[j], ps[i]);
    assert ps[j].status.Scheduled? && Outbids(ps, j, i) && Precedes(h0, ticks, ps, j, i);
  }

  lemma {:induction false} OutbidIsDominatedOrContested(h0: nat, ticks: seq<Tick>, ps: seq<Proposal>, i: nat)
    requires Schedule(ticks, |ticks|) && i < |ps| && Ready(ps[i], h0 + |ticks|) && OutbidInRun(h0, ticks, ps, i)
    ensures Dominated(h0, ps, h0 + |ticks|, i) || Contested(h0, ps, h0 + |ticks|, i)
  {
    var n := h0 + |ticks|;
    var j :| 0 <= j < |ps| && ps[j].status.Scheduled? && Outbids(ps, j, i) && Precedes(h0, ticks, ps, j, i);
    DueIsSeen(h0, ticks, ps[i].activationBlock);
    DueIsSeen(h0, ticks, ps[j].activationBlock);
    assert Rival(ps, n, j, i);
    if j > i && Act(h0, ps[j]) >= Act(h0, ps[i]) { EarlierActFirst(h0, ticks, ps[i], ps[j]); }
    assert Inverted(h0, ps, j, i) || (j < i && Act(h0, ps[j]) <= Act(h0, ps[i]));
  }

  /** Under every schedule a decided proposal ends with the same status. */
  lemma {:induction false} DecidedStatus(s: State, h0: nat, ticks: seq<Tick>, i: nat)
    requires Schedule(ticks, |ticks|) && i < |s.proposals| && Decided(s, h0, h0 + |ticks|, i)
    ensures i < |Run(s, h0, ticks).proposals|
    ensures Run(s, h0, ticks).proposals[i].status == FixedStatus(s, h0, h0 + |ticks|, i)
  {
    var n := h0 + |ticks|;
    DueIsSeen(h0, ticks, s.proposals[i].activationBlock);
    if Ready(s.proposals[i], n) {
      QuietStatus(s, h0, ticks, i);
      if Dominated(h0, s.proposals, n, i) { DominatedIsOutbid(h0, ticks, s.proposals, i); }
      else if OutbidInRun(h0, ticks, s.proposals, i) { OutbidIsDominatedOrContested(h0, ticks, s.proposals, i); }
    } else {
      RunProgress(s, h0, ticks);
      assert Touched(h0, ticks, s.proposals, Run(s, h0, ticks), i);
    }
  }

  /** The schedule that runs the hook at tick `x` and at the last tick only. */
  function Twice(n: nat, x: nat): (ticks: seq<Tick>)
    requires x < n
    ensures |ticks| == n
    ensures forall k | 0 <= k < n :: ticks[k] == Tick([], k == x || k == n - 1)
  {
    seq(n, k requires 0 <= k < n => Tick([], k == x || k == n - 1))
  }

  lemma {:induction false} FirstOfTwice(h0: nat, n: nat, x: nat, activation: nat)
    requires x < n && activation <= h0 + n
    ensures FirstHook(h0, Twice(n, x), activation) == if activation <= h0 + x + 1 then x else n - 1
  {
    FirstHookIs(h0, Twice(n, x), activation, if activation <= h0 + x + 1 then x else n - 1);
  }

  /** Run as soon as `i` can be ready: executed, unless a rival is ahead in registry and time. */
  lemma {:induction false} PromptExecutes(s: State, h0: nat, n: nat, i: nat)
    requires n > 0 && i < |s.proposals| && Ready(s.proposals[i], h0 + n) && ValidName(s.proposals[i].moduleName)
    requires !Surpassed(s.modules, s.proposals[i]) && !Dominated(h0, s.proposals, h0 + n, i)
    ensures var ticks := Twice(n, Act(h0, s.proposals[i]) - h0 - 1);
            i < |Run(s, h0, ticks).proposals| && Run(s, h0, ticks).proposals[i].status == Executed
  {
    var ps, x := s.proposals, Act(h0, s.proposals[i]) - h0 - 1;
    var ticks := Twice(n, x);
    FirstOfTwice(h0, n, x, ps[i].activationBlock);
    QuietStatus(s, h0, ticks, i);
    if OutbidInRun(h0, ticks, ps, i) { PromptlyOutbid(h0, n, ps, i); }
  }

  /** What gets ahead of a prompt run is ahead in registry and time. */
  lemma {:induction false} PromptlyOutbid(h0: nat, n: nat, ps: seq<Proposal>, i: nat)
    requires i < |ps| && Ready(ps[i], h0 + n) && Act(h0, ps[i]) - h0 <= n
    requires OutbidInRun(h0, Twice(n, Act(h0, ps[i]) - h0 - 1), ps, i)
    ensures Dominated(h0, ps, h0 + n, i)
  {
    var x := Act(h0, ps[i]) - h0 - 1;
    var ticks := Twice(n, x);
    FirstOfTwice(h0, n, x, ps[i].activationBlock);
    var j :| 0 <= j < |ps| && ps[j].status.Scheduled? && Outbids(ps, j, i) && Precedes(h0, ticks, ps, j, i);
    var f := FirstHook(h0, ticks, ps[j].activationBlock);
    assert f == x && j < i && ps[j].activationBlock <= h0 + x + 1;
    assert Rival(ps, h0 + n, j, i) && Act(h0, ps[j]) <= Act(h0, ps[i]);
  }

  /** An inverted rival gets ahead if the hook waits to the end, or runs when only the rival is ready. */
  lemma {:induction false} RivalFails(s: State, h0: nat, n: nat, j: nat, i: nat)
    requires n > 0 && i < |s.proposals| && Ready(s.proposals[i], h0 + n) && ValidName(s.proposals[i].moduleName)
    requires Rival(s.proposals, h0 + n, j, i) && Inverted(h0, s.proposals, j, i)
    ensures var x := if j < i then n - 1 else Act(h0, s.proposals[j]) - h0 - 1;
            && x < n && i < |Run(s, h0, Twice(n, x)).proposals|
            && Run(s, h0, Twice(n, x)).proposals[i].status == Failed
  {
    var ps, x := s.proposals, if j < i then n - 1 else Act(h0, s.proposals[j]) - h0 - 1;
    FirstOfTwice(h0, n, x, ps[i].activationBlock);
    FirstOfTwice(h0, n, x, ps[j].activationBlock);
    assert Precedes(h0, Twice(n, x), ps, j, i);
    QuietStatus(s, h0, Twice(n, x), i);
  }

  /** Without registry events: the final status is the same under every schedule if and only if it is decided. */
  lemma {:induction false} QuietStatusIff(s: State, h0: nat, n: nat, i: nat)
    requires n > 0 && i < |s.proposals|
    ensures (forall a, b | Schedule(a, n) && Schedule(b, n) :: SameUnder(s, h0, a, b, i)) <==> Decided(s, h0, h0 + n, i)
  {
    if Decided(s, h0, h0 + n, i) {
      forall a, b | Schedule(a, n) && Schedule(b, n) ensures SameUnder(s, h0, a, b, i) {
        DecidedStatus(s, h0, a, i);
        DecidedStatus(s, h0, b, i);
      }
    } else {
      var ps := s.proposals;
      var j :| 0 <= j < |ps| && Rival(ps, h0 + n, j, i) && Inverted(h0, ps, j, i);
      var x, y := Act(h0, ps[i]) - h0 - 1, if j < i then n - 1 else Act(h0, ps[j]) - h0 - 1;
      PromptExecutes(s, h0, n, i);
      RivalFails(s, h0, n, j, i);
      assert Schedule(Twice(n, x), n) && Schedule(Twice(n, y), n);
      assert !SameUnder(s, h0, Twice(n, x), Twice(n, y), i);
    }
  }

  // ---------------------------------------------------------------------------
  // Registry events: a later event and an earlier hook run can change places
  // ---------------------------------------------------------------------------

  /** A hook run treats a proposal alike wherever the same earlier rivals are ready. */
  lemma {:induction false} TreatedAlike(s: State, t: State, height: nat, i: nat, j: nat)
    requires s.modules == t.modules && i < |s.proposals| && j < |t.proposals| && s.proposals[i] == t.proposals[j]
    requires OutbidEarlier(s.proposals, height, i) <==> OutbidEarlier(t.proposals, height, j)
    ensures i < |Hook(s, height).proposals| && j < |Hook(t, height).proposals|
    ensures Hook(s, height).proposals[i] == Hook(t, height).proposals[j]
  {
    HookProposals(s, height);
    HookProposals(t, height);
    if Ready(s.proposals[i], height) {
      HookStatus(s, height, i);
      HookStatus(t, height, j);
    }
  }

  lemma {:induction false} SameOffersSameModules(s: State, t: State, height: nat)
    requires s.modules == t.modules && Offers(s.proposals, height) == Offers(t.proposals, height)
    ensures Hook(s, height).modules == Hook(t, height).modules
  {
    HookIsJoin(s, height);
    HookIsJoin(t, height);
    JoinUnique(s.modules, Offers(s.proposals, height), Hook(s, height).modules, Hook(t, height).modules);
  }

  /** Where position `i` goes when something is put at position `k`. */
  function Shift(k: nat, i: nat): nat {
    if i < k then i else i + 1
  }

  /** `qs` is `ps` with a pending proposal put at position `k`. */
  ghost predicate Widened(ps: seq<Proposal>, qs: seq<Proposal>, k: nat) {
    && k <= |ps| && |qs| == |ps| + 1 && qs[k].status.Pending?
    && forall i: nat | i < |ps| :: qs[Shift(k, i)] == ps[i]
  }

  lemma {:induction false} OutbidWidened(ps: seq<Proposal>, qs: seq<Proposal>, k: nat, height: nat, i: nat)
    requires Widened(ps, qs, k) && i < |ps|
    ensures OutbidEarlier(qs, height, Shift(k, i)) <==> OutbidEarlier(ps, height, i)
  {
    if OutbidEarlier(ps, height, i) {
      var j :| 0 <= j < i && Ready(ps[j], height) && Outbids(ps, j, i);
      assert Ready(qs[Shift(k, j)], height) && Outbids(qs, Shift(k, j), Shift(k, i));
    }
    if OutbidEarlier(qs, height, Shift(k, i)) {
      var j :| 0 <= j < Shift(k, i) && Ready(qs[j], height) && Outbids(qs, j, Shift(k, i));
      var j' := if j < k then j else j - 1;
      assert j == Shift(k, j') && Ready(ps[j'], height) && Outbids(ps, j', i);
    }
  }

  /** A hook run passes over what was put in. */
  lemma {:induction false} HookWidened(s: State, t: State, k: nat, height: nat)
    requires s.modules == t.modules && Widened(s.proposals, t.proposals, k)
    ensures Widened(Hook(s, height).proposals, Hook(t, height).proposals, k)
    ensures Hook(t, height).proposals[k] == t.proposals[k]
  {
    HookProposals(s, height);
    HookProposals(t, height);
    forall i: nat | i < |s.proposals|
      ensures Hook(t, height).proposals[Shift(k, i)] == Hook(s, height).proposals[i]
    {
      OutbidWidened(s.proposals, t.proposals, k, height, i);
      TreatedAlike(s, t, height, i, Shift(k, i));
    }
  }

  lemma {:induction false} InsertedWidened(ps: seq<Proposal>, p: Proposal)
    requires !Known(ps, p.id)
    ensures Widened(ps, Inserted(ps, p), PlaceOf(ps, p.id))
    ensures Inserted(ps, p)[PlaceOf(ps, p.id)] == p.(status := Pending)
  {
  }

  lemma {:induction false} WidenedUnique(ps: seq<Proposal>, a: seq<Proposal>, b: seq<Proposal>, k: nat)
    requires Widened(ps, a, k) && Widened(ps, b, k) && a[k] == b[k]
    ensures a == b
  {
    forall j: nat | j < |a| ensures a[j] == b[j] {
      if j != k { assert j == Shift(k, if j < k then j else j - 1); }
    }
  }

  lemma {:induction false} SubmitCommutes(s: State, height: nat, later: nat, p: Proposal)
    ensures Env(Hook(s, height), later, Submit(p)) == Hook(Env(s, later, Submit(p)), height)
  {
    var ps, r, t := s.proposals, Hook(s, height), Env(s, later, Submit(p));
    HookProposals(s, height);
    assert forall i | 0 <= i < |ps| :: ps[i].id == r.proposals[i].id;
    SamePlace(ps, r.proposals, p.id);
    if !Known(ps, p.id) {
      var k := PlaceOf(ps, p.id);
      InsertedWidened(ps, p);
      InsertedWidened(r.proposals, p);
      HookWidened(s, t, k, height);
      WidenedUnique(r.proposals, Inserted(r.proposals, p), Hook(t, height).proposals, k);
      SubmitOffers(ps, p, height);
      SameOffersSameModules(s, t, height);
    }
  }

  /** `qs` is `ps` but for one proposal, which is ready in neither. */
  ghost predicate Differs(ps: seq<Proposal>, qs: seq<Proposal>, k: nat, height: nat) {
    && k < |ps| && |qs| == |ps| && !Ready(ps[k], height) && !Ready(qs[k], height)
    && forall i | 0 <= i < |ps| && i != k :: qs[i] == ps[i]
  }

  lemma {:induction false} OutbidDiffers(ps: seq<Proposal>, qs: seq<Proposal>, k: nat, height: nat, i: nat)
    requires Differs(ps, qs, k, height) && i < |ps| && i != k
    ensures OutbidEarlier(qs, height, i) <==> OutbidEarlier(ps, height, i)
  {
    if OutbidEarlier(ps, height, i) {
      var j :| 0 <= j < i && Ready(ps[j], height) && Outbids(ps, j, i);
      assert Ready(qs[j], height) && Outbids(qs, j, i);
    }
    if OutbidEarlier(qs, height, i) {
      var j :| 0 <= j < i && Ready(qs[j], height) && Outbids(qs, j, i);
      assert Ready(ps[j], height) && Outbids(ps, j, i);
    }
  }

  lemma {:induction false} OffersDiffer(ps: seq<Proposal>, qs: seq<Proposal>, k: nat, height: nat)
    requires Differs(ps, qs, k, height)
    ensures Offers(ps, height) == Offers(qs, height)
  {
    forall p ensures p in ps && Ready(p, height) <==> p in qs && Ready(p, height) {
      if p in ps && Ready(p, height) {
        var i :| 0 <= i < |ps| && ps[i] == p;
        assert qs[i] == p;
      }
      if p in qs && Ready(p, height) {
        var i :| 0 <= i < |qs| && qs[i] == p;
        assert ps[i] == p;
      }
    }
  }

  /** A proposal is finalised before its activation height, so no earlier hook run could have seen it. */
  lemma {:induction false} FinalizeCommutes(s: State, height: nat, later: nat, k: nat, majority: bool)
    requires height < later
    ensures Env(Hook(s, height), later, Finalize(k, majority)) == Hook(Env(s, later, Finalize(k, majority)), height)
  {
    var ps, t := s.proposals, Env(s, later, Finalize(k, majority));
    var r, q := Env(Hook(s, height), later, Finalize(k, majority)), Hook(t, height);
    HookProposals(s, height);
    if k < |ps| && ps[k].status.Pending? {
      HookProposals(t, height);
      assert Differs(ps, t.proposals, k, height);
      OffersDiffer(ps, t.proposals, k, height);
      SameOffersSameModules(s, t, height);
      forall i: nat | i < |ps| ensures r.proposals[i] == q.proposals[i] {
        if i != k {
          OutbidDiffers(ps, t.proposals, k, height, i);
          TreatedAlike(s, t, height, i, i);
        }
      }
      assert r.proposals == q.proposals;
    }
  }

  lemma {:induction false} EventCommutes(s: State, height: nat, later: nat, e: Event)
    requires height < later
    ensures Env(Hook(s, height), later, e) == Hook(Env(s, later, e), height)
  {
    match e
    case Submit(p) => SubmitCommutes(s, height, later, p);
    case Finalize(k, majority) => FinalizeCommutes(s, height, later, k, majority);
  }

  lemma {:induction false} EventsCommute(s: State, height: nat, later: nat, es: seq<Event>)
    requires height < later
    ensures EnvAll(Hook(s, height), later, es) == Hook(EnvAll(s, later, es), height)
    decreases |es|
  {
    if es != [] {
      EventCommutes(s, height, later, es[0]);
      EventsCommute(Env(s, later, es[0]), height, later, es[1..]);
    }
  }

  /** Events at a height after a quiet run can just as well come before it. */
  lemma {:induction false} EventsBefore(s: State, h0: nat, ticks: seq<Tick>, later: nat, es: seq<Event>)
    requires Quiet(ticks) && h0 + |ticks| < later
    ensures EnvAll(Run(s, h0, ticks), later, es) == Run(EnvAll(s, later, es), h0, ticks)
    decreases |ticks|
  {
    if ticks != [] {
      var n := |ticks| - 1;
      var r := Run(s, h0, ticks[..n]);
      EventsBefore(s, h0, ticks[..n], later, es);
      assert ticks[n].events == [];
      if ticks[n].hookRuns { EventsCommute(r, h0 + |ticks|, later, es); }
    }
  }

  /** The hook runs of a schedule, without the events. */
  function Hushed(ticks: seq<Tick>): (r: seq<Tick>)
    ensures |r| == |ticks|
    ensures forall k | 0 <= k < |r| :: r[k] == Tick([], ticks[k].hookRuns)
  {
    seq(|ticks|, k requires 0 <= k < |ticks| => Tick([], ticks[k].hookRuns))
  }

  /** The state all the events of a run lead to when no hook runs. */
  function Registered(s: State, h0: nat, ticks: seq<Tick>): State {
    Run(s, h0, EventsOnly(ticks))
  }

  /** A run ends in the state of one in which all its events came first. */
  lemma {:induction false} EventsFirst(s: State, h0: nat, ticks: seq<Tick>)
    ensures Run(s, h0, ticks) == Run(Registered(s, h0, ticks), h0, Hushed(ticks))
    decreases |ticks|
  {
    if ticks != [] {
      var n, later := |ticks| - 1, h0 + |ticks|;
      var before := Registered(s, h0, ticks[..n]);
      EventsFirst(s, h0, ticks[..n]);
      EventsBefore(before, h0, Hushed(ticks[..n]), later, ticks[n].events);
      RegisteredLast(s, h0, ticks);
      HushedLast(Registered(s, h0, ticks), h0, ticks);
    }
  }

  lemma {:induction false} RegisteredLast(s: State, h0: nat, ticks: seq<Tick>)
    requires ticks != []
    ensures Registered(s, h0, ticks)
         == EnvAll(Registered(s, h0, ticks[..|ticks| - 1]), h0 + |ticks|, ticks[|ticks| - 1].events)
  {
    assert EventsOnly(ticks)[..|ticks| - 1] == EventsOnly(ticks[..|ticks| - 1]);
  }

  lemma {:induction false} HushedLast(s: State, h0: nat, ticks: seq<Tick>)
    requires ticks != []
    ensures var r := Run(s, h0, Hushed(ticks[..|ticks| - 1]));
            Run(s, h0, Hushed(ticks)) == if ticks[|ticks| - 1].hookRuns then Hook(r, h0 + |ticks|) else r
  {
    assert Hushed(ticks)[..|ticks| - 1] == Hushed(ticks[..|ticks| - 1]);
  }

  /**
   The status any run gives a proposal it decides: executed exactly when its name is valid, the starting
   registry does not surpass it and nothing scheduled that is decided before it outbids it.
   */
  lemma {:induction false} StatusInRun(s: State, h0: nat, ticks: seq<Tick>, i: nat)
    requires i < |Registered(s, h0, ticks).proposals| && Registered(s, h0, ticks).proposals[i].status.Scheduled?
    requires FirstHook(h0, Hushed(ticks), Registered(s, h0, ticks).proposals[i].activationBlock) < |ticks|
    ensures i < |Run(s, h0, ticks).proposals|
    ensures Run(s, h0, ticks).proposals[i].status
         == if Succeeds(Registered(s, h0, ticks), h0, Hushed(ticks), i) then Executed else Failed
  {
    EventsFirst(s, h0, ticks);
    QuietStatus(Registered(s, h0, ticks), h0, Hushed(ticks), i);
  }

  // ---------------------------------------------------------------------------
  // Schedules over any events
  // ---------------------------------------------------------------------------

  /** A run over these blocks' events, whose last block runs the hook. */
  ghost predicate ScheduleOf(ticks: seq<Tick>, events: seq<seq<Event>>) {
    && |ticks| == |events| > 0 && ticks[|ticks| - 1].hookRuns
    && forall k | 0 <= k < |ticks| :: ticks[k].events == events[k]
  }

  /** These events without any hook run. */
  function Unhooked(events: seq<seq<Event>>): (r: seq<Tick>)
    ensures |r| == |events| && forall k | 0 <= k < |r| :: r[k] == Tick(events[k], false)
  {
    seq(|events|, k requires 0 <= k < |events| => Tick(events[k], false))
  }

  /** The schedule of a quiet run over these events. */
  function Filled(ticks: seq<Tick>, events: seq<seq<Event>>): (r: seq<Tick>)
    requires |ticks| == |events|
    ensures |r| == |ticks| && forall k | 0 <= k < |r| :: r[k] == Tick(events[k], ticks[k].hookRuns)
  {
    seq(|ticks|, k requires 0 <= k < |ticks| => Tick(events[k], ticks[k].hookRuns))
  }

  lemma {:induction false} ScheduledRun(s: State, h0: nat, events: seq<seq<Event>>, ticks: seq<Tick>)
    requires ScheduleOf(ticks, events)
    ensures Schedule(Hushed(ticks), |events|)
    ensures Run(s, h0, ticks) == Run(Run(s, h0, Unhooked(events)), h0, Hushed(ticks))
  {
    EventsFirst(s, h0, ticks);
    assert EventsOnly(ticks) == Unhooked(events);
  }

  lemma {:induction false} FilledRun(s: State, h0: nat, events: seq<seq<Event>>, ticks: seq<Tick>)
    requires Schedule(ticks, |events|)
    ensures ScheduleOf(Filled(ticks, events), events)
    ensures Run(s, h0, Filled(ticks, events)) == Run(Run(s, h0, Unhooked(events)), h0, ticks)
  {
    ScheduledRun(s, h0, events, Filled(ticks, events));
    assert Hushed(Filled(ticks, events)) == ticks;
  }

  ghost predicate SameUnder(s: State, h0: nat, a: seq<Tick>, b: seq<Tick>, i: nat) {
    && i < |Run(s, h0, a).proposals| && i < |Run(s, h0, b).proposals|
    && Run(s, h0, a).proposals[i].status == Run(s, h0, b).proposals[i].status
  }

  /**
   Whatever proposals a run's blocks submit and finalise, the final status of the one at position `i` is the
   same under every schedule of hook runs ending with one if and only if it is decided in the registry the
   events alone lead to: not due, badly named, surpassed at the start, dominated by a rival, or with no
   rival inverted against it.
   */
  lemma {:induction false} StatusIndependentIff(s: State, h0: nat, events: seq<seq<Event>>, i: nat)
    requires events != [] && i < |Run(s, h0, Unhooked(events)).proposals|
    ensures (forall a, b | ScheduleOf(a, events) && ScheduleOf(b, events) :: SameUnder(s, h0, a, b, i))
            <==> Decided(Run(s, h0, Unhooked(events)), h0, h0 + |events|, i)
  {
    var t, n := Run(s, h0, Unhooked(events)), |events|;
    QuietStatusIff(t, h0, n, i);
    if Decided(t, h0, h0 + n, i) {
      forall a, b | ScheduleOf(a, events) && ScheduleOf(b, events) ensures SameUnder(s, h0, a, b, i) {
        ScheduledRun(s, h0, events, a);
        ScheduledRun(s, h0, events, b);
        assert SameUnder(t, h0, Hushed(a), Hushed(b), i);
      }
    } else {
      var a, b :| Schedule(a, n) && Schedule(b, n) && !SameUnder(t, h0, a, b, i);
      FilledRun(s, h0, events, a);
      FilledRun(s, h0, events, b);
      assert !SameUnder(s, h0, Filled(a, events), Filled(b, events), i);
    }
  }
}
