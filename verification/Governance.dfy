/**
 On-chain upgrade governance: the proposal registry, the module-version registry and
 the hook the block producer runs after every durable block.
 */
module Governance {
  import opened Prelude

  datatype Status = Pending | Approved | Rejected | Scheduled | Executed | Failed

  datatype Proposal = Proposal(
    id: nat,
    moduleName: string,
    newVersion: nat,
    activationBlock: nat,
    status: Status)

  type Modules = map<string, nat>

  /** A module name offered a version by a proposal. */
  type Offer = (string, nat)

  /** `proposals` is the registry in id order. */
  datatype State = State(modules: Modules, proposals: seq<Proposal>)

  predicate NameChar(c: char) {
    'a' <= c <= 'z' || '0' <= c <= '9' || c == '_' || c == '-'
  }

  predicate ValidName(name: string) {
    |name| > 0 && forall i | 0 <= i < |name| :: NameChar(name[i])
  }

  /** A module name is not empty and has only the letters a to z, digits, underscore and hyphen, by their codes. */
  lemma {:induction false} ValidNameIff(name: string)
    ensures ValidName(name) <==>
            && name != ""
            && forall i | 0 <= i < |name| ::
                 var c := name[i] as int; 97 <= c <= 122 || 48 <= c <= 57 || c == 95 || c == 45
  {
  }

  predicate Ready(p: Proposal, height: nat) {
    p.status.Scheduled? && p.activationBlock <= height
  }

  /** Insert or upgrade a module version; a lower version than the stored one is refused. */
  function SetModule(m: Modules, name: string, version: nat): Option<Modules> {
    if name in m && version < m[name] then None else Some(m[name := version])
  }

  function Promote(m: Modules, p: Proposal): (Modules, Status) {
    if !ValidName(p.moduleName) then (m, Failed)
    else match SetModule(m, p.moduleName, p.newVersion)
      case Some(m') => (m', Executed)
      case None => (m, Failed)
  }

  /** Terminal marks apply only to a Scheduled proposal; on any other status they are refused. */
  function Mark(p: Proposal, s: Status): Proposal {
    if p.status.Scheduled? then p.(status := s) else p
  }

  /** Positions into a registry of `n` proposals. */
  predicate Within(ids: seq<nat>, n: nat) {
    forall k | 0 <= k < |ids| :: ids[k] < n
  }

  function Process(s: State, ready: seq<nat>): State
    requires Within(ready, |s.proposals|)
    decreases |ready|
  {
    if ready == [] then s
    else
      var p := s.proposals[ready[0]];
      var (m, st) := Promote(s.modules, p);
      Process(State(m, s.proposals[ready[0] := Mark(p, st)]), ready[1..])
  }

  function ReadyFrom(ps: seq<Proposal>, height: nat, from: nat): (r: seq<nat>)
    requires from <= |ps|
    ensures Within(r, |ps|)
    ensures forall i :: i in r <==> from <= i < |ps| && Ready(ps[i], height)
    decreases |ps| - from
  {
    if from == |ps| then []
    else if Ready(ps[from], height) then [from] + ReadyFrom(ps, height, from + 1)
    else ReadyFrom(ps, height, from + 1)
  }

  ghost predicate Ascending(ids: seq<nat>) {
    forall j, k | 0 <= j < k < |ids| :: ids[j] < ids[k]
  }

  lemma {:induction false} AscendingCons(first: nat, rest: seq<nat>)
    requires Ascending(rest) && forall i | i in rest :: first < i
    ensures Ascending([first] + rest)
  {
    assert forall k | 0 <= k < |rest| :: rest[k] in rest;
  }

  /** The ready list is in registry order, so no proposal is in it twice. */
  lemma {:induction false} ReadyInOrder(ps: seq<Proposal>, height: nat, from: nat)
    requires from <= |ps|
    ensures Ascending(ReadyFrom(ps, height, from))
    decreases |ps| - from
  {
    if from < |ps| {
      ReadyInOrder(ps, height, from + 1);
      if Ready(ps[from], height) { AscendingCons(from, ReadyFrom(ps, height, from + 1)); }
    }
  }

  /** The governance hook at one height. */
  function Hook(s: State, height: nat): State {
    Process(s, ReadyFrom(s.proposals, height, 0))
  }

  /** The two registries as the producer mutates them. */
  class Registries {
    var modules: Modules
    var proposals: seq<Proposal>

    constructor (s: State)
      ensures View() == s
    {
      modules, proposals := s.modules, s.proposals;
    }

    ghost function View(): State
      reads this
    {
      State(modules, proposals)
    }

    /** The positions of the ready proposals, in id order. */
    method ReadyToExecute(height: nat) returns (ready: seq<nat>)
      ensures ready == ReadyFrom(proposals, height, 0)
    {
      ready := [];
      for i := 0 to |proposals|
        invariant ready + ReadyFrom(proposals, height, i) == ReadyFrom(proposals, height, 0)
      {
        if Ready(proposals[i], height) {
          assert ready + ReadyFrom(proposals, height, i)
              == (ready + [i]) + ReadyFrom(proposals, height, i + 1);
          ready := ready + [i];
        }
      }
    }

    /** Promote every ready proposal; the result says whether anything has to be persisted. */
    method ApplyReady(height: nat) returns (changed: bool)
      modifies this
      ensures View() == Hook(old(View()), height)
      ensures changed <==> ReadyFrom(old(proposals), height, 0) != []
    {
      var ready := ReadyToExecute(height);
      for k := 0 to |ready|
        invariant |proposals| == |old(proposals)|
        invariant Within(ready[k..], |proposals|)
        invariant Process(View(), ready[k..]) == Hook(old(View()), height)
      {
        var p := proposals[ready[k..][0]];
        assert ready[k..][1..] == ready[k + 1..];
        var st := Failed;
        if ValidName(p.moduleName) {
          if !(p.moduleName in modules && p.newVersion < modules[p.moduleName]) {
            modules := modules[p.moduleName := p.newVersion];
            st := Executed;
          }
        }
        proposals := proposals[ready[k..][0] := Mark(p, st)];
      }
      changed := ready != [];
    }
  }

  // ---------------------------------------------------------------------------
  // The version registry the hook computes: a pointwise maximum
  // ---------------------------------------------------------------------------

  /** `m` is the pointwise maximum of `start` and the offered versions. */
  ghost predicate IsJoin(start: Modules, offers: set<Offer>, m: Modules) {
    && (forall n | n in m :: (n in start && start[n] == m[n]) || (n, m[n]) in offers)
    && (forall n | n in start :: n in m && start[n] <= m[n])
    && (forall o | o in offers :: o.0 in m && o.1 <= m[o.0])
  }

  lemma {:induction false} JoinUnique(start: Modules, offers: set<Offer>, a: Modules, b: Modules)
    requires IsJoin(start, offers, a) && IsJoin(start, offers, b)
    ensures a == b
  {
    forall n | n in a ensures n in b && a[n] <= b[n] {
      if (n, a[n]) in offers {
        var o := (n, a[n]);
        assert o.0 in b && o.1 <= b[o.0];
      }
    }
    forall n | n in b ensures n in a && b[n] <= a[n] {
      if (n, b[n]) in offers {
        var o := (n, b[n]);
        assert o.0 in a && o.1 <= a[o.0];
      }
    }
    assert a.Keys == b.Keys;
  }

  lemma {:induction false} JoinCompose(start: Modules, o1: set<Offer>, o2: set<Offer>, mid: Modules, r: Modules)
    requires IsJoin(start, o1, mid) && IsJoin(mid, o2, r)
    ensures IsJoin(start, o1 + o2, r)
  {
    forall o | o in o1 + o2 ensures o.0 in r && o.1 <= r[o.0] {
      if o in o1 { assert o.0 in mid && o.1 <= mid[o.0]; }
    }
  }

  /** Splitting a join: what is left over after the first batch of offers. */
  lemma {:induction false} JoinResidual(start: Modules, o1: set<Offer>, o2: set<Offer>, mid: Modules, r: Modules)
    requires IsJoin(start, o1, mid) && IsJoin(start, o1 + o2, r)
    ensures IsJoin(mid, o2, r)
  {
    forall n | n in mid ensures n in r && mid[n] <= r[n] {
      if (n, mid[n]) in o1 {
        var o := (n, mid[n]);
        assert o in o1 + o2;
        assert o.0 in r && o.1 <= r[o.0];
      }
    }
    forall n | n in r ensures (n in mid && mid[n] == r[n]) || (n, r[n]) in o2 {
      if (n, r[n]) in o1 {
        var o := (n, r[n]);
        assert o.0 in mid && o.1 <= mid[o.0];
      }
    }
    forall o | o in o2 ensures o.0 in r && o.1 <= r[o.0] {
      assert o in o1 + o2;
    }
  }

  ghost function OfferOf(p: Proposal): set<Offer> {
    if ValidName(p.moduleName) then {(p.moduleName, p.newVersion)} else {}
  }

  ghost function OffersAt(ps: seq<Proposal>, ids: seq<nat>): set<Offer>
    requires Within(ids, |ps|)
    decreases |ids|
  {
    if ids == [] then {} else OfferOf(ps[ids[0]]) + OffersAt(ps, ids[1..])
  }

  ghost function Offers(ps: seq<Proposal>, height: nat): set<Offer> {
    set p | p in ps && Ready(p, height) && ValidName(p.moduleName) :: (p.moduleName, p.newVersion)
  }

  lemma {:induction false} OffersAtMember(ps: seq<Proposal>, ids: seq<nat>, o: Offer)
    requires Within(ids, |ps|)
    ensures o in OffersAt(ps, ids) <==> exists i | i in ids :: o in OfferOf(ps[i])
    decreases |ids|
  {
    if ids != [] {
      OffersAtMember(ps, ids[1..], o);
      assert forall i :: i in ids <==> i == ids[0] || i in ids[1..];
    }
  }

  /** Offers do not depend on statuses. */
  lemma {:induction false} OffersAtFrame(ps: seq<Proposal>, qs: seq<Proposal>, ids: seq<nat>)
    requires |ps| == |qs|
    requires Within(ids, |ps|)
    requires forall i | 0 <= i < |ps| :: OfferOf(ps[i]) == OfferOf(qs[i])
    ensures OffersAt(ps, ids) == OffersAt(qs, ids)
    decreases |ids|
  {
    if ids != [] {
      assert ids[0] in ids;
      OffersAtFrame(ps, qs, ids[1..]);
    }
  }

  lemma {:induction false} ProcessIsJoin(s: State, ids: seq<nat>)
    requires Within(ids, |s.proposals|)
    ensures IsJoin(s.modules, OffersAt(s.proposals, ids), Process(s, ids).modules)
    decreases |ids|
  {
    if ids != [] {
      assert ids[0] in ids;
      var p := s.proposals[ids[0]];
      var (m, st) := Promote(s.modules, p);
      var s' := State(m, s.proposals[ids[0] := Mark(p, st)]);
      ProcessIsJoin(s', ids[1..]);
      OffersAtFrame(s.proposals, s'.proposals, ids[1..]);
      assert IsJoin(s.modules, OfferOf(p), m);
      JoinCompose(s.modules, OfferOf(p), OffersAt(s.proposals, ids[1..]), m, Process(s, ids).modules);
    }
  }

  /** Executing the same ready proposals in any two orders gives the same versions. */
  lemma {:induction false} OrderIrrelevant(s: State, ids: seq<nat>, ids': seq<nat>)
    requires Within(ids, |s.proposals|)
    requires Within(ids', |s.proposals|)
    requires forall i :: i in ids <==> i in ids'
    ensures Process(s, ids).modules == Process(s, ids').modules
  {
    ProcessIsJoin(s, ids);
    ProcessIsJoin(s, ids');
    forall o ensures o in OffersAt(s.proposals, ids) <==> o in OffersAt(s.proposals, ids') {
      OffersAtMember(s.proposals, ids, o);
      OffersAtMember(s.proposals, ids', o);
    }
    assert OffersAt(s.proposals, ids) == OffersAt(s.proposals, ids');
    JoinUnique(s.modules, OffersAt(s.proposals, ids), Process(s, ids).modules, Process(s, ids').modules);
  }

  /** The hook leaves exactly the pointwise maximum of the old versions and the valid ready offers. */
  lemma {:induction false} HookIsJoin(s: State, height: nat)
    ensures IsJoin(s.modules, Offers(s.proposals, height), Hook(s, height).modules)
  {
    var ids := ReadyFrom(s.proposals, height, 0);
    ProcessIsJoin(s, ids);
    forall o ensures o in OffersAt(s.proposals, ids) <==> o in Offers(s.proposals, height) {
      OffersAtMember(s.proposals, ids, o);
      if o in Offers(s.proposals, height) {
        var p :| p in s.proposals && Ready(p, height) && ValidName(p.moduleName)
                 && o == (p.moduleName, p.newVersion);
        var i :| 0 <= i < |s.proposals| && s.proposals[i] == p;
        assert i in ids && o in OfferOf(s.proposals[i]);
      }
    }
    assert OffersAt(s.proposals, ids) == Offers(s.proposals, height);
  }

  // ---------------------------------------------------------------------------
  // What one hook run does to the proposals
  // ---------------------------------------------------------------------------

  predicate SameBody(p: Proposal, q: Proposal) {
    p.(status := q.status) == q
  }

  predicate Terminal(s: Status) {
    s.Executed? || s.Failed? || s.Rejected?
  }

  lemma {:induction false} ProcessProposals(s: State, ids: seq<nat>, i: nat)
    requires Within(ids, |s.proposals|)
    requires i < |s.proposals|
    ensures |Process(s, ids).proposals| == |s.proposals|
    ensures SameBody(s.proposals[i], Process(s, ids).proposals[i])
    ensures i !in ids || !s.proposals[i].status.Scheduled?
            ==> Process(s, ids).proposals[i] == s.proposals[i]
    ensures i in ids && s.proposals[i].status.Scheduled?
            ==> var st := Process(s, ids).proposals[i].status; st.Executed? || st.Failed?
    decreases |ids|
  {
    if ids != [] {
      assert ids[0] in ids;
      var p := s.proposals[ids[0]];
      var (m, st) := Promote(s.modules, p);
      var s' := State(m, s.proposals[ids[0] := Mark(p, st)]);
      ProcessProposals(s', ids[1..], i);
      assert i in ids <==> i == ids[0] || i in ids[1..];
    }
  }

  /** A hook run moves exactly the ready proposals, each to a terminal status. */
  lemma {:induction false} HookProposals(s: State, height: nat)
    ensures |Hook(s, height).proposals| == |s.proposals|
    ensures forall i | 0 <= i < |s.proposals| ::
              && SameBody(s.proposals[i], Hook(s, height).proposals[i])
              && (if s.proposals[i].status == Scheduled && s.proposals[i].activationBlock <= height
                  then Hook(s, height).proposals[i].status in {Executed, Failed}
                  else Hook(s, height).proposals[i] == s.proposals[i])
  {
    var ids := ReadyFrom(s.proposals, height, 0);
    forall i | 0 <= i < |s.proposals| ensures
        && |Hook(s, height).proposals| == |s.proposals|
        && SameBody(s.proposals[i], Hook(s, height).proposals[i])
        && (if Ready(s.proposals[i], height)
            then Hook(s, height).proposals[i].status in {Executed, Failed}
            else Hook(s, height).proposals[i] == s.proposals[i])
    {
      ProcessProposals(s, ids, i);
    }
    if |s.proposals| == 0 { assert ids == []; }
  }

  lemma {:induction false} OffersSplit(s: State, h1: nat, h2: nat)
    requires h1 <= h2
    ensures Offers(s.proposals, h1) + Offers(Hook(s, h1).proposals, h2) == Offers(s.proposals, h2)
  {
    var s1 := Hook(s, h1);
    HookProposals(s, h1);
    var o1, o2 := Offers(s.proposals, h1), Offers(s1.proposals, h2);
    forall o | o in Offers(s.proposals, h2) ensures o in o1 + o2 {
      var p :| p in s.proposals && Ready(p, h2) && ValidName(p.moduleName)
               && o == (p.moduleName, p.newVersion);
      var i :| 0 <= i < |s.proposals| && s.proposals[i] == p;
      if !Ready(p, h1) { assert s1.proposals[i] == p && p in s1.proposals; }
    }
    forall o | o in o2 ensures o in Offers(s.proposals, h2) {
      var q :| q in s1.proposals && Ready(q, h2) && ValidName(q.moduleName)
               && o == (q.moduleName, q.newVersion);
      var i :| 0 <= i < |s1.proposals| && s1.proposals[i] == q;
      assert s.proposals[i] == q;
    }
  }

  /** A later run absorbs an earlier one: what was promoted early would have been promoted late. */
  lemma {:induction false} HookAbsorbed(s: State, h1: nat, h2: nat)
    requires h1 <= h2
    ensures Hook(Hook(s, h1), h2).modules == Hook(s, h2).modules
  {
    var s1 := Hook(s, h1);
    HookIsJoin(s, h1);
    HookIsJoin(s1, h2);
    HookIsJoin(s, h2);
    var o1, o2 := Offers(s.proposals, h1), Offers(s1.proposals, h2);
    OffersSplit(s, h1, h2);
    JoinCompose(s.modules, o1, o2, s1.modules, Hook(s1, h2).modules);
    JoinUnique(s.modules, o1 + o2, Hook(s1, h2).modules, Hook(s, h2).modules);
  }

  // ---------------------------------------------------------------------------
  // Whole runs, with proposals arriving and hook runs missing
  // ---------------------------------------------------------------------------

  datatype Event = Submit(p: Proposal) | Finalize(index: nat, majority: bool)

  predicate Known(ps: seq<Proposal>, id: nat) {
    exists i | 0 <= i < |ps| :: ps[i].id == id
  }

  /** Where a new id goes: behind the last smaller one. */
  function PlaceOf(ps: seq<Proposal>, id: nat): (k: nat)
    ensures k <= |ps|
    decreases |ps|
  {
    if ps != [] && ps[|ps| - 1].id > id then PlaceOf(ps[..|ps| - 1], id) else |ps|
  }

  /** Any fresh id is taken, at its place in id order; a known one is refused. */
  function Inserted(ps: seq<Proposal>, p: Proposal): seq<Proposal> {
    if Known(ps, p.id) then ps
    else ps[..PlaceOf(ps, p.id)] + [p.(status := Pending)] + ps[PlaceOf(ps, p.id)..]
  }

  /** Registry changes made by a block's transactions at one height. */
  function Env(s: State, height: nat, e: Event): State {
    match e
    case Submit(p) => s.(proposals := Inserted(s.proposals, p))
    case Finalize(i, majority) =>
      if i < |s.proposals| && s.proposals[i].status.Pending? then
        var st := if majority && s.proposals[i].activationBlock > height then Scheduled else Rejected;
        s.(proposals := s.proposals[i := s.proposals[i].(status := st)])
      else s
  }

  function EnvAll(s: State, height: nat, es: seq<Event>): State
    decreases |es|
  {
    if es == [] then s else EnvAll(Env(s, height, es[0]), height, es[1..])
  }

  /** One height of a run: the block's events, then the hook unless it failed or was skipped. */
  datatype Tick = Tick(events: seq<Event>, hookRuns: bool)

  function Advance(s: State, height: nat, t: Tick): State {
    var s' := EnvAll(s, height, t.events);
    if t.hookRuns then Hook(s', height) else s'
  }

  /** Heights `h0 + 1, h0 + 2, …`, one tick each. */
  function Run(s: State, h0: nat, ticks: seq<Tick>): State
    decreases |ticks|
  {
    if ticks == [] then s else Advance(Run(s, h0, ticks[..|ticks| - 1]), h0 + |ticks|, ticks[|ticks| - 1])
  }

  /**
   Finalising settles a pending proposal once: it is scheduled exactly with a majority and an activation height
   still to come, and otherwise rejected; any other proposal stays.
   */
  lemma {:induction false} FinalizeOutcome(s: State, height: nat, i: nat, majority: bool)
    ensures var s' := Env(s, height, Finalize(i, majority));
            && s'.modules == s.modules && |s'.proposals| == |s.proposals|
            && (forall j | 0 <= j < |s.proposals| ::
                  if j == i && s.proposals[j].status == Pending then
                    && SameBody(s.proposals[j], s'.proposals[j])
                    && (s'.proposals[j].status == Scheduled <==> majority && s.proposals[j].activationBlock > height)
                    && (s'.proposals[j].status == Rejected <==> !majority || s.proposals[j].activationBlock <= height)
                  else s'.proposals[j] == s.proposals[j])
  {
  }

  /** Two runs that saw the same events: they agree on what every later hook run would settle on. */
  ghost predicate Agree(s: State, t: State, height: nat) {
    && Alike(s.proposals, t.proposals)
    && (forall h | height <= h :: Hook(s, h).modules == Hook(t, h).modules)
  }

  /** What one event adds to the offers standing at a later height. */
  ghost function Added(s: State, height: nat, e: Event, later: nat): set<Offer> {
    if e.Finalize? && e.index < |s.proposals| && s.proposals[e.index].status.Pending? && e.majority
       && height < s.proposals[e.index].activationBlock <= later
    then OfferOf(s.proposals[e.index]) else {}
  }

  lemma {:induction false} InsertedMembers(ps: seq<Proposal>, p: Proposal, q: Proposal)
    ensures q in Inserted(ps, p) <==> q in ps || (!Known(ps, p.id) && q == p.(status := Pending))
  {
    if !Known(ps, p.id) {
      var k := PlaceOf(ps, p.id);
      assert ps == ps[..k] + ps[k..];
    }
  }

  lemma {:induction false} SubmitOffers(ps: seq<Proposal>, p: Proposal, later: nat)
    ensures Offers(Inserted(ps, p), later) == Offers(ps, later)
  {
    forall q ensures q in Inserted(ps, p) && Ready(q, later) <==> q in ps && Ready(q, later) {
      InsertedMembers(ps, p, q);
    }
  }

  lemma {:induction false} EnvOffers(s: State, height: nat, e: Event, later: nat)
    ensures Offers(Env(s, height, e).proposals, later)
         == Offers(s.proposals, later) + Added(s, height, e, later)
  {
    if e.Submit? {
      SubmitOffers(s.proposals, e.p, later);
      return;
    }
    var s' := Env(s, height, e);
    var was, now := Offers(s.proposals, later), Offers(s'.proposals, later);
    forall o | o in now ensures o in was + Added(s, height, e, later) {
      var p :| p in s'.proposals && Ready(p, later) && ValidName(p.moduleName)
               && o == (p.moduleName, p.newVersion);
      var i :| 0 <= i < |s'.proposals| && s'.proposals[i] == p;
      if i < |s.proposals| && s.proposals[i] == p { assert p in s.proposals; }
    }
    forall o | o in was + Added(s, height, e, later) ensures o in now {
      if o in was {
        var p :| p in s.proposals && Ready(p, later) && ValidName(p.moduleName)
                 && o == (p.moduleName, p.newVersion);
        var i :| 0 <= i < |s.proposals| && s.proposals[i] == p;
        assert s'.proposals[i] == p && p in s'.proposals;
      } else {
        var p := s.proposals[e.index];
        assert s'.proposals[e.index] == p.(status := Scheduled);
        assert p.(status := Scheduled) in s'.proposals;
      }
    }
  }

  lemma {:induction false} SamePlace(ps: seq<Proposal>, qs: seq<Proposal>, id: nat)
    requires |ps| == |qs| && forall i | 0 <= i < |ps| :: ps[i].id == qs[i].id
    ensures PlaceOf(ps, id) == PlaceOf(qs, id)
    ensures Known(ps, id) == Known(qs, id)
    decreases |ps|
  {
    if ps != [] {
      var n := |ps| - 1;
      SamePlace(ps[..n], qs[..n], id);
    }
    if Known(ps, id) {
      var i :| 0 <= i < |ps| && ps[i].id == id;
      assert qs[i].id == id;
    }
    if Known(qs, id) {
      var i :| 0 <= i < |qs| && qs[i].id == id;
      assert ps[i].id == id;
    }
  }

  /** Two registries with the same bodies, pending in the same places, stay so under an event. */
  ghost predicate Alike(ps: seq<Proposal>, qs: seq<Proposal>) {
    && |ps| == |qs|
    && (forall i | 0 <= i < |ps| :: SameBody(ps[i], qs[i]) && ps[i].status.Pending? == qs[i].status.Pending?)
  }

  lemma {:induction false} EnvAlike(s: State, t: State, height: nat, e: Event)
    requires Alike(s.proposals, t.proposals)
    ensures Alike(Env(s, height, e).proposals, Env(t, height, e).proposals)
  {
    if e.Submit? { InsertedAlike(s.proposals, t.proposals, e.p); }
  }

  lemma {:induction false} InsertedAlike(ps: seq<Proposal>, qs: seq<Proposal>, p: Proposal)
    requires Alike(ps, qs)
    ensures Alike(Inserted(ps, p), Inserted(qs, p))
  {
    assert forall i | 0 <= i < |ps| :: ps[i].id == qs[i].id;
    SamePlace(ps, qs, p.id);
  }

  lemma {:induction false} EnvAgree(s: State, t: State, height: nat, e: Event)
    requires Agree(s, t, height)
    ensures Agree(Env(s, height, e), Env(t, height, e), height)
  {
    var s', t' := Env(s, height, e), Env(t, height, e);
    EnvAlike(s, t, height, e);
    forall h | height <= h ensures Hook(s', h).modules == Hook(t', h).modules {
      EnvOffers(s, height, e, h);
      EnvOffers(t, height, e, h);
      var x := Added(s, height, e, h);
      assert x == Added(t, height, e, h);
      HookIsJoin(s, h);
      HookIsJoin(t, h);
      HookIsJoin(s', h);
      HookIsJoin(t', h);
      JoinResidual(s.modules, Offers(s.proposals, h), x, Hook(s, h).modules, Hook(s', h).modules);
      JoinResidual(t.modules, Offers(t.proposals, h), x, Hook(t, h).modules, Hook(t', h).modules);
      JoinUnique(Hook(s, h).modules, x, Hook(s', h).modules, Hook(t', h).modules);
    }
  }

  lemma {:induction false} EnvAllAgree(s: State, t: State, height: nat, es: seq<Event>)
    requires Agree(s, t, height)
    ensures Agree(EnvAll(s, height, es), EnvAll(t, height, es), height)
    decreases |es|
  {
    if es != [] {
      EnvAgree(s, t, height, es[0]);
      EnvAllAgree(Env(s, height, es[0]), Env(t, height, es[0]), height, es[1..]);
    }
  }

  /** Running or skipping the hook keeps two runs in agreement about the future. */
  lemma {:induction false} HookAgree(s: State, t: State, height: nat, runS: bool, runT: bool)
    requires Agree(s, t, height)
    ensures Agree(if runS then Hook(s, height) else s, if runT then Hook(t, height) else t, height)
  {
    HookProposals(s, height);
    HookProposals(t, height);
    forall h | height <= h
      ensures Hook(Hook(s, height), h).modules == Hook(s, h).modules
      ensures Hook(Hook(t, height), h).modules == Hook(t, h).modules
    {
      HookAbsorbed(s, height, h);
      HookAbsorbed(t, height, h);
    }
  }

  lemma {:induction false} AgreeLater(s: State, t: State, height: nat, later: nat)
    requires Agree(s, t, height) && height <= later
    ensures Agree(s, t, later) && Hook(s, later).modules == Hook(t, later).modules
  {
  }

  lemma {:induction false} AdvanceAgree(s: State, t: State, height: nat, a: Tick, b: Tick)
    requires Agree(s, t, height) && a.events == b.events
    ensures Agree(Advance(s, height, a), Advance(t, height, b), height)
  {
    EnvAllAgree(s, t, height, a.events);
    HookAgree(EnvAll(s, height, a.events), EnvAll(t, height, b.events), height, a.hookRuns, b.hookRuns);
  }

  ghost predicate SameEvents(a: seq<Tick>, b: seq<Tick>) {
    |a| == |b| && forall k | 0 <= k < |a| :: a[k].events == b[k].events
  }

  lemma {:induction false} RunsAgree(s: State, h0: nat, a: seq<Tick>, b: seq<Tick>)
    requires SameEvents(a, b)
    ensures Agree(Run(s, h0, a), Run(s, h0, b), h0 + |a|)
    decreases |a|
  {
    if a != [] {
      var n := |a| - 1;
      var p, q := Run(s, h0, a[..n]), Run(s, h0, b[..n]);
      RunsAgree(s, h0, a[..n], b[..n]);
      AgreeLater(p, q, h0 + n, h0 + |a|);
      AdvanceAgree(p, q, h0 + |a|, a[n], b[n]);
    }
  }

  lemma {:induction false} HookedAgree(s: State, t: State, height: nat, a: Tick, b: Tick)
    requires Agree(s, t, height) && a.events == b.events && a.hookRuns && b.hookRuns
    ensures Advance(s, height, a).modules == Advance(t, height, b).modules
  {
    EnvAllAgree(s, t, height, a.events);
    AgreeLater(EnvAll(s, height, a.events), EnvAll(t, height, b.events), height, height);
  }

  /**
   Delay independence. However many hook runs were lost before height N, once the hook runs
   at N the version registry is the one a node that never missed a run has.
   */
  lemma {:induction false} DelayIndependence(s: State, h0: nat, a: seq<Tick>, b: seq<Tick>)
    requires SameEvents(a, b) && a != []
    requires a[|a| - 1].hookRuns && b[|b| - 1].hookRuns
    ensures Run(s, h0, a).modules == Run(s, h0, b).modules
  {
    var n := |a| - 1;
    var p, q := Run(s, h0, a[..n]), Run(s, h0, b[..n]);
    RunsAgree(s, h0, a[..n], b[..n]);
    AgreeLater(p, q, h0 + n, h0 + |a|);
    HookedAgree(p, q, h0 + |a|, a[n], b[n]);
  }

  /** The same run with no hook at all: only the blocks' events. */
  function EventsOnly(ticks: seq<Tick>): (r: seq<Tick>)
    ensures |r| == |ticks|
    ensures forall k | 0 <= k < |r| :: r[k] == Tick(ticks[k].events, false)
  {
    seq(|ticks|, k requires 0 <= k < |ticks| => Tick(ticks[k].events, false))
  }

  lemma {:induction false} EventsMoveNoVersion(s: State, h0: nat, ticks: seq<Tick>)
    requires forall k | 0 <= k < |ticks| :: !ticks[k].hookRuns
    ensures Run(s, h0, ticks).modules == s.modules
    decreases |ticks|
  {
    if ticks != [] {
      var n := |ticks| - 1;
      EventsMoveNoVersion(s, h0, ticks[..n]);
      EnvAllMonotone(Run(s, h0, ticks[..n]), h0 + |ticks|, ticks[n].events);
    }
  }

  /**
   Whatever hook runs were lost, once the hook runs at N the version registry is the pointwise maximum
   of the starting one and every valid version scheduled by the events and due by N.
   */
  lemma {:induction false} RunIsJoin(s: State, h0: nat, ticks: seq<Tick>)
    requires ticks != [] && ticks[|ticks| - 1].hookRuns
    ensures IsJoin(s.modules, Offers(Run(s, h0, EventsOnly(ticks)).proposals, h0 + |ticks|), Run(s, h0, ticks).modules)
  {
    OneHookSuffices(s, h0, ticks);
    LateHookIsJoin(s, h0, ticks);
  }

  lemma {:induction false} LateHookIsJoin(s: State, h0: nat, ticks: seq<Tick>)
    ensures var r := Run(s, h0, EventsOnly(ticks));
            IsJoin(s.modules, Offers(r.proposals, h0 + |ticks|), Hook(r, h0 + |ticks|).modules)
  {
    EventsMoveNoVersion(s, h0, EventsOnly(ticks));
    HookIsJoin(Run(s, h0, EventsOnly(ticks)), h0 + |ticks|);
  }

  /** The versions are those of a single hook run after all the events. */
  lemma {:induction false} OneHookSuffices(s: State, h0: nat, ticks: seq<Tick>)
    requires ticks != [] && ticks[|ticks| - 1].hookRuns
    ensures Run(s, h0, ticks).modules == Hook(Run(s, h0, EventsOnly(ticks)), h0 + |ticks|).modules
  {
    var n, quiet := |ticks| - 1, EventsOnly(ticks);
    var late := quiet[n := Tick(ticks[n].events, true)];
    assert SameEvents(ticks, late);
    DelayIndependence(s, h0, ticks, late);
    LastHook(s, h0, quiet, ticks[n].events);
  }

  /** Letting the hook run after the last block only adds that run. */
  lemma {:induction false} LastHook(s: State, h0: nat, quiet: seq<Tick>, es: seq<Event>)
    requires quiet != [] && quiet[|quiet| - 1] == Tick(es, false)
    ensures Run(s, h0, quiet[|quiet| - 1 := Tick(es, true)]) == Hook(Run(s, h0, quiet), h0 + |quiet|)
  {
    var n := |quiet| - 1;
    assert quiet[n := Tick(es, true)][..n] == quiet[..n];
  }

  // ---------------------------------------------------------------------------
  // Id order
  // ---------------------------------------------------------------------------

  /** The registry is in strictly ascending id order, so ids are unique. */
  ghost predicate InIdOrder(ps: seq<Proposal>) {
    forall i, j | 0 <= i < j < |ps| :: ps[i].id < ps[j].id
  }

  lemma {:induction false} PlaceSplits(ps: seq<Proposal>, id: nat)
    requires InIdOrder(ps)
    ensures forall i | 0 <= i < |ps| :: if i < PlaceOf(ps, id) then ps[i].id <= id else ps[i].id > id
    decreases |ps|
  {
    if ps != [] && ps[|ps| - 1].id > id {
      PlaceSplits(ps[..|ps| - 1], id);
      assert forall i | 0 <= i < |ps| - 1 :: ps[..|ps| - 1][i] == ps[i];
    }
  }

  lemma {:induction false} EnvAllInOrder(s: State, height: nat, es: seq<Event>)
    requires InIdOrder(s.proposals)
    ensures InIdOrder(EnvAll(s, height, es).proposals)
    decreases |es|
  {
    if es != [] {
      if es[0].Submit? { PlaceSplits(s.proposals, es[0].p.id); }
      EnvAllInOrder(Env(s, height, es[0]), height, es[1..]);
    }
  }

  /** Over every run the registry, and with it the order of execution, stays in id order. */
  lemma {:induction false} RunInOrder(s: State, h0: nat, ticks: seq<Tick>)
    requires InIdOrder(s.proposals)
    ensures InIdOrder(Run(s, h0, ticks).proposals)
    decreases |ticks|
  {
    if ticks != [] {
      var n := |ticks| - 1;
      var p := Run(s, h0, ticks[..n]);
      RunInOrder(s, h0, ticks[..n]);
      EnvAllInOrder(p, h0 + |ticks|, ticks[n].events);
      HookProposals(EnvAll(p, h0 + |ticks|, ticks[n].events), h0 + |ticks|);
    }
  }

  // ---------------------------------------------------------------------------
  // Monotonicity over runs
  // ---------------------------------------------------------------------------

  /** Later registries hold every module at the same or a higher version. */
  ghost predicate NoDowngrade(m: Modules, m': Modules) {
    forall n | n in m :: n in m' && m[n] <= m'[n]
  }

  /** `q` is `p` at a later time: same body, and a terminal status is final. */
  predicate Later(p: Proposal, q: Proposal) {
    && SameBody(p, q)
    && (Terminal(p.status) ==> q.status == p.status)
    && (p.status.Scheduled? ==> q.status in {Scheduled, Executed, Failed})
  }

  ghost predicate Kept(p: Proposal, qs: seq<Proposal>) {
    exists j | 0 <= j < |qs| :: Later(p, qs[j])
  }

  /** No proposal is lost or changes its body, and a terminal status is final. */
  ghost predicate Settled(ps: seq<Proposal>, qs: seq<Proposal>) {
    forall i | 0 <= i < |ps| :: Kept(ps[i], qs)
  }

  lemma {:induction false} SettledTransitive(ps: seq<Proposal>, qs: seq<Proposal>, rs: seq<Proposal>)
    requires Settled(ps, qs) && Settled(qs, rs)
    ensures Settled(ps, rs)
  {
    forall i | 0 <= i < |ps| ensures Kept(ps[i], rs) {
      assert Kept(ps[i], qs);
      var j :| 0 <= j < |qs| && Later(ps[i], qs[j]);
      assert Kept(qs[j], rs);
      var k :| 0 <= k < |rs| && Later(qs[j], rs[k]);
      assert Later(ps[i], rs[k]);
    }
  }

  lemma {:induction false} EnvSettled(s: State, height: nat, e: Event)
    ensures Settled(s.proposals, Env(s, height, e).proposals)
  {
    var ps, qs := s.proposals, Env(s, height, e).proposals;
    forall i | 0 <= i < |ps| ensures Kept(ps[i], qs) {
      match e
      case Submit(p) =>
        InsertedMembers(ps, p, ps[i]);
        var j :| 0 <= j < |qs| && qs[j] == ps[i];
        assert Later(ps[i], qs[j]);
      case Finalize(_, _) =>
        assert Later(ps[i], qs[i]);
    }
  }

  lemma {:induction false} EnvAllMonotone(s: State, height: nat, es: seq<Event>)
    ensures EnvAll(s, height, es).modules == s.modules
    ensures Settled(s.proposals, EnvAll(s, height, es).proposals)
    decreases |es|
  {
    if es != [] {
      var s' := Env(s, height, es[0]);
      EnvSettled(s, height, es[0]);
      EnvAllMonotone(s', height, es[1..]);
      SettledTransitive(s.proposals, s'.proposals, EnvAll(s, height, es).proposals);
    } else {
      assert forall i | 0 <= i < |s.proposals| :: Later(s.proposals[i], s.proposals[i]);
    }
  }

  lemma {:induction false} AdvanceMonotone(s: State, height: nat, t: Tick)
    ensures NoDowngrade(s.modules, Advance(s, height, t).modules)
    ensures Settled(s.proposals, Advance(s, height, t).proposals)
  {
    EnvAllMonotone(s, height, t.events);
    var s' := EnvAll(s, height, t.events);
    HookIsJoin(s', height);
    HookProposals(s', height);
    var h := Hook(s', height);
    assert forall i | 0 <= i < |s'.proposals| :: Later(s'.proposals[i], h.proposals[i]);
    SettledTransitive(s.proposals, s'.proposals, h.proposals);
  }

  /** Over any run no module is downgraded and no proposal leaves a terminal status. */
  lemma {:induction false} RunMonotone(s: State, h0: nat, ticks: seq<Tick>)
    ensures NoDowngrade(s.modules, Run(s, h0, ticks).modules)
    ensures Settled(s.proposals, Run(s, h0, ticks).proposals)
    decreases |ticks|
  {
    if ticks != [] {
      var n := |ticks| - 1;
      var p := Run(s, h0, ticks[..n]);
      RunMonotone(s, h0, ticks[..n]);
      AdvanceMonotone(p, h0 + |ticks|, ticks[n]);
      SettledTransitive(s.proposals, p.proposals, Run(s, h0, ticks).proposals);
    } else {
      assert forall i | 0 <= i < |s.proposals| :: Later(s.proposals[i], s.proposals[i]);
    }
  }

  /**
   Statuses, unlike versions, do depend on the delay: proposal 1 asks for version 1 at height 2,
   proposal 2 for version 2 at height 1. Run at every height, proposal 1 comes too late and fails;
   run only at height 2, both are executed.
   */
  lemma {:induction false} StatusesDependOnDelay()
    ensures var p1, p2 := Proposal(1, "evm", 1, 2, Scheduled), Proposal(2, "evm", 2, 1, Scheduled);
            var s := State(map[], [p1, p2]);
            && Run(s, 0, [Tick([], true), Tick([], true)])
               == State(map["evm" := 2], [p1.(status := Failed), p2.(status := Executed)])
            && Run(s, 0, [Tick([], false), Tick([], true)])
               == State(map["evm" := 2], [p1.(status := Executed), p2.(status := Executed)])
  {
    var p1, p2 := Proposal(1, "evm", 1, 2, Scheduled), Proposal(2, "evm", 2, 1, Scheduled);
    assert ValidName("evm");
    var s, e := State(map[], [p1, p2]), State(map["evm" := 2], [p1, p2.(status := Executed)]);
    RunOfTwo(s, Tick([], true), Tick([], true));
    RunOfTwo(s, Tick([], false), Tick([], true));
    HookOfTwo(s, 1);
    HookOfTwo(e, 2);
    HookOfTwo(s, 2);
  }

  lemma {:induction false} RunOfTwo(s: State, a: Tick, b: Tick)
    ensures Run(s, 0, [a, b]) == Advance(Advance(s, 1, a), 2, b)
  {
    assert [a, b][..1] == [a] && [a][..0] == [];
    assert Run(s, 0, [a]) == Advance(s, 1, a);
  }

  /** Two proposals, both with a valid name: the first, then the second. */
  lemma {:induction false} HookOfTwo(s: State, height: nat)
    requires |s.proposals| == 2
    ensures var p, q := s.proposals[0], s.proposals[1];
            var (m, a) := if Ready(p, height) then Promote(s.modules, p) else (s.modules, p.status);
            var (m', b) := if Ready(q, height) then Promote(m, q) else (m, q.status);
            Hook(s, height) == State(m', [p.(status := a), q.(status := b)])
  {
    var ps := s.proposals;
    assert ReadyFrom(ps, height, 2) == [];
    assert ReadyFrom(ps, height, 1) == if Ready(ps[1], height) then [1] else [];
    var first := ReadyFrom(ps, height, 0);
    var s' := s;
    if Ready(ps[0], height) {
      var (m, a) := Promote(s.modules, ps[0]);
      s' := State(m, ps[0 := ps[0].(status := a)]);
      assert first[0] == 0 && first[1..] == ReadyFrom(ps, height, 1);
    }
    assert Hook(s, height) == Process(s', ReadyFrom(ps, height, 1));
    if Ready(ps[1], height) {
      var (m', b) := Promote(s'.modules, ps[1]);
      var t := State(m', s'.proposals[1 := ps[1].(status := b)]);
      assert [1][1..] == [] && Process(s', [1]) == Process(t, []);
    }
  }
}
