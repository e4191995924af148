/**
 The three-phase engine around the safety rules and the vote collector: proposals, certificates,
 decisions, and agreement between nodes that run it.
 */
module HotStuffEngine {
  import opened Prelude
  import opened HotStuff

  const PREPARE: nat := 0
  const PRECOMMIT: nat := 1
  const COMMIT: nat := 2

  const STORE_CAPACITY: nat := 1024

  /** The height of the block with a given hash. */
  type Numbering = Hash -> nat

  /** The proposed block, the round of its parent certificate and whether that certificate verifies. */
  datatype Proposal = Proposal(hash: Hash, coinbase: Address, epoch: nat, parentRound: nat, verifies: bool)

  /**
   `asked` is what the safety rules were asked since the first start, so they are in the state it leads to;
   `decided` is every block decided since then.
   */
  datatype Engine = Engine(
    node: Node,
    store: seq<Hash>,
    asked: seq<Event>,
    round: nat,
    epoch: nat,
    height: nat,
    decided: seq<Hash>)

  /** A block store drops its oldest block when full. */
  function Stored(store: seq<Hash>, h: Hash): seq<Hash> {
    if h in store then store
    else if |store| >= STORE_CAPACITY then store[1..] + [h]
    else store + [h]
  }

  function Boot(members: set<Address>, keys: map<Address, PubKey>): Engine {
    Engine(Node(members, keys, map[], map[]), [], [], 1, 1, 0, [])
  }

  function Asked(e: Engine, x: Event): Engine {
    e.(asked := e.asked + [x])
  }

  function OnProposal(numberOf: Numbering, e: Engine, p: Proposal, leader: Address, saves: bool): Engine {
    var number := numberOf(p.hash);
    if !p.verifies || p.coinbase != leader || leader !in e.node.members then e
    else Asked(e.(store := Stored(e.store, p.hash)),
               TryVote(VoteData(p.hash, number, PREPARE, p.epoch), p.parentRound, saves))
  }

  /** The vote of the next phase. */
  function NextVote(e: Engine, qc: Certificate, saves: bool): Event {
    TryVote(VoteData(qc.data.blockHash, qc.data.number, qc.data.phase + 1, e.epoch), qc.data.number, saves)
  }

  function Decide(numberOf: Numbering, e: Engine, qc: Certificate): Engine {
    var h := qc.data.blockHash;
    var number := numberOf(h);
    if h !in e.store || number <= e.height then e
    else
      e.(height := number, decided := e.decided + [h],
         round := Max(e.round, number + 1), epoch := if number + 1 > e.round then qc.data.epoch else e.epoch)
  }

  function OnQc(numberOf: Numbering, e: Engine, qc: Certificate, saves: bool): Engine {
    if qc.data.phase == PREPARE then Asked(Asked(e, Lock(qc.data.number)), NextVote(e, qc, saves))
    else if qc.data.phase == PRECOMMIT then Asked(e, NextVote(e, qc, saves))
    else if qc.data.phase == COMMIT then Decide(numberOf, e, qc)
    else e
  }

  datatype Step =
    | Propose(proposal: Proposal, leader: Address, saves: bool)
    | Receive(vote: Vote, key: PubKey, saves: bool)
    | PruneVotes(below: nat)
    | Timeout
    | Reboot

  function Does(check: Verifier, numberOf: Numbering, e: Engine, s: Step): Engine {
    match s
    case Propose(p, leader, saves) => OnProposal(numberOf, e, p, leader, saves)
    case Receive(v, key, saves) =>
      var (n, r) := OnVote(check, e.node, v, key);
      var e' := e.(node := n);
      if r.Formed? then OnQc(numberOf, e', r.qc, saves) else e'
    case PruneVotes(below) => e.(node := Pruned(e.node, below))
    case Timeout => e.(round := e.round + 1)
    case Reboot => Boot(e.node.members, e.node.keys).(asked := e.asked + [Restart], decided := e.decided)
  }

  function Lives(check: Verifier, numberOf: Numbering, start: Engine, ss: seq<Step>): Engine
    decreases |ss|
  {
    if ss == [] then start else Does(check, numberOf, Lives(check, numberOf, start, ss[..|ss| - 1]), ss[|ss| - 1])
  }

  // ---------------------------------------------------------------------------
  // The engine as it mutates
  // ---------------------------------------------------------------------------

  class Consensus {
    const collector: Collector
    const rules: SafetyRules
    var store: seq<Hash>
    var round: nat
    var epoch: nat
    var height: nat
    ghost var asked: seq<Event>
    ghost var decided: seq<Hash>

    /** The safety rules are where everything they were asked has led them. */
    ghost predicate Valid()
      reads this, rules
    {
      rules.View() == Acts(asked).state && rules.saved == Acts(asked).saved
    }

    ghost function View(): Engine
      reads this, collector
    {
      Engine(collector.View(), store, asked, round, epoch, height, decided)
    }

    constructor (members: set<Address>, keys: map<Address, PubKey>)
      ensures Valid() && View() == Boot(members, keys)
      ensures fresh(collector) && fresh(rules)
    {
      collector := new Collector(members, keys);
      rules := new SafetyRules();
      store, round, epoch, height, asked, decided := [], 1, 1, 0, [], [];
    }

    method AddBlock(h: Hash)
      modifies this`store
      ensures store == Stored(old(store), h)
    {
      if h in store { return; }
      if |store| >= STORE_CAPACITY { store := store[1..]; }
      store := store + [h];
    }

    /** Ask the safety rules for a vote. */
    method Ask(d: VoteData, parentRound: nat, saves: bool) returns (cast: bool)
      requires Valid()
      modifies rules, this`asked
      ensures Valid() && asked == old(asked) + [TryVote(d, parentRound, saves)]
      ensures cast <==> Acts(asked).log == Acts(old(asked)).log + [Ballot(d, old(rules.epoch))]
    {
      ActsLast(asked, TryVote(d, parentRound, saves));
      cast := rules.Vote(d, parentRound, saves);
      asked := asked + [TryVote(d, parentRound, saves)];
    }

    method HandleProposal(numberOf: Numbering, p: Proposal, leader: Address, saves: bool) returns (cast: bool)
      requires Valid()
      modifies this, rules
      ensures Valid() && View() == OnProposal(numberOf, old(View()), p, leader, saves)
      ensures cast <==> Acts(asked).log != Acts(old(asked)).log
    {
      if !p.verifies { return false; }
      if p.coinbase != leader { return false; }
      if leader !in collector.members { return false; }
      AddBlock(p.hash);
      cast := Ask(VoteData(p.hash, numberOf(p.hash), PREPARE, p.epoch), p.parentRound, saves);
    }

    method HandleQc(numberOf: Numbering, qc: Certificate, saves: bool)
      requires Valid()
      modifies this, rules
      ensures Valid() && View() == OnQc(numberOf, old(View()), qc, saves)
    {
      if qc.data.phase == PREPARE {
        ActsLast(asked, Lock(qc.data.number));
        rules.UpdateLockedQc(qc.data.number);
        asked := asked + [Lock(qc.data.number)];
        var _ := Ask(VoteData(qc.data.blockHash, qc.data.number, PRECOMMIT, epoch), qc.data.number, saves);
      } else if qc.data.phase == PRECOMMIT {
        var _ := Ask(VoteData(qc.data.blockHash, qc.data.number, COMMIT, epoch), qc.data.number, saves);
      } else if qc.data.phase == COMMIT {
        var number := numberOf(qc.data.blockHash);
        if qc.data.blockHash in store && number > height {
          height := number;
          decided := decided + [qc.data.blockHash];
          AdvanceRound(number + 1, qc.data.epoch);
        }
      }
    }

    method AdvanceRound(newRound: nat, newEpoch: nat)
      modifies this`round, this`epoch
      ensures round == Max(old(round), newRound)
      ensures epoch == if newRound > old(round) then newEpoch else old(epoch)
    {
      if newRound <= round { return; }
      round, epoch := newRound, newEpoch;
    }

    method HandleVote(check: Verifier, numberOf: Numbering, v: Vote, key: PubKey, saves: bool)
      requires Valid()
      modifies this, rules, collector
      ensures Valid() && View() == Does(check, numberOf, old(View()), Step.Receive(v, key, saves))
    {
      var r := collector.Receive(check, v, key);
      if r.Formed? { HandleQc(numberOf, r.qc, saves); }
    }

    /** Called after a commit: late votes of earlier rounds no longer matter. */
    method PruneVotesBelow(check: Verifier, numberOf: Numbering, below: nat)
      requires Valid()
      modifies collector
      ensures Valid() && View() == Does(check, numberOf, old(View()), PruneVotes(below))
    {
      collector.PruneSeenVotesBelow(below);
    }

    method HandleTimeout(check: Verifier, numberOf: Numbering) returns (timedOut: nat)
      requires Valid()
      modifies this`round
      ensures Valid() && View() == Does(check, numberOf, old(View()), Timeout) && timedOut == old(round)
    {
      timedOut := round;
      round := round + 1;
    }
  }

  // ---------------------------------------------------------------------------
  // What an engine signs
  // ---------------------------------------------------------------------------

  /**
   Why a vote may be signed: a prepare vote names a block by its own height, and a vote of a later phase
   repeats a certificate of the phase before.
   */
  ghost predicate Prompted(numberOf: Numbering, members: set<Address>, signed: Signatures, d: VoteData) {
    if d.phase == PREPARE then numberOf(d.blockHash) == d.number
    else exists qc :: Backed(members, signed, qc) && qc.data.phase == d.phase - 1
                      && qc.data.blockHash == d.blockHash && qc.data.number == d.number
  }

  /** The rules are asked for prompted votes only, and never to change epoch. */
  ghost predicate WellAsked(numberOf: Numbering, members: set<Address>, signed: Signatures, es: seq<Event>) {
    forall k | 0 <= k < |es| ::
      !es[k].Advance? && (es[k].TryVote? ==> Prompted(numberOf, members, signed, es[k].data))
  }

  lemma {:induction false} WellAskedLast(numberOf: Numbering, members: set<Address>, signed: Signatures, es: seq<Event>,
                                         x: Event)
    requires WellAsked(numberOf, members, signed, es) && !x.Advance?
    requires x.TryVote? ==> Prompted(numberOf, members, signed, x.data)
    ensures WellAsked(numberOf, members, signed, es + [x])
  {
  }

  /** So every vote signed is prompted, and all of them are of epoch 0. */
  lemma {:induction false} SignedArePrompted(numberOf: Numbering, members: set<Address>, signed: Signatures,
                                             es: seq<Event>)
    requires WellAsked(numberOf, members, signed, es)
    ensures Acts(es).state.epoch == 0 && Acts(es).saved.epoch == 0
    ensures forall i | 0 <= i < |Acts(es).log| ::
              Acts(es).log[i].epoch == 0 && Prompted(numberOf, members, signed, Acts(es).log[i].data)
    decreases |es|
  {
    if es != [] {
      var pre := es[..|es| - 1];
      assert forall k | 0 <= k < |pre| :: pre[k] == es[k];
      SignedArePrompted(numberOf, members, signed, pre);
      assert !es[|es| - 1].Advance?;
    }
  }

  /** The rules sign this vote with that parent round now: the conditions of the safety rules, over what survives. */
  ghost predicate WouldSign(es: seq<Event>, d: VoteData, parentRound: nat) {
    var kept := Surviving(es);
    var log := Acts(kept).log;
    && (log == [] || d.number >= log[|log| - 1].data.number)
    && !SignedIn(log, Slot(d), EpochOf(kept))
    && parentRound >= LockOf(kept)
    && (d.epoch == EpochOf(kept) || EpochOf(kept) == 0)
  }

  /** Asked for a vote, the rules sign it and nothing else, or sign nothing. */
  ghost predicate AnswersWith(es: seq<Event>, es': seq<Event>, d: VoteData, parentRound: nat) {
    if WouldSign(es, d, parentRound)
    then |Acts(es').log| == |Acts(es).log| + 1 && Acts(es').log[..|Acts(es).log|] == Acts(es).log
         && Acts(es').log[|Acts(es).log|].data == d
    else Acts(es').log == Acts(es).log
  }

  lemma {:induction false} AskedAnswers(es: seq<Event>, d: VoteData, parentRound: nat, saves: bool)
    ensures AnswersWith(es, es + [TryVote(d, parentRound, saves)], d, parentRound)
  {
    SignsIff(es, d, parentRound);
    ActsLast(es, TryVote(d, parentRound, saves));
  }

  /**
   A proposal is refused unchanged unless its parent certificate verifies and its proposer is the member whose
   turn it is. Otherwise the block is in the store, and a prepare vote for it is signed exactly when the rules
   allow it with the parent certificate's round.
   */
  lemma {:induction false} ProposalOutcome(numberOf: Numbering, e: Engine, p: Proposal, leader: Address, saves: bool)
    ensures var e' := OnProposal(numberOf, e, p, leader, saves);
            if p.verifies && p.coinbase == leader && leader in e.node.members then
              && e'.store == (if p.hash in e.store then e.store
                              else (if |e.store| < 1024 then e.store else e.store[1..]) + [p.hash])
              && AnswersWith(e.asked, e'.asked, VoteData(p.hash, numberOf(p.hash), 0, p.epoch), p.parentRound)
              && (e'.node, e'.round, e'.epoch, e'.height, e'.decided) == (e.node, e.round, e.epoch, e.height, e.decided)
            else e' == e
  {
    AskedAnswers(e.asked, VoteData(p.hash, numberOf(p.hash), 0, p.epoch), p.parentRound, saves);
  }

  lemma {:induction false} SurvivingLast(es: seq<Event>, x: Event)
    requires !x.Restart?
    ensures Surviving(es + [x]) == Surviving(es) + [x]
  {
    assert (es + [x])[..|es|] == es;
  }

  /** A lock asked for is held, and signs nothing. */
  lemma {:induction false} LockHeld(es: seq<Event>, round: nat)
    ensures LockOf(Surviving(es + [Lock(round)])) == Max(LockOf(Surviving(es)), round)
    ensures Acts(es + [Lock(round)]).log == Acts(es).log
  {
    SurvivingLast(es, Lock(round));
    ActsLast(es, Lock(round));
    var kept := Surviving(es);
    assert (kept + [Lock(round)])[..|kept|] == kept;
  }

  /**
   What a certificate makes an engine do. A prepare certificate locks its round; it and a precommit one ask for
   the next vote on the same block, with that round as parent and under the pacemaker's epoch. A commit one
   decides a stored block above the committed height and moves the pacemaker past it. Any other is refused.
   */
  lemma {:induction false} CertificateOutcome(numberOf: Numbering, e: Engine, qc: Certificate, saves: bool)
    ensures var e' := OnQc(numberOf, e, qc, saves);
            var h, round := qc.data.blockHash, qc.data.number;
            match qc.data.phase
            case 0 =>
              var locked := e.asked + [Lock(round)];
              && LockOf(Surviving(locked)) == Max(LockOf(Surviving(e.asked)), round)
              && Acts(locked).log == Acts(e.asked).log
              && locked < e'.asked && AnswersWith(locked, e'.asked, VoteData(h, round, 1, e.epoch), round)
              && e'.(asked := e.asked) == e
            case 1 =>
              && AnswersWith(e.asked, e'.asked, VoteData(h, round, 2, e.epoch), round)
              && e'.(asked := e.asked) == e
            case 2 =>
              if h in e.store && numberOf(h) > e.height then
                && e'.height == numberOf(h) && e'.decided == e.decided + [h]
                && (if numberOf(h) + 1 > e.round then e'.round == numberOf(h) + 1 && e'.epoch == qc.data.epoch
                    else e'.round == e.round && e'.epoch == e.epoch)
                && (e'.node, e'.store, e'.asked) == (e.node, e.store, e.asked)
              else e' == e
            case _ => e' == e
  {
    LockHeld(e.asked, qc.data.number);
    AskedAnswers(e.asked + [Lock(qc.data.number)], VoteData(qc.data.blockHash, qc.data.number, 1, e.epoch),
                 qc.data.number, saves);
    AskedAnswers(e.asked, VoteData(qc.data.blockHash, qc.data.number, 2, e.epoch), qc.data.number, saves);
  }

  function StoredAll(hs: seq<Hash>): seq<Hash>
    decreases |hs|
  {
    if hs == [] then [] else Stored(StoredAll(hs[..|hs| - 1]), hs[|hs| - 1])
  }

  /** Of any number of different blocks the store holds the last 1024, in the order they came; a known one is kept. */
  lemma {:induction false} StoreHoldsLast(hs: seq<Hash>)
    requires forall i, j | 0 <= i < j < |hs| :: hs[i] != hs[j]
    ensures StoredAll(hs) == hs[SatSub(|hs|, 1024)..]
    ensures forall h | h in StoredAll(hs) :: Stored(StoredAll(hs), h) == StoredAll(hs)
    decreases |hs|
  {
    if hs != [] {
      var n := |hs| - 1;
      StoreHoldsLast(hs[..n]);
      assert hs[n] !in hs[..n];
      StoredNew(hs, n, SatSub(n, 1024));
    }
  }

  lemma {:induction false} StoredNew(hs: seq<Hash>, n: nat, from: nat)
    requires n + 1 == |hs| && from == SatSub(n, 1024) && hs[n] !in hs[from..n]
    ensures Stored(hs[from..n], hs[n]) == hs[SatSub(|hs|, 1024)..]
  {
  }

  /** The votes and prunes since the last start. */
  function Inputs(ss: seq<Step>): seq<Input>
    decreases |ss|
  {
    if ss == [] || ss[|ss| - 1].Reboot? then []
    else
      var pre := Inputs(ss[..|ss| - 1]);
      match ss[|ss| - 1]
      case Receive(v, key, _) => pre + [Deliver(v, key)]
      case PruneVotes(below) => pre + [Prune(below)]
      case _ => pre
  }

  lemma {:induction false} QcKeepsNode(numberOf: Numbering, e: Engine, qc: Certificate, saves: bool)
    ensures OnQc(numberOf, e, qc, saves).node == e.node
  {
  }

  /** Whatever else an engine does, its votes are those of a collector fed the same votes and prunes since the start. */
  lemma {:induction false} EngineCollects(check: Verifier, numberOf: Numbering, members: set<Address>,
                                          keys: map<Address, PubKey>, ss: seq<Step>)
    ensures Lives(check, numberOf, Boot(members, keys), ss).node
         == Receives(check, Node(members, keys, map[], map[]), Inputs(ss))
    decreases |ss|
  {
    if ss != [] {
      var pre, s := ss[..|ss| - 1], ss[|ss| - 1];
      EngineCollects(check, numberOf, members, keys, pre);
      var e, ins := Lives(check, numberOf, Boot(members, keys), pre), Inputs(pre);
      ReceivesKeeps(check, Node(members, keys, map[], map[]), ins);
      match s
      case Receive(v, key, saves) =>
        var (n, r) := OnVote(check, e.node, v, key);
        if r.Formed? { QcKeepsNode(numberOf, e.(node := n), r.qc, saves); }
        assert (ins + [Deliver(v, key)])[..|ins|] == ins;
      case PruneVotes(below) => assert (ins + [Prune(below)])[..|ins|] == ins;
      case _ =>
    }
  }

  lemma {:induction false} ReceivesKeeps(check: Verifier, n: Node, ins: seq<Input>)
    ensures Receives(check, n, ins).members == n.members && Receives(check, n, ins).keys == n.keys
    decreases |ins|
  {
    if ins != [] {
      ReceivesKeeps(check, n, ins[..|ins| - 1]);
      TakeRecalls(check, Receives(check, n, ins[..|ins| - 1]), ins[|ins| - 1], (0, 0, 0));
    }
  }

  /** Rounds count from 1, one more for each timeout of an engine that hears nothing. */
  lemma {:induction false} TimeoutsCount(check: Verifier, numberOf: Numbering, members: set<Address>,
                                         keys: map<Address, PubKey>, k: nat)
    ensures var e := Lives(check, numberOf, Boot(members, keys), seq(k, _ => Timeout));
            e.round == 1 + k && e.epoch == 1 && e.height == 0 && e.decided == [] && e.asked == []
    decreases k
  {
    if k > 0 {
      TimeoutsCount(check, numberOf, members, keys, k - 1);
      assert seq(k, _ => Timeout)[..k - 1] == seq(k - 1, _ => Timeout);
    }
  }

  /** Between restarts the round never falls, every decided block is below it, and a timeout moves it up by one. */
  lemma {:induction false} RoundsRise(check: Verifier, numberOf: Numbering, e: Engine, s: Step)
    requires !s.Reboot? && e.height < e.round
    ensures var e' := Does(check, numberOf, e, s);
            e'.round >= e.round && e'.height < e'.round && (s.Timeout? ==> e' == e.(round := e.round + 1))
  {
  }

  // ---------------------------------------------------------------------------
  // What an engine decides
  // ---------------------------------------------------------------------------

  /** A commit certificate stands behind a decided block. */
  ghost predicate Certified(members: set<Address>, signed: Signatures, h: Hash) {
    exists qc :: Backed(members, signed, qc) && qc.data.phase == COMMIT && qc.data.blockHash == h
  }

  /** Everything the engine believes and did rests on signatures of its members. */
  ghost predicate EngineSound(numberOf: Numbering, members: set<Address>, keys: map<Address, PubKey>,
                              signed: Signatures, e: Engine)
  {
    && e.node.members == members && e.node.keys == keys && NodeSound(e.node, signed)
    && WellAsked(numberOf, members, signed, e.asked)
    && forall i | 0 <= i < |e.decided| :: Certified(members, signed, e.decided[i])
  }

  lemma {:induction false} QcSound(numberOf: Numbering, members: set<Address>, keys: map<Address, PubKey>,
                                   signed: Signatures, e: Engine, qc: Certificate, saves: bool)
    requires EngineSound(numberOf, members, keys, signed, e) && Backed(members, signed, qc)
    ensures EngineSound(numberOf, members, keys, signed, OnQc(numberOf, e, qc, saves))
  {
    if qc.data.phase == PREPARE {
      WellAskedLast(numberOf, members, signed, e.asked, Lock(qc.data.number));
      WellAskedLast(numberOf, members, signed, e.asked + [Lock(qc.data.number)], NextVote(e, qc, saves));
    } else if qc.data.phase == PRECOMMIT {
      WellAskedLast(numberOf, members, signed, e.asked, NextVote(e, qc, saves));
    } else if qc.data.phase == COMMIT {
      assert Certified(members, signed, qc.data.blockHash);
    }
  }

  lemma {:induction false} StepSound(check: Verifier, numberOf: Numbering, members: set<Address>,
                                     keys: map<Address, PubKey>, signed: Signatures, e: Engine, s: Step)
    requires Unforgeable(check, members, keys, signed) && EngineSound(numberOf, members, keys, signed, e)
    ensures EngineSound(numberOf, members, keys, signed, Does(check, numberOf, e, s))
  {
    match s
    case Propose(p, leader, saves) =>
      WellAskedLast(numberOf, members, signed, e.asked,
                    TryVote(VoteData(p.hash, numberOf(p.hash), PREPARE, p.epoch), p.parentRound, saves));
    case Receive(v, key, saves) =>
      OnVoteSound(check, e.node, v, key, signed);
      var (n, r) := OnVote(check, e.node, v, key);
      if r.Formed? { QcSound(numberOf, members, keys, signed, e.(node := n), r.qc, saves); }
    case Reboot =>
      WellAskedLast(numberOf, members, signed, e.asked, Restart);
    case _ =>
  }

  /** In every run, restarts included, an engine signs only prompted votes and decides only certified blocks. */
  lemma {:induction false} RunSound(check: Verifier, numberOf: Numbering, members: set<Address>,
                                    keys: map<Address, PubKey>, signed: Signatures, ss: seq<Step>)
    requires Unforgeable(check, members, keys, signed)
    ensures EngineSound(numberOf, members, keys, signed, Lives(check, numberOf, Boot(members, keys), ss))
    decreases |ss|
  {
    if ss != [] {
      var pre := ss[..|ss| - 1];
      RunSound(check, numberOf, members, keys, signed, pre);
      StepSound(check, numberOf, members, keys, signed, Lives(check, numberOf, Boot(members, keys), pre), ss[|ss| - 1]);
    }
  }

  ghost predicate Climbs(numberOf: Numbering, height: nat, d: seq<Hash>) {
    && (forall i | 0 <= i < |d| :: 0 < numberOf(d[i]) <= height)
    && (forall i, j | 0 <= i < j < |d| :: numberOf(d[i]) < numberOf(d[j]))
  }

  lemma {:induction false} ClimbsOn(numberOf: Numbering, height: nat, d: seq<Hash>, h: Hash)
    requires Climbs(numberOf, height, d) && numberOf(h) > height
    ensures Climbs(numberOf, numberOf(h), d + [h])
  {
  }

  ghost predicate NoReboot(ss: seq<Step>) {
    forall i | 0 <= i < |ss| :: !ss[i].Reboot?
  }

  /** What was decided before stays, and what came on top climbs to the committed height. */
  ghost predicate ClimbsFrom(numberOf: Numbering, was: seq<Hash>, e: Engine) {
    was <= e.decided && Climbs(numberOf, e.height, e.decided[|was|..])
  }

  lemma {:induction false} DecideClimbs(numberOf: Numbering, was: seq<Hash>, e: Engine, qc: Certificate)
    requires ClimbsFrom(numberOf, was, e)
    ensures ClimbsFrom(numberOf, was, Decide(numberOf, e, qc))
  {
    var e' := Decide(numberOf, e, qc);
    if e'.decided != e.decided {
      ClimbsOn(numberOf, e.height, e.decided[|was|..], qc.data.blockHash);
      assert e'.decided[|was|..] == e.decided[|was|..] + [qc.data.blockHash];
    }
  }

  lemma {:induction false} StepClimbs(check: Verifier, numberOf: Numbering, was: seq<Hash>, e: Engine, s: Step)
    requires ClimbsFrom(numberOf, was, e) && !s.Reboot?
    ensures ClimbsFrom(numberOf, was, Does(check, numberOf, e, s))
  {
    if s.Receive? {
      var (n, r) := OnVote(check, e.node, s.vote, s.key);
      if r.Formed? { DecideClimbs(numberOf, was, e.(node := n), r.qc); }
    }
  }

  /** From one start to the next an engine decides at strictly increasing heights. */
  lemma {:induction false} DecisionsIncrease(check: Verifier, numberOf: Numbering, start: Engine, ss: seq<Step>)
    requires start.height == 0 && NoReboot(ss)
    ensures ClimbsFrom(numberOf, start.decided, Lives(check, numberOf, start, ss))
    decreases |ss|
  {
    if ss == [] {
      assert start.decided[|start.decided|..] == [];
    } else {
      var pre, s := ss[..|ss| - 1], ss[|ss| - 1];
      assert forall i | 0 <= i < |pre| :: pre[i] == ss[i];
      DecisionsIncrease(check, numberOf, start, pre);
      StepClimbs(check, numberOf, start.decided, Lives(check, numberOf, start, pre), s);
    }
  }

  // ---------------------------------------------------------------------------
  // Agreement
  // ---------------------------------------------------------------------------

  /** A member that signs what its engine signs and nothing else, and loses no vote in a restart. */
  ghost predicate Follows(signed: Signatures, h: Address, e: Engine) {
    && NothingLost(e.asked)
    && forall d | (h, d) in signed :: exists i | 0 <= i < |Acts(e.asked).log| :: Acts(e.asked).log[i].data == d
  }

  /** One validator set of which fewer than a third are faulty; every other member runs the engine. */
  ghost predicate Federation(check: Verifier, numberOf: Numbering, members: set<Address>, keys: map<Address, PubKey>,
                             signed: Signatures, faulty: set<Address>, runs: map<Address, seq<Step>>)
  {
    && 3 * |faulty| < |members| && Unforgeable(check, members, keys, signed)
    && forall h | h in members && h !in faulty ::
         h in runs && Follows(signed, h, Lives(check, numberOf, Boot(members, keys), runs[h]))
  }

  lemma {:induction false} FollowerHonest(numberOf: Numbering, members: set<Address>, keys: map<Address, PubKey>,
                                          signed: Signatures, h: Address, e: Engine)
    requires EngineSound(numberOf, members, keys, signed, e) && Follows(signed, h, e)
    ensures Honest(signed, h, e.asked)
    ensures forall d | (h, d) in signed :: Prompted(numberOf, members, signed, d)
  {
    SignedArePrompted(numberOf, members, signed, e.asked);
  }

  /** What the members' safety rules were asked. */
  ghost function Askings(check: Verifier, numberOf: Numbering, members: set<Address>, keys: map<Address, PubKey>,
                         faulty: set<Address>, runs: map<Address, seq<Step>>): map<Address, seq<Event>>
  {
    map h | h in members && h !in faulty && h in runs :: Lives(check, numberOf, Boot(members, keys), runs[h]).asked
  }

  ghost predicate AllPrompted(numberOf: Numbering, members: set<Address>, signed: Signatures, faulty: set<Address>) {
    forall h, d | h in members && h !in faulty && (h, d) in signed :: Prompted(numberOf, members, signed, d)
  }

  lemma {:induction false} FederationIsHonest(check: Verifier, numberOf: Numbering, members: set<Address>,
                                              keys: map<Address, PubKey>, signed: Signatures, faulty: set<Address>,
                                              runs: map<Address, seq<Step>>)
    requires Federation(check, numberOf, members, keys, signed, faulty, runs)
    ensures World(members, signed, faulty, Askings(check, numberOf, members, keys, faulty, runs))
    ensures AllPrompted(numberOf, members, signed, faulty)
  {
    var asked := Askings(check, numberOf, members, keys, faulty, runs);
    forall h | h in members && h !in faulty
      ensures h in asked && Honest(signed, h, asked[h])
      ensures forall d | (h, d) in signed :: Prompted(numberOf, members, signed, d)
    {
      var e := Lives(check, numberOf, Boot(members, keys), runs[h]);
      RunSound(check, numberOf, members, keys, signed, runs[h]);
      FollowerHonest(numberOf, members, keys, signed, h, e);
    }
  }

  /** Every certificate names its block by the block's own height. */
  lemma {:induction false} CertificateNumbers(numberOf: Numbering, members: set<Address>, signed: Signatures,
                                              faulty: set<Address>, qc: Certificate)
    requires 3 * |faulty| < |members| && AllPrompted(numberOf, members, signed, faulty) && Backed(members, signed, qc)
    ensures numberOf(qc.data.blockHash) == qc.data.number
    decreases qc.data.phase
  {
    var h := HonestWitness(members, faulty, qc.signers, qc.signers);
    assert Prompted(numberOf, members, signed, qc.data);
    if qc.data.phase != PREPARE {
      var before :| Backed(members, signed, before) && before.data.phase == qc.data.phase - 1
                    && before.data.blockHash == qc.data.blockHash && before.data.number == qc.data.number;
      CertificateNumbers(numberOf, members, signed, faulty, before);
    }
  }

  lemma {:induction false} CertifiedAlike(numberOf: Numbering, members: set<Address>, signed: Signatures,
                                          faulty: set<Address>, asked: map<Address, seq<Event>>, x: Hash, y: Hash)
    requires World(members, signed, faulty, asked) && AllPrompted(numberOf, members, signed, faulty)
    requires Certified(members, signed, x) && Certified(members, signed, y) && numberOf(x) == numberOf(y)
    ensures x == y
  {
    var qa :| Backed(members, signed, qa) && qa.data.phase == COMMIT && qa.data.blockHash == x;
    var qb :| Backed(members, signed, qb) && qb.data.phase == COMMIT && qb.data.blockHash == y;
    CertificateNumbers(numberOf, members, signed, faulty, qa);
    CertificateNumbers(numberOf, members, signed, faulty, qb);
    BackedAgree(members, signed, faulty, asked, qa, qb);
  }

  /**
   Safety: if fewer than a third of a validator set is faulty and the others run this engine without losing
   a vote in a restart, no two nodes, nor one node at two times, ever decide different blocks at one height,
   whatever they are sent and whenever they restart.
   */
  lemma {:induction false} NodesDecideAlike(check: Verifier, numberOf: Numbering, members: set<Address>,
                                            keys: map<Address, PubKey>, signed: Signatures, faulty: set<Address>,
                                            runs: map<Address, seq<Step>>, sa: seq<Step>, sb: seq<Step>, i: nat, j: nat)
    requires Federation(check, numberOf, members, keys, signed, faulty, runs)
    requires i < |Lives(check, numberOf, Boot(members, keys), sa).decided|
    requires j < |Lives(check, numberOf, Boot(members, keys), sb).decided|
    ensures var x := Lives(check, numberOf, Boot(members, keys), sa).decided[i];
            var y := Lives(check, numberOf, Boot(members, keys), sb).decided[j];
            numberOf(x) == numberOf(y) ==> x == y
  {
    var a, b := Lives(check, numberOf, Boot(members, keys), sa), Lives(check, numberOf, Boot(members, keys), sb);
    FederationIsHonest(check, numberOf, members, keys, signed, faulty, runs);
    RunSound(check, numberOf, members, keys, signed, sa);
    RunSound(check, numberOf, members, keys, signed, sb);
    if numberOf(a.decided[i]) == numberOf(b.decided[j]) {
      CertifiedAlike(numberOf, members, signed, faulty, Askings(check, numberOf, members, keys, faulty, runs),
                     a.decided[i], b.decided[j]);
    }
  }

  // ---------------------------------------------------------------------------
  // A federation that decides
  // ---------------------------------------------------------------------------

  function SoleVote(phase: nat): VoteData {
    VoteData(5, 5, phase, 1)
  }

  function SoleSigned(): Signatures {
    {(7, SoleVote(PREPARE)), (7, SoleVote(PRECOMMIT)), (7, SoleVote(COMMIT))}
  }

  function SoleCheck(): Verifier {
    (v: Vote, key: PubKey) => (v.voter, v.data) in SoleSigned()
  }

  function SoleReceive(phase: nat): Step {
    Receive(Vote(SoleVote(phase), 7, 0), 1, false)
  }

  /** Block 5 is proposed, and the only member's three votes come back to it. */
  function SoleRun(): seq<Step> {
    [Propose(Proposal(5, 7, 1, 0, true), 7, false), SoleReceive(PREPARE), SoleReceive(PRECOMMIT), SoleReceive(COMMIT)]
  }

  function SoleStart(): Engine {
    Boot({7}, map[7 := 1])
  }

  function SoleAsked(): seq<Event> {
    [TryVote(SoleVote(PREPARE), 0, false), Lock(5), TryVote(SoleVote(PRECOMMIT), 5, false),
     TryVote(SoleVote(COMMIT), 5, false)]
  }

  lemma {:induction false} SoleFormed(e: Engine, phase: nat)
    requires phase <= COMMIT && e.node.members == {7} && e.node.keys == map[7 := 1]
    requires (5, phase) !in e.node.accs && (5, phase, 7) !in e.node.seen
    ensures var (n, r) := OnVote(SoleCheck(), e.node, Vote(SoleVote(phase), 7, 0), 1);
            && r == Formed(Certificate(SoleVote(phase), {7}))
            && n.members == {7} && n.keys == map[7 := 1]
            && n.accs.Keys == e.node.accs.Keys + {(5, phase)} && n.seen.Keys == e.node.seen.Keys + {(5, phase, 7)}
  {
    assert {} + {7} == {7 as Address};
  }

  function Same(): Numbering {
    h => h
  }

  lemma {:induction false} LivesLast(check: Verifier, numberOf: Numbering, start: Engine, ss: seq<Step>, s: Step)
    ensures Lives(check, numberOf, start, ss + [s]) == Does(check, numberOf, Lives(check, numberOf, start, ss), s)
  {
    assert (ss + [s])[..|ss|] == ss;
  }

  /** Block 5 is stored and no vote of this phase or a later one has come in. */
  ghost predicate SoleReady(e: Engine, phase: nat) {
    && e.node.members == {7} && e.node.keys == map[7 := 1] && e.store == [5]
    && e.epoch == 1 && e.height == 0 && e.decided == []
    && forall q: nat | phase <= q :: (5, q) !in e.node.accs && (5, q, 7) !in e.node.seen
  }

  lemma {:induction false} SoleStep(e: Engine, phase: nat)
    requires phase <= COMMIT && SoleReady(e, phase)
    ensures var e' := Does(SoleCheck(), Same(), e, SoleReceive(phase));
            if phase == PREPARE then
              SoleReady(e', PRECOMMIT) && e'.asked == e.asked + [Lock(5)] + [TryVote(SoleVote(PRECOMMIT), 5, false)]
            else if phase == PRECOMMIT then
              SoleReady(e', COMMIT) && e'.asked == e.asked + [TryVote(SoleVote(COMMIT), 5, false)]
            else e'.decided == [5] && e'.asked == e.asked
  {
    SoleFormed(e, phase);
  }

  lemma {:induction false} SoleLives()
    ensures var e := Lives(SoleCheck(), Same(), SoleStart(), SoleRun()); e.decided == [5] && e.asked == SoleAsked()
  {
    var check, start, ss := SoleCheck(), SoleStart(), SoleRun();
    assert ss == [ss[0]] + [ss[1]] + [ss[2]] + [ss[3]] && [] + [ss[0]] == [ss[0]];
    LivesLast(check, Same(), start, [], ss[0]);
    LivesLast(check, Same(), start, [ss[0]], ss[1]);
    LivesLast(check, Same(), start, [ss[0]] + [ss[1]], ss[2]);
    LivesLast(check, Same(), start, [ss[0]] + [ss[1]] + [ss[2]], ss[3]);
    SoleStep(Lives(check, Same(), start, [ss[0]]), PREPARE);
    SoleStep(Lives(check, Same(), start, [ss[0]] + [ss[1]]), PRECOMMIT);
    SoleStep(Lives(check, Same(), start, [ss[0]] + [ss[1]] + [ss[2]]), COMMIT);
  }

  lemma {:induction false} SoleLog()
    ensures Acts(SoleAsked()).log
         == [Ballot(SoleVote(PREPARE), 0), Ballot(SoleVote(PRECOMMIT), 0), Ballot(SoleVote(COMMIT), 0)]
  {
    var es := SoleAsked();
    ActsLast([], es[0]);
    ActsLast([es[0]], es[1]);
    ActsLast([es[0], es[1]], es[2]);
    ActsLast([es[0], es[1], es[2]], es[3]);
    assert [] + [es[0]] == [es[0]] && [es[0]] + [es[1]] == [es[0], es[1]];
    assert [es[0], es[1]] + [es[2]] == [es[0], es[1], es[2]] && [es[0], es[1], es[2]] + [es[3]] == es;
  }

  /** A sole validator is a federation, and its engine decides the block it is proposed. */
  lemma {:induction false} SoleValidatorDecides()
    ensures Federation(SoleCheck(), Same(), {7}, map[7 := 1], SoleSigned(), {}, map[7 := SoleRun()])
    ensures Lives(SoleCheck(), Same(), SoleStart(), SoleRun()).decided == [5]
  {
    SoleLives();
    SoleLog();
    var e := Lives(SoleCheck(), Same(), SoleStart(), SoleRun());
    var log := Acts(e.asked).log;
    assert NothingLost(e.asked);
    assert log[0].data == SoleVote(PREPARE) && log[1].data == SoleVote(PRECOMMIT) && log[2].data == SoleVote(COMMIT);
    assert Follows(SoleSigned(), 7, e);
  }
}
