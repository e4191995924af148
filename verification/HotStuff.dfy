/**
 Voting in HotStuff: what one validator's safety rules let it sign, how a node turns votes into quorum
 certificates, and why two certificates for one round and phase agree.

 Signatures are a parameter. Rounds are block numbers.
 */
module HotStuff {
  import opened Prelude

  type Address = nat
  type Hash = nat
  type PubKey = nat

  datatype VoteData = VoteData(blockHash: Hash, number: nat, phase: nat, epoch: nat)

  /** What a validator may sign only once. */
  function Slot(d: VoteData): (nat, nat) {
    (d.number, d.phase)
  }

  // ---------------------------------------------------------------------------
  // One validator's safety rules
  // ---------------------------------------------------------------------------

  datatype Safety = Safety(highest: nat, locked: nat, epoch: nat, voted: set<(nat, nat)>)

  const FRESH := Safety(0, 0, 0, {})

  /** The four checks, in order; none of them looks at the block hash. */
  predicate MayVote(s: Safety, d: VoteData, parentRound: nat) {
    && d.number >= s.highest
    && Slot(d) !in s.voted
    && parentRound >= s.locked
    && (d.epoch == s.epoch || s.epoch == 0)
  }

  function Voted(s: Safety, d: VoteData): Safety {
    s.(highest := d.number, voted := s.voted + {Slot(d)})
  }

  function Locked(s: Safety, round: nat): Safety {
    s.(locked := Max(s.locked, round))
  }

  /** A later epoch starts with an empty record of votes; the lock stays. */
  function Advanced(s: Safety, epoch: nat): Safety {
    if epoch > s.epoch then s.(epoch := epoch, voted := {}) else s
  }

  class SafetyRules {
    var highest: nat
    var locked: nat
    var epoch: nat
    var voted: set<(nat, nat)>
    var saved: Safety

    constructor ()
      ensures View() == FRESH && saved == FRESH
    {
      highest, locked, epoch, voted, saved := 0, 0, 0, {}, FRESH;
    }

    function View(): Safety
      reads this
    {
      Safety(highest, locked, epoch, voted)
    }

    /** The state is written out before the vote is returned; a failed write only logs. */
    method Vote(d: VoteData, parentRound: nat, persists: bool) returns (ok: bool)
      modifies this
      ensures ok == MayVote(old(View()), d, parentRound)
      ensures View() == if ok then Voted(old(View()), d) else old(View())
      ensures saved == if ok && persists then View() else old(saved)
    {
      if d.number < highest { return false; }
      if Slot(d) in voted { return false; }
      if parentRound < locked { return false; }
      if d.epoch != epoch && epoch != 0 { return false; }
      highest := d.number;
      voted := voted + {Slot(d)};
      if persists { saved := View(); }
      return true;
    }

    method UpdateLockedQc(round: nat)
      modifies this`locked
      ensures View() == Locked(old(View()), round)
    {
      if round > locked { locked := round; }
    }

    method AdvanceEpoch(newEpoch: nat)
      modifies this`epoch, this`voted
      ensures View() == Advanced(old(View()), newEpoch)
    {
      if newEpoch > epoch {
        epoch := newEpoch;
        voted := {};
      }
    }
  }

  datatype Event =
    | TryVote(data: VoteData, parentRound: nat, persists: bool)
    | Lock(round: nat)
    | Advance(epoch: nat)
    | Restart

  /** A vote that was signed, and the epoch the safety rules were in. */
  datatype Ballot = Ballot(data: VoteData, epoch: nat)

  /** The live state, the one on disk, and every vote ever signed. */
  datatype Signer = Signer(state: Safety, saved: Safety, log: seq<Ballot>)

  function Act(v: Signer, e: Event): Signer {
    match e
    case TryVote(d, parentRound, persists) =>
      if !MayVote(v.state, d, parentRound) then v
      else
        var s := Voted(v.state, d);
        Signer(s, if persists then s else v.saved, v.log + [Ballot(d, v.state.epoch)])
    case Lock(round) => v.(state := Locked(v.state, round))
    case Advance(epoch) => v.(state := Advanced(v.state, epoch))
    case Restart => v.(state := v.saved)
  }

  function Acts(es: seq<Event>): Signer
    decreases |es|
  {
    if es == [] then Signer(FRESH, FRESH, []) else Act(Acts(es[..|es| - 1]), es[|es| - 1])
  }

  /** Two votes for one round and phase are signed in different epochs, the later in the later one. */
  ghost predicate OncePerEpoch(log: seq<Ballot>) {
    forall i, j | 0 <= i < j < |log| :: Slot(log[i].data) == Slot(log[j].data) ==> log[i].epoch < log[j].epoch
  }

  /** A vote for this round and phase was signed in this epoch. */
  ghost predicate SignedIn(log: seq<Ballot>, slot: (nat, nat), epoch: nat) {
    exists i | 0 <= i < |log| :: Slot(log[i].data) == slot && log[i].epoch == epoch
  }

  /** The state's record holds exactly the slots signed in its epoch, and no vote is from a later one. */
  ghost predicate Recorded(s: Safety, log: seq<Ballot>) {
    && (forall i | 0 <= i < |log| :: log[i].epoch <= s.epoch && log[i].data.number <= s.highest)
    && (log != [] ==> log[|log| - 1].data.number == s.highest)
    && (forall k :: k in s.voted <==> SignedIn(log, k, s.epoch))
  }

  ghost predicate NoRestart(es: seq<Event>) {
    forall i | 0 <= i < |es| :: !es[i].Restart?
  }

  lemma {:induction false} VoteRecorded(v: Signer, d: VoteData, parentRound: nat)
    requires OncePerEpoch(v.log) && Recorded(v.state, v.log) && MayVote(v.state, d, parentRound)
    ensures var log := v.log + [Ballot(d, v.state.epoch)];
            OncePerEpoch(log) && Recorded(Voted(v.state, d), log)
  {
    var log, s := v.log + [Ballot(d, v.state.epoch)], Voted(v.state, d);
    forall i | 0 <= i < |v.log| && Slot(v.log[i].data) == Slot(d) ensures v.log[i].epoch < v.state.epoch {
      assert v.log[i].epoch == v.state.epoch ==> SignedIn(v.log, Slot(d), v.state.epoch);
    }
    forall k ensures k in s.voted <==> SignedIn(log, k, s.epoch) {
      assert log[|v.log|] == Ballot(d, s.epoch);
      if SignedIn(v.log, k, s.epoch) {
        var i :| 0 <= i < |v.log| && Slot(v.log[i].data) == k && v.log[i].epoch == s.epoch;
        assert log[i] == v.log[i];
      }
    }
  }

  lemma {:induction false} AdvanceRecorded(s: Safety, log: seq<Ballot>, epoch: nat)
    requires Recorded(s, log)
    ensures Recorded(Advanced(s, epoch), log)
  {
  }

  lemma {:induction false} RecordKept(es: seq<Event>)
    requires NoRestart(es)
    ensures OncePerEpoch(Acts(es).log) && Recorded(Acts(es).state, Acts(es).log)
    decreases |es|
  {
    if es != [] {
      var pre, e := es[..|es| - 1], es[|es| - 1];
      assert forall i | 0 <= i < |pre| :: pre[i] == es[i];
      RecordKept(pre);
      var v := Acts(pre);
      assert !e.Restart?;
      match e
      case TryVote(d, parentRound, _) => if MayVote(v.state, d, parentRound) { VoteRecorded(v, d, parentRound); }
      case Advance(epoch) => AdvanceRecorded(v.state, v.log, epoch);
      case Lock(_) =>
    }
  }

  // ---------------------------------------------------------------------------
  // Restarts
  // ---------------------------------------------------------------------------

  /** After the events `pre`, this one signs a vote. */
  predicate Signs(pre: seq<Event>, e: Event) {
    e.TryVote? && MayVote(Acts(pre).state, e.data, e.parentRound)
  }

  /** The events the live state remembers: a restart falls back to what was on disk. */
  function Surviving(es: seq<Event>): seq<Event>
    decreases |es|
  {
    if es == [] then []
    else if es[|es| - 1].Restart? then OnDisk(es[..|es| - 1])
    else Surviving(es[..|es| - 1]) + [es[|es| - 1]]
  }

  /** The events the state on disk remembers: those up to the last signed vote that was saved. */
  function OnDisk(es: seq<Event>): seq<Event>
    decreases |es|
  {
    if es == [] then []
    else
      var pre, e := es[..|es| - 1], es[|es| - 1];
      if Signs(pre, e) && e.persists then Surviving(pre) + [e] else OnDisk(pre)
  }

  lemma {:induction false} ActsLast(es: seq<Event>, e: Event)
    ensures Acts(es + [e]) == Act(Acts(es), e)
  {
    assert (es + [e])[..|es|] == es;
  }

  lemma {:induction false} NoRestartLast(es: seq<Event>, e: Event)
    requires NoRestart(es) && !e.Restart?
    ensures NoRestart(es + [e])
  {
  }

  /** A validator is in the state of one that saw the surviving events and never restarted. */
  lemma {:induction false} SurvivingState(es: seq<Event>)
    ensures NoRestart(Surviving(es)) && Acts(Surviving(es)).state == Acts(es).state
    ensures NoRestart(OnDisk(es)) && Acts(OnDisk(es)).state == Acts(es).saved
    decreases |es|
  {
    if es != [] {
      var pre, e := es[..|es| - 1], es[|es| - 1];
      SurvivingState(pre);
      ActsLast(Surviving(pre), e);
      if !e.Restart? { NoRestartLast(Surviving(pre), e); }
    }
  }

  /**
   In every run, whatever a restart loses: a validator signs each round and phase at most once per epoch
   among its surviving votes, and its record holds exactly those of the current epoch.
   */
  lemma {:induction false} VotesOnce(es: seq<Event>)
    ensures var log := Acts(Surviving(es)).log; OncePerEpoch(log) && Recorded(Acts(es).state, log)
  {
    SurvivingState(es);
    RecordKept(Surviving(es));
  }

  /** The last vote signed was saved. */
  predicate LastVoteSaved(es: seq<Event>)
    decreases |es|
  {
    es == []
    || (var pre, e := es[..|es| - 1], es[|es| - 1];
        if Signs(pre, e) then e.persists else LastVoteSaved(pre))
  }

  /** Every restart comes after a saved vote, or before any. */
  ghost predicate NothingLost(es: seq<Event>) {
    forall k | 0 <= k < |es| && es[k].Restart? :: LastVoteSaved(es[..k])
  }

  lemma {:induction false} NothingLostLast(es: seq<Event>)
    requires es != []
    ensures var pre, e := es[..|es| - 1], es[|es| - 1];
            NothingLost(es) <==> NothingLost(pre) && (e.Restart? ==> LastVoteSaved(pre))
  {
    var pre := es[..|es| - 1];
    forall k | 0 <= k < |pre| ensures pre[k] == es[k] && pre[..k] == es[..k] {
    }
    if NothingLost(es) {
      forall k | 0 <= k < |pre| && pre[k].Restart? ensures LastVoteSaved(pre[..k]) { assert es[k].Restart?; }
    }
  }

  /** Every vote ever signed survives exactly when no restart comes while the last one is unsaved. */
  lemma {:induction false} AllSurviveIff(es: seq<Event>)
    ensures |Acts(Surviving(es)).log| <= |Acts(es).log| && |Acts(OnDisk(es)).log| <= |Acts(es).log|
    ensures Acts(Surviving(es)).log == Acts(es).log <==> NothingLost(es)
    ensures Acts(OnDisk(es)).log == Acts(es).log <==> NothingLost(es) && LastVoteSaved(es)
    decreases |es|
  {
    if es != [] {
      var pre, e := es[..|es| - 1], es[|es| - 1];
      AllSurviveIff(pre);
      SurvivingState(pre);
      NothingLostLast(es);
      ActsLast(Surviving(pre), e);
      if Signs(pre, e) { SignedOnBoth(Acts(Surviving(pre)).log, Acts(pre).log, Ballot(e.data, Acts(pre).state.epoch)); }
    }
  }

  lemma {:induction false} SignedOnBoth(a: seq<Ballot>, b: seq<Ballot>, x: Ballot)
    ensures a + [x] == b + [x] <==> a == b
  {
    if a + [x] == b + [x] { assert a == (a + [x])[..|a|] && b == (b + [x])[..|b|]; }
  }

  /** The latest epoch advanced to. */
  function EpochOf(es: seq<Event>): nat
    decreases |es|
  {
    if es == [] then 0
    else Max(EpochOf(es[..|es| - 1]), if es[|es| - 1].Advance? then es[|es| - 1].epoch else 0)
  }

  /** The highest lock seen. */
  function LockOf(es: seq<Event>): nat
    decreases |es|
  {
    if es == [] then 0
    else Max(LockOf(es[..|es| - 1]), if es[|es| - 1].Lock? then es[|es| - 1].round else 0)
  }

  lemma {:induction false} EpochAndLock(es: seq<Event>)
    requires NoRestart(es)
    ensures Acts(es).state.epoch == EpochOf(es) && Acts(es).state.locked == LockOf(es)
    ensures Acts(es).log == [] ==> Acts(es).state.highest == 0
    decreases |es|
  {
    if es != [] {
      var pre := es[..|es| - 1];
      assert forall i | 0 <= i < |pre| :: pre[i] == es[i];
      EpochAndLock(pre);
      assert !es[|es| - 1].Restart?;
    }
  }

  /**
   When a validator signs, for every run: the round is not below its last surviving vote's, no surviving
   vote of the current epoch is for the same round and phase, the parent is not below any surviving lock,
   and the vote is for the surviving epoch or that is still 0. So "never twice for one round and phase"
   fails across an epoch advance, and across a restart exactly for votes that do not survive it.
   */
  lemma {:induction false} SignsIff(es: seq<Event>, d: VoteData, parentRound: nat)
    ensures var kept := Surviving(es);
            var log := Acts(kept).log;
            MayVote(Acts(es).state, d, parentRound) <==>
              && (log == [] || d.number >= log[|log| - 1].data.number)
              && !SignedIn(log, Slot(d), EpochOf(kept))
              && parentRound >= LockOf(kept)
              && (d.epoch == EpochOf(kept) || EpochOf(kept) == 0)
  {
    SurvivingState(es);
    VotesOnce(es);
    EpochAndLock(Surviving(es));
  }

  /** A round and phase signed before, and remembered, is signed again only across an epoch advance. */
  lemma {:induction false} SignsAgainIff(es: seq<Event>, d: VoteData, parentRound: nat, i: nat)
    requires i < |Acts(Surviving(es)).log| && Slot(Acts(Surviving(es)).log[i].data) == Slot(d)
    ensures var kept := Surviving(es);
            var log := Acts(kept).log;
            MayVote(Acts(es).state, d, parentRound) <==>
              && d.number == log[|log| - 1].data.number && ClearedByAdvance(kept, Slot(d))
              && d.epoch == EpochOf(kept) && parentRound >= LockOf(kept)
  {
    SignsIff(es, d, parentRound);
    SurvivingState(es);
    VotesOnce(es);
    EpochAndLock(Surviving(es));
    ClearedIff(Surviving(es), Slot(d));
    assert Acts(Surviving(es)).log[i].data.number == d.number;
  }

  lemma {:induction false} ClearedIff(es: seq<Event>, slot: (nat, nat))
    requires NoRestart(es)
    ensures ClearedByAdvance(es, slot) <==> !SignedIn(Acts(es).log, slot, EpochOf(es))
  {
    RecordKept(es);
    EpochAndLock(es);
    var log := Acts(es).log;
    if k :| 0 <= k < |log| && Slot(log[k].data) == slot && log[k].epoch >= EpochOf(es) {
      assert log[k].epoch <= Acts(es).state.epoch;
      assert SignedIn(log, slot, EpochOf(es));
    }
  }

  /** Every vote for the slot was signed before the latest epoch advance. */
  ghost predicate ClearedByAdvance(es: seq<Event>, slot: (nat, nat)) {
    forall i | 0 <= i < |Acts(es).log| && Slot(Acts(es).log[i].data) == slot :: Acts(es).log[i].epoch < EpochOf(es)
  }

  /** A vote of the current epoch, not below the last one remembered, that was signed but is not remembered. */
  ghost predicate Forgotten(es: seq<Event>, i: nat) {
    var all, log, epoch := Acts(es).log, Acts(Surviving(es)).log, EpochOf(Surviving(es));
    && i < |all| && all[i].epoch == epoch && !SignedIn(log, Slot(all[i].data), epoch)
    && (log == [] || all[i].data.number >= log[|log| - 1].data.number)
  }

  /** This vote would be signed, and its round and phase were signed before in the same epoch. */
  ghost predicate SecondTime(es: seq<Event>, d: VoteData, parentRound: nat) {
    MayVote(Acts(es).state, d, parentRound) && SignedIn(Acts(es).log, Slot(d), EpochOf(Surviving(es)))
  }

  /**
   After any run a validator can be made to sign some round and phase a second time in its epoch exactly
   when it has forgotten a vote; without a restart while the last vote is unsaved it has not.
   */
  lemma {:induction false} SecondTimeIff(es: seq<Event>)
    ensures (exists d, parentRound :: SecondTime(es, d, parentRound)) <==> exists i: nat :: Forgotten(es, i)
    ensures NothingLost(es) ==> forall i: nat :: !Forgotten(es, i)
  {
    var kept, all := Surviving(es), Acts(es).log;
    AllSurviveIff(es);
    if d, parentRound :| SecondTime(es, d, parentRound) {
      SignsIff(es, d, parentRound);
      var i :| 0 <= i < |all| && Slot(all[i].data) == Slot(d) && all[i].epoch == EpochOf(kept);
      assert Forgotten(es, i);
    }
    if i: nat :| Forgotten(es, i) {
      var d := all[i].data.(epoch := EpochOf(kept));
      SignsIff(es, d, LockOf(kept));
      assert SignedIn(all, Slot(d), EpochOf(kept));
      assert SecondTime(es, d, LockOf(kept));
    }
  }

  /** A validator that keeps no record on disk, restarted, signs a second block for the same round and phase. */
  lemma {:induction false} RestartVotesTwice()
    ensures var es := [TryVote(VoteData(10, 1, 0, 0), 0, false), Restart, TryVote(VoteData(20, 1, 0, 0), 0, false)];
            Acts(es).log == [Ballot(VoteData(10, 1, 0, 0), 0), Ballot(VoteData(20, 1, 0, 0), 0)]
  {
    var es := [TryVote(VoteData(10, 1, 0, 0), 0, false), Restart, TryVote(VoteData(20, 1, 0, 0), 0, false)];
    assert es[..2] == [es[0], es[1]] && es[..2][..1] == [es[0]] && es[..2][..1][..0] == [];
    assert Acts([]) == Signer(FRESH, FRESH, []);
    assert Acts(es[..2][..1]) == Act(Acts([]), es[0]);
    assert Acts(es[..2]) == Act(Acts(es[..2][..1]), es[1]);
  }

  /** The record of locks and epochs: every lock seen is held, across epochs too, and no epoch is left again. */
  lemma {:induction false} LocksHeld(es: seq<Event>)
    requires NoRestart(es)
    ensures forall i | 0 <= i < |es| && es[i].Lock? :: es[i].round <= Acts(es).state.locked
    ensures forall i | 0 <= i < |es| && es[i].Advance? :: es[i].epoch <= Acts(es).state.epoch
    decreases |es|
  {
    if es != [] {
      var pre := es[..|es| - 1];
      assert forall i | 0 <= i < |pre| :: pre[i] == es[i];
      LocksHeld(pre);
      assert !es[|es| - 1].Restart?;
    }
  }

  /** A vote never goes below a lock that survives, nor back to a surviving epoch already left. */
  lemma {:induction false} VotesRespectLocks(es: seq<Event>, d: VoteData, parentRound: nat)
    requires MayVote(Acts(es).state, d, parentRound)
    ensures var kept := Surviving(es);
            && (forall i | 0 <= i < |kept| && kept[i].Lock? :: kept[i].round <= parentRound)
            && (forall i | 0 <= i < |kept| && kept[i].Advance? :: kept[i].epoch <= d.epoch)
  {
    SurvivingState(es);
    LocksHeld(Surviving(es));
  }

  ghost predicate NeverSaves(es: seq<Event>) {
    forall i | 0 <= i < |es| && es[i].TryVote? :: !es[i].persists
  }

  lemma {:induction false} NothingOnDisk(es: seq<Event>)
    requires NeverSaves(es)
    ensures OnDisk(es) == []
    decreases |es|
  {
    if es != [] {
      var pre := es[..|es| - 1];
      assert forall i | 0 <= i < |pre| :: pre[i] == es[i];
      NothingOnDisk(pre);
      assert es[|es| - 1].TryVote? ==> !es[|es| - 1].persists;
    }
  }

  /** The node gives its rules no file: whatever came before the last restart is forgotten, and nothing since. */
  lemma {:induction false} UnsavedForgotten(es: seq<Event>, more: seq<Event>)
    requires NeverSaves(es) && NoRestart(more)
    ensures Surviving(es + [Restart] + more) == more
    decreases |more|
  {
    var all := es + [Restart] + more;
    if more == [] {
      assert all[..|all| - 1] == es;
      NothingOnDisk(es);
    } else {
      var pre := more[..|more| - 1];
      assert forall i | 0 <= i < |pre| :: pre[i] == more[i];
      UnsavedForgotten(es, pre);
      assert all[..|all| - 1] == es + [Restart] + pre && all[|all| - 1] == more[|more| - 1];
      assert more == pre + [more[|more| - 1]];
    }
  }

  /** Two blocks signed for round 1, phase 0, with an epoch advance in between. */
  lemma {:induction false} DoubleVoteReachable()
    ensures var es := [TryVote(VoteData(10, 1, 0, 0), 0, true), Advance(1), TryVote(VoteData(20, 1, 0, 1), 0, true)];
            Acts(es).log == [Ballot(VoteData(10, 1, 0, 0), 0), Ballot(VoteData(20, 1, 0, 1), 1)]
  {
    var es := [TryVote(VoteData(10, 1, 0, 0), 0, true), Advance(1), TryVote(VoteData(20, 1, 0, 1), 0, true)];
    assert es[..2] == [es[0], es[1]] && es[..2][..1] == [es[0]] && es[..2][..1][..0] == [];
    assert Acts([]) == Signer(FRESH, FRESH, []);
    assert Acts(es[..2][..1]) == Act(Acts([]), es[0]);
    assert Acts(es[..2]) == Act(Acts(es[..2][..1]), es[1]);
  }

  // ---------------------------------------------------------------------------
  // A node collecting votes
  // ---------------------------------------------------------------------------

  datatype Vote = Vote(data: VoteData, voter: Address, signature: nat)

  /** Votes for one round and phase; `data` is that of the first vote to arrive. */
  datatype Accumulator = Accumulator(data: VoteData, voters: set<Address>, quorum: nat)

  datatype Certificate = Certificate(data: VoteData, signers: set<Address>)

  /** The signature check under a key. */
  type Verifier = (Vote, PubKey) -> bool

  datatype Node = Node(
    members: set<Address>,
    keys: map<Address, PubKey>,
    seen: map<(nat, nat, Address), Hash>,
    accs: map<(nat, nat), Accumulator>)

  function QuorumOf(members: set<Address>): nat {
    2 * |members| / 3 + 1
  }

  datatype Reply = Dropped | Equivocation | Ignored | Duplicate | Counted | Formed(qc: Certificate)

  predicate Admissible(check: Verifier, n: Node, v: Vote, key: PubKey) {
    v.voter in n.members && v.voter in n.keys && n.keys[v.voter] == key && check(v, key)
  }

  function SeenKey(v: Vote): (nat, nat, Address) {
    (v.data.number, v.data.phase, v.voter)
  }

  function AccFor(n: Node, v: Vote): Accumulator {
    if Slot(v.data) in n.accs then n.accs[Slot(v.data)] else Accumulator(v.data, {}, QuorumOf(n.members))
  }

  function Noted(n: Node, v: Vote): Node {
    if SeenKey(v) in n.seen then n else n.(seen := n.seen[SeenKey(v) := v.data.blockHash])
  }

  function OnVote(check: Verifier, n: Node, v: Vote, key: PubKey): (Node, Reply) {
    if !Admissible(check, n, v, key) then (n, Dropped)
    else if SeenKey(v) in n.seen && n.seen[SeenKey(v)] != v.data.blockHash then (n, Equivocation)
    else
      var acc := AccFor(n, v);
      var n' := Noted(n, v).(accs := n.accs[Slot(v.data) := acc]);
      if v.data != acc.data then (n', Ignored)
      else if v.voter in acc.voters then (n', Duplicate)
      else
        var acc' := acc.(voters := acc.voters + {v.voter});
        (n'.(accs := n'.accs[Slot(v.data) := acc']),
         if |acc'.voters| >= acc'.quorum then Formed(Certificate(acc'.data, acc'.voters)) else Counted)
  }

  /** Forget who voted for what in rounds below the committed one. */
  function Pruned(n: Node, round: nat): Node {
    n.(seen := map k | k in n.seen && k.0 >= round :: n.seen[k])
  }

  class Collector {
    const members: set<Address>
    const keys: map<Address, PubKey>
    var seen: map<(nat, nat, Address), Hash>
    var accs: map<(nat, nat), Accumulator>

    constructor (m: set<Address>, k: map<Address, PubKey>)
      ensures View() == Node(m, k, map[], map[])
    {
      members, keys, seen, accs := m, k, map[], map[];
    }

    function View(): Node
      reads this
    {
      Node(members, keys, seen, accs)
    }

    method Receive(check: Verifier, v: Vote, key: PubKey) returns (r: Reply)
      modifies this
      ensures (View(), r) == OnVote(check, old(View()), v, key)
    {
      if v.voter !in members { return Dropped; }
      if v.voter !in keys || keys[v.voter] != key { return Dropped; }
      if !check(v, key) { return Dropped; }
      var ek := SeenKey(v);
      if ek in seen {
        if seen[ek] != v.data.blockHash { return Equivocation; }
      } else {
        seen := seen[ek := v.data.blockHash];
      }
      var slot := Slot(v.data);
      if slot !in accs {
        accs := accs[slot := Accumulator(v.data, {}, QuorumOf(members))];
      }
      assert accs == old(accs)[slot := accs[slot]];
      r := AddVote(slot, v);
    }

    method PruneSeenVotesBelow(round: nat)
      modifies this`seen
      ensures View() == Pruned(old(View()), round)
    {
      seen := map k | k in seen && k.0 >= round :: seen[k];
    }

    method AddVote(slot: (nat, nat), v: Vote) returns (r: Reply)
      requires slot in accs
      modifies this`accs
      ensures var acc := old(accs)[slot];
              if v.data != acc.data then accs == old(accs) && r == Ignored
              else if v.voter in acc.voters then accs == old(accs) && r == Duplicate
              else var acc' := acc.(voters := acc.voters + {v.voter});
                   && accs == old(accs)[slot := acc']
                   && r == if |acc'.voters| >= acc'.quorum then Formed(Certificate(acc'.data, acc'.voters)) else Counted
    {
      var acc := accs[slot];
      if v.data != acc.data { return Ignored; }
      if v.voter in acc.voters { return Duplicate; }
      acc := acc.(voters := acc.voters + {v.voter});
      accs := accs[slot := acc];
      if |acc.voters| >= acc.quorum { return Formed(Certificate(acc.data, acc.voters)); }
      return Counted;
    }
  }

  // ---------------------------------------------------------------------------
  // Certificates
  // ---------------------------------------------------------------------------

  /** Who signed what. */
  type Signatures = set<(Address, VoteData)>

  /** A signature that verifies under a member's registered key was made by that member. */
  ghost predicate Unforgeable(check: Verifier, members: set<Address>, keys: map<Address, PubKey>, signed: Signatures) {
    forall v: Vote | v.voter in members && v.voter in keys && check(v, keys[v.voter]) :: (v.voter, v.data) in signed
  }

  ghost predicate AccSound(members: set<Address>, signed: Signatures, slot: (nat, nat), acc: Accumulator) {
    && Slot(acc.data) == slot && acc.quorum == QuorumOf(members) && acc.voters <= members
    && forall a | a in acc.voters :: (a, acc.data) in signed
  }

  ghost predicate NodeSound(n: Node, signed: Signatures) {
    forall k | k in n.accs :: AccSound(n.members, signed, k, n.accs[k])
  }

  /** What a certificate proves: a quorum of members signed its data. */
  ghost predicate Backed(members: set<Address>, signed: Signatures, qc: Certificate) {
    && qc.signers <= members && |qc.signers| >= QuorumOf(members)
    && forall a | a in qc.signers :: (a, qc.data) in signed
  }

  /** The quorum is the least number that is more than two thirds of the members. */
  lemma {:induction false} QuorumIsLeast(members: set<Address>)
    ensures 3 * QuorumOf(members) > 2 * |members| && 3 * (QuorumOf(members) - 1) <= 2 * |members|
  {
  }

  /** The vote is from a member, under its registered key, and its signature verifies. */
  ghost predicate Genuine(check: Verifier, n: Node, v: Vote, key: PubKey) {
    v.voter in n.members && v.voter in n.keys && n.keys[v.voter] == key && check(v, key)
  }

  /** The block a member is on record for in the round and phase of a vote. */
  ghost predicate OnRecord(n: Node, v: Vote, h: Hash) {
    var k := (v.data.number, v.data.phase, v.voter);
    k in n.seen && n.seen[k] == h
  }

  /**
   What becomes of a vote, exactly. A genuine one that does not contradict the record opens its slot or, if it
   repeats the slot's first data and its voter is new there, is counted; the certificate forms from the
   quorum on.
   */
  lemma {:induction false} VoteOutcome(check: Verifier, n: Node, v: Vote, key: PubKey)
    ensures var (n', r) := OnVote(check, n, v, key);
            var slot := (v.data.number, v.data.phase);
            var open := slot in n.accs;
            var first := if open then n.accs[slot].data else v.data;
            var voters := if open then n.accs[slot].voters else {};
            var quorum := if open then n.accs[slot].quorum else 2 * |n.members| / 3 + 1;
            var taken := Genuine(check, n, v, key) && forall h | OnRecord(n, v, h) :: h == v.data.blockHash;
            && (r.Dropped? <==> !Genuine(check, n, v, key))
            && (r.Equivocation? <==> Genuine(check, n, v, key) && !taken)
            && (r.Ignored? <==> taken && v.data != first)
            && (r.Duplicate? <==> taken && v.data == first && v.voter in voters)
            && (r.Counted? <==> taken && v.data == first && v.voter !in voters && |voters| + 1 < quorum)
            && (r.Formed? <==> taken && v.data == first && v.voter !in voters && |voters| + 1 >= quorum)
            && (r.Formed? ==> r.qc == Certificate(first, voters + {v.voter}))
            && (!taken ==> n' == n)
            && (taken ==> OnRecord(n', v, v.data.blockHash) && slot in n'.accs
                          && n'.accs[slot] == Accumulator(first, if v.data == first then voters + {v.voter} else voters,
                                                          quorum))
            && n'.members == n.members && n'.keys == n.keys
            && (forall k | k != slot :: (k in n'.accs <==> k in n.accs) && (k in n.accs ==> n'.accs[k] == n.accs[k]))
            && (forall k | k != (v.data.number, v.data.phase, v.voter) ::
                  (k in n'.seen <==> k in n.seen) && (k in n.seen ==> n'.seen[k] == n.seen[k]))
  {
    var acc := AccFor(n, v);
    if v.voter in acc.voters { assert acc.voters + {v.voter} == acc.voters; }
    else { assert |acc.voters + {v.voter}| == |acc.voters| + 1; }
    if k :| k == (v.data.number, v.data.phase, v.voter) && k in n.seen { assert OnRecord(n, v, n.seen[k]); }
  }

  lemma {:induction false} OnVoteSound(check: Verifier, n: Node, v: Vote, key: PubKey, signed: Signatures)
    requires NodeSound(n, signed) && Unforgeable(check, n.members, n.keys, signed)
    ensures var (n', r) := OnVote(check, n, v, key);
            && n'.members == n.members && n'.keys == n.keys && NodeSound(n', signed)
            && (r.Formed? ==> Backed(n.members, signed, r.qc))
  {
    var (n', r) := OnVote(check, n, v, key);
    if Admissible(check, n, v, key) {
      assert (v.voter, v.data) in signed;
      assert AccSound(n.members, signed, Slot(v.data), AccFor(n, v));
    }
  }

  datatype Input = Deliver(vote: Vote, key: PubKey) | Prune(round: nat)

  function Take(check: Verifier, n: Node, i: Input): Node {
    match i
    case Deliver(v, key) => OnVote(check, n, v, key).0
    case Prune(round) => Pruned(n, round)
  }

  function Receives(check: Verifier, n: Node, ins: seq<Input>): Node
    decreases |ins|
  {
    if ins == [] then n else Take(check, Receives(check, n, ins[..|ins| - 1]), ins[|ins| - 1])
  }

  lemma {:induction false} RunSound(check: Verifier, n: Node, ins: seq<Input>, signed: Signatures)
    requires n.accs == map[] && Unforgeable(check, n.members, n.keys, signed)
    ensures var n' := Receives(check, n, ins);
            n'.members == n.members && n'.keys == n.keys && NodeSound(n', signed)
    decreases |ins|
  {
    if ins != [] {
      RunSound(check, n, ins[..|ins| - 1], signed);
      match ins[|ins| - 1]
      case Deliver(v, key) => OnVoteSound(check, Receives(check, n, ins[..|ins| - 1]), v, key, signed);
      case Prune(_) =>
    }
  }

  // ---------------------------------------------------------------------------
  // Equivocation
  // ---------------------------------------------------------------------------

  function Lookup(n: Node, k: (nat, nat, Address)): Option<Hash> {
    if k in n.seen then Some(n.seen[k]) else None
  }

  /** The voters of the first `k` inputs. */
  function VotersOf(vs: seq<(Vote, PubKey)>, k: nat): set<Address>
    requires k <= |vs|
  {
    set i | 0 <= i < k :: vs[i].0.voter
  }

  function Delivered(vs: seq<(Vote, PubKey)>, k: nat): (r: seq<Input>)
    requires k <= |vs|
    ensures |r| == k && forall i | 0 <= i < k :: r[i] == Deliver(vs[i].0, vs[i].1)
  {
    seq(k, i requires 0 <= i < k => Deliver(vs[i].0, vs[i].1))
  }

  /** Genuine votes of different members for the same data, none of whom is on record in its round and phase. */
  ghost predicate FreshVotes(check: Verifier, n: Node, d: VoteData, vs: seq<(Vote, PubKey)>) {
    && (d.number, d.phase) !in n.accs
    && (forall i | 0 <= i < |vs| :: vs[i].0.data == d && Genuine(check, n, vs[i].0, vs[i].1)
                                    && (d.number, d.phase, vs[i].0.voter) !in n.seen)
    && (forall i, j | 0 <= i < j < |vs| :: vs[i].0.voter != vs[j].0.voter)
  }

  /** The node has counted the first `k` of them and has the others still to come. */
  ghost predicate CountedTo(n: Node, n': Node, d: VoteData, vs: seq<(Vote, PubKey)>, k: nat)
    requires k <= |vs|
  {
    var slot := (d.number, d.phase);
    && n'.members == n.members && n'.keys == n.keys
    && (if k == 0 then slot !in n'.accs
        else slot in n'.accs && n'.accs[slot] == Accumulator(d, VotersOf(vs, k), 2 * |n.members| / 3 + 1))
    && (forall i | k <= i < |vs| :: (d.number, d.phase, vs[i].0.voter) !in n'.seen)
  }

  lemma {:induction false} VotersSize(vs: seq<(Vote, PubKey)>, k: nat)
    requires k <= |vs| && forall i, j | 0 <= i < j < |vs| :: vs[i].0.voter != vs[j].0.voter
    ensures |VotersOf(vs, k)| == k && forall i | k <= i < |vs| :: vs[i].0.voter !in VotersOf(vs, k)
    decreases k
  {
    if k > 0 {
      VotersSize(vs, k - 1);
      assert VotersOf(vs, k) == VotersOf(vs, k - 1) + {vs[k - 1].0.voter};
    }
  }

  lemma {:induction false} CountNext(check: Verifier, n: Node, n': Node, d: VoteData, vs: seq<(Vote, PubKey)>, k: nat)
    requires FreshVotes(check, n, d, vs) && k < |vs| && CountedTo(n, n', d, vs, k)
    ensures CountedTo(n, OnVote(check, n', vs[k].0, vs[k].1).0, d, vs, k + 1)
    ensures var r := OnVote(check, n', vs[k].0, vs[k].1).1;
            if k + 1 >= 2 * |n.members| / 3 + 1 then r == Formed(Certificate(d, VotersOf(vs, k + 1))) else r == Counted
  {
    VoteOutcome(check, n', vs[k].0, vs[k].1);
    VotersSize(vs, k);
    assert VotersOf(vs, k + 1) == VotersOf(vs, k) + {vs[k].0.voter};
    assert k == 0 ==> VotersOf(vs, k) == {};
    assert forall h :: !OnRecord(n', vs[k].0, h);
  }

  /**
   Votes do add up: delivered one after another, genuine votes of different members for one block are counted
   each, and the one that makes them more than two thirds completes the certificate of exactly those voters.
   */
  lemma {:induction false} VotesAddUp(check: Verifier, n: Node, d: VoteData, vs: seq<(Vote, PubKey)>, k: nat)
    requires FreshVotes(check, n, d, vs) && k < |vs|
    ensures CountedTo(n, Receives(check, n, Delivered(vs, k)), d, vs, k)
    ensures var r := OnVote(check, Receives(check, n, Delivered(vs, k)), vs[k].0, vs[k].1).1;
            if 3 * (k + 1) > 2 * |n.members| then r == Formed(Certificate(d, VotersOf(vs, k + 1))) else r == Counted
  {
    CountsAll(check, n, d, vs, k);
    CountNext(check, n, Receives(check, n, Delivered(vs, k)), d, vs, k);
  }

  lemma {:induction false} CountsAll(check: Verifier, n: Node, d: VoteData, vs: seq<(Vote, PubKey)>, k: nat)
    requires FreshVotes(check, n, d, vs) && k <= |vs|
    ensures CountedTo(n, Receives(check, n, Delivered(vs, k)), d, vs, k)
    decreases k
  {
    if k > 0 {
      CountsAll(check, n, d, vs, k - 1);
      CountNext(check, n, Receives(check, n, Delivered(vs, k - 1)), d, vs, k - 1);
      DeliveredLast(check, n, vs, k);
    }
  }

  lemma {:induction false} DeliveredLast(check: Verifier, n: Node, vs: seq<(Vote, PubKey)>, k: nat)
    requires 0 < k <= |vs|
    ensures Receives(check, n, Delivered(vs, k))
         == OnVote(check, Receives(check, n, Delivered(vs, k - 1)), vs[k - 1].0, vs[k - 1].1).0
  {
    assert Delivered(vs, k)[..k - 1] == Delivered(vs, k - 1);
  }

  /** What a node remembers of one member's vote in one round and phase, from its inputs alone. */
  function Recalled(check: Verifier, n: Node, ins: seq<Input>, k: (nat, nat, Address)): Option<Hash>
    decreases |ins|
  {
    if ins == [] then Lookup(n, k)
    else
      var was := Recalled(check, n, ins[..|ins| - 1], k);
      match ins[|ins| - 1]
      case Deliver(v, key) =>
        if was.None? && Admissible(check, n, v, key) && SeenKey(v) == k then Some(v.data.blockHash) else was
      case Prune(round) => if k.0 < round then None else was
  }

  lemma {:induction false} SeenIsRecalled(check: Verifier, n: Node, ins: seq<Input>, k: (nat, nat, Address))
    ensures var n' := Receives(check, n, ins);
            n'.members == n.members && n'.keys == n.keys && Lookup(n', k) == Recalled(check, n, ins, k)
    decreases |ins|
  {
    if ins != [] {
      SeenIsRecalled(check, n, ins[..|ins| - 1], k);
      TakeRecalls(check, Receives(check, n, ins[..|ins| - 1]), ins[|ins| - 1], k);
    }
  }

  lemma {:induction false} TakeRecalls(check: Verifier, n: Node, i: Input, k: (nat, nat, Address))
    ensures var n' := Take(check, n, i);
            && n'.members == n.members && n'.keys == n.keys
            && Lookup(n', k) == match i
                                case Deliver(v, key) =>
                                  if Lookup(n, k).None? && Admissible(check, n, v, key) && SeenKey(v) == k
                                  then Some(v.data.blockHash) else Lookup(n, k)
                                case Prune(round) => if k.0 < round then None else Lookup(n, k)
  {
  }

  /** No prune goes past the round. */
  ghost predicate NotPruned(ins: seq<Input>, round: nat) {
    forall i | 0 <= i < |ins| :: ins[i].Prune? ==> ins[i].round <= round
  }

  lemma {:induction false} RecallKept(check: Verifier, n: Node, ins: seq<Input>, k: (nat, nat, Address))
    requires k in n.seen && NotPruned(ins, k.0)
    ensures Recalled(check, n, ins, k) == Some(n.seen[k])
    decreases |ins|
  {
    if ins != [] {
      assert forall i | 0 <= i < |ins| - 1 :: ins[..|ins| - 1][i] == ins[i];
      RecallKept(check, n, ins[..|ins| - 1], k);
      assert ins[|ins| - 1].Prune? ==> ins[|ins| - 1].round <= k.0;
    }
  }

  /** No further vote of this member for this round and phase comes in. */
  ghost predicate Silent(check: Verifier, n: Node, ins: seq<Input>, k: (nat, nat, Address)) {
    forall i | 0 <= i < |ins| ::
      ins[i].Deliver? && Admissible(check, n, ins[i].vote, ins[i].key) ==> SeenKey(ins[i].vote) != k
  }

  lemma {:induction false} RecallLost(check: Verifier, n: Node, ins: seq<Input>, k: (nat, nat, Address))
    requires Silent(check, n, ins, k) && !NotPruned(ins, k.0)
    ensures Recalled(check, n, ins, k).None?
    decreases |ins|
  {
    var pre, last := ins[..|ins| - 1], ins[|ins| - 1];
    assert forall i | 0 <= i < |pre| :: pre[i] == ins[i];
    if !(last.Prune? && last.round > k.0) {
      var i :| 0 <= i < |ins| && ins[i].Prune? && ins[i].round > k.0;
      assert pre[i] == ins[i];
      RecallLost(check, n, pre, k);
    }
  }

  /**
   Once a node has taken a member's vote, a vote of that member for another block in the same round and
   phase is reported, whatever arrived in between, as long as no commit pruned past the round.
   */
  lemma {:induction false} EquivocationCaught(check: Verifier, n: Node, v: Vote, key: PubKey, ins: seq<Input>, w: Vote)
    requires Admissible(check, n, v, key) && !OnVote(check, n, v, key).1.Equivocation?
    requires SeenKey(w) == SeenKey(v) && w.data.blockHash != v.data.blockHash && check(w, key)
    requires NotPruned(ins, v.data.number)
    ensures OnVote(check, Receives(check, OnVote(check, n, v, key).0, ins), w, key).1.Equivocation?
  {
    var n1 := OnVote(check, n, v, key).0;
    SeenIsRecalled(check, n1, ins, SeenKey(v));
    RecallKept(check, n1, ins, SeenKey(v));
  }

  /** If that member sends no other vote for the slot, the second one is reported exactly when no prune passed. */
  lemma {:induction false} EquivocationCaughtIff(check: Verifier, n: Node, v: Vote, key: PubKey, ins: seq<Input>,
                                                 w: Vote)
    requires Admissible(check, n, v, key) && !OnVote(check, n, v, key).1.Equivocation?
    requires SeenKey(w) == SeenKey(v) && w.data.blockHash != v.data.blockHash && check(w, key)
    requires Silent(check, n, ins, SeenKey(v))
    ensures OnVote(check, Receives(check, OnVote(check, n, v, key).0, ins), w, key).1.Equivocation?
            <==> NotPruned(ins, v.data.number)
  {
    var n1 := OnVote(check, n, v, key).0;
    SeenIsRecalled(check, n1, ins, SeenKey(v));
    if NotPruned(ins, v.data.number) {
      RecallKept(check, n1, ins, SeenKey(v));
    } else {
      assert Silent(check, n1, ins, SeenKey(v));
      RecallLost(check, n1, ins, SeenKey(v));
    }
  }

  // ---------------------------------------------------------------------------
  // Agreement
  // ---------------------------------------------------------------------------

  lemma {:induction false} Overlap(members: set<Address>, a: set<Address>, b: set<Address>)
    requires a <= members && b <= members
    ensures |a * b| >= |a| + |b| - |members|
  {
    assert a + b <= members;
    SubsetSize(a + b, members);
    assert |a + b| == |a| + |b| - |a * b|;
  }

  lemma {:induction false} SubsetSize(a: set<Address>, b: set<Address>)
    requires a <= b
    ensures |a| <= |b|
  {
    assert b == a + (b - a);
  }

  /** With fewer than a third faulty, two quorums share an honest member. */
  lemma {:induction false} HonestWitness(members: set<Address>, faulty: set<Address>, a: set<Address>,
                                         b: set<Address>) returns (h: Address)
    requires 3 * |faulty| < |members| && a <= members && b <= members
    requires |a| >= QuorumOf(members) && |b| >= QuorumOf(members)
    ensures h in a && h in b && h !in faulty
  {
    Overlap(members, a, b);
    if (a * b) - faulty == {} {
      assert a * b <= faulty + ((a * b) - faulty);
      SubsetSize(a * b, faulty);
      assert false;
    }
    h :| h in (a * b) - faulty;
  }

  ghost predicate OneEpoch(log: seq<Ballot>) {
    forall i, j | 0 <= i < j < |log| :: log[i].epoch == log[j].epoch
  }

  /** Honest members sign by the safety rules and nothing else, within one epoch, and lose no vote in a restart. */
  ghost predicate Honest(signed: Signatures, h: Address, es: seq<Event>) {
    && NothingLost(es) && OneEpoch(Acts(es).log)
    && forall d | (h, d) in signed :: exists i | 0 <= i < |Acts(es).log| :: Acts(es).log[i].data == d
  }

  /** One validator set, what was signed, and the honest members' runs; fewer than a third are faulty. */
  ghost predicate World(members: set<Address>, signed: Signatures, faulty: set<Address>,
                        runs: map<Address, seq<Event>>)
  {
    && 3 * |faulty| < |members|
    && forall h | h in members && h !in faulty :: h in runs && Honest(signed, h, runs[h])
  }

  lemma {:induction false} HonestSignsOne(signed: Signatures, h: Address, es: seq<Event>, d: VoteData, d': VoteData)
    requires Honest(signed, h, es) && (h, d) in signed && (h, d') in signed && Slot(d) == Slot(d')
    ensures d == d'
  {
    VotesOnce(es);
    AllSurviveIff(es);
    var log := Acts(es).log;
    var i :| 0 <= i < |log| && log[i].data == d;
    var j :| 0 <= j < |log| && log[j].data == d';
    assert Slot(log[i].data) == Slot(log[j].data);
    assert i == j;
  }

  /** Two certificates of one validator set for the same round and phase certify the same data. */
  lemma {:induction false} BackedAgree(members: set<Address>, signed: Signatures, faulty: set<Address>,
                                       runs: map<Address, seq<Event>>, qa: Certificate, qb: Certificate)
    requires World(members, signed, faulty, runs)
    requires Backed(members, signed, qa) && Backed(members, signed, qb) && Slot(qa.data) == Slot(qb.data)
    ensures qa.data == qb.data
  {
    var h := HonestWitness(members, faulty, qa.signers, qb.signers);
    HonestSignsOne(signed, h, runs[h], qa.data, qb.data);
  }

  /**
   Agreement: over one validator set with fewer than a third faulty, whatever votes reach two nodes in
   whatever order, any certificates they form for the same round and phase certify the same vote data,
   so the same block.
   */
  lemma {:induction false} CertificatesAgree(check: Verifier, a: Node, b: Node, ia: seq<Input>, ib: seq<Input>,
                                             va: Vote, ka: PubKey, vb: Vote, kb: PubKey, signed: Signatures,
                                             faulty: set<Address>, runs: map<Address, seq<Event>>)
    requires a.accs == map[] && b.accs == map[] && a.members == b.members && a.keys == b.keys
    requires Unforgeable(check, a.members, a.keys, signed) && World(a.members, signed, faulty, runs)
    requires OnVote(check, Receives(check, a, ia), va, ka).1.Formed?
    requires OnVote(check, Receives(check, b, ib), vb, kb).1.Formed?
    ensures var qa := OnVote(check, Receives(check, a, ia), va, ka).1.qc;
            var qb := OnVote(check, Receives(check, b, ib), vb, kb).1.qc;
            Slot(qa.data) == Slot(qb.data) ==> qa.data == qb.data
  {
    var qa := OnVote(check, Receives(check, a, ia), va, ka).1.qc;
    var qb := OnVote(check, Receives(check, b, ib), vb, kb).1.qc;
    RunSound(check, a, ia, signed);
    RunSound(check, b, ib, signed);
    OnVoteSound(check, Receives(check, a, ia), va, ka, signed);
    OnVoteSound(check, Receives(check, b, ib), vb, kb, signed);
    if Slot(qa.data) == Slot(qb.data) { BackedAgree(a.members, signed, faulty, runs, qa, qb); }
  }
}
