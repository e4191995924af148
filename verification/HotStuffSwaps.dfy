/**
 A validator set swapped while votes are being collected: open accumulators keep the voters and the
 quorum of the set they were opened under.
 */
module HotStuffSwaps {
  import opened Prelude
  import opened HotStuff

  datatype Turn = In(input: Input) | Swap(members: set<Address>)

  /** An empty set is refused; the key registry, the accumulators and the votes seen stay. */
  function Turned(check: Verifier, n: Node, t: Turn): Node {
    match t
    case In(i) => Take(check, n, i)
    case Swap(m) => if m == {} then n else n.(members := m)
  }

  function Turns(check: Verifier, n: Node, ts: seq<Turn>): Node
    decreases |ts|
  {
    if ts == [] then n else Turned(check, Turns(check, n, ts[..|ts| - 1]), ts[|ts| - 1])
  }

  /** The set in force when votes for a slot began to be collected, or the current one if they have not. */
  function Opening(check: Verifier, n: Node, ts: seq<Turn>, slot: (nat, nat)): set<Address>
    decreases |ts|
  {
    var now := Turns(check, n, ts);
    if slot !in now.accs || ts == [] then now.members
    else
      var pre := Turns(check, n, ts[..|ts| - 1]);
      if slot in pre.accs then Opening(check, n, ts[..|ts| - 1], slot) else pre.members
  }

  /** What an open accumulator holds: the opening quorum, and voters with a key that signed its data. */
  ghost predicate SlotSound(keys: map<Address, PubKey>, signed: Signatures, slot: (nat, nat), acc: Accumulator,
                            first: set<Address>)
  {
    && Slot(acc.data) == slot && acc.quorum == QuorumOf(first)
    && forall a | a in acc.voters :: a in keys && (a, acc.data) in signed
  }

  /** What one vote does to the accumulator of one slot: nothing, or it opens it, or it adds the voter. */
  ghost predicate SlotStep(check: Verifier, n: Node, n': Node, v: Vote, key: PubKey, slot: (nat, nat)) {
    var acc := AccFor(n, v);
    || ((slot in n.accs <==> slot in n'.accs) && (slot in n.accs ==> n'.accs[slot] == n.accs[slot]))
    || (&& slot == Slot(v.data) && Admissible(check, n, v, key) && slot in n'.accs
        && (n'.accs[slot] == acc || (v.data == acc.data && n'.accs[slot] == acc.(voters := acc.voters + {v.voter}))))
  }

  lemma {:induction false} TakeSlot(check: Verifier, n: Node, i: Input, slot: (nat, nat))
    ensures var n' := Take(check, n, i);
            && n'.members == n.members && n'.keys == n.keys && (slot in n.accs ==> slot in n'.accs)
            && (if i.Deliver? then SlotStep(check, n, n', i.vote, i.key, slot) else n'.accs == n.accs)
  {
  }

  lemma {:induction false} TurnKeepsSlot(check: Verifier, n: Node, t: Turn, slot: (nat, nat), signed: Signatures,
                                         first: set<Address>)
    requires Unforgeable(check, n.keys.Keys, n.keys, signed)
    requires slot in n.accs ==> SlotSound(n.keys, signed, slot, n.accs[slot], first)
    ensures var n' := Turned(check, n, t);
            && n'.keys == n.keys && (slot in n.accs ==> slot in n'.accs)
            && (slot in n'.accs ==> SlotSound(n.keys, signed, slot, n'.accs[slot],
                                              if slot in n.accs then first else n.members))
  {
    if t.In? { TakeSlot(check, n, t.input, slot); }
  }

  lemma {:induction false} TurnsSound(check: Verifier, n: Node, ts: seq<Turn>, slot: (nat, nat), signed: Signatures)
    requires n.accs == map[] && Unforgeable(check, n.keys.Keys, n.keys, signed)
    ensures var n' := Turns(check, n, ts);
            && n'.keys == n.keys
            && (slot in n'.accs ==>
                  SlotSound(n.keys, signed, slot, n'.accs[slot], Opening(check, n, ts, slot)))
    decreases |ts|
  {
    if ts != [] {
      var pre := ts[..|ts| - 1];
      TurnsSound(check, n, pre, slot, signed);
      TurnKeepsSlot(check, Turns(check, n, pre), ts[|ts| - 1], slot, signed, Opening(check, n, pre, slot));
    }
  }

  /** The vote completes a slot's first certificate. */
  ghost predicate CompletesFirst(check: Verifier, n: Node, v: Vote, key: PubKey) {
    OnVote(check, n, v, key).1.Formed? && |AccFor(n, v).voters| < AccFor(n, v).quorum
  }

  /**
   Whatever sets were swapped in, a slot's first certificate is backed by a quorum of the current members
   exactly when every earlier voter is still a member and the current quorum is not above the one of the set
   the slot was opened under.
   */
  lemma {:induction false} SwapBackedIff(check: Verifier, n: Node, ts: seq<Turn>, v: Vote, key: PubKey,
                                         signed: Signatures)
    requires n.accs == map[] && Unforgeable(check, n.keys.Keys, n.keys, signed)
    requires CompletesFirst(check, Turns(check, n, ts), v, key)
    ensures var now := Turns(check, n, ts);
            Backed(now.members, signed, OnVote(check, now, v, key).1.qc) <==>
              && AccFor(now, v).voters <= now.members
              && QuorumOf(now.members) <= QuorumOf(Opening(check, n, ts, Slot(v.data)))
  {
    var now, slot := Turns(check, n, ts), Slot(v.data);
    var acc := AccFor(now, v);
    TurnsSound(check, n, ts, slot, signed);
    assert acc.quorum == QuorumOf(Opening(check, n, ts, slot));
    assert |acc.voters + {v.voter}| == |acc.voters| + 1;
  }

  ghost predicate NoSwap(ts: seq<Turn>) {
    forall i | 0 <= i < |ts| :: !ts[i].Swap?
  }

  /** While the set stays, an accumulator opened under it has only members as voters. */
  lemma {:induction false} UnswappedVoters(check: Verifier, n: Node, ts: seq<Turn>, slot: (nat, nat))
    requires NoSwap(ts) && slot !in n.accs
    ensures var n' := Turns(check, n, ts);
            && n'.members == n.members
            && (slot in n'.accs ==> n'.accs[slot].voters <= n.members && n'.accs[slot].quorum == QuorumOf(n.members))
    decreases |ts|
  {
    if ts != [] {
      var pre := ts[..|ts| - 1];
      assert forall i | 0 <= i < |pre| :: pre[i] == ts[i];
      UnswappedVoters(check, n, pre, slot);
      assert !ts[|ts| - 1].Swap?;
      TakeSlot(check, Turns(check, n, pre), ts[|ts| - 1].input, slot);
    }
  }

  lemma {:induction false} TurnsJoin(check: Verifier, n: Node, a: seq<Turn>, b: seq<Turn>)
    ensures Turns(check, n, a + b) == Turns(check, Turns(check, n, a), b)
    decreases |b|
  {
    if b == [] {
      assert a + b == a;
    } else {
      TurnsJoin(check, n, a, b[..|b| - 1]);
      assert (a + b)[..|a + b| - 1] == a + b[..|b| - 1] && (a + b)[|a + b| - 1] == b[|b| - 1];
    }
  }

  /** So a certificate is backed whenever no swap came since its slot was opened, whatever came before. */
  lemma {:induction false} UnswappedBacked(check: Verifier, n: Node, before: seq<Turn>, since: seq<Turn>, v: Vote,
                                           key: PubKey, signed: Signatures)
    requires n.accs == map[] && Unforgeable(check, n.keys.Keys, n.keys, signed)
    requires Slot(v.data) !in Turns(check, n, before).accs && NoSwap(since)
    requires OnVote(check, Turns(check, n, before + since), v, key).1.Formed?
    ensures var now := Turns(check, n, before + since); Backed(now.members, signed, OnVote(check, now, v, key).1.qc)
  {
    TurnsJoin(check, n, before, since);
    UnswappedVoters(check, Turns(check, n, before), since, Slot(v.data));
    TurnsSound(check, n, before + since, Slot(v.data), signed);
  }

  // ---------------------------------------------------------------------------
  // Failing cases
  // ---------------------------------------------------------------------------

  function CaseVote(a: Address): Vote {
    Vote(VoteData(5, 5, 0, 1), a, 0)
  }

  function CaseCheck(): Verifier {
    (v: Vote, key: PubKey) => v.data == CaseVote(0).data
  }

  function CaseKeys(): map<Address, PubKey> {
    map[1 := 1, 2 := 2, 3 := 3, 4 := 4, 5 := 5, 6 := 6]
  }

  function CaseSigned(): Signatures {
    set a | a in CaseKeys() :: (a, CaseVote(0).data)
  }

  function CaseNode(members: set<Address>): Node {
    Node(members, CaseKeys(), map[], map[])
  }

  /** Members 1 and 2 vote, then the set is swapped. */
  function CaseTurns(members: set<Address>): seq<Turn> {
    [In(Deliver(CaseVote(1), 1)), In(Deliver(CaseVote(2), 2)), Swap(members)]
  }

  lemma {:induction false} CaseReached(members: set<Address>, next: set<Address>)
    requires {1, 2} <= members && QuorumOf(members) == 3 && next != {}
    ensures var n := Turns(CaseCheck(), CaseNode(members), CaseTurns(next));
            && n.members == next && n.keys == CaseKeys() && (5, 0) in n.accs
            && n.accs[(5, 0)] == Accumulator(CaseVote(0).data, {1, 2}, 3)
            && n.seen.Keys == {(5, 0, 1), (5, 0, 2)}
  {
    var check, n0, ts := CaseCheck(), CaseNode(members), CaseTurns(next);
    var n1 := Turned(check, n0, ts[0]);
    assert n1.accs[(5, 0)] == Accumulator(CaseVote(0).data, {1}, 3) && n1.seen.Keys == {(5, 0, 1)};
    var n2 := Turned(check, n1, ts[1]);
    assert {1} + {2} == {1, 2 as Address};
    assert n2.accs[(5, 0)] == Accumulator(CaseVote(0).data, {1, 2}, 3) && n2.seen.Keys == {(5, 0, 1), (5, 0, 2)};
    CaseFold(members, next);
  }

  lemma {:induction false} CaseFold(members: set<Address>, next: set<Address>)
    ensures var check, n, ts := CaseCheck(), CaseNode(members), CaseTurns(next);
            Turns(check, n, ts) == Turned(check, Turned(check, Turned(check, n, ts[0]), ts[1]), ts[2])
  {
    var check, n, ts := CaseCheck(), CaseNode(members), CaseTurns(next);
    assert ts[..2] == [ts[0], ts[1]] && ts[..2][..1] == [ts[0]] && ts[..2][..1][..0] == [];
    assert Turns(check, n, ts[..2][..1]) == Turned(check, Turns(check, n, []), ts[0]);
    assert Turns(check, n, ts[..2]) == Turned(check, Turns(check, n, ts[..2][..1]), ts[1]);
  }

  lemma {:induction false} CaseUnforgeable()
    ensures Unforgeable(CaseCheck(), CaseKeys().Keys, CaseKeys(), CaseSigned())
  {
    forall v: Vote | v.voter in CaseKeys() && CaseCheck()(v, CaseKeys()[v.voter])
      ensures (v.voter, v.data) in CaseSigned()
    {
      assert v.data == CaseVote(0).data;
    }
  }

  /** A third vote after the swap forms a certificate that no quorum of the new set stands behind. */
  lemma {:induction false} UnbackedAfterSwap(members: set<Address>, next: set<Address>)
    requires {1, 2} <= members && QuorumOf(members) == 3 && 3 in next
    requires !({1, 2} <= next) || QuorumOf(next) > 3
    ensures var n := Turns(CaseCheck(), CaseNode(members), CaseTurns(next));
            var r := OnVote(CaseCheck(), n, CaseVote(3), 3).1;
            r == Formed(Certificate(CaseVote(0).data, {1, 2, 3})) && !Backed(next, CaseSigned(), r.qc)
  {
    CaseReached(members, next);
    assert {1, 2} + {3} == {1, 2, 3 as Address};
  }

  /** Growing 3 members to 6 leaves a certificate of 3, and replacing two voters one of a single member. */
  lemma {:induction false} SwapFailingCases()
    ensures var check, s := CaseCheck(), CaseSigned();
            && Unforgeable(check, CaseKeys().Keys, CaseKeys(), s)
            && (var n := Turns(check, CaseNode({1, 2, 3}), CaseTurns({1, 2, 3, 4, 5, 6}));
                var r := OnVote(check, n, CaseVote(3), 3).1; r.Formed? && !Backed(n.members, s, r.qc))
            && (var n := Turns(check, CaseNode({1, 2, 3, 4}), CaseTurns({3, 4, 5, 6}));
                var r := OnVote(check, n, CaseVote(3), 3).1; r.Formed? && !Backed(n.members, s, r.qc))
  {
    CaseUnforgeable();
    UnbackedAfterSwap({1, 2, 3}, {1, 2, 3, 4, 5, 6});
    UnbackedAfterSwap({1, 2, 3, 4}, {3, 4, 5, 6});
    CaseReached({1, 2, 3}, {1, 2, 3, 4, 5, 6});
    CaseReached({1, 2, 3, 4}, {3, 4, 5, 6});
  }
}
