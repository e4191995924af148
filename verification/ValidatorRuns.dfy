/** What the validator-set driver keeps over whole runs of commits. */
module ValidatorRuns {
  import opened Prelude
  import opened Validators

  /** How a commit ends: before the executed registry is swapped in, after it, or well. */
  datatype Ending = FailsEarly | FailsLate | Commits

  datatype Commit = Commit(height: nat, slashes: seq<Slash>, executed: Registry, ending: Ending, order: seq<Address>)

  predicate Boundary(c: Commit, length: nat)
    requires length > 0
  {
    c.height % length == 0
  }

  /** The executor ran on a clone of the registry as slashing left it; `order` is a map iteration order. */
  ghost predicate Lawful(d: Driver, cfg: Config, length: nat, c: Commit)
    requires length > 0 && d.Running?
  {
    && StakingExecution(ApplySlashes(d.reg, c.slashes), c.executed)
    && Enumerates(c.order, SyncConfig(c.executed.validators, cfg, Boundary(c, length)))
  }

  /** Slashing first, on the live registry; then execution, swap and, after success, the sync. */
  ghost function Advance(d: Driver, cfg: Config, length: nat, c: Commit): Driver
    requires length > 0 && d.Running? && Lawful(d, cfg, length, c)
  {
    match c.ending
    case FailsEarly => d.(reg := ApplySlashes(d.reg, c.slashes))
    case FailsLate => d.(reg := c.executed)
    case Commits => EpochSync(d.(reg := c.executed), cfg, c.height / length, Boundary(c, length), c.order)
  }

  /** `d'` is reached from `d` by the commits; a halted driver takes no further step. */
  ghost predicate Reaches(d: Driver, cfg: Config, length: nat, cs: seq<Commit>, d': Driver)
    requires length > 0
    decreases |cs|
  {
    if cs == [] then d == d'
    else
      && d.Running? && Lawful(d, cfg, length, cs[0])
      && Reaches(Advance(d, cfg, length, cs[0]), cfg, length, cs[1..], d')
  }

  // ---------------------------------------------------------------------------
  // One validator through one commit
  // ---------------------------------------------------------------------------

  ghost predicate Slashed(ss: seq<Slash>, a: Address) {
    exists i | 0 <= i < |ss| :: ss[i].offender == a
  }

  ghost predicate Forced(ss: seq<Slash>, a: Address) {
    exists i | 0 <= i < |ss| :: ss[i].offender == a && ss[i].tombstone
  }

  /** The status slashing leaves a validator in. */
  ghost function Punished(s: Status, ss: seq<Slash>, a: Address): Status {
    if s.Tombstoned? || Forced(ss, a) then Tombstoned
    else if s.Active? && Slashed(ss, a) then Jailed
    else s
  }

  lemma {:induction false} SlashesAt(reg: Registry, ss: seq<Slash>, a: Address)
    requires a in reg.validators
    ensures a in ApplySlashes(reg, ss).validators
    ensures ApplySlashes(reg, ss).validators[a].status == Punished(reg.validators[a].status, ss, a)
    ensures ApplySlashes(reg, ss).validators[a].key == reg.validators[a].key
    ensures ApplySlashes(reg, ss).validators[a].delegated == reg.validators[a].delegated
    decreases |ss|
  {
    if ss != [] {
      var pre, last := ss[..|ss| - 1], ss[|ss| - 1];
      SlashesAt(reg, pre, a);
      assert forall i | 0 <= i < |pre| :: ss[i] == pre[i];
      if Slashed(pre, a) {
        var i :| 0 <= i < |pre| && pre[i].offender == a;
        assert ss[i].offender == a;
      }
      if Forced(pre, a) {
        var i :| 0 <= i < |pre| && pre[i].offender == a && pre[i].tombstone;
        assert ss[i].offender == a && ss[i].tombstone;
      }
      assert ss[|ss| - 1] == last;
    }
  }

  /** What a list of slashes asks to burn from one validator. */
  function Demanded(ss: seq<Slash>, a: Address): nat
    decreases |ss|
  {
    if ss == [] then 0
    else Demanded(ss[..|ss| - 1], a) + if ss[|ss| - 1].offender == a then ss[|ss| - 1].burn else 0
  }

  lemma {:induction false} WithoutMember(s: seq<Address>, a: Address, b: Address)
    ensures b in Without(s, a) <==> b in s && b != a
    decreases |s|
  {
    if s != [] {
      WithoutMember(s[1..], a, b);
      assert b in s <==> b == s[0] || b in s[1..];
    }
  }

  /** Slashing burns what is asked, down to nothing, and takes every offender out of the active set. */
  lemma {:induction false} SlashesBurn(reg: Registry, ss: seq<Slash>, a: Address)
    requires a in reg.validators
    ensures a in ApplySlashes(reg, ss).validators
    ensures ApplySlashes(reg, ss).validators[a].selfStake == SatSub(reg.validators[a].selfStake, Demanded(ss, a))
    ensures a in ApplySlashes(reg, ss).active <==> a in reg.active && !Slashed(ss, a)
    decreases |ss|
  {
    if ss != [] {
      var pre := ss[..|ss| - 1];
      SlashesBurn(reg, pre, a);
      WithoutMember(ApplySlashes(reg, pre).active, ss[|ss| - 1].offender, a);
      assert forall i | 0 <= i < |pre| :: ss[i] == pre[i];
      if Slashed(pre, a) {
        var i :| 0 <= i < |pre| && pre[i].offender == a;
        assert ss[i].offender == a;
      }
    }
  }

  ghost predicate Configured(cfg: Config, a: Address) {
    exists i | 0 <= i < |cfg| :: cfg[i].0 == a
  }

  /** What the configuration loop does to one known validator. */
  lemma {:induction false} SyncConfigAt(vs: Roster, cfg: Config, boundary: bool, a: Address)
    requires a in vs
    ensures a in SyncConfig(vs, cfg, boundary)
    ensures SyncConfig(vs, cfg, boundary)[a]
         == if boundary && Configured(cfg, a) && !vs[a].status.Jailed? then vs[a].(status := Active) else vs[a]
    decreases |cfg|
  {
    if cfg != [] {
      var pre := cfg[..|cfg| - 1];
      SyncConfigAt(vs, pre, boundary, a);
      assert forall i | 0 <= i < |pre| :: cfg[i] == pre[i];
      if Configured(pre, a) {
        var i :| 0 <= i < |pre| && pre[i].0 == a;
        assert cfg[i].0 == a;
      }
    }
  }

  /** The first configured key of an address. */
  ghost predicate FirstKey(cfg: Config, a: Address, k: Key) {
    exists i | 0 <= i < |cfg| :: cfg[i] == (a, k) && forall j | 0 <= j < i :: cfg[j].0 != a
  }

  /** An unknown address is added exactly if configured: Active, with its first key and the minimum stake. */
  lemma {:induction false} SyncConfigNew(vs: Roster, cfg: Config, boundary: bool, a: Address)
    requires a !in vs
    ensures a in SyncConfig(vs, cfg, boundary) <==> Configured(cfg, a)
    ensures forall k | FirstKey(cfg, a, k) ::
              a in SyncConfig(vs, cfg, boundary)
              && SyncConfig(vs, cfg, boundary)[a] == Validator(k, 100_000_000_000_000_000_000_000, 0, Active)
    decreases |cfg|
  {
    if cfg != [] {
      var n := |cfg| - 1;
      SyncConfigNew(vs, cfg[..n], boundary, a);
      assert forall i | 0 <= i < n :: cfg[..n][i] == cfg[i];
      assert Configured(cfg, a) <==> Configured(cfg[..n], a) || cfg[n].0 == a;
      forall k: Key | FirstKey(cfg, a, k)
        ensures a in SyncConfig(vs, cfg, boundary)
        ensures SyncConfig(vs, cfg, boundary)[a] == Validator(k, 100_000_000_000_000_000_000_000, 0, Active)
      {
        var i :| 0 <= i < |cfg| && cfg[i] == (a, k) && forall j | 0 <= j < i :: cfg[j].0 != a;
        if i < n { assert FirstKey(cfg[..n], a, k); } else { assert !Configured(cfg[..n], a); }
      }
    }
  }

  /** The key table after the elected are registered: first registration wins, and nobody else is added. */
  lemma {:induction false} RegisterAllAt(keys: Keys, vs: Roster, chosen: seq<Address>, a: Address)
    ensures var r := RegisterAll(keys, vs, chosen);
            && (a in r <==> a in keys || (a in chosen && a in vs))
            && (a in r ==> r[a] == if a in keys then keys[a] else vs[a].key)
    decreases |chosen|
  {
    if chosen != [] {
      var n := |chosen| - 1;
      RegisterAllAt(keys, vs, chosen[..n], a);
      assert chosen == chosen[..n] + [chosen[n]];
    }
  }

  /**
   The whole epoch-start sync, seen from one known validator: the elected are Active, a member that lost its
   seat waits as Pending, everyone else keeps the status the configuration gave it, nobody's stake or key
   changes; the elected are the members, and each has its first registered key.
   */
  lemma {:induction false} EpochSyncAt(d: Driver, cfg: Config, epoch: nat, order: seq<Address>, a: Address)
    requires d.Running? && Enumerates(order, SyncConfig(d.reg.validators, cfg, true)) && a in d.reg.validators
    ensures var d' := EpochSync(d, cfg, epoch, true, order);
            var chosen := Elected(SyncConfig(d.reg.validators, cfg, true), order);
            var was := d.reg.validators[a];
            var v := if Configured(cfg, a) && was.status != Jailed then was.(status := Active) else was;
            if chosen == [] then d' == Halted
            else
              && d'.Running? && d'.members == d'.reg.active == chosen && d'.reg.epoch == epoch + 1
              && a in d'.reg.validators
              && d'.reg.validators[a] == (if a in chosen then v.(status := Active)
                                          else if a in d.reg.active && v.status == Active then v.(status := Pending)
                                          else v)
              && (a in d'.keys <==> a in d.keys || a in chosen)
              && (a in d'.keys ==> d'.keys[a] == if a in d.keys then d.keys[a] else was.key)
  {
    SyncConfigAt(d.reg.validators, cfg, true, a);
    var vs := SyncConfig(d.reg.validators, cfg, true);
    var chosen := Elected(vs, order);
    ElectedByStake(vs, order, a);
    RegisterAllAt(d.keys, AfterElection(Refreshed(d.reg, cfg, epoch, true), chosen).validators, chosen, a);
  }

  /** Within an epoch the sync only refreshes the configured validators and the epoch number. */
  lemma {:induction false} MidEpochSync(d: Driver, cfg: Config, epoch: nat, order: seq<Address>, a: Address)
    requires d.Running? && Enumerates(order, SyncConfig(d.reg.validators, cfg, false)) && a in d.reg.validators
    ensures var d' := EpochSync(d, cfg, epoch, false, order);
            && d'.Running? && d'.members == d.members && d'.keys == d.keys
            && d'.reg.active == d.reg.active && d'.reg.epoch == epoch
            && a in d'.reg.validators && d'.reg.validators[a] == d.reg.validators[a]
  {
    SyncConfigAt(d.reg.validators, cfg, false, a);
  }

  /** Before the epoch sync, a commit only moves a status by slashing. */
  lemma {:induction false} ExecutedAt(d: Driver, cfg: Config, length: nat, c: Commit, a: Address)
    requires length > 0 && d.Running? && Lawful(d, cfg, length, c) && a in d.reg.validators
    ensures a in c.executed.validators
    ensures c.executed.validators[a].status == Punished(d.reg.validators[a].status, c.slashes, a)
    ensures c.executed.validators[a].key == d.reg.validators[a].key
  {
    SlashesAt(d.reg, c.slashes, a);
  }

  /** The status of a known validator after a commit that ran its epoch sync. */
  lemma {:induction false} CommittedAt(d: Driver, cfg: Config, length: nat, c: Commit, a: Address)
    requires length > 0 && d.Running? && Lawful(d, cfg, length, c) && a in d.reg.validators
    requires c.ending.Commits? && Advance(d, cfg, length, c).Running?
    ensures var s := Punished(d.reg.validators[a].status, c.slashes, a);
            var d' := Advance(d, cfg, length, c);
            && a in d'.reg.validators
            && d'.reg.validators[a].key == d.reg.validators[a].key
            && (!Boundary(c, length) ==> d'.reg.validators[a].status == s)
            && (Boundary(c, length) && s.Jailed? ==> d'.reg.validators[a].status == Jailed && a !in d'.members)
            && (Boundary(c, length) && s.Tombstoned? && !Configured(cfg, a)
                ==> d'.reg.validators[a].status == Tombstoned && a !in d'.members)
            && (Boundary(c, length) && s.Tombstoned? && Configured(cfg, a)
                ==> d'.reg.validators[a].status in {Active, Pending})
  {
    ExecutedAt(d, cfg, length, c, a);
    SyncConfigAt(c.executed.validators, cfg, Boundary(c, length), a);
    if Boundary(c, length) {
      ElectionPicksBest(SyncConfig(c.executed.validators, cfg, true), c.order, a);
    }
  }

  // ---------------------------------------------------------------------------
  // Keys and members
  // ---------------------------------------------------------------------------

  ghost predicate MembersHaveKeys(d: Driver) {
    d.Running? ==> forall m | m in d.members :: m in d.keys
  }

  ghost predicate KeysKept(d: Driver, d': Driver) {
    d.Running? && d'.Running? ==> forall a | a in d.keys :: a in d'.keys && d'.keys[a] == d.keys[a]
  }

  lemma {:induction false} RegisterAllKeeps(keys: Keys, vs: Roster, chosen: seq<Address>)
    requires forall i | 0 <= i < |chosen| :: chosen[i] in vs
    ensures var r := RegisterAll(keys, vs, chosen);
            && (forall i | 0 <= i < |chosen| :: chosen[i] in r)
            && (forall a | a in keys :: a in r && r[a] == keys[a])
    decreases |chosen|
  {
    if chosen != [] {
      RegisterAllKeeps(keys, vs, chosen[..|chosen| - 1]);
      var pre := RegisterAll(keys, vs, chosen[..|chosen| - 1]);
      forall i | 0 <= i < |chosen| - 1 ensures chosen[i] in RegisterAll(keys, vs, chosen) {
        assert chosen[..|chosen| - 1][i] in pre;
      }
    }
  }

  /** Every elected validator is registered in the roster the sync leaves, Active and with enough stake. */
  lemma {:induction false} ElectedRegistered(reg: Registry, cfg: Config, epoch: nat, order: seq<Address>, i: nat)
    requires Enumerates(order, SyncConfig(reg.validators, cfg, true))
    requires i < |Elected(SyncConfig(reg.validators, cfg, true), order)|
    ensures var chosen := Elected(SyncConfig(reg.validators, cfg, true), order);
            var after := AfterElection(Refreshed(reg, cfg, epoch, true), chosen).validators;
            && chosen[i] in after && after[chosen[i]].status == Active
            && after[chosen[i]].selfStake >= MIN_SELF_STAKE
  {
    var vs := SyncConfig(reg.validators, cfg, true);
    ElectionPicksBest(vs, order, Elected(vs, order)[i]);
  }

  /** The epoch-start sync, unless it halts, leaves members registered, Active and staked, and keeps every key. */
  lemma {:induction false} BoundarySync(d: Driver, cfg: Config, epoch: nat, order: seq<Address>)
    requires d.Running? && Enumerates(order, SyncConfig(d.reg.validators, cfg, true))
    ensures var d' := EpochSync(d, cfg, epoch, true, order);
            KeysKept(d, d') && (d'.Running? ==> forall i | 0 <= i < |d'.members| :: GoodMember(d', d'.members[i]))
  {
    var chosen := Elected(SyncConfig(d.reg.validators, cfg, true), order);
    var after := AfterElection(Refreshed(d.reg, cfg, epoch, true), chosen).validators;
    forall i | 0 <= i < |chosen|
      ensures chosen[i] in after && after[chosen[i]].status == Active && after[chosen[i]].selfStake >= MIN_SELF_STAKE
    {
      ElectedRegistered(d.reg, cfg, epoch, order, i);
    }
    RegisterAllKeeps(d.keys, after, chosen);
  }

  ghost predicate GoodMember(d: Driver, m: Address)
    requires d.Running?
  {
    && m in d.reg.validators && m in d.keys
    && d.reg.validators[m].status == Active && d.reg.validators[m].selfStake >= MIN_SELF_STAKE
  }

  lemma {:induction false} AdvanceKeepsKeys(d: Driver, cfg: Config, length: nat, c: Commit)
    requires length > 0 && d.Running? && Lawful(d, cfg, length, c) && MembersHaveKeys(d)
    ensures MembersHaveKeys(Advance(d, cfg, length, c)) && KeysKept(d, Advance(d, cfg, length, c))
  {
    if c.ending.Commits? && Boundary(c, length) {
      BoundarySync(d.(reg := c.executed), cfg, c.height / length, c.order);
    }
  }

  /**
   Hot-swap invariant: in every reachable state each consensus member has a registered key, and a
   registered key never changes.
   */
  lemma {:induction false} HotSwapInvariant(d: Driver, cfg: Config, length: nat, cs: seq<Commit>, d': Driver)
    requires length > 0 && Reaches(d, cfg, length, cs, d') && MembersHaveKeys(d)
    ensures MembersHaveKeys(d') && KeysKept(d, d')
    decreases |cs|
  {
    if cs != [] {
      AdvanceKeepsKeys(d, cfg, length, cs[0]);
      HotSwapInvariant(Advance(d, cfg, length, cs[0]), cfg, length, cs[1..], d');
    }
  }

  /** The members change only in a successful commit at the start of an epoch. */
  lemma {:induction false} MembersChangeAtStart(d: Driver, cfg: Config, length: nat, c: Commit)
    requires length > 0 && d.Running? && Lawful(d, cfg, length, c)
    requires c.height % length != 0 || c.ending != Commits
    ensures var d' := Advance(d, cfg, length, c); d'.Running? && d'.members == d.members && d'.keys == d.keys
  {
  }

  /** Right after an epoch-start commit every member is registered, Active and staked. */
  lemma {:induction false} EpochStartMembers(d: Driver, cfg: Config, length: nat, c: Commit)
    requires length > 0 && d.Running? && Lawful(d, cfg, length, c)
    requires c.ending.Commits? && c.height % length == 0 && Advance(d, cfg, length, c).Running?
    ensures var d' := Advance(d, cfg, length, c);
            forall i | 0 <= i < |d'.members| :: GoodMember(d', d'.members[i])
  {
    BoundarySync(d.(reg := c.executed), cfg, c.height / length, c.order);
  }

  // ---------------------------------------------------------------------------
  // Jail and tombstone
  // ---------------------------------------------------------------------------

  ghost predicate StatusIs(d: Driver, a: Address, s: Status) {
    d.Running? ==> a in d.reg.validators && d.reg.validators[a].status == s
  }

  /** A jail imposed during a commit survives the clone, execution and swap of that same commit. */
  lemma {:induction false} JailedDuringCommit(d: Driver, cfg: Config, length: nat, c: Commit, a: Address)
    requires length > 0 && d.Running? && Lawful(d, cfg, length, c)
    requires a in d.reg.validators && d.reg.validators[a].status in {Active, Jailed}
    requires Slashed(c.slashes, a) && !Forced(c.slashes, a)
    ensures StatusIs(Advance(d, cfg, length, c), a, Jailed)
    ensures var d' := Advance(d, cfg, length, c);
            c.ending.Commits? && c.height % length == 0 && d'.Running? ==> a !in d'.members
  {
    SlashesAt(d.reg, c.slashes, a);
    ExecutedAt(d, cfg, length, c, a);
    if c.ending.Commits? && Advance(d, cfg, length, c).Running? { CommittedAt(d, cfg, length, c, a); }
  }

  /** Jail is permanent: whatever commits follow, short of a tombstone, the validator stays jailed. */
  lemma {:induction false} JailSurvives(d: Driver, cfg: Config, length: nat, cs: seq<Commit>, d': Driver, a: Address)
    requires length > 0 && Reaches(d, cfg, length, cs, d') && StatusIs(d, a, Jailed)
    requires forall i | 0 <= i < |cs| :: !Forced(cs[i].slashes, a)
    ensures StatusIs(d', a, Jailed)
    decreases |cs|
  {
    if cs != [] {
      SlashesAt(d.reg, cs[0].slashes, a);
      ExecutedAt(d, cfg, length, cs[0], a);
      var n := Advance(d, cfg, length, cs[0]);
      if cs[0].ending.Commits? && n.Running? { CommittedAt(d, cfg, length, cs[0], a); }
      JailSurvives(n, cfg, length, cs[1..], d', a);
    }
  }

  /**
   A tombstone is meant to be permanent. At an epoch start it survives exactly when the validator is
   not in the static configuration: the sync re-activates every configured validator except the jailed.
   */
  lemma {:induction false} TombstoneSurvivesIff(d: Driver, cfg: Config, length: nat, c: Commit, a: Address)
    requires length > 0 && d.Running? && Lawful(d, cfg, length, c)
    requires a in d.reg.validators && d.reg.validators[a].status == Tombstoned
    requires c.ending.Commits? && c.height % length == 0 && Advance(d, cfg, length, c).Running?
    ensures StatusIs(Advance(d, cfg, length, c), a, Tombstoned) <==> !Configured(cfg, a)
  {
    CommittedAt(d, cfg, length, c, a);
  }

  /** The only configured validator, tombstoned with its stake intact, is back in consensus at the next epoch start. */
  lemma {:induction false} TombstonedMemberReturns(key: Key, length: nat)
    requires length > 0
    ensures var v := Validator(key, MIN_SELF_STAKE, 0, Tombstoned);
            var d := Running(Registry(map[7 := v], [], 0), map[7 := key], [7]);
            var c := Commit(length, [], d.reg, Commits, [7]);
            Lawful(d, [(7, key)], length, c) && Advance(d, [(7, key)], length, c).Running?
            && Advance(d, [(7, key)], length, c).members == [7]
  {
    var v := Validator(key, MIN_SELF_STAKE, 0, Tombstoned);
    var vs: Roster := map[7 := v];
    var cfg: Config := [(7, key)];
    assert cfg[..0] == [];
    assert SyncConfig(vs, [], true) == vs;
    assert length % length == 0;
    var synced: Roster := map[7 := v.(status := Active)];
    assert SyncConfig(vs, cfg, true) == synced;
    assert [7][1..] == [] && Candidates(synced, [7]) == [(7, MIN_SELF_STAKE)];
    assert [(7, MIN_SELF_STAKE)][1..] == [] && Ranked([(7, MIN_SELF_STAKE)]) == [(7, MIN_SELF_STAKE)];
  }

  /** Outside the static configuration a tombstone is permanent. */
  lemma {:induction false} TombstonePermanent(d: Driver, cfg: Config, length: nat, cs: seq<Commit>, d': Driver,
                                              a: Address)
    requires length > 0 && Reaches(d, cfg, length, cs, d') && StatusIs(d, a, Tombstoned) && !Configured(cfg, a)
    ensures StatusIs(d', a, Tombstoned)
    decreases |cs|
  {
    if cs != [] {
      SlashesAt(d.reg, cs[0].slashes, a);
      ExecutedAt(d, cfg, length, cs[0], a);
      var n := Advance(d, cfg, length, cs[0]);
      if cs[0].ending.Commits? && n.Running? { CommittedAt(d, cfg, length, cs[0], a); }
      TombstonePermanent(n, cfg, length, cs[1..], d', a);
    }
  }
}
