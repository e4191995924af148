/**
 The staking registry, the stake-ranked election and the epoch-start hot swap of the consensus
 validator set.
 */
module Validators {
  import opened Prelude

  type Address = nat
  type Key = nat

  const MIN_SELF_STAKE: nat := 100_000 * 1_000_000_000_000_000_000
  const MAX_VALIDATORS: nat := 100
  const U128_MAX: nat := 0xFFFF_FFFF_FFFF_FFFF_FFFF_FFFF_FFFF_FFFF

  datatype Status = Pending | Active | Jailed | Unbonding(until: nat) | Inactive | Tombstoned

  datatype Validator = Validator(key: Key, selfStake: nat, delegated: nat, status: Status)

  type Roster = map<Address, Validator>

  datatype Registry = Registry(validators: Roster, active: seq<Address>, epoch: nat)

  function TotalStake(v: Validator): nat {
    Min(v.selfStake + v.delegated, U128_MAX)
  }

  predicate Eligible(v: Validator) {
    v.selfStake >= MIN_SELF_STAKE && (v.status.Pending? || v.status.Active?)
  }

  // ---------------------------------------------------------------------------
  // Election
  // ---------------------------------------------------------------------------

  type Entry = (Address, nat)

  /** Higher stake first, ties by ascending address. */
  predicate Before(a: Entry, b: Entry) {
    a.1 > b.1 || (a.1 == b.1 && a.0 < b.0)
  }

  /** `order` is one order in which the hash map may be iterated. */
  ghost predicate Enumerates(order: seq<Address>, vs: Roster) {
    && (forall a :: a in order <==> a in vs)
    && (forall i, j | 0 <= i < j < |order| :: order[i] != order[j])
  }

  function Candidates(vs: Roster, order: seq<Address>): (r: seq<Entry>)
    requires forall i | 0 <= i < |order| :: order[i] in vs
    ensures forall e :: e in r <==> e.0 in order && Eligible(vs[e.0]) && e.1 == TotalStake(vs[e.0])
    decreases |order|
  {
    if order == [] then []
    else
      assert forall a :: a in order <==> a == order[0] || a in order[1..];
      var rest := Candidates(vs, order[1..]);
      if Eligible(vs[order[0]]) then [(order[0], TotalStake(vs[order[0]]))] + rest else rest
  }

  function Insert(e: Entry, s: seq<Entry>): (r: seq<Entry>)
    ensures forall x :: x in r <==> x == e || x in s
    decreases |s|
  {
    if s == [] || Before(e, s[0]) then [e] + s
    else
      assert forall x :: x in s <==> x == s[0] || x in s[1..];
      [s[0]] + Insert(e, s[1..])
  }

  function Ranked(s: seq<Entry>): (r: seq<Entry>)
    ensures forall x :: x in r <==> x in s
    decreases |s|
  {
    if s == [] then []
    else
      assert forall x :: x in s <==> x == s[0] || x in s[1..];
      Insert(s[0], Ranked(s[1..]))
  }

  ghost predicate Descending(s: seq<Entry>) {
    forall i, j | 0 <= i < j < |s| :: Before(s[i], s[j])
  }

  lemma {:induction false} InsertDescending(e: Entry, s: seq<Entry>)
    requires Descending(s) && forall x | x in s :: x.0 != e.0
    ensures Descending(Insert(e, s))
    decreases |s|
  {
    if s == [] {
    } else if Before(e, s[0]) {
      forall j | 0 <= j < |s| ensures Before(e, s[j]) {
        if j > 0 { assert Before(s[0], s[j]); }
      }
    } else {
      assert s[0] in s && Before(s[0], e);
      assert forall x | x in s[1..] :: x in s;
      InsertDescending(e, s[1..]);
      var r := Insert(e, s[1..]);
      forall j | 0 <= j < |r| ensures Before(s[0], r[j]) {
        assert r[j] in r;
        if r[j] != e {
          var k :| 0 <= k < |s[1..]| && s[1..][k] == r[j];
          assert s[k + 1] == r[j];
        }
      }
    }
  }

  lemma {:induction false} RankedDescending(vs: Roster, order: seq<Address>)
    requires forall i | 0 <= i < |order| :: order[i] in vs
    requires forall i, j | 0 <= i < j < |order| :: order[i] != order[j]
    ensures Descending(Ranked(Candidates(vs, order)))
    ensures forall e :: e in Ranked(Candidates(vs, order)) <==>
              e.0 in order && Eligible(vs[e.0]) && e.1 == TotalStake(vs[e.0])
    decreases |order|
  {
    if order != [] {
      RankedDescending(vs, order[1..]);
      var rest := Candidates(vs, order[1..]);
      if Eligible(vs[order[0]]) {
        var e := (order[0], TotalStake(vs[order[0]]));
        forall x | x in Ranked(rest) ensures x.0 != e.0 {
          assert x.0 in order[1..];
        }
        InsertDescending(e, Ranked(rest));
        assert Candidates(vs, order) == [e] + rest;
        assert ([e] + rest)[1..] == rest;
      }
    }
  }

  /** A descending list is determined by its elements. */
  lemma {:induction false} DescendingUnique(s: seq<Entry>, t: seq<Entry>)
    requires Descending(s) && Descending(t)
    requires forall x :: x in s <==> x in t
    ensures s == t
    decreases |s|
  {
    if s == [] {
      SomeMember(t);
    } else {
      assert s[0] in t && t[0] in s;
      FirstIsBest(s, t[0]);
      FirstIsBest(t, s[0]);
      forall x ensures x in s[1..] <==> x in t[1..] {
        TailMember(s, x);
        TailMember(t, x);
      }
      DescendingUnique(s[1..], t[1..]);
    }
  }

  lemma {:induction false} SomeMember(t: seq<Entry>)
    ensures t == [] || exists x :: x in t
  {
    if t != [] { assert t[0] in t; }
  }

  lemma {:induction false} FirstIsBest(s: seq<Entry>, x: Entry)
    requires Descending(s) && x in s
    ensures x == s[0] || Before(s[0], x)
  {
    var i :| 0 <= i < |s| && s[i] == x;
  }

  lemma {:induction false} TailMember(s: seq<Entry>, x: Entry)
    requires Descending(s) && s != []
    ensures x in s[1..] <==> x in s && x != s[0]
  {
    if x in s && x != s[0] {
      var i :| 0 <= i < |s| && s[i] == x;
      assert s[1..][i - 1] == x;
    }
    if x in s[1..] {
      var i :| 0 <= i < |s[1..]| && s[1..][i] == x;
      assert Before(s[0], s[i + 1]);
    }
  }

  function Top(s: seq<Entry>): seq<Entry> {
    if |s| <= MAX_VALIDATORS then s else s[..MAX_VALIDATORS]
  }

  function Addresses(s: seq<Entry>): (r: seq<Address>)
    ensures |r| == |s| && forall i | 0 <= i < |s| :: r[i] == s[i].0
  {
    seq(|s|, i requires 0 <= i < |s| => s[i].0)
  }

  /** The addresses the election picks, in rank order. */
  function Elected(vs: Roster, order: seq<Address>): seq<Address>
    requires forall i | 0 <= i < |order| :: order[i] in vs
  {
    Addresses(Top(Ranked(Candidates(vs, order))))
  }

  /** Every node elects the same list, whatever order its hash map iterates in. */
  lemma {:induction false} ElectionDeterministic(vs: Roster, order: seq<Address>, order': seq<Address>)
    requires Enumerates(order, vs) && Enumerates(order', vs)
    ensures Elected(vs, order) == Elected(vs, order')
  {
    var s, t := Ranked(Candidates(vs, order)), Ranked(Candidates(vs, order'));
    RankedDescending(vs, order);
    RankedDescending(vs, order');
    forall x ensures x in s <==> x in t {
      assert x in s <==> x in Candidates(vs, order);
      assert x in t <==> x in Candidates(vs, order');
    }
    DescendingUnique(s, t);
  }

  /** The election picks the best: at most 100, all eligible, and no eligible validator outranks a picked one. */
  lemma {:induction false} ElectionPicksBest(vs: Roster, order: seq<Address>, a: Address)
    requires Enumerates(order, vs)
    ensures |Elected(vs, order)| <= MAX_VALIDATORS
    ensures a in Elected(vs, order) ==> a in vs && Eligible(vs[a])
    ensures a in vs && Eligible(vs[a]) && a !in Elected(vs, order) ==>
            && |Elected(vs, order)| == MAX_VALIDATORS
            && forall m | m in Elected(vs, order) ::
                 m in vs && Before((m, TotalStake(vs[m])), (a, TotalStake(vs[a])))
  {
    var s := Ranked(Candidates(vs, order));
    RankedDescending(vs, order);
    var r := Elected(vs, order);
    forall m | m in r ensures m in vs && Eligible(vs[m]) {
      var _ := ElectedEntry(vs, order, m);
    }
    if a in vs && Eligible(vs[a]) && a !in r {
      var e := (a, TotalStake(vs[a]));
      assert e in Candidates(vs, order) && e in s;
      var k :| 0 <= k < |s| && s[k] == e;
      assert forall i | 0 <= i < |r| :: s[i].0 in r by {
        forall i | 0 <= i < |r| ensures s[i].0 in r { assert r[i] in r; }
      }
      forall m | m in r ensures m in vs && Before((m, TotalStake(vs[m])), e) {
        var i := ElectedEntry(vs, order, m);
        assert Before(s[i], s[k]);
      }
    }
  }

  /** The eligible validators ranked above one. */
  function Above(vs: Roster, a: Address): set<Address>
    requires a in vs
  {
    set m | m in vs && Eligible(vs[m]) && Before((m, TotalStake(vs[m])), (a, TotalStake(vs[a])))
  }

  function FirstAddresses(s: seq<Entry>, k: nat): set<Address>
    requires k <= |s|
  {
    set i | 0 <= i < k :: s[i].0
  }

  lemma {:induction false} FirstAddressesSize(s: seq<Entry>, k: nat)
    requires k <= |s| && forall i, j | 0 <= i < j < |s| :: s[i].0 != s[j].0
    ensures |FirstAddresses(s, k)| == k
    decreases k
  {
    if k > 0 {
      FirstAddressesSize(s, k - 1);
      assert FirstAddresses(s, k) == FirstAddresses(s, k - 1) + {s[k - 1].0};
      assert s[k - 1].0 !in FirstAddresses(s, k - 1);
    }
  }

  ghost predicate IsEntry(vs: Roster, e: Entry) {
    e.0 in vs && Eligible(vs[e.0]) && e.1 == TotalStake(vs[e.0])
  }

  /** `s` lists exactly the eligible validators, best first. */
  ghost predicate Ranking(vs: Roster, s: seq<Entry>) {
    Descending(s) && (forall i | 0 <= i < |s| :: IsEntry(vs, s[i])) && forall e | IsEntry(vs, e) :: e in s
  }

  lemma {:induction false} RankedIsRanking(vs: Roster, order: seq<Address>)
    requires Enumerates(order, vs)
    ensures Ranking(vs, Ranked(Candidates(vs, order)))
  {
    var s := Ranked(Candidates(vs, order));
    RankedDescending(vs, order);
    forall i | 0 <= i < |s| ensures IsEntry(vs, s[i]) { assert s[i] in s; }
  }

  lemma {:induction false} AboveIsPrefix(vs: Roster, s: seq<Entry>, k: nat, m: Address)
    requires Ranking(vs, s) && k < |s| && s[k].0 in vs
    ensures m in Above(vs, s[k].0) <==> m in FirstAddresses(s, k)
  {
    assert IsEntry(vs, s[k]);
    if m in Above(vs, s[k].0) {
      var e := (m, TotalStake(vs[m]));
      assert IsEntry(vs, e);
      var i :| 0 <= i < |s| && s[i] == e;
      assert i < k && m == s[i].0;
    }
    if m in FirstAddresses(s, k) {
      var i :| 0 <= i < k && s[i].0 == m;
      assert IsEntry(vs, s[i]) && Before(s[i], s[k]);
    }
  }

  /** In a ranking exactly `k` eligible validators rank above the entry at position `k`. */
  lemma {:induction false} RankCountsAbove(vs: Roster, s: seq<Entry>, k: nat)
    requires Ranking(vs, s) && k < |s|
    ensures s[k].0 in vs && |Above(vs, s[k].0)| == k
  {
    assert IsEntry(vs, s[k]);
    forall i, j | 0 <= i < j < |s| ensures s[i].0 != s[j].0 {
      assert IsEntry(vs, s[i]) && IsEntry(vs, s[j]) && Before(s[i], s[j]);
    }
    FirstAddressesSize(s, k);
    forall m ensures m in Above(vs, s[k].0) <==> m in FirstAddresses(s, k) { AboveIsPrefix(vs, s, k, m); }
    assert Above(vs, s[k].0) == FirstAddresses(s, k);
  }

  lemma {:induction false} TopIff(vs: Roster, s: seq<Entry>, a: Address)
    requires Ranking(vs, s)
    ensures a in Addresses(Top(s)) <==> a in vs && Eligible(vs[a]) && |Above(vs, a)| < MAX_VALIDATORS
  {
    var r := Addresses(Top(s));
    if a in r {
      var i :| 0 <= i < |r| && r[i] == a;
      assert IsEntry(vs, s[i]);
      RankCountsAbove(vs, s, i);
    }
    if a in vs && Eligible(vs[a]) {
      var e := (a, TotalStake(vs[a]));
      assert IsEntry(vs, e);
      var k :| 0 <= k < |s| && s[k] == e;
      RankCountsAbove(vs, s, k);
      if k < MAX_VALIDATORS { assert r[k] == a; }
    }
  }

  /** A validator is elected exactly when it is eligible and fewer than the maximum rank above it. */
  lemma {:induction false} ElectedIff(vs: Roster, order: seq<Address>, a: Address)
    requires Enumerates(order, vs)
    ensures a in Elected(vs, order) <==> a in vs && Eligible(vs[a]) && |Above(vs, a)| < MAX_VALIDATORS
  {
    RankedIsRanking(vs, order);
    TopIff(vs, Ranked(Candidates(vs, order)), a);
  }

  /** Enough self-stake, 100,000 tokens of 18 decimals, and neither jailed, leaving nor gone. */
  ghost predicate MayStand(v: Validator) {
    v.selfStake >= 100_000_000_000_000_000_000_000 && (v.status == Pending || v.status == Active)
  }

  /** Own and delegated stake together, saturating in 128 bits. */
  function Weight(v: Validator): int {
    Min(v.selfStake + v.delegated, 0xFFFF_FFFF_FFFF_FFFF_FFFF_FFFF_FFFF_FFFF)
  }

  /** More stake, or as much under a smaller address. */
  ghost predicate Outranks(vs: Roster, m: Address, a: Address)
    requires m in vs && a in vs
  {
    Weight(vs[m]) > Weight(vs[a]) || (Weight(vs[m]) == Weight(vs[a]) && m < a)
  }

  /** Elected are those that may stand and are outranked by fewer than 100 others that may. */
  lemma {:induction false} ElectedByStake(vs: Roster, order: seq<Address>, a: Address)
    requires Enumerates(order, vs)
    ensures a in Elected(vs, order) <==>
            a in vs && MayStand(vs[a]) && |set m | m in vs && MayStand(vs[m]) && Outranks(vs, m, a)| < 100
  {
    ElectedIff(vs, order, a);
    if a in vs {
      assert Above(vs, a) == set m | m in vs && MayStand(vs[m]) && Outranks(vs, m, a);
    }
  }

  /** The elected list runs from the most stake down, and whoever may stand and is not in it has less than all of it. */
  lemma {:induction false} ElectedInOrder(vs: Roster, order: seq<Address>)
    requires Enumerates(order, vs)
    ensures var r := Elected(vs, order);
            && |r| <= 100 && (forall i | 0 <= i < |r| :: r[i] in vs)
            && (forall i, j | 0 <= i < j < |r| :: Outranks(vs, r[i], r[j]))
            && (forall a, i | a in vs && MayStand(vs[a]) && a !in r && 0 <= i < |r| :: Outranks(vs, r[i], a))
  {
    var r, s := Elected(vs, order), Ranked(Candidates(vs, order));
    RankedDescending(vs, order);
    forall i | 0 <= i < |r| ensures r[i] in vs && s[i] == (r[i], TotalStake(vs[r[i]])) { assert s[i] in s; }
    forall i, j | 0 <= i < j < |r| ensures Outranks(vs, r[i], r[j]) { assert Before(s[i], s[j]); }
    forall a, i | a in vs && MayStand(vs[a]) && a !in r && 0 <= i < |r| ensures Outranks(vs, r[i], a) {
      ElectionPicksBest(vs, order, a);
      assert r[i] in r;
    }
  }

  lemma {:induction false} ElectedEntry(vs: Roster, order: seq<Address>, m: Address) returns (i: nat)
    requires forall i | 0 <= i < |order| :: order[i] in vs
    requires m in Elected(vs, order)
    ensures var s := Ranked(Candidates(vs, order));
            i < |s| && i < |Elected(vs, order)| && m in vs && s[i] == (m, TotalStake(vs[m])) && Eligible(vs[m])
  {
    var s := Ranked(Candidates(vs, order));
    var r := Elected(vs, order);
    i :| 0 <= i < |r| && r[i] == m;
    assert s[i] in s && s[i] in Candidates(vs, order);
  }

  /** A validator's status once `chosen` replaces the active set. */
  function Restatus(v: Validator, was: bool, now: bool): Validator {
    if now then (if v.status.Tombstoned? then v else v.(status := Active))
    else if was && v.status.Active? then v.(status := Pending)
    else v
  }

  function AfterElection(reg: Registry, chosen: seq<Address>): Registry {
    Registry(map a | a in reg.validators :: Restatus(reg.validators[a], a in reg.active, a in chosen),
             chosen, reg.epoch + 1)
  }

  // ---------------------------------------------------------------------------
  // Slashing and execution inside a commit
  // ---------------------------------------------------------------------------

  /** One finalised slash: burn self-stake, then tombstone if forced, else jail if active. */
  datatype Slash = Slash(offender: Address, burn: nat, tombstone: bool)

  function Punish(v: Validator, s: Slash): Validator {
    var status := if v.status.Tombstoned? then Tombstoned
                  else if s.tombstone then Tombstoned
                  else if v.status.Active? then Jailed
                  else v.status;
    v.(selfStake := v.selfStake - Min(s.burn, v.selfStake), status := status)
  }

  function Without(s: seq<Address>, a: Address): seq<Address>
    decreases |s|
  {
    if s == [] then [] else (if s[0] == a then [] else [s[0]]) + Without(s[1..], a)
  }

  function ApplySlash(reg: Registry, s: Slash): Registry {
    reg.(validators := if s.offender in reg.validators
                       then reg.validators[s.offender := Punish(reg.validators[s.offender], s)]
                       else reg.validators,
         active := Without(reg.active, s.offender))
  }

  function ApplySlashes(reg: Registry, ss: seq<Slash>): Registry
    decreases |ss|
  {
    if ss == [] then reg else ApplySlash(ApplySlashes(reg, ss[..|ss| - 1]), ss[|ss| - 1])
  }

  /**
   What staking transactions may do to the cloned registry: add validators as Pending and move
   stake; statuses, keys and the active set are not theirs to change.
   */
  ghost predicate StakingExecution(before: Registry, after: Registry) {
    && before.active == after.active
    && (forall a | a in before.validators ::
          && a in after.validators
          && after.validators[a].status == before.validators[a].status
          && after.validators[a].key == before.validators[a].key)
    && (forall a | a in after.validators && a !in before.validators :: after.validators[a].status == Pending)
  }

  // ---------------------------------------------------------------------------
  // The epoch sync
  // ---------------------------------------------------------------------------

  type Config = seq<(Address, Key)>

  function SyncOne(vs: Roster, c: (Address, Key), boundary: bool): Roster {
    var v := if c.0 in vs then vs[c.0] else Validator(c.1, MIN_SELF_STAKE, 0, Active);
    vs[c.0 := if boundary && !v.status.Jailed? then v.(status := Active) else v]
  }

  function SyncConfig(vs: Roster, cfg: Config, boundary: bool): Roster
    decreases |cfg|
  {
    if cfg == [] then vs else SyncOne(SyncConfig(vs, cfg[..|cfg| - 1], boundary), cfg[|cfg| - 1], boundary)
  }

  type Keys = map<Address, Key>

  /** First registration wins; a different key for a known address is refused. */
  function Register(keys: Keys, a: Address, k: Key): Keys {
    if a in keys && keys[a] != k then keys else keys[a := k]
  }

  function RegisterAll(keys: Keys, vs: Roster, chosen: seq<Address>): Keys
    decreases |chosen|
  {
    if chosen == [] then keys
    else
      var keys' := RegisterAll(keys, vs, chosen[..|chosen| - 1]);
      var a := chosen[|chosen| - 1];
      if a in vs then Register(keys', a, vs[a].key) else keys'
  }

  /** Registry, key table and consensus members; `Halted` is the refusal of an empty active set. */
  datatype Driver = Running(reg: Registry, keys: Keys, members: seq<Address>) | Halted

  function Quorum(n: nat): nat {
    2 * n / 3 + 1
  }

  /** The least number that is more than two thirds. */
  lemma {:induction false} QuorumIsLeast(n: nat)
    ensures 3 * Quorum(n) > 2 * n && 3 * (Quorum(n) - 1) <= 2 * n
  {
  }

  /** The registry part of the sync, before any election. */
  function Refreshed(reg: Registry, cfg: Config, epoch: nat, boundary: bool): Registry {
    reg.(validators := SyncConfig(reg.validators, cfg, boundary), epoch := epoch)
  }

  function EpochSync(d: Driver, cfg: Config, epoch: nat, boundary: bool, order: seq<Address>): Driver
    requires d.Running?
    requires Enumerates(order, SyncConfig(d.reg.validators, cfg, boundary))
  {
    var reg := Refreshed(d.reg, cfg, epoch, boundary);
    if !boundary then d.(reg := reg)
    else
      var chosen := Elected(reg.validators, order);
      var reg' := AfterElection(reg, chosen);
      if chosen == [] then Halted
      else Running(reg', RegisterAll(d.keys, reg'.validators, chosen), chosen)
  }

  /** The registry and the consensus set as the driver mutates them. */
  class ValidatorSync {
    var validators: Roster
    var active: seq<Address>
    var epoch: nat
    var keys: Keys
    var members: seq<Address>
    var quorum: nat

    constructor (d: Driver)
      requires d.Running?
      ensures View() == d && quorum == Quorum(|d.members|)
    {
      validators, active, epoch := d.reg.validators, d.reg.active, d.reg.epoch;
      keys, members, quorum := d.keys, d.members, Quorum(|d.members|);
    }

    ghost function View(): Driver
      reads this
    {
      Running(Registry(validators, active, epoch), keys, members)
    }

    method Demote(chosen: seq<Address>)
      modifies this`validators
      ensures validators == Demoted(old(validators), active, chosen)
    {
      for i := 0 to |active|
        invariant validators == Demoted(old(validators), active[..i], chosen)
      {
        var a := active[i];
        if a !in chosen && a in validators && validators[a].status.Active? {
          validators := validators[a := validators[a].(status := Pending)];
        }
      }
      assert active[..|active|] == active;
    }

    method Promote(chosen: seq<Address>)
      modifies this`validators
      ensures validators == Promoted(old(validators), chosen)
    {
      for i := 0 to |chosen|
        invariant validators == Promoted(old(validators), chosen[..i])
      {
        var a := chosen[i];
        if a in validators && !validators[a].status.Tombstoned? {
          validators := validators[a := validators[a].(status := Active)];
        }
      }
      assert chosen[..|chosen|] == chosen;
    }

    method ElectActiveSet(order: seq<Address>) returns (chosen: seq<Address>)
      requires Enumerates(order, validators)
      modifies this`validators, this`active, this`epoch
      ensures chosen == Elected(old(validators), order)
      ensures Registry(validators, active, epoch) == AfterElection(old(Registry(validators, active, epoch)), chosen)
    {
      chosen := Elected(validators, order);
      ElectionRestatus(Registry(validators, active, epoch), chosen);
      Demote(chosen);
      Promote(chosen);
      active, epoch := chosen, epoch + 1;
    }

    /** Every configured validator is present; at a boundary all but the jailed are re-activated. */
    method RefreshConfig(cfg: Config, boundary: bool)
      modifies this`validators
      ensures validators == SyncConfig(old(validators), cfg, boundary)
    {
      for i := 0 to |cfg|
        invariant validators == SyncConfig(old(validators), cfg[..i], boundary)
      {
        var (a, k) := cfg[i];
        if a !in validators {
          validators := validators[a := Validator(k, MIN_SELF_STAKE, 0, Active)];
        }
        if boundary && !validators[a].status.Jailed? {
          validators := validators[a := validators[a].(status := Active)];
        }
        assert cfg[..i + 1][..i] == cfg[..i];
      }
      assert cfg[..|cfg|] == cfg;
    }

    method RegisterKeys(chosen: seq<Address>)
      modifies this`keys
      ensures keys == RegisterAll(old(keys), validators, chosen)
    {
      for i := 0 to |chosen|
        invariant keys == RegisterAll(old(keys), validators, chosen[..i])
      {
        if chosen[i] in validators {
          keys := Register(keys, chosen[i], validators[chosen[i]].key);
        }
        assert chosen[..i + 1][..i] == chosen[..i];
      }
      assert chosen[..|chosen|] == chosen;
    }

    /** The sync after a committed block; false means the process refuses an empty active set. */
    method SyncAfterCommit(cfg: Config, height: nat, length: nat, order: seq<Address>) returns (ok: bool)
      requires length > 0
      requires Enumerates(order, SyncConfig(validators, cfg, height % length == 0))
      modifies this
      ensures (if ok then View() else Halted)
           == EpochSync(old(View()), cfg, height / length, height % length == 0, order)
      ensures ok && height % length == 0 ==> quorum == Quorum(|members|)
    {
      var boundary := height % length == 0;
      epoch := height / length;
      RefreshConfig(cfg, boundary);
      if !boundary { return true; }
      var chosen := ElectActiveSet(order);
      RegisterKeys(chosen);
      if chosen == [] { return false; }
      members, quorum := chosen, Quorum(|chosen|);
      ok := true;
    }
  }

  ghost function Demoted(vs: Roster, gone: seq<Address>, chosen: seq<Address>): Roster {
    map a | a in vs :: if a in gone && a !in chosen && vs[a].status.Active? then vs[a].(status := Pending) else vs[a]
  }

  ghost function Promoted(vs: Roster, chosen: seq<Address>): Roster {
    map a | a in vs :: if a in chosen && !vs[a].status.Tombstoned? then vs[a].(status := Active) else vs[a]
  }

  /** Demoting and promoting in turn gives every validator its status after the election. */
  lemma {:induction false} ElectionRestatus(reg: Registry, chosen: seq<Address>)
    ensures Promoted(Demoted(reg.validators, reg.active, chosen), chosen) == AfterElection(reg, chosen).validators
  {
  }
}
