/**
 Equivocation slashing: verifying two conflicting signed messages, computing the slash, and the
 registry that keeps one offence from being punished twice.

 Signature verification is a parameter.
 */
module Slashing {
  import opened Prelude

  type Address = nat
  type Hash = nat

  const SLASH_FRACTION: nat := 3
  const MIN_SLASH: nat := 1_000_000_000_000_000_000
  const EVIDENCE_WINDOW: nat := 50_000
  const REWARD_QUOTIENT: nat := 512

  datatype Phase = Prepare | PreCommit | Commit

  datatype Signed = Signed(validator: Address, key: nat, round: nat, phase: Phase, blockHash: Hash, signature: nat)

  datatype Evidence = Evidence(a: Signed, b: Signed, submittedAt: nat, submitter: Address)

  datatype Verdict =
    | Ok
    | ValidatorMismatch | RoundMismatch | PhaseMismatch | SameBlockHash | EvidenceTooOld | InvalidSigA | InvalidSigB

  /** What is signed: the signing root covers round, phase and block, but not the validator. */
  datatype Content = Content(round: nat, phase: Phase, blockHash: Hash)

  function ContentOf(m: Signed): Content {
    Content(m.round, m.phase, m.blockHash)
  }

  /** Does a signature of the content verify under the key? */
  type Verifier = (nat, Content, nat) -> bool

  /** The code checks each message under the key inside the message. */
  predicate Authentic(check: Verifier, m: Signed) {
    check(m.key, ContentOf(m), m.signature)
  }

  function Verify(check: Verifier, ev: Evidence, now: nat): Verdict {
    if ev.a.validator != ev.b.validator then ValidatorMismatch
    else if ev.a.round != ev.b.round then RoundMismatch
    else if ev.a.phase != ev.b.phase then PhaseMismatch
    else if ev.a.blockHash == ev.b.blockHash then SameBlockHash
    else if SatSub(now, ev.submittedAt) > EVIDENCE_WINDOW then EvidenceTooOld
    else if !Authentic(check, ev.a) then InvalidSigA
    else if !Authentic(check, ev.b) then InvalidSigB
    else Ok
  }

  /** Each verdict, exactly: the checks in order, the signatures last and each under the key in its message. */
  lemma {:induction false} VerdictIff(check: Verifier, ev: Evidence, now: nat)
    ensures var v := Verify(check, ev, now);
            var same := ev.a.validator == ev.b.validator;
            var slot := same && ev.a.round == ev.b.round && ev.a.phase == ev.b.phase;
            var fits := slot && ev.a.blockHash != ev.b.blockHash && now <= ev.submittedAt + 50_000;
            var byA := check(ev.a.key, Content(ev.a.round, ev.a.phase, ev.a.blockHash), ev.a.signature);
            var byB := check(ev.b.key, Content(ev.b.round, ev.b.phase, ev.b.blockHash), ev.b.signature);
            && (v == ValidatorMismatch <==> !same)
            && (v == RoundMismatch <==> same && ev.a.round != ev.b.round)
            && (v == PhaseMismatch <==> same && ev.a.round == ev.b.round && ev.a.phase != ev.b.phase)
            && (v == SameBlockHash <==> slot && ev.a.blockHash == ev.b.blockHash)
            && (v == EvidenceTooOld <==> slot && ev.a.blockHash != ev.b.blockHash && now > ev.submittedAt + 50_000)
            && (v == InvalidSigA <==> fits && !byA)
            && (v == InvalidSigB <==> fits && byA && !byB)
            && (v == Ok <==> fits && byA && byB)
  {
  }

  /**
   The window is meant to bound the age of an offence. It does not: a conflict is accepted exactly up to
   50,000 blocks after the submission height it states itself, so restated it is accepted at every height,
   however long after its round.
   */
  lemma {:induction false} WindowBoundsNoAge(check: Verifier, ev: Evidence, age: nat)
    requires Verify(check, ev, ev.submittedAt).Ok?
    ensures forall stamp: nat, now: nat ::
              Verify(check, ev.(submittedAt := stamp), now).Ok? <==> now <= stamp + 50_000
    ensures var late := ev.a.round + age; Verify(check, ev.(submittedAt := late), late).Ok?
  {
  }

  /** The offence: one validator, one round, one phase. */
  type Key = (Address, nat, Phase)

  function KeyOf(ev: Evidence): Key {
    (ev.a.validator, ev.a.round, ev.a.phase)
  }

  /** Presenting the two messages in the other order is the same evidence of the same offence. */
  lemma {:induction false} SwapSame(check: Verifier, ev: Evidence, swapped: Evidence, now: nat)
    requires swapped.a == ev.b && swapped.b == ev.a && swapped.submittedAt == ev.submittedAt
    ensures Verify(check, ev, now).Ok? <==> Verify(check, swapped, now).Ok?
    ensures Verify(check, ev, now).Ok? ==> KeyOf(swapped) == KeyOf(ev) == (ev.b.validator, ev.b.round, ev.b.phase)
  {
  }

  // ---------------------------------------------------------------------------
  // Whom evidence implicates
  // ---------------------------------------------------------------------------

  /** The same messages, naming another validator. */
  function Renamed(ev: Evidence, w: Address): Evidence {
    ev.(a := ev.a.(validator := w), b := ev.b.(validator := w))
  }

  /** Who may have signed what: any world in which the keys of the two messages made their signatures. */
  type Made = set<(nat, Content)>

  ghost predicate Explains(made: Made, ev: Evidence) {
    (ev.a.key, ContentOf(ev.a)) in made && (ev.b.key, ContentOf(ev.b)) in made
  }

  ghost predicate SignedBoth(made: Made, key: nat, ev: Evidence) {
    (key, ContentOf(ev.a)) in made && (key, ContentOf(ev.b)) in made
  }

  /**
   What accepted evidence proves of a validator with a registered key: that it signed both messages, in
   every world that explains them, exactly when both messages carry that key. The code never compares them.
   */
  lemma {:induction false} ImplicatesIffRegistered(check: Verifier, ev: Evidence, now: nat, registered: nat)
    requires Verify(check, ev, now).Ok?
    ensures (forall made: Made | Explains(made, ev) :: SignedBoth(made, registered, ev))
            <==> ev.a.key == registered && ev.b.key == registered
  {
    var least: Made := {(ev.a.key, ContentOf(ev.a)), (ev.b.key, ContentOf(ev.b))};
    assert Explains(least, ev);
    if SignedBoth(least, registered, ev) {
      assert ContentOf(ev.a) != ContentOf(ev.b);
    }
  }

  datatype Slash = Slash(slashed: nat, reward: nat, jailed: bool)

  /** A third of the stake, at least the minimum, never more than there is. */
  function ComputeSlash(stake: nat): (s: Slash)
    ensures s.slashed <= stake && (stake >= MIN_SLASH ==> s.slashed >= MIN_SLASH)
    ensures stake >= 3_000_000_000_000_000_000 ==> 3 * s.slashed <= stake < 3 * (s.slashed + 1)
    ensures stake < 3_000_000_000_000_000_000 ==> s.slashed == Min(1_000_000_000_000_000_000, stake)
    ensures s.reward * 512 <= s.slashed < (s.reward + 1) * 512 && s.jailed
  {
    var slashed := Min(Max(stake / SLASH_FRACTION, MIN_SLASH), stake);
    Slash(slashed, slashed / REWARD_QUOTIENT, true)
  }

  // ---------------------------------------------------------------------------
  // The registry
  // ---------------------------------------------------------------------------

  type Seen = map<Key, nat>

  class Registry {
    var seen: Seen

    constructor ()
      ensures seen == map[]
    {
      seen := map[];
    }

    method IsDuplicate(ev: Evidence) returns (dup: bool)
      ensures dup <==> (ev.a.validator, ev.a.round, ev.a.phase) in seen
    {
      return KeyOf(ev) in seen;
    }

    method MarkProcessed(ev: Evidence, at: nat)
      modifies this
      ensures seen == old(seen)[(ev.a.validator, ev.a.round, ev.a.phase) := at]
    {
      seen := seen[KeyOf(ev) := at];
    }
  }

  // ---------------------------------------------------------------------------
  // Processing evidence
  // ---------------------------------------------------------------------------

  type Stakes = map<Address, nat>

  function StakeOf(stakes: Stakes, v: Address): nat {
    if v in stakes then stakes[v] else 0
  }

  /** One slash that was carried out. */
  datatype Entry = Entry(key: Key, slashed: nat, reward: nat)

  datatype State = State(stakes: Stakes, seen: Seen, log: seq<Entry>)

  datatype Report = Report(ev: Evidence, now: nat)

  predicate Takes(check: Verifier, s: State, r: Report) {
    Verify(check, r.ev, r.now).Ok? && KeyOf(r.ev) !in s.seen
  }

  /** Verify, deduplicate, slash, mark. */
  function Process(check: Verifier, s: State, r: Report): State {
    if !Takes(check, s, r) then s
    else
      var v := r.ev.a.validator;
      var cut := ComputeSlash(StakeOf(s.stakes, v));
      State(s.stakes[v := StakeOf(s.stakes, v) - cut.slashed], s.seen[KeyOf(r.ev) := r.now],
            s.log + [Entry(KeyOf(r.ev), cut.slashed, cut.reward)])
  }

  function ProcessAll(check: Verifier, stakes: Stakes, rs: seq<Report>): State
    decreases |rs|
  {
    if rs == [] then State(stakes, map[], [])
    else Process(check, ProcessAll(check, stakes, rs[..|rs| - 1]), rs[|rs| - 1])
  }

  /** One report in full: what is good evidence of a new offence, and what it costs whom. */
  lemma {:induction false} ReportOutcome(check: Verifier, s: State, r: Report)
    ensures var s' := Process(check, s, r);
            var v, key := r.ev.a.validator, (r.ev.a.validator, r.ev.a.round, r.ev.a.phase);
            var stake := if v in s.stakes then s.stakes[v] else 0;
            var cut := Min(Max(stake / 3, 1_000_000_000_000_000_000), stake);
            if Verify(check, r.ev, r.now) == Ok && key !in s.seen then
              && v in s'.stakes && s'.stakes[v] == stake - cut
              && (forall w | w != v ::
                    (w in s'.stakes <==> w in s.stakes) && (w in s.stakes ==> s'.stakes[w] == s.stakes[w]))
              && s'.seen == s.seen[key := r.now] && s'.log == s.log + [Entry(key, cut, cut / 512)]
            else s' == s
  {
  }

  /**
   Evidence is not bound to the validator it names: renamed, whatever is accepted is accepted again, and
   slashes any validator not yet slashed for that round and phase, whoever signed.
   */
  lemma {:induction false} AnyoneCanBeNamed(check: Verifier, s: State, r: Report, w: Address)
    requires Verify(check, r.ev, r.now).Ok? && (w, r.ev.a.round, r.ev.a.phase) !in s.seen
    ensures var r' := r.(ev := Renamed(r.ev, w));
            var s' := Process(check, s, r');
            && Verify(check, r'.ev, r.now).Ok?
            && StakeOf(s'.stakes, w) == StakeOf(s.stakes, w) - ComputeSlash(StakeOf(s.stakes, w)).slashed
            && forall v | v != w :: StakeOf(s'.stakes, v) == StakeOf(s.stakes, v)
  {
  }

  /** Over a whole run: one conflict, renamed for each of a list of validators, slashes every one of them. */
  lemma {:induction false} AllCanBeNamed(check: Verifier, stakes: Stakes, r: Report, ws: seq<Address>)
    requires Verify(check, r.ev, r.now).Ok?
    ensures var rs := seq(|ws|, i requires 0 <= i < |ws| => r.(ev := Renamed(r.ev, ws[i])));
            forall i | 0 <= i < |ws| :: (ws[i], r.ev.a.round, r.ev.a.phase) in ProcessAll(check, stakes, rs).seen
  {
    var rs := seq(|ws|, i requires 0 <= i < |ws| => r.(ev := Renamed(r.ev, ws[i])));
    forall i | 0 <= i < |ws| ensures (ws[i], r.ev.a.round, r.ev.a.phase) in ProcessAll(check, stakes, rs).seen {
      var k := (ws[i], r.ev.a.round, r.ev.a.phase);
      assert Verify(check, rs[i].ev, rs[i].now).Ok? && KeyOf(rs[i].ev) == k;
      SeenIffProven(check, stakes, rs, k);
    }
  }

  /** A validator with key 2 loses a third of its stake to two messages signed under key 1. */
  lemma {:induction false} InnocentSlashed()
    ensures var check: Verifier := (key, c, sig) => key == 1;
            var ev := Evidence(Signed(7, 1, 5, Prepare, 10, 0), Signed(7, 1, 5, Prepare, 20, 0), 9, 0);
            var made: Made := {(1, ContentOf(ev.a)), (1, ContentOf(ev.b))};
            && Verify(check, ev, 9).Ok? && Explains(made, ev) && !SignedBoth(made, 2, ev)
            && var s := Process(check, State(map[7 := 3 * MIN_SLASH], map[], []), Report(ev, 9));
               StakeOf(s.stakes, 7) == 2 * MIN_SLASH
  {
  }

  /** Slashed from one validator, and in how many slashes. */
  function Total(log: seq<Entry>, v: Address): nat
    decreases |log|
  {
    if log == [] then 0
    else Total(log[..|log| - 1], v) + if log[|log| - 1].key.0 == v then log[|log| - 1].slashed else 0
  }

  function Times(log: seq<Entry>, v: Address): nat
    decreases |log|
  {
    if log == [] then 0
    else Times(log[..|log| - 1], v) + if log[|log| - 1].key.0 == v then 1 else 0
  }

  /** The stake left after `k` slashes. */
  function Left(stake: nat, k: nat): nat {
    if k == 0 then stake else var s := Left(stake, k - 1); s - ComputeSlash(s).slashed
  }

  ghost predicate SlashedOnce(s: State) {
    && (forall i, j | 0 <= i < j < |s.log| :: s.log[i].key != s.log[j].key)
    && (forall k :: k in s.seen <==> exists i | 0 <= i < |s.log| :: s.log[i].key == k)
    && (forall i | 0 <= i < |s.log| :: s.log[i].reward * REWARD_QUOTIENT <= s.log[i].slashed)
  }

  lemma {:induction false} ProcessKeepsOnce(check: Verifier, s: State, r: Report)
    requires SlashedOnce(s)
    ensures SlashedOnce(Process(check, s, r))
  {
    var s' := Process(check, s, r);
    if Takes(check, s, r) {
      assert s'.log[|s.log|].key == KeyOf(r.ev);
      assert forall i | 0 <= i < |s.log| :: s'.log[i] == s.log[i];
      forall k ensures k in s'.seen <==> exists i | 0 <= i < |s'.log| :: s'.log[i].key == k {
        if k in s.seen {
          var i :| 0 <= i < |s.log| && s.log[i].key == k;
          assert s'.log[i].key == k;
        }
      }
    }
  }

  /**
   Over any sequence of reports, repeated, reordered or with their messages swapped, each offence is
   slashed at most once, and exactly the offences in the registry have been.
   */
  lemma {:induction false} SlashOnce(check: Verifier, stakes: Stakes, rs: seq<Report>)
    ensures SlashedOnce(ProcessAll(check, stakes, rs))
    decreases |rs|
  {
    if rs != [] {
      SlashOnce(check, stakes, rs[..|rs| - 1]);
      ProcessKeepsOnce(check, ProcessAll(check, stakes, rs[..|rs| - 1]), rs[|rs| - 1]);
    }
  }

  lemma {:induction false} LogSnoc(log: seq<Entry>, e: Entry, v: Address)
    ensures Total(log + [e], v) == Total(log, v) + if e.key.0 == v then e.slashed else 0
    ensures Times(log + [e], v) == Times(log, v) + if e.key.0 == v then 1 else 0
  {
    assert (log + [e])[..|log|] == log;
  }

  ghost predicate Conserved(start: nat, s: State, v: Address) {
    && Total(s.log, v) + StakeOf(s.stakes, v) == start
    && StakeOf(s.stakes, v) == Left(start, Times(s.log, v))
  }

  lemma {:induction false} ProcessConserves(check: Verifier, start: nat, s: State, r: Report, v: Address)
    requires Conserved(start, s, v)
    ensures Conserved(start, Process(check, s, r), v)
  {
    if Takes(check, s, r) {
      var cut := ComputeSlash(StakeOf(s.stakes, r.ev.a.validator));
      LogSnoc(s.log, Entry(KeyOf(r.ev), cut.slashed, cut.reward), v);
    }
  }

  /**
   Nothing is lost: what was slashed and what is left add up, and what is left depends only on the number of
   slashes.
   */
  lemma {:induction false} SlashConserves(check: Verifier, stakes: Stakes, rs: seq<Report>, v: Address)
    ensures Conserved(StakeOf(stakes, v), ProcessAll(check, stakes, rs), v)
    decreases |rs|
  {
    if rs != [] {
      SlashConserves(check, stakes, rs[..|rs| - 1], v);
      ProcessConserves(check, StakeOf(stakes, v), ProcessAll(check, stakes, rs[..|rs| - 1]), rs[|rs| - 1], v);
    }
  }

  /** After `k` slashes at most the stake less `k` minimum slashes is left. */
  lemma {:induction false} LeftBound(stake: nat, k: nat)
    ensures Left(stake, k) <= Max(0, stake - k * MIN_SLASH)
    decreases k
  {
    if k > 0 { LeftBound(stake, k - 1); }
  }

  lemma {:induction false} RemainderBound(check: Verifier, stakes: Stakes, rs: seq<Report>, v: Address)
    ensures var s := ProcessAll(check, stakes, rs);
            StakeOf(s.stakes, v) <= Max(0, StakeOf(stakes, v) - Times(s.log, v) * MIN_SLASH)
  {
    SlashConserves(check, stakes, rs, v);
    LeftBound(StakeOf(stakes, v), Times(ProcessAll(check, stakes, rs).log, v));
  }

  // ---------------------------------------------------------------------------
  // Order does not matter
  // ---------------------------------------------------------------------------

  /** The offences for which some report holds good evidence. */
  ghost predicate Proven(check: Verifier, rs: seq<Report>, k: Key) {
    exists i | 0 <= i < |rs| :: Verify(check, rs[i].ev, rs[i].now).Ok? && KeyOf(rs[i].ev) == k
  }

  lemma {:induction false} SeenIffProven(check: Verifier, stakes: Stakes, rs: seq<Report>, k: Key)
    ensures k in ProcessAll(check, stakes, rs).seen <==> Proven(check, rs, k)
    decreases |rs|
  {
    if rs != [] {
      var pre := rs[..|rs| - 1];
      SeenIffProven(check, stakes, pre, k);
      assert forall i | 0 <= i < |pre| :: pre[i] == rs[i];
      if Proven(check, pre, k) {
        var i :| 0 <= i < |pre| && Verify(check, pre[i].ev, pre[i].now).Ok? && KeyOf(pre[i].ev) == k;
        assert Verify(check, rs[i].ev, rs[i].now).Ok?;
      }
    }
  }

  /** The report holds two messages of the validator for the round and phase, for different blocks, each signed. */
  ghost predicate Convicts(check: Verifier, r: Report, v: Address, round: nat, phase: Phase) {
    var a, b := r.ev.a, r.ev.b;
    && a.validator == b.validator == v && a.round == b.round == round && a.phase == b.phase == phase
    && a.blockHash != b.blockHash && r.now <= r.ev.submittedAt + 50_000
    && check(a.key, Content(round, phase, a.blockHash), a.signature)
    && check(b.key, Content(round, phase, b.blockHash), b.signature)
  }

  /** Over any reports: a validator was slashed for a round and phase exactly when some report convicts it of that. */
  lemma {:induction false} SlashedIffConvicted(check: Verifier, stakes: Stakes, rs: seq<Report>, v: Address, round: nat,
                                               phase: Phase)
    ensures var log := ProcessAll(check, stakes, rs).log;
            (exists i | 0 <= i < |log| :: log[i].key == (v, round, phase)) <==>
            (exists k | 0 <= k < |rs| :: Convicts(check, rs[k], v, round, phase))
  {
    SlashOnce(check, stakes, rs);
    SeenIffProven(check, stakes, rs, (v, round, phase));
    forall k | 0 <= k < |rs|
      ensures Convicts(check, rs[k], v, round, phase) <==>
          Verify(check, rs[k].ev, rs[k].now).Ok? && KeyOf(rs[k].ev) == (v, round, phase)
    {
      VerdictIff(check, rs[k].ev, rs[k].now);
    }
  }

  function KeysOf(log: seq<Entry>, v: Address): set<Key> {
    set i | 0 <= i < |log| && log[i].key.0 == v :: log[i].key
  }

  lemma {:induction false} TimesCountsKeys(log: seq<Entry>, v: Address)
    requires forall i, j | 0 <= i < j < |log| :: log[i].key != log[j].key
    ensures Times(log, v) == |KeysOf(log, v)|
    decreases |log|
  {
    if log != [] {
      var pre, e := log[..|log| - 1], log[|log| - 1];
      TimesCountsKeys(pre, v);
      assert forall i | 0 <= i < |pre| :: pre[i] == log[i];
      assert KeysOf(log, v) == KeysOf(pre, v) + if e.key.0 == v then {e.key} else {};
    }
  }

  /**
   The stakes at the end depend only on which offences were proven, not on the order, number or form of the
   reports.
   */
  lemma {:induction false} OrderIrrelevant(check: Verifier, stakes: Stakes, rs: seq<Report>, rs': seq<Report>,
                                           v: Address)
    requires forall k :: Proven(check, rs, k) <==> Proven(check, rs', k)
    ensures StakeOf(ProcessAll(check, stakes, rs).stakes, v) == StakeOf(ProcessAll(check, stakes, rs').stakes, v)
  {
    var s, s' := ProcessAll(check, stakes, rs), ProcessAll(check, stakes, rs');
    SlashOnce(check, stakes, rs);
    SlashOnce(check, stakes, rs');
    forall k ensures k in KeysOf(s.log, v) <==> k in KeysOf(s'.log, v) {
      SeenIffProven(check, stakes, rs, k);
      SeenIffProven(check, stakes, rs', k);
      KeysOfSeen(s, v, k);
      KeysOfSeen(s', v, k);
    }
    assert KeysOf(s.log, v) == KeysOf(s'.log, v);
    TimesCountsKeys(s.log, v);
    TimesCountsKeys(s'.log, v);
    SlashConserves(check, stakes, rs, v);
    SlashConserves(check, stakes, rs', v);
  }

  lemma {:induction false} KeysOfSeen(s: State, v: Address, k: Key)
    requires SlashedOnce(s)
    ensures k in KeysOf(s.log, v) <==> k in s.seen && k.0 == v
  {
    if k in s.seen && k.0 == v {
      var i :| 0 <= i < |s.log| && s.log[i].key == k;
    }
  }
}
