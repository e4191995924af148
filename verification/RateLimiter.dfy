/**
 The per-peer inbound rate limiter: one counter and one window start per peer, the window restarting
 at the first message that arrives ten seconds or more after it opened.

 Times are nanoseconds of a monotonic clock.
 */
module RateLimiter {
  import opened Prelude

  type Peer = nat

  const LIMIT: nat := 500
  const WINDOW_SECS: nat := 10
  /** Ten seconds. */
  const WINDOW: nat := 10_000_000_000

  datatype Entry = Entry(count: nat, start: nat)

  /** The entry after a message at `now`; the source reads whole seconds off the elapsed time. */
  function Touch(e: Option<Entry>, now: nat): Entry {
    match e
    case None => Entry(1, now)
    case Some(w) =>
      if SatSub(now, w.start) / 1_000_000_000 >= WINDOW_SECS then Entry(1, now) else Entry(w.count + 1, w.start)
  }

  /** The message is handled rather than refused. */
  predicate Accepts(e: Option<Entry>, now: nat) {
    Touch(e, now).count <= LIMIT
  }

  class Limiter {
    var rates: map<Peer, Entry>

    constructor ()
      ensures rates == map[]
    {
      rates := map[];
    }

    function Of(p: Peer): Option<Entry>
      reads this
    {
      if p in rates then Some(rates[p]) else None
    }

    method Admit(p: Peer, now: nat) returns (ok: bool)
      modifies this
      ensures rates == old(rates)[p := Touch(old(Of(p)), now)]
      ensures ok == Accepts(old(Of(p)), now)
    {
      var entry := if p in rates then rates[p] else Entry(0, now);
      if SatSub(now, entry.start) / 1_000_000_000 >= WINDOW_SECS {
        rates := rates[p := Entry(1, now)];
        return true;
      }
      rates := rates[p := Entry(entry.count + 1, entry.start)];
      return entry.count + 1 <= LIMIT;
    }

    method Forget(p: Peer)
      modifies this
      ensures rates == old(rates) - {p}
    {
      rates := rates - {p};
    }
  }

  // ---------------------------------------------------------------------------
  // One peer's arrivals
  // ---------------------------------------------------------------------------

  function After(e: Option<Entry>, times: seq<nat>): Option<Entry>
    decreases |times|
  {
    if times == [] then e else Some(Touch(After(e, times[..|times| - 1]), times[|times| - 1]))
  }

  /** Messages accepted at a time in `[from, to)`. */
  function Accepted(e: Option<Entry>, times: seq<nat>, from: nat, to: nat): nat
    decreases |times|
  {
    if times == [] then 0 else
      var pre, now := times[..|times| - 1], times[|times| - 1];
      Accepted(e, pre, from, to) + if from <= now < to && Accepts(After(e, pre), now) then 1 else 0
  }

  ghost predicate Rising(times: seq<nat>) {
    forall i, j | 0 <= i < j < |times| :: times[i] <= times[j]
  }

  /** The window rule, without the division. */
  lemma {:induction false} Renews(w: Entry, now: nat)
    ensures Touch(Some(w), now) == if now >= w.start + WINDOW then Entry(1, now) else Entry(w.count + 1, w.start)
  {
  }

  /** What the entry says about the past: when the window opened and how many messages it let through. */
  lemma {:induction false} WindowCount(times: seq<nat>)
    requires Rising(times) && times != []
    ensures var w := After(None, times).value;
            && 0 < w.count && w.start <= times[|times| - 1] < w.start + WINDOW
            && Accepted(None, times, w.start, w.start + WINDOW) == Min(w.count, 500)
    decreases |times|
  {
    var pre, now := times[..|times| - 1], times[|times| - 1];
    if pre != [] {
      WindowCount(pre);
      var w := After(None, pre).value;
      Renews(w, now);
      assert pre[|pre| - 1] <= now;
      if now >= w.start + WINDOW { NoneAfter(pre, now, now + WINDOW); }
    }
  }

  lemma {:induction false} NoneAfter(times: seq<nat>, from: nat, to: nat)
    requires forall i | 0 <= i < |times| :: times[i] < from
    ensures Accepted(None, times, from, to) == 0
    decreases |times|
  {
    if times != [] { NoneAfter(times[..|times| - 1], from, to); }
  }

  /** How much of the interval `[t, t + 10s)` can be used up, by where the current window opened. */
  ghost predicate Budget(w: Entry, last: nat, t: nat, used: nat) {
    && (last < t ==> used == 0)
    && (w.start < t ==> used <= Min(w.count, LIMIT) - 1)
    && (t <= w.start < t + WINDOW ==> used <= LIMIT - 1 + Min(w.count, LIMIT))
    && used <= 2 * LIMIT - 1
  }

  lemma {:induction false} WithinBudget(times: seq<nat>, t: nat)
    requires Rising(times) && times != []
    ensures Budget(After(None, times).value, times[|times| - 1], t, Accepted(None, times, t, t + WINDOW))
    decreases |times|
  {
    var pre, now := times[..|times| - 1], times[|times| - 1];
    if pre != [] {
      WithinBudget(pre, t);
      WindowCount(pre);
      Renews(After(None, pre).value, now);
      assert pre[|pre| - 1] <= now;
    }
  }

  /** While a peer's entry is kept, at most 999 of its messages are accepted in any ten seconds. */
  lemma {:induction false} RateBound(times: seq<nat>, t: nat)
    requires Rising(times)
    ensures Accepted(None, times, t, t + WINDOW) <= 999
  {
    if times != [] { WithinBudget(times, t); }
  }

  // ---------------------------------------------------------------------------
  // The bound is reached
  // ---------------------------------------------------------------------------

  /** `k` messages at one instant. */
  function Burst(now: nat, k: nat): seq<nat> {
    seq(k, _ => now)
  }

  lemma {:induction false} BurstGrows(times: seq<nat>, now: nat, k: nat)
    requires k > 0
    ensures var all := times + Burst(now, k);
            all[..|all| - 1] == times + Burst(now, k - 1) && all[|all| - 1] == now
  {
  }

  lemma {:induction false} OneMore(pre: seq<nat>, times: seq<nat>, w: Entry, now: nat, t: nat)
    requires times != [] && times[|times| - 1] == now && times[..|times| - 1] == pre && After(None, pre) == Some(w)
    requires w.start <= now < w.start + WINDOW && w.count < LIMIT && t <= now < t + WINDOW
    ensures After(None, times) == Some(Entry(w.count + 1, w.start))
    ensures Accepted(None, times, t, t + WINDOW) == Accepted(None, pre, t, t + WINDOW) + 1
  {
    Renews(w, now);
  }

  /** A burst in the window of `w` that stays within the limit is accepted whole. */
  lemma {:induction false} BurstAccepted(times: seq<nat>, w: Entry, now: nat, k: nat, t: nat)
    requires After(None, times) == Some(w) && w.start <= now < w.start + WINDOW
    requires w.count + k <= LIMIT && t <= now < t + WINDOW
    ensures After(None, times + Burst(now, k)) == Some(Entry(w.count + k, w.start))
    ensures Accepted(None, times + Burst(now, k), t, t + WINDOW) == Accepted(None, times, t, t + WINDOW) + k
    decreases k
  {
    if k == 0 {
      assert times + Burst(now, 0) == times;
    } else {
      BurstAccepted(times, w, now, k - 1, t);
      BurstGrows(times, now, k);
      OneMore(times + Burst(now, k - 1), times + Burst(now, k), Entry(w.count + k - 1, w.start), now, t);
    }
  }

  /** One message at time 0, 499 just before the window closes and 500 right after. */
  function Surge(): seq<nat> {
    [0] + Burst(WINDOW - 1, 499) + [WINDOW] + Burst(WINDOW, 499)
  }

  lemma {:induction false} BoundReached()
    ensures Rising(Surge()) && Accepted(None, Surge(), WINDOW - 1, WINDOW - 1 + WINDOW) == 999
  {
    var a := [0] + Burst(WINDOW - 1, 499);
    FirstWindowFull();
    NextWindowOpens(a, a + [WINDOW], WINDOW - 1);
    BurstAccepted(a + [WINDOW], Entry(1, WINDOW), WINDOW, 499, WINDOW - 1);
  }

  lemma {:induction false} FirstWindowFull()
    ensures var a, t := [0] + Burst(WINDOW - 1, 499), WINDOW - 1;
            After(None, a) == Some(Entry(500, 0)) && Accepted(None, a, t, t + WINDOW) == 499
  {
    var first: seq<nat>, t := [0], WINDOW - 1;
    assert first[..0] == [] && After(None, first) == Some(Entry(1, 0)) && Accepted(None, first, t, t + WINDOW) == 0;
    BurstAccepted(first, Entry(1, 0), t, 499, t);
  }

  lemma {:induction false} NextWindowOpens(pre: seq<nat>, times: seq<nat>, t: nat)
    requires times == pre + [WINDOW] && After(None, pre) == Some(Entry(500, 0)) && t <= WINDOW < t + WINDOW
    ensures After(None, times) == Some(Entry(1, WINDOW))
    ensures Accepted(None, times, t, t + WINDOW) == Accepted(None, pre, t, t + WINDOW) + 1
  {
    assert times[..|times| - 1] == pre;
    Renews(Entry(500, 0), WINDOW);
  }

  // ---------------------------------------------------------------------------
  // All peers together
  // ---------------------------------------------------------------------------

  datatype Event = Arrive(peer: Peer, now: nat) | Disconnect(peer: Peer)

  function Step(rates: map<Peer, Entry>, e: Event): map<Peer, Entry> {
    match e
    case Arrive(p, now) => rates[p := Touch(if p in rates then Some(rates[p]) else None, now)]
    case Disconnect(p) => rates - {p}
  }

  function Run(es: seq<Event>): map<Peer, Entry>
    decreases |es|
  {
    if es == [] then map[] else Step(Run(es[..|es| - 1]), es[|es| - 1])
  }

  /** A peer's arrival times since its entry was last dropped. */
  function Arrivals(es: seq<Event>, p: Peer): seq<nat>
    decreases |es|
  {
    if es == [] then [] else
      var rest := Arrivals(es[..|es| - 1], p);
      match es[|es| - 1]
      case Arrive(q, now) => if q == p then rest + [now] else rest
      case Disconnect(q) => if q == p then [] else rest
  }

  /** Peers do not share budget: a peer's entry depends on its own arrivals alone. */
  lemma {:induction false} PeersIndependent(es: seq<Event>, p: Peer)
    ensures After(None, Arrivals(es, p)) == if p in Run(es) then Some(Run(es)[p]) else None
    decreases |es|
  {
    if es != [] {
      PeersIndependent(es[..|es| - 1], p);
      var a, rest := Arrivals(es, p), Arrivals(es[..|es| - 1], p);
      if |a| > |rest| { assert a[..|a| - 1] == rest; }
    }
  }
}
