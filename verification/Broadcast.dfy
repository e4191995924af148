/**
 Broadcasting to peers through bounded outbound queues: a peer whose queue is full or closed at a
 broadcast is dropped. The scan runs under the lock; the dropped peers are removed under a second
 acquisition, so other work, other broadcasts included, may run in between.
 */
module Broadcast {
  import opened Prelude

  type Peer = nat
  type Msg = nat

  const QUEUE_BOUND: nat := 1024

  datatype Item = Broadcasted(msg: Msg) | Direct(msg: Msg)

  /** Everything ever enqueued for a peer since it joined, and how much of it the writer has taken. */
  datatype Sender = Sender(enqueued: seq<Item>, taken: nat, open: bool)

  predicate Usable(s: Sender) {
    s.open && |s.enqueued| - s.taken < QUEUE_BOUND
  }

  function TrySend(s: Sender, item: Item): Sender {
    if Usable(s) then s.(enqueued := s.enqueued + [item]) else s
  }

  type Senders = map<Peer, Sender>

  /** Every registered peer is offered the message. */
  function Scanned(senders: Senders, m: Msg): Senders {
    map p | p in senders :: TrySend(senders[p], Broadcasted(m))
  }

  /** The peers that could not take it. */
  function Dead(senders: Senders): set<Peer> {
    set p | p in senders && !Usable(senders[p])
  }

  /** The scan so far: the peers in `done` have been offered the message. */
  function Partly(senders: Senders, done: set<Peer>, m: Msg): Senders {
    map p | p in senders :: if p in done then TrySend(senders[p], Broadcasted(m)) else senders[p]
  }

  lemma {:induction false} PartlyNext(senders: Senders, done: set<Peer>, m: Msg, id: Peer)
    requires id in senders && id !in done
    ensures id in Partly(senders, done, m) && Partly(senders, done, m)[id] == senders[id]
    ensures Usable(senders[id]) ==>
              Partly(senders, done + {id}, m) == Partly(senders, done, m)[id := TrySend(senders[id], Broadcasted(m))]
    ensures !Usable(senders[id]) ==>
              id in Dead(senders) && Partly(senders, done + {id}, m) == Partly(senders, done, m)
  {
  }

  class Server {
    var senders: Senders

    constructor ()
      ensures senders == map[]
    {
      senders := map[];
    }

    /** `order` is the hash map's iteration order. */
    method Scan(order: seq<Peer>, m: Msg) returns (dead: seq<Peer>)
      requires (forall p :: p in order <==> p in senders) && forall i, j | 0 <= i < j < |order| :: order[i] != order[j]
      modifies this
      ensures senders == Scanned(old(senders), m)
      ensures forall p :: p in dead <==> p in Dead(old(senders))
    {
      dead := [];
      ghost var was, done: set<Peer> := senders, {};
      for i := 0 to |order|
        invariant done == (set p | p in order[..i])
        invariant senders == Partly(was, done, m)
        invariant forall p :: p in dead <==> p in done && p in Dead(was)
      {
        var id := order[i];
        assert order[..i + 1] == order[..i] + [id] && id !in done;
        PartlyNext(was, done, m, id);
        if Usable(senders[id]) {
          senders := senders[id := TrySend(senders[id], Broadcasted(m))];
        } else {
          dead := dead + [id];
        }
        done := done + {id};
      }
      assert done == was.Keys;
    }

    method Reap(dead: seq<Peer>)
      modifies this
      ensures senders == old(senders) - (set p | p in dead)
    {
      for i := 0 to |dead|
        invariant senders == old(senders) - (set p | p in dead[..i])
      {
        senders := senders - {dead[i]};
        assert dead[..i + 1] == dead[..i] + [dead[i]];
      }
      assert dead[..|dead|] == dead;
    }

    /** Run one at a time: afterwards exactly the peers that took the message are registered. */
    method BroadcastMsg(order: seq<Peer>, m: Msg)
      requires (forall p :: p in order <==> p in senders) && forall i, j | 0 <= i < j < |order| :: order[i] != order[j]
      modifies this
      ensures senders == Scanned(old(senders), m) - Dead(old(senders))
    {
      ghost var was := senders;
      var dead := Scan(order, m);
      if dead != [] {
        Reap(dead);
        assert (set p | p in dead) == Dead(was);
      } else {
        NoneDead(was, dead);
      }
    }
  }

  /** After a broadcast a peer is still registered exactly if its queue was open with fewer than 1024 waiting. */
  lemma {:induction false} TakesIff(senders: Senders, m: Msg, p: Peer)
    ensures var after := Scanned(senders, m) - Dead(senders);
            && (p in after <==> p in senders && senders[p].open && |senders[p].enqueued| - senders[p].taken < 1024)
            && (p in after ==> after[p] == Sender(senders[p].enqueued + [Broadcasted(m)], senders[p].taken, true))
  {
  }

  lemma {:induction false} NoneDead(senders: Senders, dead: seq<Peer>)
    requires dead == [] && forall p :: p in dead <==> p in Dead(senders)
    ensures Dead(senders) == {}
  {
    assert forall p :: p !in Dead(senders);
  }

  // ---------------------------------------------------------------------------
  // Runs
  // ---------------------------------------------------------------------------

  /**
   `log` is every broadcast so far; `joined` says how many there were when a peer joined; `dying` holds the
   removals still due.
   */
  datatype Sys = Sys(senders: Senders, log: seq<Msg>, joined: map<Peer, nat>, dying: seq<set<Peer>>)

  datatype Event =
    | Join(peer: Peer)
    | Leave(peer: Peer)
    | ScanFor(msg: Msg)
    | ReapNext(index: nat)
    | SendTo(peer: Peer, msg: Msg)
    | Take(peer: Peer)
    | CloseQueue(peer: Peer)

  function Step(s: Sys, e: Event): Sys {
    match e
    case Join(p) => s.(senders := s.senders[p := Sender([], 0, true)], joined := s.joined[p := |s.log|])
    case Leave(p) => s.(senders := s.senders - {p})
    case ScanFor(m) => s.(senders := Scanned(s.senders, m), log := s.log + [m], dying := s.dying + [Dead(s.senders)])
    case ReapNext(i) =>
      if i < |s.dying| then s.(senders := s.senders - s.dying[i], dying := s.dying[..i] + s.dying[i + 1..]) else s
    case SendTo(p, m) =>
      if p in s.senders then s.(senders := s.senders[p := TrySend(s.senders[p], Direct(m))]) else s
    case Take(p) =>
      if p in s.senders && s.senders[p].taken < |s.senders[p].enqueued|
      then s.(senders := s.senders[p := s.senders[p].(taken := s.senders[p].taken + 1)]) else s
    case CloseQueue(p) =>
      if p in s.senders then s.(senders := s.senders[p := s.senders[p].(open := false)]) else s
  }

  /** A message to one peer is queued behind the rest if there is room, and lost without harm if not. */
  lemma {:induction false} DirectSend(s: Sys, p: Peer, m: Msg)
    ensures var s' := Step(s, SendTo(p, m));
            if p in s.senders && s.senders[p].open && |s.senders[p].enqueued| - s.senders[p].taken < 1024
            then s' == s.(senders := s.senders[p := s.senders[p].(enqueued := s.senders[p].enqueued + [Direct(m)])])
            else s' == s
  {
    if p in s.senders { assert s.senders[p := s.senders[p]] == s.senders; }
  }

  /** A peer's queue: empty when it joins, gone when it leaves, one shorter when the writer takes from it. */
  lemma {:induction false} QueueLife(s: Sys, p: Peer)
    ensures var s' := Step(s, Join(p)); p in s'.senders && s'.senders[p] == Sender([], 0, true) && s'.log == s.log
    ensures p !in Step(s, Leave(p)).senders
    ensures p in s.senders && s.senders[p].taken < |s.senders[p].enqueued| ==>
              var s' := Step(s, Take(p));
              p in s'.senders && s'.senders[p].enqueued == s.senders[p].enqueued
              && s'.senders[p].taken == s.senders[p].taken + 1
    ensures forall q, e | q != p && e in {Join(p), Leave(p), Take(p), CloseQueue(p)} ::
              (q in Step(s, e).senders <==> q in s.senders)
              && (q in s.senders ==> Step(s, e).senders[q] == s.senders[q])
  {
  }

  /** A closed queue takes nothing more, and the next broadcast marks its peer for removal. */
  lemma {:induction false} ClosedIsDoomed(s: Sys, p: Peer, m: Msg)
    requires p in s.senders
    ensures var s' := Step(Step(s, CloseQueue(p)), ScanFor(m));
            && |s'.dying| == |s.dying| + 1 && p in s'.dying[|s.dying|]
            && p in s'.senders && s'.senders[p].enqueued == s.senders[p].enqueued
  {
  }

  function Run(es: seq<Event>): Sys
    decreases |es|
  {
    if es == [] then Sys(map[], [], map[], []) else Step(Run(es[..|es| - 1]), es[|es| - 1])
  }

  /** The broadcasts among what was enqueued, in order. */
  function BroadcastsIn(items: seq<Item>): seq<Msg>
    decreases |items|
  {
    if items == [] then []
    else BroadcastsIn(items[..|items| - 1])
         + if items[|items| - 1].Broadcasted? then [items[|items| - 1].msg] else []
  }

  lemma {:induction false} BroadcastsSnoc(items: seq<Item>, item: Item)
    ensures BroadcastsIn(items + [item]) == BroadcastsIn(items) + if item.Broadcasted? then [item.msg] else []
  {
    assert (items + [item])[..|items|] == items;
  }

  ghost predicate Doomed(dying: seq<set<Peer>>, p: Peer) {
    exists i | 0 <= i < |dying| :: p in dying[i]
  }

  ghost predicate Complete(s: Sys, p: Peer)
    requires p in s.senders
  {
    && p in s.joined && s.joined[p] <= |s.log|
    && BroadcastsIn(s.senders[p].enqueued) == s.log[s.joined[p]..]
  }

  ghost predicate Bounded(x: Sender) {
    x.taken <= |x.enqueued| && |x.enqueued| - x.taken <= 1024
  }

  ghost predicate NoGaps(s: Sys) {
    forall p | p in s.senders :: Bounded(s.senders[p]) && (!Doomed(s.dying, p) ==> Complete(s, p))
  }

  lemma {:induction false} ScanKeeps(s: Sys, m: Msg)
    requires NoGaps(s)
    ensures NoGaps(Step(s, ScanFor(m)))
  {
    var s' := Step(s, ScanFor(m));
    forall p | p in s'.senders ensures Bounded(s'.senders[p]) && (!Doomed(s'.dying, p) ==> Complete(s', p)) {
      if !Doomed(s'.dying, p) {
        assert s'.dying[|s.dying|] == Dead(s.senders);
        assert forall i | 0 <= i < |s.dying| :: s'.dying[i] == s.dying[i];
        assert Usable(s.senders[p]) && !Doomed(s.dying, p);
        BroadcastsSnoc(s.senders[p].enqueued, Broadcasted(m));
        assert s'.log[s.joined[p]..] == s.log[s.joined[p]..] + [m];
      }
    }
  }

  lemma {:induction false} ReapKeeps(s: Sys, i: nat)
    requires NoGaps(s) && i < |s.dying|
    ensures NoGaps(Step(s, ReapNext(i)))
  {
    var s' := Step(s, ReapNext(i));
    forall p | p in s'.senders ensures Bounded(s'.senders[p]) && (!Doomed(s'.dying, p) ==> Complete(s', p)) {
      if Doomed(s.dying, p) {
        var j :| 0 <= j < |s.dying| && p in s.dying[j];
        assert j != i && s'.dying[if j < i then j else j - 1] == s.dying[j];
      }
    }
  }

  /** Touching one queue without adding or losing a broadcast. */
  lemma {:induction false} QueueKeeps(s: Sys, p: Peer, x: Sender)
    requires NoGaps(s) && p in s.senders && Bounded(x)
    requires BroadcastsIn(x.enqueued) == BroadcastsIn(s.senders[p].enqueued)
    ensures NoGaps(s.(senders := s.senders[p := x]))
  {
    var s' := s.(senders := s.senders[p := x]);
    forall q | q in s'.senders ensures Bounded(s'.senders[q]) && (!Doomed(s'.dying, q) ==> Complete(s', q)) {
      assert Bounded(s.senders[q]) && (!Doomed(s.dying, q) ==> Complete(s, q));
    }
  }

  lemma {:induction false} StepKeeps(s: Sys, e: Event)
    requires NoGaps(s)
    ensures NoGaps(Step(s, e))
  {
    match e
    case Join(p) =>
    case Leave(p) =>
    case ScanFor(m) => ScanKeeps(s, m);
    case ReapNext(i) => if i < |s.dying| { ReapKeeps(s, i); }
    case SendTo(p, m) =>
      if p in s.senders {
        BroadcastsSnoc(s.senders[p].enqueued, Direct(m));
        QueueKeeps(s, p, TrySend(s.senders[p], Direct(m)));
      }
    case Take(p) =>
      if p in s.senders && s.senders[p].taken < |s.senders[p].enqueued| {
        QueueKeeps(s, p, s.senders[p].(taken := s.senders[p].taken + 1));
      }
    case CloseQueue(p) =>
      if p in s.senders { QueueKeeps(s, p, s.senders[p].(open := false)); }
  }

  /**
   No gaps: in every run, with any number of broadcasts in flight, each registered peer that is not
   about to be removed has had every broadcast since it joined enqueued, in order; and no queue ever
   holds more than 1024 messages.
   */
  lemma {:induction false} BroadcastNoGaps(es: seq<Event>)
    ensures NoGaps(Run(es))
    decreases |es|
  {
    if es != [] {
      BroadcastNoGaps(es[..|es| - 1]);
      StepKeeps(Run(es[..|es| - 1]), es[|es| - 1]);
    }
  }
}
