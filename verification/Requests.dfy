/**
 * Admitted requests: every accepted request is in exactly one place, the queue it was routed to or
 * the coordinator's hands, and leaves it exactly when it is answered.
 */
module Requests {
  import opened Bytes
  import opened Commands
  import opened Consistency
  import opened Machine
  import opened Sequential
  import R = Replies

  /** The commands among the coordinator's messages. */
  function CrossRequests(cross: seq<CrossRequest>): seq<Request> {
    if cross == [] then []
    else
      var before := CrossRequests(cross[..|cross| - 1]);
      if cross[|cross| - 1].Coordinate? then before + [cross[|cross| - 1].request] else before
  }

  lemma CrossRequestsPush(cross: seq<CrossRequest>, m: CrossRequest)
    ensures CrossRequests(cross + [m]) ==
            if m.Coordinate? then CrossRequests(cross) + [m.request] else CrossRequests(cross)
  {
    assert (cross + [m])[..|cross|] == cross;
  }

  lemma {:induction false} CrossRequestsPop(cross: seq<CrossRequest>)
    requires cross != []
    ensures CrossRequests(cross) ==
            if cross[0].Coordinate? then [cross[0].request] + CrossRequests(cross[1..]) else CrossRequests(cross[1..])
  {
    if |cross| == 1 {
      assert cross == [] + [cross[0]];
      CrossRequestsPush([], cross[0]);
    } else {
      var front, last := cross[..|cross| - 1], cross[|cross| - 1];
      CrossRequestsPop(front);
      assert front[1..] + [last] == cross[1..] && front + [last] == cross;
      CrossRequestsPush(front[1..], last);
      CrossRequestsPush(front, last);
    }
  }

  function Active(c: Coordinator): seq<Request> {
    if c.Busy? then [c.request] else []
  }

  /** The command being coordinated, then those waiting for the coordinator. */
  function CrossQueue(s: State): seq<Request> {
    Active(s.coordinator) + CrossRequests(s.cross)
  }

  predicate InQueue(q: seq<Request>, id: nat) {
    exists i :: 0 <= i < |q| && q[i].id == id
  }

  /** A queue holds exactly the accepted requests of its target, each once. */
  predicate QueueOK(clients: map<nat, Client>, target: Target, q: seq<Request>) {
    && (forall i :: 0 <= i < |q| ==>
          q[i].id in clients && clients[q[i].id] == Accepted(q[i].op, target, q[i].charge))
    && (forall i, j :: 0 <= i < j < |q| ==> q[i].id != q[j].id)
    && (forall id :: id in clients && clients[id].Accepted? && clients[id].target == target ==> InQueue(q, id))
  }

  /** Whoever is being admitted has a routed target and a charge that can be granted. */
  predicate ClientOK(cfg: Config, c: Client) {
    c.WaitingCredit? || c.WaitingQueue? || c.Accepted? ==>
      c.op.Keys() != [] && c.target == TargetOf(cfg, c.op) && c.charge == Charge(c.op) && c.charge <= cfg.queueBytes
  }

  ghost predicate RequestsOK(cfg: Config, s: State) {
    && |s.owners| == |cfg.limits|
    && (forall id :: id in s.clients ==> ClientOK(cfg, s.clients[id]))
    && (forall o :: 0 <= o < |s.owners| ==> QueueOK(s.clients, Local(o), s.owners[o].data))
    && QueueOK(s.clients, Cross, CrossQueue(s))
  }

  lemma InitialRequests(cfg: Config)
    ensures RequestsOK(cfg, Initial(cfg))
  {
  }

  // ---------- what routing promises ----------

  lemma LocalTarget(cfg: Config, op: Operation, o: nat)
    requires op.Keys() != [] && TargetOf(cfg, op) == Local(o)
    ensures RoutesTo(op, cfg.route, o)
  {
  }

  lemma OneKey(op: Operation)
    requires !op.Divisible()
    ensures |op.Keys()| == 1
  {
  }

  /** Only a command with several keys can span owners, and those can be divided. */
  lemma CrossTarget(cfg: Config, op: Operation)
    requires op.Keys() != [] && TargetOf(cfg, op) == Cross
    ensures op.Divisible()
  {
    if !op.Divisible() {
      OneKey(op);
    }
  }

  lemma TargetInRange(cfg: Config, op: Operation)
    requires cfg.Valid() && op.Keys() != []
    ensures TargetOf(cfg, op).Local? ==> TargetOf(cfg, op).owner < |cfg.limits|
  {
  }

  /** Queued local commands are routed to their owner. */
  lemma QueuedRoutes(cfg: Config, s: State, o: nat, i: nat)
    requires RequestsOK(cfg, s) && o < |s.owners| && i < |s.owners[o].data|
    ensures RoutesTo(s.owners[o].data[i].op, cfg.route, o)
  {
    var r := s.owners[o].data[i];
    assert QueueOK(s.clients, Local(o), s.owners[o].data);
    assert ClientOK(cfg, s.clients[r.id]);
    LocalTarget(cfg, r.op, o);
  }

  lemma AllQueuedRoute(cfg: Config, s: State)
    requires RequestsOK(cfg, s)
    ensures forall o :: 0 <= o < |s.owners| && s.owners[o].data != [] ==> RoutesTo(s.owners[o].data[0].op, cfg.route, o)
  {
    forall o | 0 <= o < |s.owners| && s.owners[o].data != []
      ensures RoutesTo(s.owners[o].data[0].op, cfg.route, o)
    {
      QueuedRoutes(cfg, s, o, 0);
    }
  }

  /** What reaches the coordinator can be divided. */
  lemma CrossDivisible(cfg: Config, s: State)
    requires RequestsOK(cfg, s) && s.cross != [] && s.cross[0].Coordinate?
    ensures s.cross[0].request.op.Divisible() && s.cross[0].request.op.Keys() != []
  {
    var r := s.cross[0].request;
    CrossRequestsPop(s.cross);
    var k := |Active(s.coordinator)|;
    assert CrossQueue(s)[k] == r;
    assert ClientOK(cfg, s.clients[r.id]);
    CrossTarget(cfg, r.op);
  }

  // ---------- one client changes ----------

  /** Clients coming and going elsewhere do not disturb a queue. */
  lemma QueueQuiet(clients: map<nat, Client>, target: Target, q: seq<Request>, id: nat, c: Client)
    requires QueueOK(clients, target, q)
    requires id in clients && clients[id].Accepted? ==> clients[id].target != target
    requires c.Accepted? ==> c.target != target
    ensures QueueOK(clients[id := c], target, q)
  {
  }

  lemma QueuePush(clients: map<nat, Client>, target: Target, q: seq<Request>, id: nat)
    requires QueueOK(clients, target, q) && id in clients && clients[id].WaitingQueue? && clients[id].target == target
    ensures var c := clients[id];
            QueueOK(clients[id := Accepted(c.op, target, c.charge)], target, q + [Request(id, c.op, c.charge)])
  {
    var c := clients[id];
    var clients' := clients[id := Accepted(c.op, target, c.charge)];
    var q' := q + [Request(id, c.op, c.charge)];
    forall other | other in clients' && clients'[other].Accepted? && clients'[other].target == target
      ensures InQueue(q', other)
    {
      if other == id {
        assert q'[|q|].id == id;
      } else {
        var i :| 0 <= i < |q| && q[i].id == other;
        assert q'[i].id == other;
      }
    }
  }

  lemma QueuePop(clients: map<nat, Client>, target: Target, q: seq<Request>, c: Client)
    requires QueueOK(clients, target, q) && q != [] && !c.Accepted?
    ensures QueueOK(clients[q[0].id := c], target, q[1..])
  {
    var clients' := clients[q[0].id := c];
    forall other | other in clients' && clients'[other].Accepted? && clients'[other].target == target
      ensures InQueue(q[1..], other)
    {
      var i :| 0 <= i < |q| && q[i].id == other;
      assert q[1..][i - 1].id == other;
    }
  }

  // ---------- steps ----------

  /** The command that has taken its place in the history and will answer its client later. */
  datatype Placed = Placed(id: nat, op: Operation, now: i64, reply: R.Reply)

  ghost function InFlight(cfg: Config, c: Coordinator): Option<Placed> {
    if c.Busy? && (c.phase == Preparing || c.phase == Applying || c.phase == Releasing) then
      Some(Placed(c.request.id, c.request.op, c.now, Outcome(cfg, c).1))
    else None
  }

  /** Steps that move no request and no credit. */
  ghost predicate SameRequests(cfg: Config, s: State, s': State) {
    && |s'.owners| == |s.owners| && s'.clients == s.clients && s'.crossFree == s.crossFree
    && (forall o :: 0 <= o < |s.owners| ==>
          s'.owners[o].data == s.owners[o].data && s'.owners[o].free == s.owners[o].free)
    && CrossQueue(s') == CrossQueue(s) && InFlight(cfg, s'.coordinator) == InFlight(cfg, s.coordinator)
  }

  lemma QuietRequests(cfg: Config, s: State, s': State)
    requires RequestsOK(cfg, s) && SameRequests(cfg, s, s')
    ensures RequestsOK(cfg, s')
  {
    hide QueueOK;
    hide ClientOK;
    hide CrossQueue;
    hide InFlight;
  }

  /** A client that is in no queue changes state, and does not enter one. */
  lemma ClientChanges(cfg: Config, s: State, s': State, id: nat)
    requires RequestsOK(cfg, s) && |s'.owners| == |s.owners| && id in s'.clients
    requires s'.clients == s.clients[id := s'.clients[id]] && ClientOK(cfg, s'.clients[id])
    requires (id in s.clients ==> !s.clients[id].Accepted?) && !s'.clients[id].Accepted?
    requires forall o :: 0 <= o < |s.owners| ==> s'.owners[o].data == s.owners[o].data
    requires CrossQueue(s') == CrossQueue(s)
    ensures RequestsOK(cfg, s')
  {
    hide QueueOK;
    hide ClientOK;
    hide CrossQueue;
    QueueQuiet(s.clients, Cross, CrossQueue(s), id, s'.clients[id]);
    forall o | 0 <= o < |s.owners|
      ensures QueueOK(s'.clients, Local(o), s'.owners[o].data)
    {
      QueueQuiet(s.clients, Local(o), s.owners[o].data, id, s'.clients[id]);
    }
  }

  lemma EnqueueLocal(cfg: Config, s: State, id: nat)
    requires RequestsOK(cfg, s) && id in s.clients && s.clients[id].WaitingQueue?
    requires s.clients[id].target.Local? && s.clients[id].target.owner < |s.owners|
    ensures RequestsOK(cfg, Enqueue(s, id))
  {
    var c, s' := s.clients[id], Enqueue(s, id);
    assert ClientOK(cfg, c) && ClientOK(cfg, s'.clients[id]);
    assert CrossQueue(s') == CrossQueue(s);
    hide QueueOK;
    hide ClientOK;
    hide CrossQueue;
    QueueQuiet(s.clients, Cross, CrossQueue(s), id, s'.clients[id]);
    forall o | 0 <= o < |s.owners|
      ensures QueueOK(s'.clients, Local(o), s'.owners[o].data)
    {
      if o == c.target.owner {
        QueuePush(s.clients, Local(o), s.owners[o].data, id);
      } else {
        QueueQuiet(s.clients, Local(o), s.owners[o].data, id, s'.clients[id]);
      }
    }
  }

  lemma EnqueueCross(cfg: Config, s: State, id: nat)
    requires RequestsOK(cfg, s) && id in s.clients && s.clients[id].WaitingQueue? && s.clients[id].target == Cross
    ensures RequestsOK(cfg, Enqueue(s, id))
  {
    var c, s' := s.clients[id], Enqueue(s, id);
    assert ClientOK(cfg, c) && ClientOK(cfg, s'.clients[id]);
    CrossRequestsPush(s.cross, Coordinate(Request(id, c.op, c.charge)));
    assert CrossQueue(s') == CrossQueue(s) + [Request(id, c.op, c.charge)];
    hide QueueOK;
    hide ClientOK;
    hide CrossQueue;
    QueuePush(s.clients, Cross, CrossQueue(s), id);
    forall o | 0 <= o < |s.owners|
      ensures QueueOK(s'.clients, Local(o), s'.owners[o].data)
    {
      QueueQuiet(s.clients, Local(o), s.owners[o].data, id, s'.clients[id]);
    }
  }

  /** The head of an owner's queue is answered. */
  lemma AnswerLocal(cfg: Config, s: State, s': State, o: nat, reply: R.Reply)
    requires RequestsOK(cfg, s) && o < |s.owners| == |s'.owners| && s.owners[o].data != []
    requires s'.clients == s.clients[s.owners[o].data[0].id := Answered(reply)]
    requires s'.owners[o].data == s.owners[o].data[1..]
    requires forall p :: 0 <= p < |s.owners| && p != o ==> s'.owners[p].data == s.owners[p].data
    requires CrossQueue(s') == CrossQueue(s)
    ensures RequestsOK(cfg, s')
  {
    var id := s.owners[o].data[0].id;
    assert s.clients[id].Accepted? && s.clients[id].target == Local(o) by {
      assert QueueOK(s.clients, Local(o), s.owners[o].data);
    }
    hide QueueOK;
    hide CrossQueue;
    QueueQuiet(s.clients, Cross, CrossQueue(s), id, Answered(reply));
    forall p | 0 <= p < |s.owners|
      ensures QueueOK(s'.clients, Local(p), s'.owners[p].data)
    {
      if p == o {
        QueuePop(s.clients, Local(o), s.owners[o].data, Answered(reply));
      } else {
        QueueQuiet(s.clients, Local(p), s.owners[p].data, id, Answered(reply));
      }
    }
  }

  /** The coordinated command is answered. */
  lemma AnswerCross(cfg: Config, s: State, s': State, reply: R.Reply)
    requires RequestsOK(cfg, s) && |s'.owners| == |s.owners| && s.coordinator.Busy?
    requires s'.clients == s.clients[s.coordinator.request.id := Answered(reply)]
    requires forall o :: 0 <= o < |s.owners| ==> s'.owners[o].data == s.owners[o].data
    requires !s'.coordinator.Busy? && s'.cross == s.cross
    ensures RequestsOK(cfg, s')
  {
    var id := s.coordinator.request.id;
    assert CrossQueue(s)[0] == s.coordinator.request;
    assert CrossQueue(s') == CrossQueue(s)[1..];
    assert s.clients[id].Accepted? && s.clients[id].target == Cross;
    QueuePop(s.clients, Cross, CrossQueue(s), Answered(reply));
    hide QueueOK;
    hide CrossQueue;
    forall o | 0 <= o < |s.owners|
      ensures QueueOK(s'.clients, Local(o), s'.owners[o].data)
    {
      QueueQuiet(s.clients, Local(o), s.owners[o].data, id, Answered(reply));
    }
  }
}
