/** Admission keeps everything accounted for: waiting, entering a queue, giving up, and being refused. */
module Admission {
  import opened Accounting
  import opened Bytes
  import opened Commands
  import opened Credits
  import opened History
  import opened Machine
  import opened Requests
  import opened Sequential
  import R = Replies

  /** An event that is no command run and no sweep leaves the sequential table alone. */
  lemma NewsReplayed(cfg: Config, s: State, s': State, e: Event)
    requires Replayed(cfg, s) && s'.table == s.table && s'.log == s.log + [e]
    requires e.Invoked? || e.Rejected? || e.Returned?
    ensures Replayed(cfg, s')
  {
    hide Replayed;
    OneEvent(cfg, s, s', e);
  }

  lemma Unqueued(cfg: Config, s: State, id: nat)
    requires RequestsOK(cfg, s) && (id in s.clients ==> !s.clients[id].Accepted?)
    ensures PlacedAt(InFlight(cfg, s.coordinator), id) == None
  {
    NotPlaced(cfg, s, id);
  }

  // ---------- arrival ----------

  /** What an arriving command becomes, before anything is logged about a refusal. */
  function Arrival(cfg: Config, s: State, op: Operation): Client {
    if s.closing then Refused(SHUTTING_DOWN)
    else if op.Keys() == [] then Refused(NO_KEYS)
    else if Charge(op) > cfg.queueBytes then Refused(TOO_LARGE)
    else WaitingCredit(op, TargetOf(cfg, op), Charge(op))
  }

  lemma BeginIsArrival(cfg: Config, s: State, id: nat, op: Operation)
    ensures var c, s' := Arrival(cfg, s, op), Begin(cfg, s, id, op);
            s' == s.(clients := s.clients[id := c],
                     log := if c.Refused? then s.log + [Invoked(id, op), Rejected(id, c.reply)]
                            else s.log + [Invoked(id, op)])
  {
    hide TargetOf;
    hide Charge;
    var c := Arrival(cfg, s, op);
    if c.Refused? {
      assert s.log + [Invoked(id, op)] + [Rejected(id, c.reply)] == s.log + [Invoked(id, op), Rejected(id, c.reply)];
    }
  }

  lemma ArrivalEvents(log: seq<Event>, id: nat, op: Operation, reply: R.Reply, other: nat)
    ensures About(log + [Invoked(id, op)], other) ==
            if other == id then About(log, id) + [Invoked(id, op)] else About(log, other)
    ensures About(log + [Invoked(id, op), Rejected(id, reply)], other) ==
            if other == id then About(log, id) + [Invoked(id, op), Rejected(id, reply)] else About(log, other)
  {
    AboutTwoMore(log, Invoked(id, op), Rejected(id, reply), other);
    AboutMore(log, Invoked(id, op), other);
  }

  lemma BeginLives(cfg: Config, s: State, s': State, id: nat, op: Operation, c: Client)
    requires RequestsOK(cfg, s) && Lives(cfg, s) && id !in s.clients && s'.coordinator == s.coordinator
    requires s'.clients == s.clients[id := c]
    requires (c.WaitingCredit? && c.op == op && s'.log == s.log + [Invoked(id, op)])
          || (c.Refused? && s'.log == s.log + [Invoked(id, op), Rejected(id, c.reply)])
    ensures Lives(cfg, s')
  {
    Unqueued(cfg, s, id);
    hide RequestsOK;
    hide About;
    hide InFlight;
    assert LifeOK(ClientAt(s.clients, id), PlacedAt(InFlight(cfg, s.coordinator), id), id, About(s.log, id));
    forall other: nat
      ensures About(s'.log, other) ==
              if other != id then About(s.log, other)
              else if c.Refused? then [Invoked(id, op), Rejected(id, c.reply)] else [Invoked(id, op)]
    {
      ArrivalEvents(s.log, id, op, if c.Refused? then c.reply else NO_KEYS, other);
    }
    hide Lives;
    OneLife(cfg, s, s', id);
  }

  lemma BeginReplayed(cfg: Config, s: State, s': State, id: nat, op: Operation, c: Client)
    requires Replayed(cfg, s) && s'.table == s.table
    requires s'.log == if c.Refused? then s.log + [Invoked(id, op), Rejected(id, c.reply)]
                       else s.log + [Invoked(id, op)]
    ensures Replayed(cfg, s')
  {
    hide Replayed;
    var middle := s.(log := s.log + [Invoked(id, op)]);
    NewsReplayed(cfg, s, middle, Invoked(id, op));
    if c.Refused? {
      assert s'.log == middle.log + [Rejected(id, c.reply)];
      NewsReplayed(cfg, middle, s', Rejected(id, c.reply));
    } else {
      NewsReplayed(cfg, s, s', Invoked(id, op));
    }
  }

  lemma ArrivalOK(cfg: Config, s: State, op: Operation)
    ensures var c := Arrival(cfg, s, op);
            ClientOK(cfg, c) && !c.Accepted? && (c.Refused? || (c.WaitingCredit? && c.op == op))
  {
    hide TargetOf;
    hide Charge;
  }

  lemma BeginAccounted(cfg: Config, s: State, id: nat, op: Operation)
    requires Accounted(cfg, s) && id !in s.clients
    ensures Accounted(cfg, Begin(cfg, s, id, op))
  {
    hide Begin;
    hide Arrival;
    hide ClientOK;
    hide CreditsOK;
    hide Replayed;
    hide Lives;
    hide RequestsOK;
    var c, s' := Arrival(cfg, s, op), Begin(cfg, s, id, op);
    BeginIsArrival(cfg, s, id, op);
    ArrivalOK(cfg, s, op);
    assert CrossQueue(s') == CrossQueue(s);
    hide CrossQueue;
    BeginCredits(cfg, s, id, op);
    BeginReplayed(cfg, s, s', id, op, c);
    BeginLives(cfg, s, s', id, op, c);
    ClientChanges(cfg, s, s', id);
  }

  // ---------- credit and queue ----------

  /** A client moves on without anything being logged. */
  lemma SilentLives(cfg: Config, s: State, s': State, id: nat, c: Client)
    requires RequestsOK(cfg, s) && Lives(cfg, s) && id in s.clients && s'.coordinator == s.coordinator
    requires s.clients[id].WaitingCredit? || s.clients[id].WaitingQueue?
    requires c.Gone? || ((c.WaitingQueue? || c.Accepted?) && c.op == s.clients[id].op)
    requires s'.clients == s.clients[id := c] && s'.log == s.log
    ensures Lives(cfg, s')
  {
    Unqueued(cfg, s, id);
    assert LifeOK(ClientAt(s.clients, id), PlacedAt(InFlight(cfg, s.coordinator), id), id, About(s.log, id));
    hide About;
    hide InFlight;
    hide RequestsOK;
    OneLife(cfg, s, s', id);
  }

  lemma AcquireAccounted(cfg: Config, s: State, id: nat)
    requires Accounted(cfg, s) && ClientEnabled(cfg, s, DoAcquire(id))
    ensures Accounted(cfg, Acquire(s, id))
  {
    var c, s' := s.clients[id], Acquire(s, id);
    AcquireCredits(cfg, s, id);
    AcquireShape(s, id);
    SilentLives(cfg, s, s', id, s'.clients[id]);
    hide Acquire;
    hide Replay;
    hide Faithful;
    hide Lives;
    hide CreditsOK;
    assert ClientOK(cfg, c);
    hide RequestsOK;
    ClientChanges(cfg, s, s', id);
  }

  lemma AcquireShape(s: State, id: nat)
    requires id in s.clients && s.clients[id].WaitingCredit? && ValidTarget(s, s.clients[id].target)
    requires s.clients[id].charge <= FreeAt(s, s.clients[id].target)
    ensures var c, s' := s.clients[id], Acquire(s, id);
            && s'.clients == s.clients[id := WaitingQueue(c.op, c.target, c.charge)]
            && s'.log == s.log && s'.table == s.table && s'.coordinator == s.coordinator && s'.cross == s.cross
            && |s'.owners| == |s.owners|
            && forall o :: 0 <= o < |s.owners| ==> s'.owners[o].data == s.owners[o].data
  {
  }

  lemma EnqueueAccounted(cfg: Config, s: State, id: nat)
    requires Accounted(cfg, s) && ClientEnabled(cfg, s, DoEnqueue(id))
    ensures Accounted(cfg, Enqueue(s, id))
  {
    var c, s' := s.clients[id], Enqueue(s, id);
    EnqueueCredits(cfg, s, id);
    assert s'.clients == s.clients[id := Accepted(c.op, c.target, c.charge)];
    assert s'.log == s.log && s'.table == s.table && s'.coordinator == s.coordinator;
    SilentLives(cfg, s, s', id, s'.clients[id]);
    hide Enqueue;
    hide Replay;
    hide Faithful;
    hide Lives;
    hide CreditsOK;
    hide RequestsOK;
    if c.target.Local? {
      EnqueueLocal(cfg, s, id);
    } else {
      EnqueueCross(cfg, s, id);
    }
  }

  // ---------- leaving early ----------

  lemma FreeShape(s: State, target: Target, free: nat)
    requires ValidTarget(s, target)
    ensures var s' := WithFree(s, target, free);
            && s'.clients == s.clients && s'.log == s.log && s'.table == s.table
            && s'.coordinator == s.coordinator && s'.cross == s.cross && |s'.owners| == |s.owners|
            && forall o :: 0 <= o < |s.owners| ==> s'.owners[o].data == s.owners[o].data
  {
  }

  lemma ReturnShape(s: State, id: nat)
    requires id in s.clients && (s.clients[id].WaitingCredit? || s.clients[id].WaitingQueue?)
    requires ValidTarget(s, s.clients[id].target)
    ensures var s' := ReturnCredit(s, id);
            && s'.clients == s.clients && s'.log == s.log && s'.table == s.table
            && s'.coordinator == s.coordinator && s'.cross == s.cross && |s'.owners| == |s.owners|
            && forall o :: 0 <= o < |s.owners| ==> s'.owners[o].data == s.owners[o].data
  {
    hide FreeAt;
    var c := s.clients[id];
    if c.WaitingQueue? {
      var free := FreeAt(s, c.target) + c.charge;
      assert ReturnCredit(s, id) == WithFree(s, c.target, free);
      hide ReturnCredit;
      FreeShape(s, c.target, free);
    }
  }

  lemma RefusedLives(cfg: Config, s: State, s': State, id: nat, reply: R.Reply)
    requires RequestsOK(cfg, s) && Lives(cfg, s) && id in s.clients
    requires s.clients[id].WaitingCredit? || s.clients[id].WaitingQueue?
    requires s'.clients == s.clients[id := Refused(reply)] && s'.coordinator == s.coordinator
    requires s'.log == s.log + [Rejected(id, reply)]
    ensures Lives(cfg, s')
  {
    hide RequestsOK;
    hide About;
    hide InFlight;
    hide PlacedAt;
    Unqueued(cfg, s, id);
    assert LifeOK(ClientAt(s.clients, id), PlacedAt(InFlight(cfg, s.coordinator), id), id, About(s.log, id));
    hide Lives;
    ClientLife(cfg, s, s', id, Refused(reply), Rejected(id, reply));
  }

  /** A refusal is logged; leaving without one is not. */
  lemma LeaveHistory(cfg: Config, s: State, s': State, id: nat, c: Client)
    requires Accounted(cfg, s) && id in s.clients && (s.clients[id].WaitingCredit? || s.clients[id].WaitingQueue?)
    requires s'.clients == s.clients[id := c] && s'.coordinator == s.coordinator && s'.table == s.table
    requires (c.Refused? && s'.log == s.log + [Rejected(id, c.reply)]) || (c.Gone? && s'.log == s.log)
    ensures Replayed(cfg, s') && Lives(cfg, s')
  {
    hide RequestsOK;
    hide CreditsOK;
    hide Lives;
    hide Replay;
    hide Faithful;
    if c.Refused? {
      NewsReplayed(cfg, s, s', Rejected(id, c.reply));
      RefusedLives(cfg, s, s', id, c.reply);
    } else {
      SilentLives(cfg, s, s', id, c);
    }
  }

  lemma LeaveAccounted(cfg: Config, s: State, id: nat, c: Client)
    requires Accounted(cfg, s) && id in s.clients && (s.clients[id].WaitingCredit? || s.clients[id].WaitingQueue?)
    requires ValidTarget(s, s.clients[id].target) && (c.Refused? || c.Gone?)
    ensures c.Refused? ==> Accounted(cfg, Refuse(ReturnCredit(s, id), id, c.reply))
    ensures c.Gone? ==> Accounted(cfg, ReturnCredit(s, id).(clients := s.clients[id := Gone]))
  {
    hide CreditsOK;
    hide Replayed;
    hide Lives;
    hide RequestsOK;
    hide ReturnCredit;
    var s' := if c.Refused? then Refuse(ReturnCredit(s, id), id, c.reply)
              else ReturnCredit(s, id).(clients := s.clients[id := Gone]);
    ReturnShape(s, id);
    assert s'.clients == s.clients[id := c];
    assert CrossQueue(s') == CrossQueue(s);
    assert ClientOK(cfg, c);
    hide CrossQueue;
    hide ClientOK;
    LeaveCredits(cfg, s, s', id, c);
    LeaveHistory(cfg, s, s', id, c);
    ClientChanges(cfg, s, s', id);
  }

  lemma ClientStepAccounted(cfg: Config, s: State, step: Step)
    requires Accounted(cfg, s) && IsClientStep(step) && ClientEnabled(cfg, s, step)
    ensures Accounted(cfg, ClientStep(cfg, s, step))
  {
    hide Accounted;
    hide Begin;
    hide Acquire;
    hide Enqueue;
    hide ReturnCredit;
    hide Refuse;
    if step.DoBegin? {
      BeginAccounted(cfg, s, step.id, step.op);
    } else if step.DoAcquire? {
      AcquireAccounted(cfg, s, step.id);
    } else if step.DoEnqueue? {
      EnqueueAccounted(cfg, s, step.id);
    } else if step.DoRefuseClosed? {
      LeaveAccounted(cfg, s, step.id, Refused(SHUTTING_DOWN));
    } else if step.DoTimeOut? {
      LeaveAccounted(cfg, s, step.id, Refused(TIMED_OUT));
    } else {
      LeaveAccounted(cfg, s, step.id, Gone);
    }
  }
}
