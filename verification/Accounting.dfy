/** Every step keeps the requests, the history and the credits accounted for. */
module Accounting {
  import opened Atomicity
  import opened Bytes
  import opened Consistency
  import opened Coordination
  import opened Credits
  import opened Discipline
  import opened History
  import opened Machine
  import opened Requests
  import opened Sequential
  import opened Tables

  ghost predicate Accounted(cfg: Config, s: State) {
    RequestsOK(cfg, s) && Replayed(cfg, s) && Lives(cfg, s) && CreditsOK(cfg, s)
  }

  /** Steps that touch no request, no credit, no table and no history. */
  ghost predicate Quiet(cfg: Config, s: State, s': State) {
    SameRequests(cfg, s, s') && s'.log == s.log && s'.table == s.table
  }

  lemma QuietAccounted(cfg: Config, s: State, s': State)
    requires Accounted(cfg, s) && Quiet(cfg, s, s')
    ensures Accounted(cfg, s')
  {
    QuietRequests(cfg, s, s');
    QuietLives(cfg, s, s');
    QuietCredits(cfg, s, s');
    hide RequestsOK;
    hide Lives;
    hide CreditsOK;
    hide SameRequests;
    hide Faithful;
    hide Replay;
  }

  // ---------- owners ----------

  lemma RunHeadQueue(cfg: Config, s: State, o: nat, now: i64)
    requires o < |s.owners| == |cfg.limits| && s.owners[o].data != []
    ensures CrossQueue(RunHead(cfg, s, o, now)) == CrossQueue(s)
  {
    RunHeadFrame(cfg, s, o, now);
    hide RunHead;
  }

  lemma RunHeadAccounted(cfg: Config, s: State, o: nat, now: i64)
    requires cfg.Valid() && Consistent(cfg, s) && Accounted(cfg, s) && o < |s.owners| && s.owners[o].data != []
    requires !Pending(s.coordinator, o)
    ensures Accounted(cfg, RunHead(cfg, s, o, now))
  {
    QueuedRoutes(cfg, s, o, 0);
    RunHeadReplayed(cfg, s, o, now);
    RunHeadLives(cfg, s, o, now);
    RunHeadCredits(cfg, s, o, now);
    RunHeadOwner(cfg, s, o, now);
    RunHeadFrame(cfg, s, o, now);
    RunHeadLog(cfg, s, o, now);
    RunHeadQueue(cfg, s, o, now);
    hide RunHead;
    hide RequestsOK;
    hide Replayed;
    hide Lives;
    hide CreditsOK;
    hide Consistent;
    hide Execute;
    hide Whole;
    hide Pending;
    hide CrossQueue;
    hide RoutesTo;
    var r := s.owners[o].data[0];
    AnswerLocal(cfg, s, RunHead(cfg, s, o, now), o, ReplyOf(Execute(s.owners[o].shard, cfg.limits[o], r.op, now).1));
  }

  /** Replacing an owner without touching its data queue or credits. */
  lemma OwnerQuiet(cfg: Config, s: State, o: nat, w: Owner)
    requires o < |s.owners| && w.data == s.owners[o].data && w.free == s.owners[o].free
    ensures Quiet(cfg, s, SetOwner(s, o, w))
  {
    hide InFlight;
  }

  lemma TurnAccounted(cfg: Config, s: State, o: nat, now: i64)
    requires cfg.Valid() && Disciplined(cfg, s) && Consistent(cfg, s) && Accounted(cfg, s)
    requires o < |s.owners|
    ensures Accounted(cfg, OwnerTurn(cfg, s, o, now))
  {
    var w := s.owners[o];
    var middle := SetOwner(s, o, TurnTaken(w));
    assert OwnerOK(s.coordinator, s.stops, o, w);
    OwnerQuiet(cfg, s, o, TurnTaken(w));
    hide Disciplined;
    hide RunHead;
    hide OwnerOK;
    hide Consistent;
    hide Accounted;
    hide Quiet;
    hide Pending;
    QuietAccounted(cfg, s, middle);
    if DataFirst(w) && w.data != [] {
      UnreservedNotPending(s.coordinator, s.stops, o, w);
      SameTables(cfg, s, middle);
      RunHeadAccounted(cfg, middle, o, now);
    }
  }

  lemma DataAccounted(cfg: Config, s: State, o: nat, now: i64)
    requires cfg.Valid() && Consistent(cfg, s) && Accounted(cfg, s) && o < |s.owners| && s.owners[o].data != []
    requires OwnerOK(s.coordinator, s.stops, o, s.owners[o]) && s.owners[o].reservation == None
    ensures Accounted(cfg, RunHead(cfg, SetOwner(s, o, s.owners[o].(at := Top)), o, now))
  {
    UnreservedNotPending(s.coordinator, s.stops, o, s.owners[o]);
    var middle := SetOwner(s, o, s.owners[o].(at := Top));
    OwnerQuiet(cfg, s, o, s.owners[o].(at := Top));
    hide RunHead;
    hide OwnerOK;
    hide Consistent;
    hide Accounted;
    hide Quiet;
    hide Pending;
    QuietAccounted(cfg, s, middle);
    SameTables(cfg, s, middle);
    RunHeadAccounted(cfg, middle, o, now);
  }

  lemma TickAccounted(cfg: Config, s: State, o: nat, now: i64, removed: set<Bytes>)
    requires Consistent(cfg, s) && Accounted(cfg, s) && o < |s.owners|
    requires !Pending(s.coordinator, o) && Sweep(s.owners[o].shard.table, now, cfg.expiryBatch, removed)
    ensures Accounted(cfg, OwnerTick(s, o, now, removed))
  {
    var s' := OwnerTick(s, o, now, removed);
    TickReplayed(cfg, s, o, now, removed);
    assert SameRequests(cfg, s, s') by {
      hide InFlight;
    }
    hide Sweep;
    hide Replayed;
    hide RequestsOK;
    hide Lives;
    hide CreditsOK;
    hide SameRequests;
    hide Consistent;
    hide Pending;
    QuietRequests(cfg, s, s');
    TickLives(cfg, s, s', o, removed, now);
    QuietCredits(cfg, s, s');
  }

  /** Handling a control message moves no local request and no credit. */
  lemma HandleQuiet(limits: ShardLimits, w: Owner, m: Control)
    ensures Handle(limits, w, m).0.data == w.data && Handle(limits, w, m).0.free == w.free
  {
    hide Prepare;
  }

  lemma AckQuiet(cfg: Config, c: Coordinator, ack: Ack)
    ensures InFlight(cfg, Deliver(c, ack)) == InFlight(cfg, c) && Active(Deliver(c, ack)) == Active(c)
  {
    hide Whole;
  }

  /** Then the coordinator changes, but not the command it holds nor that command's place. */
  lemma ThenCoordinator(cfg: Config, s: State, middle: State, c: Coordinator)
    requires Quiet(cfg, s, middle)
    requires InFlight(cfg, c) == InFlight(cfg, middle.coordinator) && Active(c) == Active(middle.coordinator)
    ensures Quiet(cfg, s, middle.(coordinator := c))
  {
    hide InFlight;
    hide Active;
  }

  lemma ControlQuiet(cfg: Config, s: State, o: nat)
    requires o < |s.owners| == |cfg.limits| && s.owners[o].control != []
    ensures Quiet(cfg, s, OwnerControl(cfg, s, o))
  {
    var w := s.owners[o];
    var (w', ack) := Handle(cfg.limits[o], w.(control := w.control[1..]), w.control[0]);
    HandleQuiet(cfg.limits[o], w.(control := w.control[1..]), w.control[0]);
    hide Handle;
    hide InFlight;
    hide Deliver;
    hide Active;
    hide Quiet;
    OwnerQuiet(cfg, s, o, w');
    if ack.Some? {
      AckQuiet(cfg, s.coordinator, ack.value);
      ThenCoordinator(cfg, s, SetOwner(s, o, w'), Deliver(s.coordinator, ack.value));
    }
  }

  lemma OwnerStepAccounted(cfg: Config, s: State, step: Step)
    requires cfg.Valid() && Disciplined(cfg, s) && Consistent(cfg, s) && Accounted(cfg, s)
    requires IsOwnerStep(step) && OwnerEnabled(cfg, s, step)
    ensures Accounted(cfg, OwnerStep(cfg, s, step))
  {
    assert OwnerOK(s.coordinator, s.stops, step.o, s.owners[step.o]);
    hide Disciplined;
    hide Consistent;
    hide Accounted;
    hide Quiet;
    hide OwnerTurn;
    hide OwnerControl;
    hide OwnerTick;
    hide RunHead;
    hide Sweep;
    hide OwnerOK;
    hide Pending;
    if step.DoTurn? {
      TurnAccounted(cfg, s, step.o, step.now);
    } else if step.DoControl? {
      ControlQuiet(cfg, s, step.o);
      QuietAccounted(cfg, s, OwnerControl(cfg, s, step.o));
    } else if step.DoTick? {
      UnreservedNotPending(s.coordinator, s.stops, step.o, s.owners[step.o]);
      TickAccounted(cfg, s, step.o, step.now, step.removed);
    } else if step.DoData? {
      DataAccounted(cfg, s, step.o, step.now);
    } else {
      QuietOwnerAccounted(cfg, s, step);
    }
  }

  lemma QuietOwnerAccounted(cfg: Config, s: State, step: Step)
    requires Accounted(cfg, s) && |s.owners| == |cfg.limits| && IsAside(step) && OwnerEnabled(cfg, s, step)
    ensures Accounted(cfg, OwnerStep(cfg, s, step))
  {
    var w' := Aside(s.owners[step.o], step);
    assert w'.data == s.owners[step.o].data && w'.free == s.owners[step.o].free;
    hide Aside;
    hide OwnerEnabled;
    hide Accounted;
    OwnerQuiet(cfg, s, step.o, w');
    hide Quiet;
    QuietAccounted(cfg, s, SetOwner(s, step.o, w'));
  }

  // ---------- the coordinator ----------

  lemma SendQuiet(cfg: Config, s: State)
    requires Disciplined(cfg, s) && CoordinatorEnabled(cfg, s, DoSend)
    ensures Quiet(cfg, s, SendControl(s))
  {
    SendDisciplined(cfg, s);
    hide Disciplined;
    hide Expected;
    var c := s.coordinator;
    var o := c.shares[c.next].owner;
    var w := s.owners[o].(control := s.owners[o].control + [Expected(c)]);
    assert SendControl(s) == SetOwner(s, o, w).(coordinator := c.(sent := true));
    hide SendControl;
    assert InFlight(cfg, c.(sent := true)) == InFlight(cfg, c) && Active(c.(sent := true)) == Active(c) by {
      hide Whole;
    }
    hide InFlight;
    hide Active;
    hide Quiet;
    OwnerQuiet(cfg, s, o, w);
    ThenCoordinator(cfg, s, SetOwner(s, o, w), c.(sent := true));
  }

  lemma ReceiveQuiet(cfg: Config, s: State)
    requires cfg.Valid() && CoordinatorOK(cfg, s.coordinator) && VotesOK(cfg, s.coordinator)
    requires CoordinatorEnabled(cfg, s, DoReceive)
    ensures Quiet(cfg, s, s.(coordinator := Received(cfg, s.coordinator)))
  {
    var c := s.coordinator;
    ReceivedAlive(cfg, c);
    ReceivedShape(cfg, c);
    hide Received;
    hide Whole;
    hide CoordinatorOK;
    hide VotesOK;
    assert InFlight(cfg, Received(cfg, c)) == InFlight(cfg, c);
    hide InFlight;
  }

  lemma TakeQuiet(cfg: Config, s: State)
    requires RequestsOK(cfg, s) && CoordinatorEnabled(cfg, s, DoTake)
    ensures Quiet(cfg, s, Take(cfg, s))
  {
    CrossDivisible(cfg, s);
    CrossRequestsPop(s.cross);
    TakeShape(cfg, s);
    hide Take;
    hide RequestsOK;
    hide CrossRequests;
    var s' := Take(cfg, s);
    assert Active(s.coordinator) == [] && Active(s'.coordinator) == [s.cross[0].request];
    assert [] + CrossRequests(s.cross) == CrossRequests(s.cross);
    assert InFlight(cfg, s'.coordinator) == None == InFlight(cfg, s.coordinator);
    hide InFlight;
  }

  /** Ending: taking or sending the stop request, finishing, closing and dropping move no request. */
  lemma ShutdownQuiet(cfg: Config, s: State, step: Step)
    requires Disciplined(cfg, s)
    requires !IsOwnerStep(step) && !IsClientStep(step) && CoordinatorEnabled(cfg, s, step)
    requires step.DoTakeStop? || step.DoFinish? || step.DoShutdown? || step.DoCrossStop? || step.DoDropHandles?
    ensures Quiet(cfg, s, CoordinatorStep(cfg, s, step))
  {
    var s' := CoordinatorStep(cfg, s, step);
    if step.DoCrossStop? {
      CoordinatorRuns(cfg, s);
    }
    hide Disciplined;
    hide CrossStop;
    assert CrossRequests(s'.cross) == CrossRequests(s.cross) by {
      if step.DoTakeStop? {
        CrossRequestsPop(s.cross);
      }
      CrossRequestsPush(s.cross, StopRequest);
      hide CrossRequests;
    }
    assert InFlight(cfg, s'.coordinator) == InFlight(cfg, s.coordinator);
    assert Active(s'.coordinator) == Active(s.coordinator);
    assert s'.owners == s.owners && s'.clients == s.clients && s'.log == s.log && s'.table == s.table;
    assert s'.crossFree == s.crossFree;
    hide InFlight;
    hide Active;
    hide CrossRequests;
    hide CoordinatorEnabled;
    hide CoordinatorStep;
  }

  lemma OwnerStopQuiet(cfg: Config, s: State)
    requires Disciplined(cfg, s) && CoordinatorEnabled(cfg, s, DoOwnerStop)
    ensures Quiet(cfg, s, OwnerStop(s))
  {
    NextOwnerRuns(cfg, s);
    var w := s.owners[s.stops].(control := s.owners[s.stops].control + [Stop]);
    OwnerQuiet(cfg, s, s.stops, w);
    assert OwnerStop(s) == SetOwner(s, s.stops, w).(stops := s.stops + 1);
    hide Disciplined;
    hide CoordinatorEnabled;
    hide OwnerStop;
    hide InFlight;
  }

  lemma SampleRequests(cfg: Config, s: State, s': State)
    requires RequestsOK(cfg, s) && CreditsOK(cfg, s) && CrossQueue(s') == CrossQueue(s)
    requires s'.owners == s.owners && s'.clients == s.clients && s'.crossFree == s.crossFree
    ensures RequestsOK(cfg, s') && CreditsOK(cfg, s')
  {
    hide QueueOK;
    hide ClientOK;
    hide CrossQueue;
    hide Held;
    forall target | ValidTarget(s', target)
      ensures FreeAt(s', target) + Held(s'.clients, target) == cfg.queueBytes
    {
      assert ValidTarget(s, target) && FreeAt(s', target) == FreeAt(s, target);
    }
  }

  lemma SampleAccounted(cfg: Config, s: State, now: i64)
    requires Accounted(cfg, s) && CoordinatorEnabled(cfg, s, DoSample(now))
    ensures Accounted(cfg, Sample(cfg, s, now))
  {
    var c, s' := s.coordinator, Sample(cfg, s, now);
    SampleLives(cfg, s, now);
    OneEvent(cfg, s, s', Ran(c.request.id, c.request.op, now, Whole(cfg, s.table, c.request.op, now).1));
    assert CrossQueue(s') == CrossQueue(s);
    hide Whole;
    hide RequestsOK;
    hide Replayed;
    hide Lives;
    hide CreditsOK;
    hide CrossQueue;
    SampleRequests(cfg, s, s');
  }

  lemma CompleteAccounted(cfg: Config, s: State)
    requires Accounted(cfg, s) && VotesOK(cfg, s.coordinator) && CoordinatorEnabled(cfg, s, DoComplete)
    ensures Accounted(cfg, Complete(s))
  {
    var c, s' := s.coordinator, Complete(s);
    CompleteLives(cfg, s);
    CompleteCredits(cfg, s);
    OneEvent(cfg, s, s', Returned(c.request.id, c.reply));
    hide Replayed;
    hide Lives;
    hide CreditsOK;
    hide RequestsOK;
    hide VotesOK;
    AnswerCross(cfg, s, s', c.reply);
  }

  lemma CoordinatorStepAccounted(cfg: Config, s: State, step: Step)
    requires cfg.Valid() && Disciplined(cfg, s) && Consistent(cfg, s) && Accounted(cfg, s)
    requires !IsOwnerStep(step) && !IsClientStep(step) && CoordinatorEnabled(cfg, s, step)
    ensures Accounted(cfg, CoordinatorStep(cfg, s, step))
  {
    var s' := CoordinatorStep(cfg, s, step);
    assert VotesOK(cfg, s.coordinator) && CoordinatorOK(cfg, s.coordinator) && RequestsOK(cfg, s);
    assert |s.owners| == |cfg.limits|;
    hide Accounted;
    hide RequestsOK;
    hide Consistent;
    hide Disciplined;
    hide VotesOK;
    hide CoordinatorOK;
    hide Quiet;
    hide Take;
    hide Received;
    hide Sample;
    hide Complete;
    hide SendControl;
    hide OwnerStop;
    hide CrossStop;
    if step.DoSample? {
      SampleAccounted(cfg, s, step.now);
    } else if step.DoComplete? {
      CompleteAccounted(cfg, s);
    } else {
      if step.DoTake? {
        TakeQuiet(cfg, s);
      } else if step.DoSend? {
        SendQuiet(cfg, s);
      } else if step.DoReceive? {
        ReceiveQuiet(cfg, s);
      } else if step.DoOwnerStop? {
        OwnerStopQuiet(cfg, s);
      } else {
        ShutdownQuiet(cfg, s, step);
      }
      QuietAccounted(cfg, s, s');
    }
  }
}
