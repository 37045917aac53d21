/** The coordinator's own steps keep the reservation discipline. */
module Coordination {
  import opened Bytes
  import opened Commands
  import opened Discipline
  import opened Machine
  import opened Sequential
  import opened Sharding
  import opened Tables

  /** A step that changes the coordinator but no owner. */
  lemma CoordinatorOnly(cfg: Config, s: State, s': State)
    requires Disciplined(cfg, s)
    requires s'.owners == s.owners && s'.stops == s.stops
    requires s'.stops > 0 ==> s'.coordinator == Finished && s'.stopRequested
    requires s'.coordinator == Finished ==> s'.cross == [] && (s'.crossClosed || s'.dropped)
    requires (s.dropped ==> s'.dropped) && (s'.dropped ==> !s'.closing)
    requires (s'.crossClosed ==> s'.stopRequested) && (s'.stopRequested ==> s'.closing)
    requires StopRequest in s'.cross ==> s'.stopRequested
    requires CoordinatorOK(cfg, s'.coordinator)
    requires forall o :: 0 <= o < |s.owners| && OwnerOK(s.coordinator, s.stops, o, s.owners[o]) ==>
               OwnerOK(s'.coordinator, s.stops, o, s.owners[o])
    ensures Disciplined(cfg, s')
  {
    hide OwnerOK;
    hide CoordinatorOK;
  }

  // ---------- sending ----------

  lemma SentCoordinator(cfg: Config, c: Coordinator)
    requires CoordinatorOK(cfg, c) && c.Busy? && !c.sent && c.next < |c.shares| && c.phase != Sampling
    ensures CoordinatorOK(cfg, c.(sent := true)) && c.ack == None && Expected(c.(sent := true)) == Expected(c)
  {
    hide Shares;
  }

  /** Sending a message changes no owner's reservation, and no other owner's queue. */
  lemma SendOwner(c: Coordinator, stops: nat, o: nat, w: Owner)
    requires OwnerOK(c, stops, o, w)
    requires c.Busy? && !c.sent && c.ack == None && c.next < |c.shares| && c.phase != Sampling
    requires Expected(c.(sent := true)) == Expected(c)
    ensures var c' := c.(sent := true);
            && w.at != Exited
            && (if c.shares[c.next].owner == o then OwnerOK(c', stops, o, w.(control := w.control + [Expected(c)]))
                else OwnerOK(c', stops, o, w))
  {
    RelevantPush(w.control, Expected(c));
    hide Relevant;
    hide IndexOf;
    hide Expected;
    var c' := c.(sent := true);
    assert ReservationOK(c', o, w.reservation);
    hide ReservationOK;
  }

  /** Sending changes the coordinator and one owner's control queue only. */
  lemma SentShape(s: State)
    requires s.coordinator.Busy? && s.coordinator.next < |s.coordinator.shares| && s.coordinator.phase != Sampling
    requires s.coordinator.shares[s.coordinator.next].owner < |s.owners|
    ensures var s' := SendControl(s);
            s' == s.(owners := s'.owners, coordinator := s'.coordinator) && |s'.owners| == |s.owners|
  {
    hide Expected;
  }

  lemma SendDisciplined(cfg: Config, s: State)
    requires Disciplined(cfg, s) && CoordinatorEnabled(cfg, s, DoSend)
    ensures Disciplined(cfg, SendControl(s)) && !SendControl(s).coordinator.Crashed?
  {
    var c := s.coordinator;
    var p := c.shares[c.next].owner;
    SentCoordinator(cfg, c);
    SendOwner(c, s.stops, p, s.owners[p]);
    var w := s.owners[p].(control := s.owners[p].control + [Expected(c)]);
    var s' := SetOwner(s, p, w).(coordinator := c.(sent := true));
    assert SendControl(s) == s';
    hide SendControl;
    hide OwnerOK;
    hide CoordinatorOK;
    hide Expected;
    forall o | 0 <= o < |s.owners|
      ensures OwnerOK(s'.coordinator, s.stops, o, s'.owners[o])
      ensures s'.owners[o].stopping == s.owners[o].stopping
    {
      SendOwner(c, s.stops, o, s.owners[o]);
    }
  }

  // ---------- receiving ----------

  /** The phase the coordinator is in after a completion, without the data it carries. */
  lemma ReceivedShape(cfg: Config, c: Coordinator)
    requires CoordinatorOK(cfg, c) && c.Busy? && c.ack.Some? && !Received(cfg, c).Crashed?
    ensures var c' := Received(cfg, c);
            var last := c.next + 1 == |c.shares|;
            && c'.Busy? && c'.request == c.request && c'.txn == c.txn && c'.shares == c.shares
            && !c'.sent && c'.ack == None && c'.now == c.now && c'.before == c.before
            && (c.phase == Reserving ==>
                  if last then c'.phase == Sampling && c'.next == 0 else c'.phase == Reserving && c'.next == c.next + 1)
            && c.phase != Sampling
            && (c.phase == Preparing ==>
                  if c.ack.value.result.Err? then c'.phase == Releasing && c'.next == 0
                  else if last then (c'.phase == Applying || c'.phase == Releasing) && c'.next == 0
                  else c'.phase == Preparing && c'.next == c.next + 1)
            && (c.phase == Applying ==>
                  if last then c'.phase == Releasing && c'.next == 0 else c'.phase == Applying && c'.next == c.next + 1)
            && (c.phase == Releasing ==> c'.phase == Releasing && c'.next == c.next + 1)
  {
    hide Combined;
    hide Combinable;
    hide TooLong;
    hide Shares;
  }

  lemma ReceiveOwner(cfg: Config, c: Coordinator, stops: nat, o: nat, w: Owner)
    requires CoordinatorOK(cfg, c) && OwnerOK(c, stops, o, w)
    requires c.Busy? && c.ack.Some? && !Received(cfg, c).Crashed?
    ensures OwnerOK(Received(cfg, c), stops, o, w) && CoordinatorOK(cfg, Received(cfg, c))
  {
    ReceivedShape(cfg, c);
    hide Received;
    hide Relevant;
    hide IndexOf;
    hide Shares;
    var c' := Received(cfg, c);
    assert ReservationOK(c', o, w.reservation);
    hide ReservationOK;
  }

  lemma ReceiveDisciplined(cfg: Config, s: State)
    requires Disciplined(cfg, s) && CoordinatorEnabled(cfg, s, DoReceive)
    requires !Received(cfg, s.coordinator).Crashed?
    ensures Disciplined(cfg, s.(coordinator := Received(cfg, s.coordinator)))
  {
    ReceivedShape(cfg, s.coordinator);
    hide Received;
    forall o | 0 <= o < |s.owners| && OwnerOK(s.coordinator, s.stops, o, s.owners[o])
      ensures OwnerOK(Received(cfg, s.coordinator), s.stops, o, s.owners[o])
    {
      ReceiveOwner(cfg, s.coordinator, s.stops, o, s.owners[o]);
    }
    assert CoordinatorOK(cfg, Received(cfg, s.coordinator)) by {
      if |s.owners| > 0 {
        ReceiveOwner(cfg, s.coordinator, s.stops, 0, s.owners[0]);
      } else {
        NoOwnersNoShares(cfg, s.coordinator);
      }
    }
    CoordinatorOnly(cfg, s, s.(coordinator := Received(cfg, s.coordinator)));
  }

  lemma NoOwnersNoShares(cfg: Config, c: Coordinator)
    requires CoordinatorOK(cfg, c) && |cfg.limits| == 0
    ensures !c.Busy?
  {
  }

  // ---------- taking, sampling, completing ----------

  lemma SampleDisciplined(cfg: Config, s: State, now: i64)
    requires Disciplined(cfg, s) && CoordinatorEnabled(cfg, s, DoSample(now))
    ensures Disciplined(cfg, Sample(cfg, s, now))
  {
    hide Whole;
    hide Relevant;
    hide IndexOf;
    hide Shares;
    var s' := Sample(cfg, s, now);
    forall o | 0 <= o < |s.owners| && OwnerOK(s.coordinator, s.stops, o, s.owners[o])
      ensures OwnerOK(s'.coordinator, s.stops, o, s.owners[o])
    {
    }
    CoordinatorOnly(cfg, s, s');
  }

  /** A command with keys has at least one participant. */
  lemma SomeShare(cfg: Config, op: Operation)
    requires cfg.Valid() && op.Divisible() && op.Keys() != []
    ensures Shares(op, cfg.route, |cfg.limits|) != []
  {
    SharesCover(op, cfg.route, |cfg.limits|);
    var o := cfg.route(op.Keys()[0]);
    assert op.Keys()[0] in op.Keys() && o < |cfg.limits|;
    assert Participates(op, cfg.route, o);
    assert Covered(Shares(op, cfg.route, |cfg.limits|), o);
  }

  /** Taking a command changes the coordinator and its queue only. */
  lemma TakeShape(cfg: Config, s: State)
    requires s.cross != [] && s.cross[0].Coordinate?
    ensures var c := Take(cfg, s).coordinator;
            && Take(cfg, s) == s.(cross := s.cross[1..], lastTxn := s.lastTxn + 1, coordinator := c)
            && c != Finished
            && (s.cross[0].request.op.Divisible() ==>
                  c.Busy? && c.request == s.cross[0].request && c.phase == Reserving)
  {
    var r := s.cross[0].request;
    if r.op.Divisible() {
      var shares := Shares(r.op, cfg.route, |cfg.limits|);
      hide Shares;
    }
  }

  lemma TakeDisciplined(cfg: Config, s: State)
    requires cfg.Valid() && Disciplined(cfg, s) && CoordinatorEnabled(cfg, s, DoTake)
    requires var op := s.cross[0].request.op; op.Divisible() && op.Keys() != []
    ensures Disciplined(cfg, Take(cfg, s))
  {
    var s' := Take(cfg, s);
    var op := s.cross[0].request.op;
    SomeShare(cfg, op);
    SharesCover(op, cfg.route, |cfg.limits|);
    hide Shares;
    hide Relevant;
    hide IndexOf;
    forall o | 0 <= o < |s.owners| && OwnerOK(s.coordinator, s.stops, o, s.owners[o])
      ensures OwnerOK(s'.coordinator, s.stops, o, s.owners[o])
    {
    }
    assert StopRequest in s'.cross ==> StopRequest in s.cross;
    CoordinatorOnly(cfg, s, s');
  }

  lemma CompleteDisciplined(cfg: Config, s: State)
    requires Disciplined(cfg, s) && CoordinatorEnabled(cfg, s, DoComplete)
    ensures Disciplined(cfg, Complete(s))
  {
    hide Shares;
    hide Relevant;
    hide IndexOf;
    var s' := Complete(s);
    forall o | 0 <= o < |s.owners| && OwnerOK(s.coordinator, s.stops, o, s.owners[o])
      ensures OwnerOK(s'.coordinator, s.stops, o, s.owners[o])
    {
    }
    CoordinatorOnly(cfg, s, s');
  }

  lemma FinishDisciplined(cfg: Config, s: State)
    requires Disciplined(cfg, s) && CoordinatorEnabled(cfg, s, DoFinish)
    ensures Disciplined(cfg, s.(coordinator := Finished))
  {
    hide Relevant;
    forall o | 0 <= o < |s.owners| && OwnerOK(s.coordinator, s.stops, o, s.owners[o])
      ensures OwnerOK(Finished, s.stops, o, s.owners[o])
    {
    }
    CoordinatorOnly(cfg, s, s.(coordinator := Finished));
  }

  // ---------- shutdown ----------

  lemma StopOwner(stops: nat, o: nat, w: Owner)
    requires OwnerOK(Finished, stops, o, w) && (o == stops ==> !w.stopping)
    ensures OwnerOK(Finished, stops + 1, o, if o == stops then w.(control := w.control + [Stop]) else w)
  {
    RelevantPush(w.control, Stop);
    hide Relevant;
    hide ReservationOK;
  }

  /** The owner about to be asked to stop is still running. */
  lemma NextOwnerRuns(cfg: Config, s: State)
    requires Disciplined(cfg, s) && CoordinatorEnabled(cfg, s, DoOwnerStop)
    ensures !s.dropped && !s.owners[s.stops].stopping && s.owners[s.stops].at != Exited
  {
    assert OwnerOK(Finished, s.stops, s.stops, s.owners[s.stops]);
    hide CoordinatorOK;
    hide ReservationOK;
    hide Relevant;
  }

  lemma StopSent(s: State)
    requires s.stops < |s.owners| && s.owners[s.stops].at != Exited
    ensures var w := s.owners[s.stops];
            OwnerStop(s) == SetOwner(s, s.stops, w.(control := w.control + [Stop])).(stops := s.stops + 1)
  {
  }

  /** The next owner gets its stop message; the others are as before. */
  lemma StopOwners(s: State, owners: seq<Owner>)
    requires s.stops < |s.owners| && !s.owners[s.stops].stopping
    requires owners == s.owners[s.stops := s.owners[s.stops].(control := s.owners[s.stops].control + [Stop])]
    requires forall o :: 0 <= o < |s.owners| ==> OwnerOK(Finished, s.stops, o, s.owners[o])
    ensures forall o :: 0 <= o < |owners| ==>
              OwnerOK(Finished, s.stops + 1, o, owners[o]) && owners[o].stopping == s.owners[o].stopping
  {
    hide OwnerOK;
    forall o | 0 <= o < |s.owners|
      ensures OwnerOK(Finished, s.stops + 1, o, owners[o])
    {
      StopOwner(s.stops, o, s.owners[o]);
    }
  }

  lemma OwnerStopDisciplined(cfg: Config, s: State)
    requires Disciplined(cfg, s) && CoordinatorEnabled(cfg, s, DoOwnerStop)
    ensures Disciplined(cfg, OwnerStop(s)) && !OwnerStop(s).coordinator.Crashed?
  {
    hide OwnerStop;
    hide OwnerOK;
    hide CoordinatorOK;
    NextOwnerRuns(cfg, s);
    StopSent(s);
    StopOwners(s, OwnerStop(s).owners);
  }

  /** While shutdown is waiting to ask the coordinator, the coordinator is running. */
  lemma CoordinatorRuns(cfg: Config, s: State)
    requires Disciplined(cfg, s) && CoordinatorEnabled(cfg, s, DoCrossStop)
    ensures CrossStop(s) == s.(cross := s.cross + [StopRequest], stopRequested := true)
  {
    hide OwnerOK;
    hide CoordinatorOK;
  }

  lemma ShutdownDisciplined(cfg: Config, s: State, step: Step)
    requires Disciplined(cfg, s) && CoordinatorEnabled(cfg, s, step)
    requires step.DoTakeStop? || step.DoShutdown? || step.DoCrossStop? || step.DoDropHandles?
    ensures Disciplined(cfg, CoordinatorStep(cfg, s, step))
  {
    if step.DoCrossStop? {
      CoordinatorRuns(cfg, s);
    }
    hide CrossStop;
    hide OwnerOK;
    hide CoordinatorOK;
    var s' := CoordinatorStep(cfg, s, step);
    if step.DoTakeStop? {
      assert s.cross[0] in s.cross;
      assert StopRequest in s'.cross ==> StopRequest in s.cross;
      assert s.coordinator == Idle;
    }
    CoordinatorOnly(cfg, s, s');
  }

  /** Every coordinator step keeps the discipline, given that its messages and requests are well formed. */
  lemma CoordinatorStepDisciplined(cfg: Config, s: State, step: Step)
    requires cfg.Valid() && Disciplined(cfg, s)
    requires !IsOwnerStep(step) && !IsClientStep(step) && CoordinatorEnabled(cfg, s, step)
    requires step.DoTake? ==> s.cross[0].request.op.Divisible() && s.cross[0].request.op.Keys() != []
    requires step.DoReceive? ==> !Received(cfg, s.coordinator).Crashed?
    ensures Disciplined(cfg, CoordinatorStep(cfg, s, step))
  {
    hide Disciplined;
    hide Received;
    hide Take;
    hide SendControl;
    hide Sample;
    hide Complete;
    hide OwnerStop;
    hide CrossStop;
    if step.DoTake? {
      TakeDisciplined(cfg, s);
    } else if step.DoSend? {
      SendDisciplined(cfg, s);
    } else if step.DoReceive? {
      ReceiveDisciplined(cfg, s);
    } else if step.DoSample? {
      SampleDisciplined(cfg, s, step.now);
    } else if step.DoComplete? {
      CompleteDisciplined(cfg, s);
    } else if step.DoFinish? {
      FinishDisciplined(cfg, s);
    } else if step.DoOwnerStop? {
      OwnerStopDisciplined(cfg, s);
    } else {
      ShutdownDisciplined(cfg, s, step);
    }
  }
}
