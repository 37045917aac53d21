/** Nobody is passed over for long: bounds on how often queued work and control messages are overtaken. */
module Fairness {
  import opened Bytes
  import opened Credits
  import opened Delivery
  import opened Discipline
  import opened Engine
  import opened Machine
  import opened Progress
  import opened Sequential
  import opened Sharding
  import opened Tables

  /** The owner is about to look at its data queue before anything else. */
  predicate TurnDue(w: Owner) {
    w.at == Top && DataFirst(w)
  }

  /** It runs its oldest local command. */
  predicate Served(w: Owner, w': Owner) {
    && w.data != [] && w'.data == w.data[1..] && w'.served == w.served + 1
    && w'.handled == w.handled && w'.released == w.released
    && ((w.at == Top && w'.at == Selecting) || (w.at == Selecting && w'.at == Top && ControlIdle(w)))
  }

  /** It handles its oldest control message; after a release its data queue comes first. */
  predicate HandledOne(w: Owner, w': Owner) {
    && w.at == Selecting && w'.at == Top && !w.stopping && w.control != []
    && w'.data == w.data && w'.served == w.served && w'.handled == w.handled + 1
    && (w'.released == w.released || (w'.released == w.released + 1 && TurnDue(w')))
    && (w'.reservation == None && !w'.stopping ==> TurnDue(w'))
  }

  /** Anything else: requests may join its queue, and a turn that is due stays due. */
  predicate Rested(w: Owner, w': Owner) {
    && w.data <= w'.data && (w.dataClosed ==> w'.data == w.data)
    && w'.served == w.served && w'.handled == w.handled && w'.released == w.released
    && (TurnDue(w) && w.data != [] ==> TurnDue(w'))
    && (w'.at == w.at
        || (w.at == Top && w'.at == Selecting)
        || (w.at == Selecting && ControlIdle(w) && (w.stopping ==> w'.at == Exited)))
  }

  lemma TurnMoves(cfg: Config, s: State, o: nat, now: i64)
    requires o < |s.owners| == |cfg.limits| && s.owners[o].at == Top
    ensures o < |OwnerTurn(cfg, s, o, now).owners|
    ensures var w, w' := s.owners[o], OwnerTurn(cfg, s, o, now).owners[o]; Served(w, w') || Rested(w, w')
  {
    TurnEffect(cfg, s, o, now);
    hide OwnerTurn;
  }

  lemma DataMoves(cfg: Config, s: State, o: nat, now: i64)
    requires |s.owners| == |cfg.limits| && OwnerEnabled(cfg, s, DoData(o, now))
    ensures var s' := RunHead(cfg, SetOwner(s, o, s.owners[o].(at := Top)), o, now);
            o < |s'.owners| && Served(s.owners[o], s'.owners[o])
  {
    DataEffect(cfg, s, o, now);
    hide RunHead;
  }

  /** A message handled without dying. */
  lemma HandleMoves(limits: ShardLimits, w: Owner, m: Control)
    requires Handle(limits, w, m).0.at != Panicked
    ensures var w' := Handle(limits, w, m).0;
            && w'.at == Top && w'.data == w.data && w'.served == w.served && w'.handled == w.handled + 1
            && (w'.released == w.released || (w'.released == w.released + 1 && DataFirst(w')))
            && (w'.reservation == None && !w'.stopping ==> DataFirst(w'))
  {
    hide Prepare;
  }

  lemma ControlMoves(cfg: Config, s: State, o: nat)
    requires Disciplined(cfg, s) && OwnerEnabled(cfg, s, DoControl(o))
    ensures o < |OwnerControl(cfg, s, o).owners| && HandledOne(s.owners[o], OwnerControl(cfg, s, o).owners[o])
  {
    var w := s.owners[o];
    assert OwnerOK(s.coordinator, s.stops, o, w) && CoordinatorOK(cfg, s.coordinator);
    hide Disciplined;
    HandleMessage(cfg, s.coordinator, s.stops, o, w);
    assert Handle(cfg.limits[o], w.(control := w.control[1..]), w.control[0]).0.at != Panicked by {
      hide Handle;
      hide CoordinatorOK;
    }
    HandleMoves(cfg.limits[o], w.(control := w.control[1..]), w.control[0]);
    hide Handle;
    hide OwnerOK;
    hide CoordinatorOK;
  }

  lemma OtherMoves(cfg: Config, s: State, step: Step)
    requires |s.owners| == |cfg.limits| && OwnerEnabled(cfg, s, step)
    requires step.DoTick? || (IsAside(step) && (step.DoControlClosed? ==> s.owners[step.o].reservation == None))
    ensures step.o < |OwnerStep(cfg, s, step).owners|
    ensures Rested(s.owners[step.o], OwnerStep(cfg, s, step).owners[step.o])
  {
    hide Sweep;
  }

  lemma OwnerStepMoves(cfg: Config, s: State, step: Step, o: nat)
    requires Disciplined(cfg, s) && IsOwnerStep(step) && OwnerEnabled(cfg, s, step) && o < |s.owners|
    ensures o < |OwnerStep(cfg, s, step).owners|
    ensures var w, w' := s.owners[o], OwnerStep(cfg, s, step).owners[o];
            Served(w, w') || HandledOne(w, w') || Rested(w, w')
  {
    if step.o != o {
      BystanderRests(cfg, s, step, o);
    } else if step.DoTurn? {
      TurnMoves(cfg, s, o, step.now);
    } else if step.DoControl? {
      ControlMoves(cfg, s, o);
    } else if step.DoData? {
      DataMoves(cfg, s, o, step.now);
    } else {
      OtherMoves(cfg, s, step);
    }
    hide Disciplined;
    hide OwnerTurn;
    hide OwnerControl;
    hide OwnerTick;
    hide RunHead;
    hide Sweep;
    hide Served;
    hide HandledOne;
    hide Rested;
  }

  lemma BystanderRests(cfg: Config, s: State, step: Step, o: nat)
    requires |s.owners| == |cfg.limits| && IsOwnerStep(step) && OwnerEnabled(cfg, s, step)
    requires o < |s.owners| && step.o != o
    ensures o < |OwnerStep(cfg, s, step).owners| && Rested(s.owners[o], OwnerStep(cfg, s, step).owners[o])
  {
    if step.DoControl? {
      hide Handle;
    } else {
      OtherOwnerStep(cfg, s, step);
      hide OwnerStep;
    }
  }

  lemma ClientStepMoves(cfg: Config, s: State, step: Step, o: nat)
    requires IsClientStep(step) && ClientEnabled(cfg, s, step) && o < |s.owners|
    ensures o < |ClientStep(cfg, s, step).owners| && Rested(s.owners[o], ClientStep(cfg, s, step).owners[o])
  {
    hide TargetOf;
    hide Charge;
    if step.DoTimeOut? || step.DoAbandon? || step.DoRefuseClosed? {
      ReturnRests(s, step.id, o);
      hide ReturnCredit;
      hide Rested;
    }
  }

  lemma ReturnRests(s: State, id: nat, o: nat)
    requires id in s.clients && (s.clients[id].WaitingCredit? || s.clients[id].WaitingQueue?)
    requires ValidTarget(s, s.clients[id].target) && o < |s.owners|
    ensures o < |ReturnCredit(s, id).owners| && Rested(s.owners[o], ReturnCredit(s, id).owners[o])
  {
  }

  /** Control messages may arrive. */
  lemma ArrivalRests(w: Owner, control: seq<Control>)
    ensures Rested(w, w.(control := control))
  {
  }

  lemma SendMoves(s: State, o: nat)
    requires s.coordinator.Busy? && s.coordinator.next < |s.coordinator.shares| && s.coordinator.phase != Sampling
    requires s.coordinator.shares[s.coordinator.next].owner < |s.owners| && o < |s.owners|
    ensures o < |SendControl(s).owners| && Rested(s.owners[o], SendControl(s).owners[o])
  {
    ArrivalRests(s.owners[o], s.owners[o].control);
    ArrivalRests(s.owners[o], s.owners[o].control + [Expected(s.coordinator)]);
    hide Rested;
    hide Expected;
  }

  lemma CoordinatorStepMoves(cfg: Config, s: State, step: Step, o: nat)
    requires !IsOwnerStep(step) && !IsClientStep(step) && CoordinatorEnabled(cfg, s, step) && o < |s.owners|
    ensures o < |CoordinatorStep(cfg, s, step).owners| && Rested(s.owners[o], CoordinatorStep(cfg, s, step).owners[o])
  {
    ArrivalRests(s.owners[o], s.owners[o].control);
    ArrivalRests(s.owners[o], s.owners[o].control + [Stop]);
    hide Rested;
    hide Received;
    hide Whole;
    hide Shares;
    if step.DoSend? {
      SendMoves(s, o);
    }
    hide SendControl;
  }

  lemma StepMoves(cfg: Config, s: State, step: Step, o: nat)
    requires Disciplined(cfg, s) && Enabled(cfg, s, step) && o < |s.owners|
    ensures o < |Do(cfg, s, step).owners|
    ensures var w, w' := s.owners[o], Do(cfg, s, step).owners[o]; Served(w, w') || HandledOne(w, w') || Rested(w, w')
  {
    hide Disciplined;
    hide OwnerStep;
    hide ClientStep;
    hide CoordinatorStep;
    hide Served;
    hide HandledOne;
    hide Rested;
    if IsOwnerStep(step) {
      OwnerStepMoves(cfg, s, step, o);
    } else if IsClientStep(step) {
      ClientStepMoves(cfg, s, step, o);
    } else {
      CoordinatorStepMoves(cfg, s, step, o);
    }
  }

  // ---------- bounds over runs ----------

  /** How far an owner has come since: commands run, and the queue they left. */
  predicate Bounded(w: Owner, w': Owner, p: nat) {
    && w.served <= w'.served
    && (w'.served - w.served <= p ==>
          && p - (w'.served - w.served) < |w'.data| && p < |w.data| && w'.data[p - (w'.served - w.served)] == w.data[p]
          && w'.released - w.released <= w'.served - w.served + if TurnDue(w') then 1 else 0)
  }

  lemma BoundedStep(w: Owner, w': Owner, w'': Owner, p: nat)
    requires Bounded(w, w', p) && (Served(w', w'') || HandledOne(w', w'') || Rested(w', w''))
    ensures Bounded(w, w'', p)
  {
  }

  lemma BoundedAtFirst(w: Owner, p: nat)
    requires p < |w.data|
    ensures Bounded(w, w, p)
  {
  }

  lemma {:induction false} RunBounded(
    cfg: Config, states: seq<State>, steps: seq<Step>, o: nat, i: nat, j: nat, p: nat)
    requires cfg.Valid() && IsHistory(cfg, states, steps) && i <= j < |states| && o < |cfg.limits|
    requires o < |states[i].owners| && p < |states[i].owners[o].data|
    ensures o < |states[j].owners| && Bounded(states[i].owners[o], states[j].owners[o], p)
    decreases j
  {
    hide IsHistory;
    hide Enabled;
    hide Do;
    hide Disciplined;
    hide Bounded;
    hide Served;
    hide HandledOne;
    hide Rested;
    if i < j {
      RunBounded(cfg, states, steps, o, i, j - 1, p);
      RunDisciplined(cfg, states, steps, j - 1);
      RunStep(cfg, states, steps, j - 1);
      StepMoves(cfg, states[j - 1], steps[j - 1], o);
      BoundedStep(states[i].owners[o], states[j - 1].owners[o], states[j].owners[o], p);
    } else {
      BoundedAtFirst(states[i].owners[o], p);
    }
  }

  /** Until it has run, the request is still in its queue, behind the ones that were ahead of it. */
  lemma LocalOrder(cfg: Config, states: seq<State>, steps: seq<Step>, o: nat, i: nat, j: nat, p: nat)
    requires cfg.Valid() && IsHistory(cfg, states, steps) && i <= j < |states| && o < |cfg.limits|
    requires o < |states[i].owners| && p < |states[i].owners[o].data|
    ensures o < |states[j].owners|
    ensures var w, w' := states[i].owners[o], states[j].owners[o];
            && w.served <= w'.served
            && (w'.served - w.served <= p ==>
                  p - (w'.served - w.served) < |w'.data| && w'.data[p - (w'.served - w.served)] == w.data[p])
  {
    hide IsHistory;
    RunBounded(cfg, states, steps, o, i, j, p);
  }

  /** Running a local command answers its client. */
  lemma ServedAnswers(cfg: Config, s: State, step: Step, o: nat)
    requires Disciplined(cfg, s) && Enabled(cfg, s, step) && o < |s.owners| && o < |Do(cfg, s, step).owners|
    requires s.owners[o].data != [] && Do(cfg, s, step).owners[o].served > s.owners[o].served
    ensures var s', id := Do(cfg, s, step), s.owners[o].data[0].id; id in s'.clients && s'.clients[id].Answered?
  {
    if IsClientStep(step) {
      ClientStepMoves(cfg, s, step, o);
    } else if !IsOwnerStep(step) {
      CoordinatorStepMoves(cfg, s, step, o);
    } else if step.o != o {
      BystanderRests(cfg, s, step, o);
    } else if step.DoTurn? {
      RunHeadClients(cfg, SetOwner(s, o, TurnTaken(s.owners[o])), o, step.now);
    } else if step.DoControl? {
      ControlMoves(cfg, s, o);
    } else if step.DoData? {
      RunHeadClients(cfg, SetOwner(s, o, s.owners[o].(at := Top)), o, step.now);
    } else {
      OtherMoves(cfg, s, step);
    }
    hide Disciplined;
    hide ClientStep;
    hide CoordinatorStep;
    hide OwnerControl;
    hide OwnerTick;
    hide RunHead;
    hide Sweep;
  }

  /** Once an owner has run more commands than were ahead of a request, the request has been answered. */
  lemma {:induction false} RunAnswered(
    cfg: Config, states: seq<State>, steps: seq<Step>, o: nat, i: nat, j: nat, p: nat)
    requires cfg.Valid() && IsHistory(cfg, states, steps) && i <= j < |states| && o < |cfg.limits|
    requires o < |states[i].owners| && p < |states[i].owners[o].data|
    requires o < |states[j].owners| && states[j].owners[o].served > states[i].owners[o].served + p
    ensures var id := states[i].owners[o].data[p].id; id in states[j].clients && states[j].clients[id].Answered?
    decreases j
  {
    hide IsHistory;
    hide Enabled;
    hide Do;
    hide Invariant;
    hide Bounded;
    NotAtFirst(states, o, i, j);
    RunBounded(cfg, states, steps, o, i, j - 1, p);
    RunInvariant(cfg, states, steps, j - 1);
    RunStep(cfg, states, steps, j - 1);
    BoundedLength(states[i].owners[o], states[j - 1].owners[o], p);
    if states[j - 1].owners[o].served > states[i].owners[o].served + p {
      RunAnswered(cfg, states, steps, o, i, j - 1, p);
      StepFollows(cfg, states[j - 1], steps[j - 1], states[i].owners[o].data[p].id);
    } else {
      LastServed(cfg, states[i].owners[o], states[j - 1], steps[j - 1], o, p);
    }
  }

  lemma NotAtFirst(states: seq<State>, o: nat, i: nat, j: nat)
    requires i <= j < |states| && o < |states[i].owners| && o < |states[j].owners|
    requires states[j].owners[o].served > states[i].owners[o].served
    ensures i < j
  {
  }

  lemma BoundedLength(w: Owner, w': Owner, p: nat)
    requires Bounded(w, w', p)
    ensures w.served <= w'.served
  {
  }

  lemma LastServed(cfg: Config, w: Owner, s: State, step: Step, o: nat, p: nat)
    requires Invariant(cfg, s) && Enabled(cfg, s, step) && o < |s.owners| && o < |Do(cfg, s, step).owners|
    requires Bounded(w, s.owners[o], p) && p < |w.data|
    requires s.owners[o].served <= w.served + p < Do(cfg, s, step).owners[o].served
    ensures var s', id := Do(cfg, s, step), w.data[p].id; id in s'.clients && s'.clients[id].Answered?
  {
    assert Disciplined(cfg, s);
    hide Invariant;
    hide Disciplined;
    hide Enabled;
    hide Do;
    hide Bounded;
    hide Served;
    hide HandledOne;
    hide Rested;
    StepMoves(cfg, s, step, o);
    RequestsTurn(w, s.owners[o], Do(cfg, s, step).owners[o], p);
    ServedAnswers(cfg, s, step, o);
  }

  /** The step that takes an owner past a request's position is the one that runs it. */
  lemma RequestsTurn(w: Owner, w': Owner, w'': Owner, p: nat)
    requires Bounded(w, w', p) && (Served(w', w'') || HandledOne(w', w'') || Rested(w', w''))
    requires w'.served <= w.served + p < w''.served && p < |w.data|
    ensures w'.data != [] && w'.data[0] == w.data[p] && w'.served < w''.served
  {
  }

  /** A local request with `p` ahead of it is answered before more than `p + 1` further reservations are released. */
  lemma LocalBypass(cfg: Config, states: seq<State>, steps: seq<Step>, o: nat, i: nat, j: nat, p: nat)
    requires cfg.Valid() && IsHistory(cfg, states, steps) && i <= j < |states| && o < |cfg.limits|
    requires o < |states[i].owners| && p < |states[i].owners[o].data|
    requires o < |states[j].owners| && states[j].owners[o].released > states[i].owners[o].released + p + 1
    ensures var id := states[i].owners[o].data[p].id; id in states[j].clients && states[j].clients[id].Answered?
  {
    hide IsHistory;
    RunBounded(cfg, states, steps, o, i, j, p);
    RunAnswered(cfg, states, steps, o, i, j, p);
  }

  /** The owner serves local work: no command holds it and it is not stopping. */
  predicate Serving(s: State, o: nat) {
    o < |s.owners| && s.owners[o].reservation == None && !s.owners[o].stopping
  }

  lemma {:induction false} RunQueries(cfg: Config, states: seq<State>, steps: seq<Step>, o: nat, i: nat, j: nat, p: nat)
    requires cfg.Valid() && IsHistory(cfg, states, steps) && i <= j < |states| && o < |cfg.limits|
    requires o < |states[i].owners| && p < |states[i].owners[o].data|
    requires forall k :: i <= k <= j ==> Serving(states[k], o)
    ensures o < |states[j].owners|
    ensures var w, w' := states[i].owners[o], states[j].owners[o];
            w'.served - w.served <= p ==>
              w'.handled - w.handled <= w'.served - w.served + if TurnDue(w') then 1 else 0
    decreases j
  {
    hide IsHistory;
    hide Enabled;
    hide Do;
    hide Disciplined;
    hide Served;
    hide HandledOne;
    hide Rested;
    if i < j {
      RunQueries(cfg, states, steps, o, i, j - 1, p);
      RunBounded(cfg, states, steps, o, i, j - 1, p);
      RunDisciplined(cfg, states, steps, j - 1);
      RunStep(cfg, states, steps, j - 1);
      assert Serving(states[j - 1], o) && Serving(states[j], o);
      StepMoves(cfg, states[j - 1], steps[j - 1], o);
      QueriesStep(states[i].owners[o], states[j - 1].owners[o], states[j].owners[o], p);
    }
  }

  lemma QueriesStep(w: Owner, w': Owner, w'': Owner, p: nat)
    requires Bounded(w, w', p) && (Served(w', w'') || HandledOne(w', w'') || Rested(w', w''))
    requires w''.reservation == None && !w''.stopping
    requires w'.served - w.served <= p ==>
               w'.handled - w.handled <= w'.served - w.served + if TurnDue(w') then 1 else 0
    ensures w''.served - w.served <= p ==>
              w''.handled - w.handled <= w''.served - w.served + if TurnDue(w'') then 1 else 0
  {
  }

  /**
   * While no command holds the owner, a local request with `p` ahead of it is answered before more
   * than `p + 1` queries are.
   */
  lemma QueryBypass(cfg: Config, states: seq<State>, steps: seq<Step>, o: nat, i: nat, j: nat, p: nat)
    requires cfg.Valid() && IsHistory(cfg, states, steps) && i <= j < |states| && o < |cfg.limits|
    requires o < |states[i].owners| && p < |states[i].owners[o].data|
    requires forall k :: i <= k <= j ==> Serving(states[k], o)
    requires o < |states[j].owners| && states[j].owners[o].handled > states[i].owners[o].handled + p + 1
    ensures var id := states[i].owners[o].data[p].id; id in states[j].clients && states[j].clients[id].Answered?
  {
    hide IsHistory;
    RunQueries(cfg, states, steps, o, i, j, p);
    hide Serving;
    RunAnswered(cfg, states, steps, o, i, j, p);
  }

  /** A control message is waiting at a running owner. */
  predicate ControlWaits(s: State, o: nat) {
    o < |s.owners| && s.owners[o].control != [] && !s.owners[o].stopping
  }

  lemma {:induction false} RunControl(cfg: Config, states: seq<State>, steps: seq<Step>, o: nat, i: nat, j: nat)
    requires cfg.Valid() && IsHistory(cfg, states, steps) && i <= j < |states|
    requires o < |states[i].owners| && forall k :: i <= k < j ==> ControlWaits(states[k], o)
    ensures o < |states[j].owners|
    ensures var w, w' := states[i].owners[o], states[j].owners[o];
            w'.served - w.served <= w'.handled - w.handled + if w'.at == Top then 0 else 1
    decreases j
  {
    hide IsHistory;
    hide Enabled;
    hide Do;
    hide Disciplined;
    hide Served;
    hide HandledOne;
    hide Rested;
    if i < j {
      RunControl(cfg, states, steps, o, i, j - 1);
      RunDisciplined(cfg, states, steps, j - 1);
      RunStep(cfg, states, steps, j - 1);
      assert ControlWaits(states[j - 1], o);
      StepMoves(cfg, states[j - 1], steps[j - 1], o);
      ControlStep(states[i].owners[o], states[j - 1].owners[o], states[j].owners[o]);
    }
  }

  lemma ControlStep(w: Owner, w': Owner, w'': Owner)
    requires w'.control != [] && !w'.stopping && (Served(w', w'') || HandledOne(w', w'') || Rested(w', w''))
    requires w'.served - w.served <= w'.handled - w.handled + if w'.at == Top then 0 else 1
    ensures w''.served - w.served <= w''.handled - w.handled + if w''.at == Top then 0 else 1
  {
  }

  /** While control messages wait, local commands run at most once more than messages are handled. */
  lemma ControlBypass(cfg: Config, states: seq<State>, steps: seq<Step>, o: nat, i: nat, j: nat)
    requires cfg.Valid() && IsHistory(cfg, states, steps) && i <= j < |states|
    requires o < |states[i].owners| && forall k :: i <= k < j ==> ControlWaits(states[k], o)
    ensures o < |states[j].owners|
    ensures var w, w' := states[i].owners[o], states[j].owners[o];
            && w'.served - w.served <= w'.handled - w.handled + 1
            && (w'.handled == w.handled ==> w'.served <= w.served + 1)
  {
    hide IsHistory;
    RunControl(cfg, states, steps, o, i, j);
  }

  /** A stopping owner never has more to do than before. */
  lemma StoppingNeverRises(cfg: Config, s: State, step: Step, o: nat)
    requires Disciplined(cfg, s) && Enabled(cfg, s, step) && o < |s.owners| && s.owners[o].stopping
    ensures o < |Do(cfg, s, step).owners| && LeftToDo(Do(cfg, s, step).owners[o]) <= LeftToDo(s.owners[o])
  {
    assert OwnerOK(s.coordinator, s.stops, o, s.owners[o]);
    StepMoves(cfg, s, step, o);
    hide Disciplined;
    hide Enabled;
    hide Do;
  }
}
