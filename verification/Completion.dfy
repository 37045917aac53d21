/** Every accepted command, wherever it waits, can be brought to its answer by the engine alone. */
module Completion {
  import opened Bytes
  import opened Coordination
  import opened Delivery
  import opened Discipline
  import opened Engine
  import opened Machine
  import opened Progress
  import opened Requests
  import opened Sequential
  import opened Shutdown
  import opened Tables

  /** A local command is waiting at its owner. */
  lemma WaitsAtOwner(cfg: Config, s: State, id: nat, o: nat)
    requires cfg.Valid() && RequestsOK(cfg, s) && id in s.clients
    requires s.clients[id].Accepted? && s.clients[id].target == Local(o)
    ensures o < |s.owners| && s.owners[o].data != []
  {
    var c := s.clients[id];
    assert ClientOK(cfg, c);
    TargetInRange(cfg, c.op);
    hide TargetOf;
    assert QueueOK(s.clients, Local(o), s.owners[o].data);
    assert InQueue(s.owners[o].data, id);
  }

  /** A coordinated command that is not in flight is waiting for the coordinator. */
  lemma WaitsAtCoordinator(cfg: Config, s: State, id: nat)
    requires RequestsOK(cfg, s) && id in s.clients && s.clients[id].Accepted? && s.clients[id].target == Cross
    requires !s.coordinator.Busy?
    ensures s.cross != []
  {
    assert InQueue(CrossQueue(s), id);
  }

  // ---------- a local command ----------

  /** The next step of an owner that has local work. */
  function OwnerNext(s: State, o: nat, now: i64): Step
    requires o < |s.owners|
  {
    var w := s.owners[o];
    if w.at == Top then DoTurn(o, now)
    else if w.control != [] && !w.stopping then DoControl(o)
    else if ChannelsClosed(s) && !w.stopping then DoControlClosed(o)
    else DoData(o, now)
  }

  /** An owner no command holds, with local work: what it is doing and what it may find. */
  lemma FreeOwner(cfg: Config, s: State, o: nat)
    requires Disciplined(cfg, s) && !s.coordinator.Busy? && o < |s.owners| && s.owners[o].data != []
    ensures var w := s.owners[o];
            && w.reservation == None && (w.at == Top || w.at == Selecting)
            && (w.control != [] && !w.stopping ==> w.control[0] == StatsQuery || w.control[0] == Stop)
  {
    var w := s.owners[o];
    assert OwnerOK(s.coordinator, s.stops, o, w);
    if w.control != [] && !w.stopping {
      OldestMessage(s.coordinator, s.stops, o, w);
    }
    hide Relevant;
    hide CoordinatorOK;
  }

  lemma OwnerNextEnabled(cfg: Config, s: State, o: nat, now: i64)
    requires Disciplined(cfg, s) && !s.coordinator.Busy? && o < |s.owners| && s.owners[o].data != []
    ensures var step := OwnerNext(s, o, now);
            && Enabled(cfg, s, step) && IsOwnerStep(step) && Internal(step) && step.o == o
  {
    FreeOwner(cfg, s, o);
    assert |s.owners| == |cfg.limits|;
    hide Disciplined;
    hide Sweep;
  }

  lemma OwnerNextToil(cfg: Config, s: State, o: nat, now: i64)
    requires Disciplined(cfg, s) && !s.coordinator.Busy? && o < |s.owners| && s.owners[o].data != []
    requires OwnerEnabled(cfg, s, OwnerNext(s, o, now)) && IsOwnerStep(OwnerNext(s, o, now))
    ensures var s' := OwnerStep(cfg, s, OwnerNext(s, o, now));
            o < |s'.owners| && Toil(s'.owners[o]) < Toil(s.owners[o])
  {
    var step := OwnerNext(s, o, now);
    FreeOwner(cfg, s, o);
    assert |s.owners| == |cfg.limits|;
    hide Disciplined;
    hide Toil;
    hide OwnerTurn;
    hide OwnerControl;
    hide RunHead;
    hide Aside;
    if step.DoTurn? {
      TurnToil(cfg, s, o, now);
    } else if step.DoControl? {
      MessageToil(cfg.limits[o], s.owners[o]);
      ControlOwner(cfg, s, o);
    } else if step.DoData? {
      DataToil(cfg, s, o, now);
    } else {
      AsideToil(s.owners[o], step);
    }
  }

  // ---------- any command ----------

  /** How much comes before the answer, in the order it has to happen. */
  datatype Before = Before(queued: nat, command: Rank, toil: nat)

  function Distance(s: State, target: Target): Before
    requires ValidTarget(s, target)
  {
    Before(if target == Cross then |s.cross| else 0, Measure(s),
           if target.Local? then Toil(s.owners[target.owner]) else 0)
  }

  predicate Nearer(a: Before, b: Before) {
    || a.queued < b.queued
    || (a.queued == b.queued && Below(a.command, b.command))
    || (a.queued == b.queued && a.command == b.command && a.toil < b.toil)
  }

  lemma CommandNearer(s: State, s': State, target: Target)
    requires ValidTarget(s, target) && ValidTarget(s', target) && s'.cross == s.cross && Below(Measure(s'), Measure(s))
    ensures Nearer(Distance(s', target), Distance(s, target))
  {
    hide Measure;
    hide Below;
    hide Toil;
  }

  lemma ForwardKinds(s: State, now: i64)
    requires s.coordinator.Busy?
    ensures !IsClientStep(Forward(s, now)) && Internal(Forward(s, now))
  {
  }

  lemma SameTargets(s: State, s': State, target: Target)
    requires SameShutdown(s, s') && ValidTarget(s, target)
    ensures ValidTarget(s', target) && s'.cross == s.cross
  {
  }

  lemma BusyNearer(cfg: Config, s: State, target: Target, now: i64)
    requires cfg.Valid() && Invariant(cfg, s) && s.coordinator.Busy? && ValidTarget(s, target)
    ensures var step := Forward(s, now);
            && Enabled(cfg, s, step) && Internal(step)
            && ValidTarget(Do(cfg, s, step), target)
            && Nearer(Distance(Do(cfg, s, step), target), Distance(s, target))
  {
    var step := Forward(s, now);
    assert |s.owners| == |cfg.limits| && RequestsOK(cfg, s);
    hide Invariant;
    hide RequestsOK;
    hide Enabled;
    hide Do;
    hide Measure;
    hide Below;
    hide WaitingIds;
    hide Nearer;
    hide Distance;
    hide Advances;
    hide Forward;
    hide Internal;
    hide SameShutdown;
    ForwardKinds(s, now);
    ForwardEnabled(cfg, s, now);
    Descends(cfg, s, step);
    BusyFrame(cfg, s, step);
    SameTargets(s, Do(cfg, s, step), target);
    CommandNearer(s, Do(cfg, s, step), target);
  }

  lemma TakeNearer(cfg: Config, s: State)
    requires Invariant(cfg, s) && s.coordinator == Idle && s.cross != []
    ensures var step := if s.cross[0].Coordinate? then DoTake else DoTakeStop;
            && Enabled(cfg, s, step) && Internal(step)
            && Nearer(Distance(Do(cfg, s, step), Cross), Distance(s, Cross))
  {
    assert |s.owners| == |cfg.limits|;
    hide Invariant;
    if s.cross[0].Coordinate? {
      TakeShape(cfg, s);
    }
    hide Take;
    hide Measure;
    hide OwnerEnabled;
    hide ClientEnabled;
  }

  lemma LocalNearer(cfg: Config, s: State, o: nat, now: i64)
    requires Disciplined(cfg, s) && !s.coordinator.Busy? && o < |s.owners| && s.owners[o].data != []
    ensures var step := OwnerNext(s, o, now);
            && Enabled(cfg, s, step) && Internal(step)
            && ValidTarget(Do(cfg, s, step), Local(o))
            && Nearer(Distance(Do(cfg, s, step), Local(o)), Distance(s, Local(o)))
  {
    var step := OwnerNext(s, o, now);
    assert |s.owners| == |cfg.limits|;
    OwnerNextEnabled(cfg, s, o, now);
    OwnerNextToil(cfg, s, o, now);
    hide Disciplined;
    hide OwnerNext;
    hide Toil;
    OneOwnerMoves(cfg, s, step);
    hide OwnerStep;
    hide OwnerEnabled;
  }

  /** One step of the engine towards the answer of an accepted command. */
  lemma OneNearer(cfg: Config, s: State, id: nat, now: i64) returns (step: Step)
    requires cfg.Valid() && Invariant(cfg, s) && id in s.clients && s.clients[id].Accepted?
    requires ValidTarget(s, s.clients[id].target)
    ensures Enabled(cfg, s, step) && Internal(step) && Invariant(cfg, Do(cfg, s, step))
    ensures var s', target := Do(cfg, s, step), s.clients[id].target;
            && ValidTarget(s', target) && Nearer(Distance(s', target), Distance(s, target))
            && id in s'.clients && (s'.clients[id] == s.clients[id] || s'.clients[id].Answered?)
  {
    var target := s.clients[id].target;
    assert RequestsOK(cfg, s) && Disciplined(cfg, s) && !s.coordinator.Crashed?;
    assert s.coordinator == Finished ==> s.cross == [];
    hide Invariant;
    hide RequestsOK;
    hide Disciplined;
    hide Enabled;
    hide Do;
    hide Internal;
    hide Nearer;
    hide Distance;
    if s.coordinator.Busy? {
      step := Forward(s, now);
      BusyNearer(cfg, s, target, now);
    } else if target == Cross {
      WaitsAtCoordinator(cfg, s, id);
      step := if s.cross[0].Coordinate? then DoTake else DoTakeStop;
      TakeNearer(cfg, s);
    } else {
      WaitsAtOwner(cfg, s, id, target.owner);
      step := OwnerNext(s, target.owner, now);
      LocalNearer(cfg, s, target.owner, now);
    }
    StepInvariant(cfg, s, step);
    StepFollows(cfg, s, step, id);
  }

  lemma {:induction false} Answers(cfg: Config, s: State, id: nat, now: i64)
    returns (states: seq<State>, steps: seq<Step>)
    requires cfg.Valid() && Invariant(cfg, s) && id in s.clients && s.clients[id].Accepted?
    requires ValidTarget(s, s.clients[id].target)
    ensures IsRun(cfg, states, steps) && states[0] == s && forall i :: 0 <= i < |steps| ==> Internal(steps[i])
    ensures id in states[|steps|].clients && states[|steps|].clients[id].Answered?
    decreases Distance(s, s.clients[id].target).queued, Distance(s, s.clients[id].target).command.rounds,
              Distance(s, s.clients[id].target).command.stage, Distance(s, s.clients[id].target).command.work,
              Distance(s, s.clients[id].target).toil
  {
    hide Invariant;
    hide Enabled;
    hide Do;
    hide Internal;
    hide Distance;
    var step := OneNearer(cfg, s, id, now);
    var s' := Do(cfg, s, step);
    if s'.clients[id].Accepted? {
      var states', steps' := Answers(cfg, s', id, now);
      RunPrepend(cfg, s, step, states', steps');
      states, steps := [s] + states', [step] + steps';
    } else {
      states, steps := [s, s'], [step];
    }
  }

  /**
   * From every reachable state every accepted command, in whichever queue and behind whatever else,
   * can be brought to its answer by steps of owners, coordinator and shutdown alone.
   */
  lemma AcceptedCanBeAnswered(cfg: Config, s: State, id: nat, now: i64)
    returns (states: seq<State>, steps: seq<Step>)
    requires cfg.Valid() && Reachable(cfg, s) && id in s.clients && s.clients[id].Accepted?
    ensures IsRun(cfg, states, steps) && states[0] == s && forall i :: 0 <= i < |steps| ==> Internal(steps[i])
    ensures id in states[|steps|].clients && states[|steps|].clients[id].Answered?
  {
    ReachableInvariant(cfg, s);
    hide Reachable;
    assert RequestsOK(cfg, s);
    hide Invariant;
    hide RequestsOK;
    if s.clients[id].target.Local? {
      WaitsAtOwner(cfg, s, id, s.clients[id].target.owner);
    }
    states, steps := Answers(cfg, s, id, now);
  }
}
