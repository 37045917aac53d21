/** What happens to a client: accepted work is answered and nothing else, and an outcome is final. */
module Delivery {
  import opened Bytes
  import opened Coordination
  import opened Credits
  import opened Discipline
  import opened Engine
  import opened History
  import opened Machine
  import opened Requests
  import opened Sequential
  import opened Tables

  predicate Settles(c: Client) {
    c.Answered? || c.Refused? || c.Gone?
  }

  /** An outcome is final; accepted work stays accepted until it is answered. */
  predicate Follows(c: Client, c': Client) {
    && (Settles(c) ==> c' == c)
    && (c.Accepted? ==> c' == c || c'.Answered?)
  }

  lemma RunHeadFollows(cfg: Config, s: State, o: nat, now: i64, id: nat)
    requires o < |s.owners| == |cfg.limits| && s.owners[o].data != [] && id in s.clients
    requires QueueOK(s.clients, Local(o), s.owners[o].data)
    ensures var s' := RunHead(cfg, s, o, now); id in s'.clients && Follows(s.clients[id], s'.clients[id])
  {
    RunHeadClients(cfg, s, o, now);
    hide RunHead;
  }

  lemma OwnerStepFollows(cfg: Config, s: State, step: Step, id: nat)
    requires RequestsOK(cfg, s) && IsOwnerStep(step) && OwnerEnabled(cfg, s, step) && id in s.clients
    ensures var s' := OwnerStep(cfg, s, step); id in s'.clients && Follows(s.clients[id], s'.clients[id])
  {
    var o := step.o;
    assert QueueOK(s.clients, Local(o), s.owners[o].data);
    hide RequestsOK;
    hide QueueOK;
    hide RunHead;
    hide Sweep;
    hide Handle;
    if step.DoTurn? {
      var middle := SetOwner(s, o, TurnTaken(s.owners[o]));
      if middle.owners[o].data != [] {
        RunHeadFollows(cfg, middle, o, step.now, id);
      }
    } else if step.DoData? {
      RunHeadFollows(cfg, SetOwner(s, o, s.owners[o].(at := Top)), o, step.now, id);
    }
  }

  lemma ClientStepFollows(cfg: Config, s: State, step: Step, id: nat)
    requires IsClientStep(step) && ClientEnabled(cfg, s, step) && id in s.clients
    ensures var s' := ClientStep(cfg, s, step); id in s'.clients && Follows(s.clients[id], s'.clients[id])
  {
    hide TargetOf;
    hide Charge;
    hide FreeAt;
    if step.DoTimeOut? || step.DoAbandon? || step.DoRefuseClosed? {
      assert ReturnCredit(s, step.id).clients == s.clients;
      hide ReturnCredit;
    }
  }

  lemma CoordinatorStepFollows(cfg: Config, s: State, step: Step, id: nat)
    requires RequestsOK(cfg, s) && id in s.clients
    requires !IsOwnerStep(step) && !IsClientStep(step) && CoordinatorEnabled(cfg, s, step)
    ensures var s' := CoordinatorStep(cfg, s, step); id in s'.clients && Follows(s.clients[id], s'.clients[id])
  {
    if step.DoComplete? {
      ActiveAccepted(cfg, s);
    } else {
      SameClients(cfg, s, step);
      hide CoordinatorStep;
    }
    hide RequestsOK;
    hide CoordinatorEnabled;
  }

  lemma ActiveAccepted(cfg: Config, s: State)
    requires RequestsOK(cfg, s) && s.coordinator.Busy?
    ensures var id := s.coordinator.request.id; id in s.clients && s.clients[id].Accepted?
  {
    assert CrossQueue(s)[0] == s.coordinator.request;
    assert QueueOK(s.clients, Cross, CrossQueue(s));
    hide CrossRequests;
  }

  lemma TakenClients(cfg: Config, s: State)
    requires s.cross != [] && s.cross[0].Coordinate?
    ensures Take(cfg, s).clients == s.clients
  {
    TakeShape(cfg, s);
    hide Take;
  }

  lemma SameClients(cfg: Config, s: State, step: Step)
    requires !IsOwnerStep(step) && !IsClientStep(step) && CoordinatorEnabled(cfg, s, step) && !step.DoComplete?
    ensures CoordinatorStep(cfg, s, step).clients == s.clients
  {
    hide SendControl;
    hide Take;
    hide Received;
    hide Whole;
    if step.DoSend? {
      SentShape(s);
    } else if step.DoTake? {
      TakenClients(cfg, s);
    }
    hide CoordinatorEnabled;
  }

  lemma StepFollows(cfg: Config, s: State, step: Step, id: nat)
    requires Invariant(cfg, s) && Enabled(cfg, s, step) && id in s.clients
    ensures var s' := Do(cfg, s, step); id in s'.clients && Follows(s.clients[id], s'.clients[id])
  {
    assert RequestsOK(cfg, s);
    hide Invariant;
    hide RequestsOK;
    hide OwnerStep;
    hide ClientStep;
    hide CoordinatorStep;
    if IsOwnerStep(step) {
      OwnerStepFollows(cfg, s, step, id);
    } else if IsClientStep(step) {
      ClientStepFollows(cfg, s, step, id);
    } else {
      CoordinatorStepFollows(cfg, s, step, id);
    }
  }

  /** Along a run an outcome never changes, and accepted work is never refused or dropped. */
  lemma {:induction false} RunFollows(cfg: Config, states: seq<State>, steps: seq<Step>, i: nat, j: nat, id: nat)
    requires cfg.Valid() && IsHistory(cfg, states, steps) && i <= j < |states| && id in states[i].clients
    ensures id in states[j].clients && Follows(states[i].clients[id], states[j].clients[id])
    decreases j
  {
    hide IsHistory;
    hide Invariant;
    hide Enabled;
    hide Do;
    if i < j {
      RunFollows(cfg, states, steps, i, j - 1, id);
      RunInvariant(cfg, states, steps, j - 1);
      RunStep(cfg, states, steps, j - 1);
      StepFollows(cfg, states[j - 1], steps[j - 1], id);
    }
  }

  /** A client turned away with a busy reply never has its command in the history, then or later. */
  lemma RefusedNeverRuns(cfg: Config, states: seq<State>, steps: seq<Step>, i: nat, j: nat, id: nat, p: nat)
    requires cfg.Valid() && IsHistory(cfg, states, steps) && i <= j < |states|
    requires id in states[i].clients && states[i].clients[id].Refused?
    requires p < |states[j].log| && states[j].log[p].Ran?
    ensures states[j].log[p].id != id
  {
    hide IsHistory;
    RunFollows(cfg, states, steps, i, j, id);
    RunInvariant(cfg, states, steps, j);
    var s := states[j];
    assert Lives(cfg, s);
    hide Invariant;
    var who := s.log[p].id;
    Position(s.log, p, who);
    assert LifeOK(ClientAt(s.clients, who), PlacedAt(InFlight(cfg, s.coordinator), who), who, About(s.log, who));
    hide About;
    hide InFlight;
  }

  // ---------- shutdown ----------

  /** Owners stop only when closed and empty, and only after the coordinator has finished every accepted command. */
  lemma ExitedIsDrained(cfg: Config, s: State, o: nat)
    requires Invariant(cfg, s) && o < |s.owners| && s.owners[o].at == Exited
    ensures s.owners[o].dataClosed && s.owners[o].data == [] && s.owners[o].reservation == None
    ensures s.coordinator == Finished && (s.crossClosed || s.dropped) && CrossQueue(s) == []
  {
    assert OwnerOK(s.coordinator, s.stops, o, s.owners[o]);
  }

  lemma EmptyQueue(clients: map<nat, Client>, target: Target, q: seq<Request>)
    requires QueueOK(clients, target, q) && q == []
    ensures forall id :: id in clients && clients[id].Accepted? ==> clients[id].target != target
  {
  }

  /** When every owner has stopped no accepted command is left unanswered. */
  lemma DrainedAtEnd(cfg: Config, s: State)
    requires cfg.Valid() && Invariant(cfg, s)
    requires forall o :: 0 <= o < |s.owners| ==> s.owners[o].at == Exited
    ensures forall id :: id in s.clients ==> !s.clients[id].Accepted?
  {
    assert RequestsOK(cfg, s);
    ExitedIsDrained(cfg, s, 0);
    EmptyQueue(s.clients, Cross, CrossQueue(s));
    forall o | 0 <= o < |s.owners|
      ensures forall id :: id in s.clients && s.clients[id].Accepted? ==> s.clients[id].target != Local(o)
    {
      ExitedIsDrained(cfg, s, o);
      EmptyQueue(s.clients, Local(o), s.owners[o].data);
    }
    hide Invariant;
    hide QueueOK;
    forall id | id in s.clients && s.clients[id].Accepted?
      ensures s.clients[id].target.Local? ==> s.clients[id].target.owner < |s.owners|
    {
      assert ClientOK(cfg, s.clients[id]);
      TargetInRange(cfg, s.clients[id].op);
    }
  }

  /** What a stopping owner still has to do. */
  function LeftToDo(w: Owner): nat {
    if w.at == Exited then 0 else 1 + 2 * |w.data| + if w.at == Top then 1 else 0
  }

  function DrainStep(w: Owner, o: nat, now: i64): Step {
    if w.at == Top then DoTurn(o, now) else if w.data != [] then DoData(o, now) else DoExit(o)
  }

  lemma DataDrains(cfg: Config, s: State, o: nat, now: i64)
    requires o < |s.owners| == |cfg.limits| && s.owners[o].at == Selecting && s.owners[o].data != []
    ensures var s' := RunHead(cfg, SetOwner(s, o, s.owners[o].(at := Top)), o, now);
            o < |s'.owners| && LeftToDo(s'.owners[o]) < LeftToDo(s.owners[o])
  {
    DataEffect(cfg, s, o, now);
    hide RunHead;
  }

  /** A stopping owner always has a step of its own, which leaves it less to do. */
  lemma StoppingOwnerMoves(cfg: Config, s: State, o: nat, now: i64)
    requires Invariant(cfg, s) && o < |s.owners| && s.owners[o].stopping && s.owners[o].at != Exited
    ensures var step := DrainStep(s.owners[o], o, now);
            && Enabled(cfg, s, step)
            && o < |Do(cfg, s, step).owners|
            && LeftToDo(Do(cfg, s, step).owners[o]) < LeftToDo(s.owners[o])
  {
    assert Disciplined(cfg, s) && |s.owners| == |cfg.limits|;
    assert OwnerOK(s.coordinator, s.stops, o, s.owners[o]);
    hide Invariant;
    hide Disciplined;
    var w := s.owners[o];
    assert w.reservation == None && (w.at == Top || w.at == Selecting) && w.dataClosed;
    hide OwnerOK;
    hide RunHead;
    hide OwnerTurn;
    hide OwnerControl;
    hide OwnerTick;
    hide ClientStep;
    hide CoordinatorStep;
    hide Sweep;
    hide ClientEnabled;
    hide CoordinatorEnabled;
    var step := DrainStep(w, o, now);
    assert OwnerEnabled(cfg, s, step) && IsOwnerStep(step);
    if w.at == Top {
      TurnDrains(cfg, s, o, now);
    } else if w.data != [] {
      DataDrains(cfg, s, o, now);
    }
    hide OwnerEnabled;
  }

  lemma TurnDrains(cfg: Config, s: State, o: nat, now: i64)
    requires o < |s.owners| == |cfg.limits| && s.owners[o].at == Top
    ensures o < |OwnerTurn(cfg, s, o, now).owners|
    ensures LeftToDo(OwnerTurn(cfg, s, o, now).owners[o]) < LeftToDo(s.owners[o])
  {
    TurnEffect(cfg, s, o, now);
    hide OwnerTurn;
  }
}
