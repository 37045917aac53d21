/** Ending drains: a shut-down or dropped engine comes to rest, with nothing accepted left over. */
module Shutdown {
  import opened Atomicity
  import opened Bytes
  import opened Coordination
  import opened Credits
  import opened Delivery
  import opened Discipline
  import opened Engine
  import opened Machine
  import opened Progress
  import opened Requests
  import opened Sequential
  import opened Sharding
  import opened Tables
  import R = Replies

  // ---------- the stop request is not lost ----------

  predicate StopWaits(s: State) {
    s.stopRequested ==> s.crossClosed || StopRequest in s.cross
  }

  lemma StopStays(cross: seq<CrossRequest>)
    requires cross != [] && cross[0].Coordinate? && StopRequest in cross
    ensures StopRequest in cross[1..]
  {
    var i :| 0 <= i < |cross| && cross[i] == StopRequest;
    assert cross[1..][i - 1] == StopRequest;
  }

  /** The step leaves the coordinator's queue and the shutdown flags alone. */
  predicate SameShutdown(s: State, s': State) {
    && s'.cross == s.cross && s'.crossClosed == s.crossClosed && s'.stopRequested == s.stopRequested
    && s'.stops == s.stops && s'.closing == s.closing && s'.dropped == s.dropped && |s'.owners| == |s.owners|
  }

  lemma OwnerSameShutdown(cfg: Config, s: State, step: Step)
    requires |s.owners| == |cfg.limits| && IsOwnerStep(step) && OwnerEnabled(cfg, s, step)
    ensures SameShutdown(s, OwnerStep(cfg, s, step))
  {
    if step.DoTurn? {
      TurnEffect(cfg, s, step.o, step.now);
    } else if step.DoData? {
      DataEffect(cfg, s, step.o, step.now);
    }
    hide OwnerTurn;
    hide RunHead;
    hide Sweep;
    hide Handle;
    hide Aside;
  }

  lemma ClientStopWaits(cfg: Config, s: State, step: Step)
    requires StopWaits(s) && IsClientStep(step) && ClientEnabled(cfg, s, step)
    ensures StopWaits(ClientStep(cfg, s, step))
  {
    hide TargetOf;
    hide Charge;
    hide FreeAt;
    if step.DoTimeOut? || step.DoAbandon? || step.DoRefuseClosed? {
      ReturnSameShutdown(s, step.id);
      hide ReturnCredit;
    }
  }

  lemma ReturnSameShutdown(s: State, id: nat)
    requires id in s.clients && (s.clients[id].WaitingCredit? || s.clients[id].WaitingQueue?)
    requires ValidTarget(s, s.clients[id].target)
    ensures SameShutdown(s, ReturnCredit(s, id))
  {
  }

  lemma CoordinatorStopWaits(cfg: Config, s: State, step: Step)
    requires StopWaits(s) && !IsOwnerStep(step) && !IsClientStep(step) && CoordinatorEnabled(cfg, s, step)
    ensures StopWaits(CoordinatorStep(cfg, s, step))
  {
    hide Take;
    hide SendControl;
    hide Received;
    hide Whole;
    if step.DoTake? {
      TakeShape(cfg, s);
      if StopRequest in s.cross {
        StopStays(s.cross);
      }
    } else if step.DoSend? {
      SentShape(s);
    }
    hide CoordinatorEnabled;
  }

  lemma StepStopWaits(cfg: Config, s: State, step: Step)
    requires StopWaits(s) && Enabled(cfg, s, step)
    ensures StopWaits(Do(cfg, s, step))
  {
    hide OwnerStep;
    hide ClientStep;
    hide CoordinatorStep;
    if IsOwnerStep(step) {
      OwnerSameShutdown(cfg, s, step);
    } else if IsClientStep(step) {
      ClientStopWaits(cfg, s, step);
    } else {
      CoordinatorStopWaits(cfg, s, step);
    }
  }

  lemma {:induction false} RunStopWaits(cfg: Config, states: seq<State>, steps: seq<Step>, i: nat)
    requires IsHistory(cfg, states, steps) && i < |states|
    ensures StopWaits(states[i])
    decreases i
  {
    hide Enabled;
    hide Do;
    hide StopWaits;
    if i == 0 {
      assert StopWaits(Initial(cfg)) by {
        InitialStopWaits(cfg);
      }
    } else {
      RunStopWaits(cfg, states, steps, i - 1);
      StepStopWaits(cfg, states[i - 1], steps[i - 1]);
    }
  }

  lemma InitialStopWaits(cfg: Config)
    ensures StopWaits(Initial(cfg))
  {
  }

  // ---------- one owner ----------

  /** What an owner has to do until it has stopped: first to be told, then to drain. */
  function Toil(w: Owner): nat {
    LeftToDo(w) + if w.stopping then 0 else 2 + 2 * Ahead(w.control)
  }

  lemma TurnToil(cfg: Config, s: State, o: nat, now: i64)
    requires o < |s.owners| == |cfg.limits| && s.owners[o].at == Top
    ensures o < |OwnerTurn(cfg, s, o, now).owners|
    ensures Toil(OwnerTurn(cfg, s, o, now).owners[o]) < Toil(s.owners[o])
  {
    TurnDrains(cfg, s, o, now);
    TurnEffect(cfg, s, o, now);
    hide OwnerTurn;
    hide LeftToDo;
    hide Ahead;
  }

  lemma DataToil(cfg: Config, s: State, o: nat, now: i64)
    requires o < |s.owners| == |cfg.limits| && s.owners[o].at == Selecting && s.owners[o].data != []
    ensures var s' := RunHead(cfg, SetOwner(s, o, s.owners[o].(at := Top)), o, now);
            o < |s'.owners| && Toil(s'.owners[o]) < Toil(s.owners[o])
  {
    DataDrains(cfg, s, o, now);
    DataEffect(cfg, s, o, now);
    hide RunHead;
    hide LeftToDo;
    hide Ahead;
  }

  lemma MessageToil(limits: ShardLimits, w: Owner)
    requires w.control != [] && w.at == Selecting && !w.stopping
    requires w.control[0] == StatsQuery || (w.control[0] == Stop && w.reservation == None)
    ensures Toil(Handle(limits, w.(control := w.control[1..]), w.control[0]).0) < Toil(w)
  {
    if w.control[0] == StatsQuery {
      AheadPop(w.control);
    }
    hide Ahead;
  }

  lemma ControlOwner(cfg: Config, s: State, o: nat)
    requires o < |s.owners| == |cfg.limits| && s.owners[o].control != []
    ensures var w, s' := s.owners[o], OwnerControl(cfg, s, o);
            && |s'.owners| == |s.owners|
            && s'.owners[o] == Handle(cfg.limits[o], w.(control := w.control[1..]), w.control[0]).0
            && forall p :: 0 <= p < |s.owners| && p != o ==> s'.owners[p] == s.owners[p]
  {
    hide Handle;
  }

  /** Every owner has been told to stop, one way or the other. */
  predicate AllAsked(s: State) {
    s.coordinator == Finished && (s.dropped || s.stops == |s.owners|)
  }

  /** What waits at an owner that has been told to stop. */
  lemma AskedOwner(cfg: Config, s: State, o: nat)
    requires Disciplined(cfg, s) && AllAsked(s) && o < |s.owners|
    ensures var w := s.owners[o];
            && w.reservation == None && w.at != Panicked
            && (w.stopping ==> w.dataClosed)
            && (w.control != [] && !w.stopping ==> w.control[0] == StatsQuery || w.control[0] == Stop)
            && (!w.stopping ==> w.at != Exited && (s.dropped || Ahead(w.control) < |w.control|))
  {
    var w := s.owners[o];
    assert OwnerOK(Finished, s.stops, o, w);
    if w.control != [] && !w.stopping {
      OldestMessage(Finished, s.stops, o, w);
    }
    hide Relevant;
    hide CoordinatorOK;
    if !s.dropped && !w.stopping && Ahead(w.control) == |w.control| {
      NothingAhead(w.control);
    }
  }

  lemma AheadDropAny(control: seq<Control>, i: nat)
    requires i < |control| && control[i] == StatsQuery
    ensures Ahead(control[..i] + control[i + 1..]) <= Ahead(control)
  {
    if Ahead(control) < |control| {
      AheadDrop(control, i);
    }
  }

  lemma AsideToil(w: Owner, step: Step)
    requires IsAside(step) && w.reservation == None && (w.at == Exited ==> w.stopping)
    requires step.DoControlClosed? || step.DoExit? ==> w.at == Selecting
    requires step.DoAskStats? && !w.stopping ==> Ahead(w.control) < |w.control|
    requires step.DoDropStats? ==> step.i < |w.control| && w.control[step.i] == StatsQuery
    requires step.DoControlClosed? ==> !w.stopping
    ensures Toil(Aside(w, step)) <= Toil(w)
    ensures step.DoExit? || step.DoControlClosed? ==> Toil(Aside(w, step)) < Toil(w)
  {
    if step.DoAskStats? {
      if !w.stopping {
        AheadPush(w.control, StatsQuery);
      }
    } else if step.DoDropStats? {
      AheadDropAny(w.control, step.i);
    }
    hide Ahead;
  }

  lemma EnabledAside(cfg: Config, s: State, step: Step)
    requires |s.owners| == |cfg.limits| && IsAside(step) && OwnerEnabled(cfg, s, step)
    ensures var w := s.owners[step.o];
            && (step.DoAskStats? ==> w.at != Exited && !s.dropped)
            && (step.DoDropStats? ==> step.i < |w.control| && w.control[step.i] == StatsQuery)
            && (step.DoControlClosed? ==> !w.stopping && w.at == Selecting)
            && (step.DoExit? ==> w.at == Selecting)
  {
  }

  /** The steps that bring an owner closer to having stopped. */
  predicate Leaves(step: Step) {
    step.DoTurn? || step.DoControl? || step.DoData? || step.DoExit? || step.DoControlClosed?
  }

  /** Once told to stop, an owner never has more to do, and its own steps leave it less. */
  lemma OwnerToil(cfg: Config, s: State, step: Step)
    requires Disciplined(cfg, s) && AllAsked(s) && IsOwnerStep(step) && OwnerEnabled(cfg, s, step)
    ensures step.o < |OwnerStep(cfg, s, step).owners|
    ensures Toil(OwnerStep(cfg, s, step).owners[step.o]) <= Toil(s.owners[step.o])
    ensures Leaves(step) ==> Toil(OwnerStep(cfg, s, step).owners[step.o]) < Toil(s.owners[step.o])
  {
    var o := step.o;
    AskedOwner(cfg, s, o);
    assert |s.owners| == |cfg.limits|;
    hide Disciplined;
    hide Toil;
    hide OwnerTurn;
    hide OwnerControl;
    hide RunHead;
    hide Sweep;
    hide Aside;
    if step.DoTurn? {
      TurnToil(cfg, s, o, step.now);
    } else if step.DoControl? {
      MessageToil(cfg.limits[o], s.owners[o]);
      ControlOwner(cfg, s, o);
    } else if step.DoData? {
      DataToil(cfg, s, o, step.now);
    } else if IsAside(step) {
      EnabledAside(cfg, s, step);
      AsideToil(s.owners[o], step);
    }
  }

  lemma OneOwnerMoves(cfg: Config, s: State, step: Step)
    requires |s.owners| == |cfg.limits| && IsOwnerStep(step) && OwnerEnabled(cfg, s, step) && !s.coordinator.Busy?
    ensures var s' := OwnerStep(cfg, s, step);
            && s'.coordinator == s.coordinator && |s'.owners| == |s.owners|
            && forall p :: 0 <= p < |s.owners| && p != step.o ==> s'.owners[p] == s.owners[p]
  {
    if step.DoControl? {
      ControlOwner(cfg, s, step.o);
      hide Handle;
    } else {
      OtherOwnerStep(cfg, s, step);
      hide OwnerStep;
    }
  }

  // ---------- the whole engine ----------

  function WaitingIds(clients: map<nat, Client>): set<nat> {
    set id | id in clients && Waiting(clients[id])
  }

  function Unasked(s: State): nat {
    if s.closing && !s.stopRequested then 1 else 0
  }

  function Unsent(s: State): nat {
    if s.closing && s.stops <= |s.owners| then |s.owners| - s.stops else 0
  }

  ghost function ToilAt(s: State): nat -> nat {
    (o: nat) => if o < |s.owners| then Toil(s.owners[o]) else 0
  }

  ghost function TotalToil(s: State): nat {
    if AllAsked(s) then SumTo(|s.owners|, ToilAt(s)) else 0
  }

  /** What is left until the engine is at rest, in the order it has to happen. */
  datatype Left = Left(
    pending: nat, unasked: nat, finishing: nat, waiting: nat, command: Rank, unsent: nat, toil: nat)

  ghost function LeftOver(s: State): Left {
    Left(|WaitingIds(s.clients)|, Unasked(s), if s.coordinator == Finished then 0 else 1, |s.cross|, Measure(s),
         Unsent(s), TotalToil(s))
  }

  predicate Fewer(a: Left, b: Left) {
    || a.pending < b.pending
    || (a.pending == b.pending && a.unasked < b.unasked)
    || (a.pending == b.pending && a.unasked == b.unasked && a.finishing < b.finishing)
    || (a.pending == b.pending && a.unasked == b.unasked && a.finishing == b.finishing && a.waiting < b.waiting)
    || (a.pending == b.pending && a.unasked == b.unasked && a.finishing == b.finishing && a.waiting == b.waiting
        && (Below(a.command, b.command)
            || (a.command == b.command && (a.unsent < b.unsent || (a.unsent == b.unsent && a.toil < b.toil)))))
  }

  /** A reachable state from which the engine is to come to rest. */
  ghost predicate Ending(cfg: Config, s: State) {
    Invariant(cfg, s) && StopWaits(s) && (s.closing || s.dropped)
  }

  lemma ReachableEnding(cfg: Config, s: State)
    requires cfg.Valid() && Reachable(cfg, s) && (s.closing || s.dropped)
    ensures Ending(cfg, s)
  {
    var states, steps :| IsHistory(cfg, states, steps) && states[|steps|] == s;
    hide IsHistory;
    hide Invariant;
    hide StopWaits;
    RunInvariant(cfg, states, steps, |steps|);
    RunStopWaits(cfg, states, steps, |steps|);
  }

  /** The steps that carry an ending engine on. */
  predicate Carries(s: State, step: Step) {
    || step.DoCrossStop? || step.DoTake? || step.DoTakeStop? || step.DoFinish? || step.DoOwnerStop?
    || (s.coordinator.Busy? && Advances(s, step))
    || (AllAsked(s) && Leaves(step))
  }

  lemma SameWaiting(clients: map<nat, Client>, id: nat, c: Client)
    ensures !Waiting(c) ==> WaitingIds(clients[id := c]) == WaitingIds(clients) - {id}
    ensures id in clients && Waiting(clients[id]) && Waiting(c) ==> WaitingIds(clients[id := c]) == WaitingIds(clients)
    ensures id !in clients || !Waiting(clients[id]) ==> id !in WaitingIds(clients)
    ensures id in clients && Waiting(clients[id]) ==> id in WaitingIds(clients)
  {
  }

  // ---------- owners' steps ----------

  lemma OwnerWaiting(cfg: Config, s: State, step: Step)
    requires RequestsOK(cfg, s) && IsOwnerStep(step) && OwnerEnabled(cfg, s, step)
    ensures WaitingIds(OwnerStep(cfg, s, step).clients) == WaitingIds(s.clients)
  {
    var o := step.o;
    assert QueueOK(s.clients, Local(o), s.owners[o].data);
    hide RequestsOK;
    hide WaitingIds;
    hide RunHead;
    hide Sweep;
    hide Handle;
    if (step.DoTurn? || step.DoData?) && s.owners[o].data != [] {
      var id := s.owners[o].data[0].id;
      SameWaiting(s.clients, id, s.clients[id]);
      HeadWaiting(cfg, s, step);
    }
  }

  lemma HeadWaiting(cfg: Config, s: State, step: Step)
    requires |s.owners| == |cfg.limits| && (step.DoTurn? || step.DoData?) && OwnerEnabled(cfg, s, step)
    requires var data := s.owners[step.o].data; data != [] && data[0].id in s.clients && !Waiting(s.clients[data[0].id])
    ensures WaitingIds(OwnerStep(cfg, s, step).clients) == WaitingIds(s.clients)
  {
    var o := step.o;
    var middle := SetOwner(s, o, if step.DoTurn? then TurnTaken(s.owners[o]) else s.owners[o].(at := Top));
    RunHeadAnswers(cfg, middle, o, step.now);
    hide RunHead;
    hide OwnerEnabled;
    hide WaitingIds;
  }

  lemma RunHeadAnswers(cfg: Config, s: State, o: nat, now: i64)
    requires o < |s.owners| == |cfg.limits| && s.owners[o].data != []
    requires var id := s.owners[o].data[0].id; id in s.clients && !Waiting(s.clients[id])
    ensures WaitingIds(RunHead(cfg, s, o, now).clients) == WaitingIds(s.clients)
  {
    var id, s' := s.owners[o].data[0].id, RunHead(cfg, s, o, now);
    RunHeadClients(cfg, s, o, now);
    hide RunHead;
    SameWaiting(s.clients, id, s'.clients[id]);
    hide WaitingIds;
  }

  /** When every owner has been told to stop, an owner's step leaves all of them together no more to do. */
  lemma SumToil(cfg: Config, s: State, step: Step)
    requires Disciplined(cfg, s) && AllAsked(s) && IsOwnerStep(step) && OwnerEnabled(cfg, s, step)
    ensures var s' := OwnerStep(cfg, s, step);
            && |s'.owners| == |s.owners|
            && SumTo(|s.owners|, ToilAt(s')) <= SumTo(|s.owners|, ToilAt(s))
            && (Leaves(step) ==> SumTo(|s.owners|, ToilAt(s')) < SumTo(|s.owners|, ToilAt(s)))
  {
    var s' := OwnerStep(cfg, s, step);
    assert |s.owners| == |cfg.limits|;
    hide Disciplined;
    hide OwnerStep;
    hide OwnerEnabled;
    hide Toil;
    hide ToilAt;
    hide SumTo;
    OwnerToil(cfg, s, step);
    OneOwnerMoves(cfg, s, step);
    OneToils(s, s', step.o);
  }

  lemma OneToils(s: State, s': State, o: nat)
    requires o < |s.owners| == |s'.owners| && Toil(s'.owners[o]) <= Toil(s.owners[o])
    requires forall p :: 0 <= p < |s.owners| && p != o ==> s'.owners[p] == s.owners[p]
    ensures SumTo(|s.owners|, ToilAt(s')) <= SumTo(|s.owners|, ToilAt(s))
    ensures Toil(s'.owners[o]) < Toil(s.owners[o]) ==> SumTo(|s.owners|, ToilAt(s')) < SumTo(|s.owners|, ToilAt(s))
  {
    hide Toil;
    SumToSame(|s.owners|, ToilAt(s'), ToilAt(s));
    if Toil(s'.owners[o]) < Toil(s.owners[o]) {
      LessToil(|s.owners|, ToilAt(s), ToilAt(s'), o);
    }
  }

  /** Owners' steps while the coordinator holds no command. */
  lemma IdleToil(cfg: Config, s: State, step: Step)
    requires Disciplined(cfg, s) && !s.coordinator.Busy? && IsOwnerStep(step) && OwnerEnabled(cfg, s, step)
    ensures var s' := OwnerStep(cfg, s, step);
            && s'.coordinator == s.coordinator && SameShutdown(s, s')
            && TotalToil(s') <= TotalToil(s)
            && (AllAsked(s) && Leaves(step) ==> TotalToil(s') < TotalToil(s))
  {
    assert |s.owners| == |cfg.limits|;
    OwnerSameShutdown(cfg, s, step);
    OneOwnerMoves(cfg, s, step);
    if AllAsked(s) {
      SumToil(cfg, s, step);
    }
    hide Disciplined;
    hide OwnerStep;
    hide OwnerEnabled;
    hide ToilAt;
  }

  /** Everything but the last two components is as before. */
  lemma LastComponents(s: State, s': State)
    requires WaitingIds(s'.clients) == WaitingIds(s.clients) && s'.coordinator == s.coordinator && SameShutdown(s, s')
    requires !s.coordinator.Busy? && TotalToil(s') <= TotalToil(s)
    ensures LeftOver(s') == LeftOver(s) || Fewer(LeftOver(s'), LeftOver(s))
    ensures TotalToil(s') < TotalToil(s) ==> Fewer(LeftOver(s'), LeftOver(s))
  {
    hide WaitingIds;
    hide TotalToil;
  }

  lemma IdleOwnerStep(cfg: Config, s: State, step: Step)
    requires Ending(cfg, s) && !s.coordinator.Busy? && IsOwnerStep(step) && OwnerEnabled(cfg, s, step)
    ensures var s' := OwnerStep(cfg, s, step);
            && (LeftOver(s') == LeftOver(s) || Fewer(LeftOver(s'), LeftOver(s)))
            && (Carries(s, step) ==> Fewer(LeftOver(s'), LeftOver(s)))
  {
    EndingParts(cfg, s);
    hide Ending;
    hide Disciplined;
    hide RequestsOK;
    hide OwnerStep;
    hide OwnerEnabled;
    hide WaitingIds;
    hide TotalToil;
    hide LeftOver;
    hide Fewer;
    hide AllAsked;
    hide SameShutdown;
    OwnerWaiting(cfg, s, step);
    IdleToil(cfg, s, step);
    LastComponents(s, OwnerStep(cfg, s, step));
  }

  lemma EndingParts(cfg: Config, s: State)
    requires Ending(cfg, s)
    ensures Disciplined(cfg, s) && RequestsOK(cfg, s) && |s.owners| == |cfg.limits|
  {
    hide RequestsOK;
    assert RequestsOK(cfg, s);
  }

  lemma {:induction false} LessToil(n: nat, f: nat -> nat, g: nat -> nat, o: nat)
    requires o < n && g(o) < f(o) && forall p: nat :: p < n && p != o ==> g(p) == f(p)
    ensures SumTo(n, g) < SumTo(n, f)
  {
    if o < n - 1 {
      LessToil(n - 1, f, g, o);
    } else {
      SumToSame(n - 1, f, g);
    }
  }

  // ---------- steps while a command is in flight ----------

  lemma NotFinished(cfg: Config, c: Coordinator)
    requires c.Busy? && c.ack.Some?
    ensures Received(cfg, c) != Finished
  {
    hide Combinable;
    hide Combined;
    hide TooLong;
  }

  lemma ForwardFrame(cfg: Config, s: State, step: Step)
    requires |s.owners| == |cfg.limits| && CoordinatorEnabled(cfg, s, step) && s.coordinator.Busy?
    requires step.DoSend? || step.DoReceive? || step.DoSample? || step.DoComplete?
    ensures SameShutdown(s, CoordinatorStep(cfg, s, step)) && CoordinatorStep(cfg, s, step).coordinator != Finished
    ensures !step.DoComplete? ==> CoordinatorStep(cfg, s, step).clients == s.clients
    ensures step.DoComplete? ==>
              CoordinatorStep(cfg, s, step).clients ==
              s.clients[s.coordinator.request.id := Answered(s.coordinator.reply)]
  {
    if step.DoSend? {
      SentOwners(s);
      SentFrame(s);
    } else if step.DoReceive? {
      NotFinished(cfg, s.coordinator);
    }
    hide SendControl;
    hide Received;
    hide Whole;
  }

  lemma SentFrame(s: State)
    requires s.coordinator.Busy? && s.coordinator.next < |s.coordinator.shares| && s.coordinator.phase != Sampling
    requires s.coordinator.shares[s.coordinator.next].owner < |s.owners|
    ensures SameShutdown(s, SendControl(s)) && SendControl(s).clients == s.clients
  {
    hide SendControl;
    SentShape(s);
  }

  /** Answering the coordinated command leaves those still waiting for admission alone. */
  lemma ActiveNotWaiting(cfg: Config, s: State)
    requires RequestsOK(cfg, s) && s.coordinator.Busy?
    ensures var id, reply := s.coordinator.request.id, s.coordinator.reply;
            WaitingIds(s.clients[id := Answered(reply)]) == WaitingIds(s.clients)
  {
    var id := s.coordinator.request.id;
    assert CrossQueue(s)[0] == s.coordinator.request;
    assert QueueOK(s.clients, Cross, CrossQueue(s));
    SameWaiting(s.clients, id, Answered(s.coordinator.reply));
    hide WaitingIds;
    hide RequestsOK;
    hide CrossRequests;
  }

  lemma BusyComponents(s: State, s': State)
    requires WaitingIds(s'.clients) == WaitingIds(s.clients) && SameShutdown(s, s')
    requires s.coordinator != Finished && s'.coordinator != Finished
    requires Measure(s') == Measure(s) || Below(Measure(s'), Measure(s))
    ensures LeftOver(s') == LeftOver(s) || Fewer(LeftOver(s'), LeftOver(s))
    ensures Below(Measure(s'), Measure(s)) ==> Fewer(LeftOver(s'), LeftOver(s))
  {
    hide WaitingIds;
    hide Measure;
  }

  lemma BusyFrame(cfg: Config, s: State, step: Step)
    requires |s.owners| == |cfg.limits| && RequestsOK(cfg, s) && s.coordinator.Busy? && Enabled(cfg, s, step)
    requires IsOwnerStep(step) || (!IsClientStep(step) && Advances(s, step))
    ensures var s' := Do(cfg, s, step);
            SameShutdown(s, s') && WaitingIds(s'.clients) == WaitingIds(s.clients) && s'.coordinator != Finished
  {
    hide RequestsOK;
    hide OwnerStep;
    hide CoordinatorStep;
    hide OwnerEnabled;
    hide CoordinatorEnabled;
    hide WaitingIds;
    if IsOwnerStep(step) {
      OwnerWaiting(cfg, s, step);
      OwnerSameShutdown(cfg, s, step);
      OwnerStillBusy(cfg, s, step);
    } else {
      ForwardFrame(cfg, s, step);
      ActiveNotWaiting(cfg, s);
    }
  }

  /** While an ending engine is busy, only the stop request is not part of the command's progress. */
  lemma BusyMeasure(cfg: Config, s: State, step: Step)
    requires cfg.Valid() && Ending(cfg, s) && s.coordinator.Busy? && Enabled(cfg, s, step)
    requires !IsClientStep(step) && !step.DoCrossStop?
    ensures IsOwnerStep(step) || Advances(s, step)
    ensures Measure(Do(cfg, s, step)) == Measure(s) || Below(Measure(Do(cfg, s, step)), Measure(s))
    ensures Carries(s, step) ==> Below(Measure(Do(cfg, s, step)), Measure(s))
  {
    hide Invariant;
    assert Carries(s, step) ==> Advances(s, step);
    hide Measure;
    hide Below;
    hide Carries;
    if Advances(s, step) {
      Descends(cfg, s, step);
    } else {
      NeverRises(cfg, s, step);
    }
    hide Do;
  }

  lemma BusyStep(cfg: Config, s: State, step: Step)
    requires cfg.Valid() && Ending(cfg, s) && s.coordinator.Busy? && Enabled(cfg, s, step)
    requires !IsClientStep(step) && !step.DoCrossStop?
    ensures var s' := Do(cfg, s, step);
            && (LeftOver(s') == LeftOver(s) || Fewer(LeftOver(s'), LeftOver(s)))
            && (Carries(s, step) ==> Fewer(LeftOver(s'), LeftOver(s)))
  {
    assert RequestsOK(cfg, s) && |s.owners| == |cfg.limits|;
    hide Ending;
    hide RequestsOK;
    hide Enabled;
    hide Do;
    hide Advances;
    hide Carries;
    hide SameShutdown;
    hide WaitingIds;
    hide Measure;
    hide LeftOver;
    hide Fewer;
    BusyMeasure(cfg, s, step);
    BusyFrame(cfg, s, step);
    BusyComponents(s, Do(cfg, s, step));
  }

  lemma OwnerStillBusy(cfg: Config, s: State, step: Step)
    requires |s.owners| == |cfg.limits| && IsOwnerStep(step) && OwnerEnabled(cfg, s, step) && s.coordinator.Busy?
    ensures OwnerStep(cfg, s, step).coordinator.Busy?
  {
    if step.DoControl? {
      ControlInFlight(cfg, s, step.o);
      hide OwnerControl;
    } else {
      OtherOwnerStep(cfg, s, step);
      hide OwnerStep;
    }
  }

  // ---------- steps of the coordinator without a command, and of shutdown ----------

  lemma TakeLeft(cfg: Config, s: State, step: Step)
    requires Ending(cfg, s) && CoordinatorEnabled(cfg, s, step)
    requires step.DoTake? || step.DoTakeStop? || step.DoFinish?
    ensures Fewer(LeftOver(CoordinatorStep(cfg, s, step)), LeftOver(s))
  {
    var s' := CoordinatorStep(cfg, s, step);
    assert RequestsOK(cfg, s);
    if step.DoTake? {
      CrossDivisible(cfg, s);
      TakenFrame(cfg, s);
    }
    hide Ending;
    hide RequestsOK;
    hide Take;
    hide WaitingIds;
    hide Measure;
    hide TotalToil;
  }

  lemma TakenFrame(cfg: Config, s: State)
    requires s.cross != [] && s.cross[0].Coordinate? && s.cross[0].request.op.Divisible()
    ensures var s' := Take(cfg, s);
            && s'.clients == s.clients && s'.closing == s.closing && s'.stopRequested == s.stopRequested
            && s'.coordinator != Finished && s'.cross == s.cross[1..]
  {
    TakeShape(cfg, s);
    hide Take;
  }

  lemma SameMeasureIdle(s: State, s': State)
    requires !s.coordinator.Busy? && !s'.coordinator.Busy?
    ensures Measure(s') == Measure(s) == Rank(0, 0, 0)
  {
  }

  lemma AskLeft(cfg: Config, s: State, step: Step)
    requires Ending(cfg, s) && CoordinatorEnabled(cfg, s, step) && (step.DoCrossStop? || step.DoOwnerStop?)
    ensures Fewer(LeftOver(CoordinatorStep(cfg, s, step)), LeftOver(s))
  {
    assert Disciplined(cfg, s) && |s.owners| == |cfg.limits|;
    hide Ending;
    if step.DoCrossStop? {
      CoordinatorRuns(cfg, s);
    } else {
      NextOwnerRuns(cfg, s);
      SameMeasureIdle(s, OwnerStop(s));
      assert s.closing;
    }
    hide Disciplined;
    hide CrossStop;
    hide WaitingIds;
    hide Measure;
    hide TotalToil;
  }

  // ---------- clients ----------

  lemma FewerWaiting(s: State, s': State)
    requires |WaitingIds(s'.clients)| < |WaitingIds(s.clients)|
    ensures Fewer(LeftOver(s'), LeftOver(s))
  {
  }

  /** Leaving admission, into a queue or out of the engine, leaves one client fewer waiting. */
  lemma LeavesAdmission(cfg: Config, s: State, step: Step)
    requires IsClientStep(step) && ClientEnabled(cfg, s, step) && !step.DoBegin? && !step.DoAcquire?
    ensures Fewer(LeftOver(ClientStep(cfg, s, step)), LeftOver(s))
  {
    var s' := ClientStep(cfg, s, step);
    if !step.DoEnqueue? {
      ReturnSameShutdown(s, step.id);
      hide ReturnCredit;
    }
    assert s'.clients == s.clients[step.id := s'.clients[step.id]];
    SameWaiting(s.clients, step.id, s'.clients[step.id]);
    hide ClientStep;
    hide WaitingIds;
    hide LeftOver;
    FewerWaiting(s, s');
  }

  /** A client being refused on arrival, or getting its credit, changes nothing that is left to do. */
  lemma StaysInAdmission(cfg: Config, s: State, step: Step)
    requires Disciplined(cfg, s) && s.closing && ClientEnabled(cfg, s, step) && (step.DoBegin? || step.DoAcquire?)
    ensures var s' := ClientStep(cfg, s, step);
            LeftOver(s') == LeftOver(s) || Fewer(LeftOver(s'), LeftOver(s))
  {
    var s' := ClientStep(cfg, s, step);
    ClientNoWork(cfg, s, step);
    NoMoreMeasure(s, s');
    AdmissionFrame(cfg, s, step);
    hide Disciplined;
    hide ClientStep;
    hide ClientEnabled;
    hide WaitingIds;
    hide Measure;
    hide Toil;
    assert TotalToil(s') == TotalToil(s) by {
      SumToSame(|s.owners|, ToilAt(s'), ToilAt(s));
    }
    hide TotalToil;
  }

  lemma AdmissionFrame(cfg: Config, s: State, step: Step)
    requires s.closing && ClientEnabled(cfg, s, step) && (step.DoBegin? || step.DoAcquire?)
    ensures var s' := ClientStep(cfg, s, step);
            && SameShutdown(s, s') && s'.coordinator == s.coordinator && WaitingIds(s'.clients) == WaitingIds(s.clients)
            && forall o :: 0 <= o < |s.owners| ==> Toil(s'.owners[o]) == Toil(s.owners[o])
  {
    var s' := ClientStep(cfg, s, step);
    assert s'.clients == s.clients[step.id := s'.clients[step.id]];
    SameWaiting(s.clients, step.id, s'.clients[step.id]);
    hide WaitingIds;
    hide Ahead;
    hide TargetOf;
    hide Charge;
  }

  // ---------- rest ----------

  /** Which steps there are in an ending engine. */
  lemma EndingKinds(cfg: Config, s: State, step: Step)
    requires Ending(cfg, s) && Enabled(cfg, s, step)
    ensures IsClientStep(step) ==> s.closing && !Carries(s, step)
    ensures !IsOwnerStep(step) && !IsClientStep(step) && !s.coordinator.Busy? ==>
              step.DoCrossStop? || step.DoOwnerStop? || step.DoTake? || step.DoTakeStop? || step.DoFinish?
  {
    hide Invariant;
    hide OwnerEnabled;
  }

  lemma StepLeft(cfg: Config, s: State, step: Step)
    requires cfg.Valid() && Ending(cfg, s) && Enabled(cfg, s, step)
    ensures var s' := Do(cfg, s, step);
            && (LeftOver(s') == LeftOver(s) || Fewer(LeftOver(s'), LeftOver(s)))
            && (Carries(s, step) ==> Fewer(LeftOver(s'), LeftOver(s)))
  {
    assert Disciplined(cfg, s);
    EndingKinds(cfg, s, step);
    hide Ending;
    hide Disciplined;
    hide Carries;
    hide LeftOver;
    hide Fewer;
    hide OwnerStep;
    hide ClientStep;
    hide CoordinatorStep;
    hide OwnerEnabled;
    hide ClientEnabled;
    hide CoordinatorEnabled;
    if step.DoBegin? || step.DoAcquire? {
      StaysInAdmission(cfg, s, step);
    } else if IsClientStep(step) {
      LeavesAdmission(cfg, s, step);
    } else if step.DoCrossStop? || step.DoOwnerStop? {
      AskLeft(cfg, s, step);
    } else if s.coordinator.Busy? {
      BusyStep(cfg, s, step);
    } else if IsOwnerStep(step) {
      IdleOwnerStep(cfg, s, step);
    } else {
      TakeLeft(cfg, s, step);
    }
  }

  /**
   * Under every schedule of owners, coordinator, shutdown, queries, ticks and clients, no step of an
   * ending engine adds to what is left to do, and those that carry it on make it less.
   */
  lemma EndingStep(cfg: Config, s: State, step: Step)
    requires cfg.Valid() && Ending(cfg, s) && Enabled(cfg, s, step)
    ensures Ending(cfg, Do(cfg, s, step))
    ensures var s' := Do(cfg, s, step);
            && (LeftOver(s') == LeftOver(s) || Fewer(LeftOver(s'), LeftOver(s)))
            && (Carries(s, step) ==> Fewer(LeftOver(s'), LeftOver(s)))
  {
    StepLeft(cfg, s, step);
    hide LeftOver;
    hide Fewer;
    hide Carries;
    hide Invariant;
    hide StopWaits;
    hide Enabled;
    hide Do;
    StepInvariant(cfg, s, step);
    StepStopWaits(cfg, s, step);
    StillEnding(cfg, s, step);
  }

  lemma ClientSameEnding(cfg: Config, s: State, step: Step)
    requires IsClientStep(step) && ClientEnabled(cfg, s, step)
    ensures var s' := ClientStep(cfg, s, step); s'.closing == s.closing && s'.dropped == s.dropped
  {
    if step.DoTimeOut? || step.DoAbandon? || step.DoRefuseClosed? {
      ReturnSameShutdown(s, step.id);
      hide ReturnCredit;
    }
    hide TargetOf;
    hide Charge;
  }

  lemma CoordinatorSameEnding(cfg: Config, s: State, step: Step)
    requires !IsOwnerStep(step) && !IsClientStep(step) && CoordinatorEnabled(cfg, s, step)
    ensures var s' := CoordinatorStep(cfg, s, step); (s.closing ==> s'.closing) && (s.dropped ==> s'.dropped)
  {
    if step.DoSend? {
      SentFrame(s);
    } else if step.DoTake? {
      TakenEnding(cfg, s);
    }
    hide SendControl;
    hide Take;
    hide Received;
    hide Whole;
    hide CoordinatorEnabled;
  }

  lemma TakenEnding(cfg: Config, s: State)
    requires s.cross != [] && s.cross[0].Coordinate?
    ensures Take(cfg, s).closing == s.closing && Take(cfg, s).dropped == s.dropped
  {
    TakeShape(cfg, s);
    hide Take;
  }

  lemma StillEnding(cfg: Config, s: State, step: Step)
    requires Enabled(cfg, s, step)
    ensures s.closing ==> Do(cfg, s, step).closing
    ensures s.dropped ==> Do(cfg, s, step).dropped
  {
    hide OwnerStep;
    hide ClientStep;
    hide CoordinatorStep;
    hide OwnerEnabled;
    hide ClientEnabled;
    hide CoordinatorEnabled;
    if IsOwnerStep(step) {
      OwnerSameShutdown(cfg, s, step);
    } else if IsClientStep(step) {
      ClientSameEnding(cfg, s, step);
    } else {
      CoordinatorSameEnding(cfg, s, step);
    }
  }

  predicate Stopped(s: State) {
    forall o :: 0 <= o < |s.owners| ==> s.owners[o].at == Exited
  }

  /** The step of an owner that has been told to stop. */
  function StopStep(w: Owner, o: nat, now: i64): Step {
    if w.at == Top then DoTurn(o, now)
    else if w.stopping then (if w.data != [] then DoData(o, now) else DoExit(o))
    else if w.control != [] then DoControl(o)
    else DoControlClosed(o)
  }

  lemma StopStepEnabled(cfg: Config, s: State, o: nat, now: i64)
    requires Disciplined(cfg, s) && AllAsked(s) && o < |s.owners| && s.owners[o].at != Exited
    ensures var step := StopStep(s.owners[o], o, now);
            Enabled(cfg, s, step) && Carries(s, step) && Internal(step)
  {
    AskedOwner(cfg, s, o);
    assert |s.owners| == |cfg.limits|;
    hide Disciplined;
    hide Sweep;
  }

  /** Steps neither of clients nor of whoever ends the engine. */
  predicate Internal(step: Step) {
    !IsClientStep(step) && !step.DoShutdown? && !step.DoDropHandles?
  }

  /** The coordinator's or shutdown's next step when no command is in flight. */
  function IdleStep(s: State): Step {
    if s.cross != [] then (if s.cross[0].Coordinate? then DoTake else DoTakeStop)
    else if s.crossClosed || s.dropped then DoFinish
    else DoCrossStop
  }

  lemma IdleStepPossible(cfg: Config, s: State)
    requires 0 < cfg.queueCapacity && StopWaits(s) && (s.closing || s.dropped) && s.coordinator == Idle
    ensures CoordinatorEnabled(cfg, s, IdleStep(s)) && Carries(s, IdleStep(s)) && Internal(IdleStep(s))
    ensures !IsOwnerStep(IdleStep(s)) && !IsClientStep(IdleStep(s))
  {
  }

  lemma IdleStepEnabled(cfg: Config, s: State)
    requires cfg.Valid() && Ending(cfg, s) && s.coordinator == Idle
    ensures Enabled(cfg, s, IdleStep(s)) && Carries(s, IdleStep(s)) && Internal(IdleStep(s))
  {
    EndingParts(cfg, s);
    hide Invariant;
    hide Disciplined;
    hide RequestsOK;
    IdleStepPossible(cfg, s);
    hide IdleStep;
    hide Carries;
    hide Internal;
    hide CoordinatorEnabled;
    hide OwnerEnabled;
    hide ClientEnabled;
  }

  lemma OwnerStopEnabled(cfg: Config, s: State)
    requires |s.owners| == |cfg.limits| && s.stopRequested && s.coordinator == Finished && s.stops < |s.owners|
    ensures Enabled(cfg, s, DoOwnerStop)
  {
  }

  lemma BusyStepEnabled(cfg: Config, s: State, now: i64)
    requires Invariant(cfg, s) && s.coordinator.Busy?
    ensures var step := Forward(s, now); Enabled(cfg, s, step) && Carries(s, step) && Internal(step)
  {
    ForwardEnabled(cfg, s, now);
    hide Invariant;
    hide Enabled;
  }

  /** Until every owner has stopped, the engine by itself has an enabled step that carries it on. */
  lemma CarriesOn(cfg: Config, s: State, now: i64) returns (step: Step)
    requires cfg.Valid() && Ending(cfg, s) && !Stopped(s)
    ensures Enabled(cfg, s, step) && Carries(s, step) && Internal(step)
  {
    assert Invariant(cfg, s) && Disciplined(cfg, s);
    assert !s.coordinator.Crashed? && s.stops <= |s.owners| && |s.owners| == |cfg.limits|;
    assert s.coordinator == Finished && !s.dropped ==> s.stopRequested;
    hide Ending;
    hide Disciplined;
    hide Enabled;
    hide Forward;
    hide IdleStep;
    hide StopStep;
    if s.coordinator.Busy? {
      step := Forward(s, now);
      BusyStepEnabled(cfg, s, now);
    } else if s.coordinator == Idle {
      step := IdleStep(s);
      IdleStepEnabled(cfg, s);
    } else if !s.dropped && s.stops < |s.owners| {
      step := DoOwnerStop;
      OwnerStopEnabled(cfg, s);
    } else {
      var o: nat :| o < |s.owners| && s.owners[o].at != Exited;
      step := StopStep(s.owners[o], o, now);
      StopStepEnabled(cfg, s, o, now);
    }
  }

  /** Every owner has stopped and every accepted command has been answered. */
  predicate AtRest(s: State) {
    Stopped(s) && forall id :: id in s.clients ==> !s.clients[id].Accepted?
  }

  lemma StoppedAtRest(cfg: Config, s: State)
    requires cfg.Valid() && Ending(cfg, s) && Stopped(s)
    ensures AtRest(s)
  {
    DrainedAtEnd(cfg, s);
    hide Invariant;
  }

  /** An ending engine can always bring itself to rest. */
  lemma {:induction false} ComesToRest(cfg: Config, s: State, now: i64) returns (states: seq<State>, steps: seq<Step>)
    requires cfg.Valid() && Ending(cfg, s)
    ensures IsRun(cfg, states, steps) && states[0] == s
    ensures (forall i :: 0 <= i < |steps| ==> Internal(steps[i])) && AtRest(states[|steps|])
    decreases LeftOver(s).pending, LeftOver(s).unasked, LeftOver(s).finishing, LeftOver(s).waiting,
              LeftOver(s).command.rounds, LeftOver(s).command.stage, LeftOver(s).command.work,
              LeftOver(s).unsent, LeftOver(s).toil
  {
    hide Ending;
    hide Enabled;
    hide Do;
    hide Carries;
    hide LeftOver;
    hide Internal;
    hide Stopped;
    hide AtRest;
    if Stopped(s) {
      states, steps := [s], [];
      StoppedAtRest(cfg, s);
    } else {
      var step := CarriesOn(cfg, s, now);
      EndingStep(cfg, s, step);
      var states', steps' := ComesToRest(cfg, Do(cfg, s, step), now);
      RunPrepend(cfg, s, step, states', steps');
      states, steps := [s] + states', [step] + steps';
    }
  }

  /**
   * From every moment after shutdown has begun, or the last handle has been dropped, a run can be
   * carried to its rest by the engine alone.
   */
  lemma ShutdownCompletes(cfg: Config, states: seq<State>, steps: seq<Step>, i: nat, now: i64)
    returns (more: seq<State>, moreSteps: seq<Step>)
    requires cfg.Valid() && IsHistory(cfg, states, steps) && i < |states|
    requires states[i].closing || states[i].dropped
    ensures IsRun(cfg, more, moreSteps) && more[0] == states[i]
    ensures (forall k :: 0 <= k < |moreSteps| ==> Internal(moreSteps[k])) && AtRest(more[|moreSteps|])
  {
    hide IsHistory;
    RunInvariant(cfg, states, steps, i);
    RunStopWaits(cfg, states, steps, i);
    hide Invariant;
    hide StopWaits;
    more, moreSteps := ComesToRest(cfg, states[i], now);
  }
}
