/**
 * Coordination always moves on: whatever waits in the data queues, the coordinator or the owner it
 * waits for has an enabled step, and a measure falls with each such step and rises with none.
 */
module Progress {
  import opened Atomicity
  import opened Bytes
  import opened Consistency
  import opened Coordination
  import opened Discipline
  import opened Engine
  import opened Machine
  import opened Sequential
  import opened Sharding
  import opened Tables

  /** The queries an owner has to answer before the coordinator's message. */
  function Ahead(control: seq<Control>): (i: nat)
    ensures i <= |control|
    ensures forall j :: 0 <= j < i ==> control[j] == StatsQuery
    ensures i < |control| ==> control[i] != StatsQuery
  {
    if control == [] || control[0] != StatsQuery then 0
    else
      var rest := control[1..];
      assert forall j :: 0 < j < 1 + Ahead(rest) ==> control[j] == rest[j - 1];
      1 + Ahead(rest)
  }

  lemma {:induction false} NothingAhead(control: seq<Control>)
    requires Ahead(control) == |control|
    ensures Relevant(control) == []
    decreases |control|
  {
    if control != [] {
      var front := control[..|control| - 1];
      assert forall j :: 0 <= j < |front| ==> front[j] == control[j];
      assert Ahead(front) == |front|;
      NothingAhead(front);
    }
  }

  datatype Rank = Rank(rounds: nat, stage: nat, work: nat)

  predicate Below(a: Rank, b: Rank) {
    || a.rounds < b.rounds
    || (a.rounds == b.rounds && a.stage < b.stage)
    || (a.rounds == b.rounds && a.stage == b.stage && a.work < b.work)
  }

  /** Rounds of messages left, counting every phase still to come. */
  function Rounds(c: Coordinator): nat
    requires c.Busy? && c.next <= |c.shares|
  {
    var left := |c.shares| - c.next;
    match c.phase
    case Reserving => 3 * |c.shares| + 4 + left
    case Sampling => 3 * |c.shares| + 4
    case Preparing => 2 * |c.shares| + 3 + left
    case Applying => |c.shares| + 2 + left
    case Releasing => 1 + left
  }

  function Stage(c: Coordinator): nat
    requires c.Busy?
  {
    if c.ack.Some? then 0 else if c.sent then 1 else 2
  }

  function Work(w: Owner): nat {
    2 * Ahead(w.control) + if w.at == Top then 1 else 0
  }

  function AwaitedWork(s: State): nat {
    var c := s.coordinator;
    if c.Busy? && c.sent && c.ack == None && c.next < |c.shares| && c.shares[c.next].owner < |s.owners| then
      Work(s.owners[c.shares[c.next].owner])
    else 0
  }

  function Measure(s: State): Rank {
    var c := s.coordinator;
    if c.Busy? && c.next <= |c.shares| then Rank(Rounds(c), Stage(c), AwaitedWork(s)) else Rank(0, 0, 0)
  }

  /** The steps that carry the command in flight forward. */
  predicate Advances(s: State, step: Step) {
    || step.DoSend? || step.DoReceive? || step.DoSample? || step.DoComplete?
    || ((step.DoTurn? || step.DoControl?) && Awaiting(s.coordinator, step.o))
  }

  /** One such step that can be taken now. */
  function Forward(s: State, now: i64): Step
    requires s.coordinator.Busy?
  {
    var c := s.coordinator;
    if c.ack.Some? then DoReceive
    else if c.phase == Sampling then DoSample(now)
    else if c.next >= |c.shares| then DoComplete
    else if !c.sent then DoSend
    else
      var o := c.shares[c.next].owner;
      if o < |s.owners| && s.owners[o].at == Top then DoTurn(o, now) else DoControl(o)
  }

  /** The coordinator's message is waiting at the owner, which is running. */
  lemma AwaitedOwner(cfg: Config, s: State)
    requires Disciplined(cfg, s) && s.coordinator.Busy?
    requires var c := s.coordinator; c.sent && c.ack == None && c.next < |c.shares| && c.phase != Sampling
    ensures var o := s.coordinator.shares[s.coordinator.next].owner;
            && o < |s.owners| && Awaiting(s.coordinator, o)
            && var w := s.owners[o];
               && w.control != [] && !w.stopping && (w.at == Top || w.at == Selecting)
               && Ahead(w.control) < |w.control|
  {
    var c := s.coordinator;
    var o := c.shares[c.next].owner;
    assert o < |s.owners|;
    assert OwnerOK(c, s.stops, o, s.owners[o]);
    assert Relevant(s.owners[o].control) == [Expected(c)];
    hide Relevant;
    hide Shares;
    hide CoordinatorOK;
    hide ReservationOK;
    if Ahead(s.owners[o].control) == |s.owners[o].control| {
      NothingAhead(s.owners[o].control);
    }
  }

  lemma CoordinatorForward(cfg: Config, s: State, now: i64)
    requires |s.owners| == |cfg.limits| && CoordinatorOK(cfg, s.coordinator) && s.coordinator.Busy?
    requires !(s.coordinator.sent && s.coordinator.ack == None)
    ensures Enabled(cfg, s, Forward(s, now)) && Advances(s, Forward(s, now))
  {
    var c := s.coordinator;
    assert c.next < |c.shares| ==> c.shares[c.next].owner < |s.owners|;
    hide CoordinatorOK;
    hide Shares;
    hide OwnerEnabled;
    hide ClientEnabled;
  }

  /** With a command in flight some step carries it forward, whatever the data queues hold. */
  lemma ForwardEnabled(cfg: Config, s: State, now: i64)
    requires Invariant(cfg, s) && s.coordinator.Busy?
    ensures Enabled(cfg, s, Forward(s, now)) && Advances(s, Forward(s, now))
  {
    var c := s.coordinator;
    assert Disciplined(cfg, s) && CoordinatorOK(cfg, c) && |s.owners| == |cfg.limits|;
    hide Invariant;
    if c.sent && c.ack == None {
      assert c.next < |c.shares| && c.phase != Sampling;
      hide CoordinatorOK;
      AwaitedOwner(cfg, s);
      hide Disciplined;
      hide CoordinatorEnabled;
      hide ClientEnabled;
    } else {
      hide CoordinatorOK;
      hide Disciplined;
      hide Enabled;
      hide Advances;
      CoordinatorForward(cfg, s, now);
    }
  }

  // ---------- the measure falls ----------

  lemma RoundsFall(c: Coordinator, c': Coordinator)
    requires c.Busy? && c'.Busy? && |c'.shares| == |c.shares| && c.next < |c.shares|
    requires || (c'.phase == c.phase && c.phase != Sampling && c'.next == c.next + 1)
             || (c.phase == Reserving && c'.phase == Sampling && c'.next == 0)
             || (c.phase == Preparing && (c'.phase == Applying || c'.phase == Releasing) && c'.next == 0)
             || (c.phase == Applying && c'.phase == Releasing && c'.next == 0)
    ensures c'.next <= |c'.shares| && Rounds(c') < Rounds(c)
  {
  }

  lemma ReceiveDescends(cfg: Config, s: State)
    requires cfg.Valid() && Invariant(cfg, s) && CoordinatorEnabled(cfg, s, DoReceive)
    ensures Below(Measure(s.(coordinator := Received(cfg, s.coordinator))), Measure(s))
  {
    var c := s.coordinator;
    assert CoordinatorOK(cfg, c) && VotesOK(cfg, c);
    hide Invariant;
    ReceivedAlive(cfg, c);
    ReceivedShape(cfg, c);
    hide Received;
    hide VotesOK;
    assert c.next < |c.shares|;
    hide CoordinatorOK;
    hide Rounds;
    hide AwaitedWork;
    RoundsFall(c, Received(cfg, c));
  }

  lemma SendDescends(cfg: Config, s: State)
    requires Invariant(cfg, s) && CoordinatorEnabled(cfg, s, DoSend)
    ensures Below(Measure(SendControl(s)), Measure(s))
  {
    SendDisciplined(cfg, s);
    SentOwners(s);
    assert CoordinatorOK(cfg, s.coordinator);
    hide Invariant;
    hide SendControl;
    hide AwaitedWork;
    hide Shares;
  }

  lemma SampleDescends(cfg: Config, s: State, now: i64)
    requires Invariant(cfg, s) && CoordinatorEnabled(cfg, s, DoSample(now))
    ensures Below(Measure(Sample(cfg, s, now)), Measure(s))
  {
    assert CoordinatorOK(cfg, s.coordinator);
    hide Invariant;
    hide Whole;
    hide Shares;
    hide AwaitedWork;
  }

  lemma TurnLocation(cfg: Config, s: State, o: nat, now: i64)
    requires o < |s.owners| == |cfg.limits|
    ensures var s' := OwnerTurn(cfg, s, o, now);
            && |s'.owners| == |s.owners| && s'.coordinator == s.coordinator
            && s'.owners[o].at == Selecting && s'.owners[o].control == s.owners[o].control
  {
    TurnEffect(cfg, s, o, now);
    hide OwnerTurn;
  }

  lemma TurnDescends(cfg: Config, s: State, o: nat, now: i64)
    requires Disciplined(cfg, s) && Awaiting(s.coordinator, o) && OwnerEnabled(cfg, s, DoTurn(o, now))
    ensures Below(Measure(OwnerTurn(cfg, s, o, now)), Measure(s))
  {
    TurnLocation(cfg, s, o, now);
    hide OwnerTurn;
    assert CoordinatorOK(cfg, s.coordinator);
    hide Disciplined;
    hide Shares;
  }

  lemma AheadPop(control: seq<Control>)
    requires control != [] && control[0] == StatsQuery
    ensures Ahead(control) == 1 + Ahead(control[1..])
  {
  }

  /** An awaited owner either answers the coordinator or disposes of a query. */
  lemma ControlDescends(cfg: Config, s: State, o: nat)
    requires Disciplined(cfg, s) && Awaiting(s.coordinator, o) && OwnerEnabled(cfg, s, DoControl(o))
    ensures Below(Measure(OwnerControl(cfg, s, o)), Measure(s))
  {
    var c, w := s.coordinator, s.owners[o];
    assert CoordinatorOK(cfg, c) && OwnerOK(c, s.stops, o, w);
    hide Disciplined;
    HandleMessage(cfg, c, s.stops, o, w);
    OldestMessage(c, s.stops, o, w);
    MessageAnswered(cfg.limits[o], w.(control := w.control[1..]), w.control[0]);
    hide Handle;
    hide OwnerOK;
    hide Shares;
    hide Relevant;
    hide Expected;
    hide Ahead;
    if w.control[0] == StatsQuery {
      AheadPop(w.control);
    }
  }

  /** A coordinator's message is answered unless the owner dies of it; a query never is. */
  lemma MessageAnswered(limits: ShardLimits, w: Owner, m: Control)
    ensures var (w', ack) := Handle(limits, w, m);
            && (m == StatsQuery ==> ack == None && w'.at == Top && w'.control == w.control)
            && (m.ReserveFor? || m.PrepareFor? || m.ApplyFor? || m.ReleaseFor? ==> ack.Some? || w'.at == Panicked)
  {
    hide Prepare;
  }

  lemma CompleteDescends(cfg: Config, s: State)
    requires CoordinatorOK(cfg, s.coordinator) && CoordinatorEnabled(cfg, s, DoComplete)
    ensures Below(Measure(Complete(s)), Measure(s))
  {
    hide Shares;
  }

  /** Each step that carries the command forward makes the measure smaller. */
  lemma Descends(cfg: Config, s: State, step: Step)
    requires cfg.Valid() && Invariant(cfg, s) && s.coordinator.Busy? && Enabled(cfg, s, step) && Advances(s, step)
    ensures Below(Measure(Do(cfg, s, step)), Measure(s))
  {
    assert Disciplined(cfg, s) && CoordinatorOK(cfg, s.coordinator);
    hide Invariant;
    hide Disciplined;
    hide CoordinatorOK;
    hide Measure;
    hide Below;
    hide OwnerTurn;
    hide OwnerControl;
    hide SendControl;
    hide Received;
    hide Sample;
    hide Complete;
    if step.DoSend? {
      SendDescends(cfg, s);
    } else if step.DoReceive? {
      ReceiveDescends(cfg, s);
    } else if step.DoSample? {
      SampleDescends(cfg, s, step.now);
    } else if step.DoComplete? {
      CompleteDescends(cfg, s);
    } else if step.DoTurn? {
      TurnDescends(cfg, s, step.o, step.now);
    } else {
      ControlDescends(cfg, s, step.o);
    }
  }

  // ---------- and never rises ----------

  /** The coordinator stays as it is and the awaited owner has no more to do. */
  predicate NoMoreWork(s: State, s': State) {
    && s'.coordinator == s.coordinator && |s'.owners| == |s.owners|
    && forall o :: 0 <= o < |s.owners| && Awaiting(s.coordinator, o) ==> Work(s'.owners[o]) <= Work(s.owners[o])
  }

  lemma NoMoreMeasure(s: State, s': State)
    requires NoMoreWork(s, s') && (s.coordinator.Busy? ==> s.coordinator.phase == Sampling ==> !s.coordinator.sent)
    ensures Measure(s') == Measure(s) || Below(Measure(s'), Measure(s))
  {
    var c := s.coordinator;
    if c.Busy? && c.sent && c.ack == None && c.next < |c.shares| && c.shares[c.next].owner < |s.owners| {
      assert Awaiting(c, c.shares[c.next].owner);
    }
    hide Work;
  }

  lemma AheadAtMost(control: seq<Control>, k: nat)
    requires k < |control| && control[k] != StatsQuery
    ensures Ahead(control) <= k
  {
  }

  lemma AheadPush(control: seq<Control>, m: Control)
    requires Ahead(control) < |control|
    ensures Ahead(control + [m]) == Ahead(control)
  {
    var k, longer := Ahead(control), control + [m];
    assert forall j :: 0 <= j <= k ==> longer[j] == control[j];
    AheadAtMost(longer, k);
  }

  lemma WithoutOne<T>(s: seq<T>, i: nat, k: nat)
    requires i < |s| && k < |s|
    ensures k < i ==> (s[..i] + s[i + 1..])[k] == s[k]
    ensures i < k ==> (s[..i] + s[i + 1..])[k - 1] == s[k]
  {
  }

  lemma AheadDrop(control: seq<Control>, i: nat)
    requires i < |control| && control[i] == StatsQuery && Ahead(control) < |control|
    ensures Ahead(control[..i] + control[i + 1..]) <= Ahead(control)
  {
    var k := Ahead(control);
    assert control[k] != StatsQuery;
    WithoutOne(control, i, k);
    hide Ahead;
    AheadAtMost(control[..i] + control[i + 1..], if i < k then k - 1 else k);
  }

  /** An owner the coordinator waits for does nothing but take its turn and handle messages. */
  lemma AwaitedOwnerStep(cfg: Config, s: State, step: Step)
    requires Disciplined(cfg, s) && IsOwnerStep(step) && OwnerEnabled(cfg, s, step)
    requires !step.DoTurn? && !step.DoControl?
    ensures NoMoreWork(s, OwnerStep(cfg, s, step))
  {
    OtherOwnerStep(cfg, s, step);
    if Awaiting(s.coordinator, step.o) {
      AwaitedOwner(cfg, s);
      hide Disciplined;
      AwaitedQueue(cfg, s, step);
    }
    hide OwnerStep;
    hide Work;
    hide Disciplined;
  }

  lemma AwaitedQueue(cfg: Config, s: State, step: Step)
    requires |s.owners| == |cfg.limits| && IsOwnerStep(step) && OwnerEnabled(cfg, s, step)
    requires !step.DoTurn? && !step.DoControl?
    requires var w := s.owners[step.o]; w.control != [] && !w.stopping && Ahead(w.control) < |w.control|
    requires step.o < |OwnerStep(cfg, s, step).owners|
    ensures Work(OwnerStep(cfg, s, step).owners[step.o]) <= Work(s.owners[step.o])
  {
    hide OwnerStep;
    hide Ahead;
    hide Work;
    assert step.o < |s.owners|;
    hide OwnerEnabled;
    QueriesOnly(cfg, s, step);
    var w, w' := s.owners[step.o], OwnerStep(cfg, s, step).owners[step.o];
    if step.DoAskStats? {
      AheadPush(w.control, StatsQuery);
    } else {
      AheadDrop(w.control, step.i);
    }
    LessWork(w, w');
  }

  lemma LessWork(w: Owner, w': Owner)
    requires w'.at == w.at && Ahead(w'.control) <= Ahead(w.control)
    ensures Work(w') <= Work(w)
  {
    hide Ahead;
  }

  /** With a control message waiting, queries may come and go and nothing else changes the queue. */
  lemma QueriesOnly(cfg: Config, s: State, step: Step)
    requires |s.owners| == |cfg.limits| && IsOwnerStep(step) && OwnerEnabled(cfg, s, step)
    requires !step.DoTurn? && !step.DoControl? && s.owners[step.o].control != [] && !s.owners[step.o].stopping
    requires step.o < |OwnerStep(cfg, s, step).owners|
    ensures var control := s.owners[step.o].control;
            step.DoAskStats? || (step.DoDropStats? && step.i < |control| && control[step.i] == StatsQuery)
    ensures var w, w' := s.owners[step.o], OwnerStep(cfg, s, step).owners[step.o];
            && w'.at == w.at
            && w'.control == if step.DoAskStats? then w.control + [StatsQuery]
                             else w.control[..step.i] + w.control[step.i + 1..]
  {
    hide RunHead;
    hide Sweep;
  }

  lemma OtherOwnerStep(cfg: Config, s: State, step: Step)
    requires |s.owners| == |cfg.limits| && IsOwnerStep(step) && OwnerEnabled(cfg, s, step) && !step.DoControl?
    ensures var s' := OwnerStep(cfg, s, step);
            && s'.coordinator == s.coordinator && |s'.owners| == |s.owners|
            && forall p :: 0 <= p < |s.owners| && p != step.o ==> s'.owners[p] == s.owners[p]
  {
    if step.DoTurn? {
      TurnEffect(cfg, s, step.o, step.now);
    } else if step.DoData? {
      DataEffect(cfg, s, step.o, step.now);
    }
    hide OwnerTurn;
    hide RunHead;
    hide Sweep;
    hide Swept;
    hide Aside;
  }

  /** Another owner's messages complete nothing. */
  lemma OtherControl(cfg: Config, s: State, o: nat)
    requires Disciplined(cfg, s) && o < |s.owners| && OwnerEnabled(cfg, s, DoControl(o))
    requires !Awaiting(s.coordinator, o)
    ensures NoMoreWork(s, OwnerControl(cfg, s, o))
  {
    HandleMessage(cfg, s.coordinator, s.stops, o, s.owners[o]);
    hide Handle;
    hide Disciplined;
    hide OwnerOK;
    hide CoordinatorOK;
    hide Work;
  }

  lemma ClientNoWork(cfg: Config, s: State, step: Step)
    requires Disciplined(cfg, s) && IsClientStep(step) && ClientEnabled(cfg, s, step)
    ensures NoMoreWork(s, ClientStep(cfg, s, step))
  {
    assert forall o :: 0 <= o < |s.owners| && s.owners[o].at == Exited ==> s.owners[o].dataClosed by {
      assert forall o :: 0 <= o < |s.owners| ==> OwnerOK(s.coordinator, s.stops, o, s.owners[o]);
    }
    ClientFrame(cfg, s, step);
    var s' := ClientStep(cfg, s, step);
    hide ClientStep;
    hide Disciplined;
    forall o | 0 <= o < |s.owners|
      ensures Work(s'.owners[o]) == Work(s.owners[o])
    {
      assert SameControl(s.owners[o], s'.owners[o]);
    }
    hide Work;
  }

  lemma EndingNoWork(cfg: Config, s: State, step: Step)
    requires Disciplined(cfg, s) && s.coordinator.Busy? && !Advances(s, step)
    requires !IsOwnerStep(step) && !IsClientStep(step) && CoordinatorEnabled(cfg, s, step)
    ensures NoMoreWork(s, CoordinatorStep(cfg, s, step))
  {
    assert step.DoShutdown? || step.DoCrossStop? || step.DoDropHandles?;
    if step.DoCrossStop? {
      CoordinatorRuns(cfg, s);
    }
    hide CrossStop;
    hide Disciplined;
    hide Work;
  }

  /** Nothing else touches the command in flight, and nothing delays the owner it waits for. */
  lemma NeverRises(cfg: Config, s: State, step: Step)
    requires Invariant(cfg, s) && s.coordinator.Busy? && Enabled(cfg, s, step) && !Advances(s, step)
    ensures Do(cfg, s, step).coordinator == s.coordinator
    ensures Measure(Do(cfg, s, step)) == Measure(s) || Below(Measure(Do(cfg, s, step)), Measure(s))
  {
    assert Disciplined(cfg, s) && (s.coordinator.phase == Sampling ==> !s.coordinator.sent);
    assert |s.owners| == |cfg.limits|;
    hide Invariant;
    var s' := Do(cfg, s, step);
    assert NoMoreWork(s, s') by {
      if IsClientStep(step) {
        ClientNoWork(cfg, s, step);
      } else if step.DoControl? {
        OtherControl(cfg, s, step.o);
      } else if step.DoTurn? {
        OtherOwnerStep(cfg, s, step);
      } else if IsOwnerStep(step) {
        AwaitedOwnerStep(cfg, s, step);
      } else {
        EndingNoWork(cfg, s, step);
      }
      hide Disciplined;
      hide OwnerTurn;
      hide OwnerControl;
      hide ClientStep;
      hide CoordinatorStep;
      hide Work;
    }
    hide Do;
    NoMoreMeasure(s, s');
  }

  // ---------- the command in flight can be finished ----------

  lemma ControlInFlight(cfg: Config, s: State, o: nat)
    requires o < |s.owners| == |cfg.limits| && s.owners[o].control != [] && s.coordinator.Busy?
    ensures var c := OwnerControl(cfg, s, o).coordinator; c.Busy? && c.request == s.coordinator.request
  {
    hide Handle;
  }

  /** The command stays in flight until its client has its answer. */
  lemma StillInFlight(cfg: Config, s: State, step: Step)
    requires cfg.Valid() && Invariant(cfg, s) && s.coordinator.Busy? && Enabled(cfg, s, step) && Advances(s, step)
    ensures var s', id := Do(cfg, s, step), s.coordinator.request.id;
            if s'.coordinator.Busy? then s'.coordinator.request == s.coordinator.request
            else id in s'.clients && s'.clients[id].Answered?
  {
    assert Disciplined(cfg, s) && CoordinatorOK(cfg, s.coordinator) && VotesOK(cfg, s.coordinator);
    hide Invariant;
    if step.DoReceive? {
      ReceivedAlive(cfg, s.coordinator);
      ReceivedShape(cfg, s.coordinator);
    } else if step.DoSend? {
      SendDisciplined(cfg, s);
      SentOwners(s);
    } else if step.DoTurn? {
      TurnLocation(cfg, s, step.o, step.now);
    } else if step.DoControl? {
      ControlInFlight(cfg, s, step.o);
    }
    hide Disciplined;
    hide CoordinatorOK;
    hide VotesOK;
    hide Received;
    hide SendControl;
    hide OwnerTurn;
    hide OwnerControl;
    hide Whole;
  }

  /** One step forward. */
  lemma OneForward(cfg: Config, s: State, now: i64) returns (step: Step)
    requires cfg.Valid() && Invariant(cfg, s) && s.coordinator.Busy?
    ensures Enabled(cfg, s, step) && Advances(s, step) && Invariant(cfg, Do(cfg, s, step))
    ensures Below(Measure(Do(cfg, s, step)), Measure(s))
    ensures var s', id := Do(cfg, s, step), s.coordinator.request.id;
            if s'.coordinator.Busy? then s'.coordinator.request == s.coordinator.request
            else id in s'.clients && s'.clients[id].Answered?
  {
    step := Forward(s, now);
    ForwardEnabled(cfg, s, now);
    Descends(cfg, s, step);
    StepInvariant(cfg, s, step);
    StillInFlight(cfg, s, step);
    hide *;
  }

  /** From any reachable moment the coordinator and the owners it waits for can finish the command by themselves. */
  lemma {:induction false} Finishes(cfg: Config, s: State, now: i64) returns (states: seq<State>, steps: seq<Step>)
    requires cfg.Valid() && Invariant(cfg, s) && s.coordinator.Busy?
    ensures IsRun(cfg, states, steps) && states[0] == s
    ensures forall i :: 0 <= i < |steps| ==> Advances(states[i], steps[i])
    ensures var last := states[|steps|];
            var id := s.coordinator.request.id;
            !last.coordinator.Busy? && id in last.clients && last.clients[id].Answered?
    decreases Measure(s).rounds, Measure(s).stage, Measure(s).work
  {
    hide Invariant;
    hide Enabled;
    hide Do;
    hide Advances;
    hide Measure;
    var step := OneForward(cfg, s, now);
    var s' := Do(cfg, s, step);
    if s'.coordinator.Busy? {
      var states', steps' := Finishes(cfg, s', now);
      RunPrepend(cfg, s, step, states', steps');
      states, steps := [s] + states', [step] + steps';
      forall i | 0 <= i < |steps|
        ensures Advances(states[i], steps[i])
      {
        if i > 0 {
          assert states[i] == states'[i - 1] && steps[i] == steps'[i - 1];
        }
      }
    } else {
      states, steps := [s, s'], [step];
    }
  }

  lemma RunPrepend(cfg: Config, s: State, step: Step, states: seq<State>, steps: seq<Step>)
    requires Enabled(cfg, s, step) && IsRun(cfg, states, steps) && states[0] == Do(cfg, s, step)
    ensures IsRun(cfg, [s] + states, [step] + steps)
  {
    hide Enabled;
    hide Do;
    var longer, more := [s] + states, [step] + steps;
    forall i | 0 <= i < |more|
      ensures Enabled(cfg, longer[i], more[i]) && longer[i + 1] == Do(cfg, longer[i], more[i])
    {
      if i > 0 {
        assert longer[i] == states[i - 1] && more[i] == steps[i - 1] && longer[i + 1] == states[i];
      }
    }
  }
}
