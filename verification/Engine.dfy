/**
 * Every run of the engine, whatever the interleaving, is a sequential run of one unsharded table
 * in an order that respects real time.
 */
module Engine {
  import opened Accounting
  import opened Admission
  import opened Atomicity
  import opened Bytes
  import opened Consistency
  import opened Coordination
  import opened Credits
  import opened Discipline
  import opened History
  import opened Machine
  import opened Requests
  import opened Sequential
  import opened Sharding
  import opened Tables

  /** What every reachable state satisfies. */
  ghost predicate Invariant(cfg: Config, s: State) {
    Disciplined(cfg, s) && Consistent(cfg, s) && Accounted(cfg, s)
  }

  lemma InitialInvariant(cfg: Config)
    requires cfg.Valid()
    ensures Invariant(cfg, Initial(cfg))
  {
    InitiallyDisciplined(cfg);
    InitiallyConsistent(cfg);
    InitialRequests(cfg);
    InitialLives(cfg);
    InitialCredits(cfg);
    hide *;
  }

  lemma OwnerStepInvariant(cfg: Config, s: State, step: Step)
    requires cfg.Valid() && Invariant(cfg, s) && IsOwnerStep(step) && OwnerEnabled(cfg, s, step)
    ensures |s.owners| == |cfg.limits| && Invariant(cfg, OwnerStep(cfg, s, step))
  {
    assert RequestsOK(cfg, s) && |s.owners| == |cfg.limits|;
    hide Disciplined;
    hide Consistent;
    hide Accounted;
    hide RequestsOK;
    AllQueuedRoute(cfg, s);
    OwnerStepDisciplined(cfg, s, step);
    OwnerStepConsistent(cfg, s, step);
    OwnerStepAccounted(cfg, s, step);
  }

  lemma ClientStepInvariant(cfg: Config, s: State, step: Step)
    requires Invariant(cfg, s) && IsClientStep(step) && ClientEnabled(cfg, s, step)
    ensures Invariant(cfg, ClientStep(cfg, s, step))
  {
    hide Disciplined;
    hide Consistent;
    hide Accounted;
    ClientStepDisciplined(cfg, s, step);
    ClientStepConsistent(cfg, s, step);
    ClientStepAccounted(cfg, s, step);
  }

  lemma CoordinatorStepInvariant(cfg: Config, s: State, step: Step)
    requires cfg.Valid() && Invariant(cfg, s)
    requires !IsOwnerStep(step) && !IsClientStep(step) && CoordinatorEnabled(cfg, s, step)
    ensures Invariant(cfg, CoordinatorStep(cfg, s, step))
  {
    if step.DoTake? {
      CrossDivisible(cfg, s);
    } else if step.DoReceive? {
      ReceivedAlive(cfg, s.coordinator);
    }
    hide Disciplined;
    hide Consistent;
    hide Accounted;
    hide Received;
    CoordinatorStepDisciplined(cfg, s, step);
    CoordinatorStepConsistent(cfg, s, step);
    CoordinatorStepAccounted(cfg, s, step);
  }

  lemma StepInvariant(cfg: Config, s: State, step: Step)
    requires cfg.Valid() && Invariant(cfg, s) && Enabled(cfg, s, step)
    ensures Invariant(cfg, Do(cfg, s, step))
  {
    hide Invariant;
    hide OwnerStep;
    hide ClientStep;
    hide CoordinatorStep;
    if IsOwnerStep(step) {
      OwnerStepInvariant(cfg, s, step);
    } else if IsClientStep(step) {
      ClientStepInvariant(cfg, s, step);
    } else {
      CoordinatorStepInvariant(cfg, s, step);
    }
  }

  /** A run of the engine from its start. */
  ghost predicate IsHistory(cfg: Config, states: seq<State>, steps: seq<Step>) {
    IsRun(cfg, states, steps) && states[0] == Initial(cfg)
  }

  /** Consecutive states of a run. */
  lemma RunStep(cfg: Config, states: seq<State>, steps: seq<Step>, i: nat)
    requires IsHistory(cfg, states, steps) && i + 1 < |states|
    ensures i < |steps| && Enabled(cfg, states[i], steps[i]) && states[i + 1] == Do(cfg, states[i], steps[i])
  {
    hide Enabled;
    hide Do;
  }

  lemma {:induction false} RunInvariant(cfg: Config, states: seq<State>, steps: seq<Step>, i: nat)
    requires cfg.Valid() && IsHistory(cfg, states, steps) && i < |states|
    ensures Invariant(cfg, states[i])
    decreases i
  {
    hide Invariant;
    if i == 0 {
      InitialInvariant(cfg);
    } else {
      RunInvariant(cfg, states, steps, i - 1);
      RunStep(cfg, states, steps, i - 1);
      StepInvariant(cfg, states[i - 1], steps[i - 1]);
    }
  }

  lemma RunDisciplined(cfg: Config, states: seq<State>, steps: seq<Step>, i: nat)
    requires cfg.Valid() && IsHistory(cfg, states, steps) && i < |states|
    ensures Disciplined(cfg, states[i])
  {
    hide IsHistory;
    RunInvariant(cfg, states, steps, i);
    hide Disciplined;
    hide Consistent;
    hide Accounted;
  }

  /** Some run from the start leads here. */
  ghost predicate Reachable(cfg: Config, s: State) {
    exists states, steps :: IsHistory(cfg, states, steps) && states[|steps|] == s
  }

  lemma ReachableInvariant(cfg: Config, s: State)
    requires cfg.Valid() && Reachable(cfg, s)
    ensures Invariant(cfg, s)
  {
    var states, steps :| IsHistory(cfg, states, steps) && states[|steps|] == s;
    hide Invariant;
    RunInvariant(cfg, states, steps, |steps|);
  }

  // ---------- linearizability ----------

  lemma {:induction false} AboutGrows(log: seq<Event>, i: nat, j: nat, id: nat)
    requires i <= j <= |log|
    ensures |About(log[..i], id)| <= |About(log[..j], id)|
    decreases j
  {
    if i < j {
      AboutGrows(log, i, j - 1, id);
      assert log[..j] == log[..j - 1] + [log[j - 1]];
      AboutMore(log[..j - 1], log[j - 1], id);
    }
  }

  /** An event stands in the log where its request's life has it. */
  lemma {:induction false} Position(log: seq<Event>, i: nat, id: nat)
    requires i < |log| && Concerns(log[i], id)
    ensures |About(log[..i], id)| < |About(log, id)| && About(log, id)[|About(log[..i], id)|] == log[i]
    decreases |log|
  {
    var n := |log| - 1;
    assert log[..n] + [log[n]] == log;
    AboutMore(log[..n], log[n], id);
    if i < n {
      Position(log[..n], i, id);
      assert log[..n][..i] == log[..i];
    }
  }

  /** Every event of a request's life stands somewhere in the log, after what precedes it. */
  lemma {:induction false} Place(log: seq<Event>, k: nat, id: nat) returns (i: nat)
    requires k < |About(log, id)|
    ensures i < |log| && log[i] == About(log, id)[k] && |About(log[..i], id)| == k
    decreases |log|
  {
    var n := |log| - 1;
    assert log[..n] + [log[n]] == log;
    AboutMore(log[..n], log[n], id);
    if k < |About(log[..n], id)| {
      i := Place(log[..n], k, id);
      assert log[..n][..i] == log[..i];
    } else {
      i := n;
    }
  }

  /** In a request's life the invocation comes first, its place in the history second, its answer last. */
  function Rank(e: Event): nat {
    if e.Invoked? then 0 else if e.Ran? || e.Rejected? then 1 else 2
  }

  lemma RankIsPosition(cfg: Config, s: State, i: nat)
    requires Lives(cfg, s) && i < |s.log| && !s.log[i].Cleaned?
    ensures |About(s.log[..i], s.log[i].id)| == Rank(s.log[i])
  {
    var id := s.log[i].id;
    Position(s.log, i, id);
    assert LifeOK(ClientAt(s.clients, id), PlacedAt(InFlight(cfg, s.coordinator), id), id, About(s.log, id));
    hide About;
    hide InFlight;
  }

  /** The order of a request's events in the log is the order of its life. */
  lemma EventOrder(cfg: Config, s: State, i: nat, j: nat)
    requires Lives(cfg, s) && i < |s.log| && j < |s.log| && !s.log[i].Cleaned? && !s.log[j].Cleaned?
    requires s.log[i].id == s.log[j].id
    ensures Rank(s.log[i]) < Rank(s.log[j]) ==> i < j
    ensures Rank(s.log[i]) == Rank(s.log[j]) ==> i == j
  {
    RankIsPosition(cfg, s, i);
    RankIsPosition(cfg, s, j);
    hide Rank;
    hide Lives;
    if i < j {
      LaterIsGreater(s.log, i, j);
    } else if j < i {
      LaterIsGreater(s.log, j, i);
    }
  }

  lemma LaterIsGreater(log: seq<Event>, i: nat, j: nat)
    requires i < j < |log| && !log[i].Cleaned?
    ensures |About(log[..i], log[i].id)| < |About(log[..j], log[i].id)|
  {
    AboutGrows(log, i + 1, j, log[i].id);
    assert log[..i + 1] == log[..i] + [log[i]];
    AboutMore(log[..i], log[i], log[i].id);
  }

  /** A command runs at most once, and a refused or timed-out command never runs. */
  lemma RunsAtMostOnce(cfg: Config, s: State, i: nat, j: nat)
    requires cfg.Valid() && Reachable(cfg, s) && i < |s.log| && j < |s.log| && s.log[i].Ran?
    requires s.log[j].Ran? || s.log[j].Rejected?
    requires s.log[i].id == s.log[j].id
    ensures i == j && s.log[j].Ran?
  {
    ReachableInvariant(cfg, s);
    hide Reachable;
    EventOrder(cfg, s, i, j);
  }

  /** The three events of an answered request's life. */
  lemma AnsweredLife(cfg: Config, s: State, r: nat)
    requires Lives(cfg, s) && r < |s.log| && s.log[r].Returned?
    ensures var id := s.log[r].id;
            var h := About(s.log, id);
            && |h| == 3 && h[0].Invoked? && h[1].Ran? && h[0].id == id == h[1].id
            && h[0].op == h[1].op && h[1].reply == s.log[r].reply
  {
    var id := s.log[r].id;
    Position(s.log, r, id);
    assert LifeOK(ClientAt(s.clients, id), PlacedAt(InFlight(cfg, s.coordinator), id), id, About(s.log, id));
    hide About;
    hide InFlight;
    hide Lives;
  }

  /** Every answer is the reply of the command's one place in the history, between its invocation and its answer. */
  lemma AnswersHavePlaces(cfg: Config, s: State, r: nat) returns (i: nat, p: nat)
    requires cfg.Valid() && Reachable(cfg, s) && r < |s.log| && s.log[r].Returned?
    ensures i < p < r && s.log[i].Invoked? && s.log[p].Ran?
    ensures s.log[i].id == s.log[r].id == s.log[p].id
    ensures s.log[i].op == s.log[p].op && s.log[p].reply == s.log[r].reply
  {
    ReachableInvariant(cfg, s);
    assert Lives(cfg, s);
    hide Reachable;
    hide Invariant;
    hide About;
    hide Lives;
    AnsweredLife(cfg, s, r);
    i := Place(s.log, 0, s.log[r].id);
    p := Place(s.log, 1, s.log[r].id);
    EventOrder(cfg, s, i, p);
    EventOrder(cfg, s, p, r);
  }

  /** A command answered before another is invoked has its place before the other's. */
  lemma RealTimeOrder(cfg: Config, s: State, answered: nat, invoked: nat, first: nat, second: nat)
    requires cfg.Valid() && Reachable(cfg, s)
    requires answered < invoked < |s.log| && s.log[answered].Returned? && s.log[invoked].Invoked?
    requires first < |s.log| && s.log[first].Ran? && s.log[first].id == s.log[answered].id
    requires second < |s.log| && s.log[second].Ran? && s.log[second].id == s.log[invoked].id
    ensures first < answered < invoked < second
  {
    ReachableInvariant(cfg, s);
    hide Reachable;
    EventOrder(cfg, s, first, answered);
    EventOrder(cfg, s, invoked, second);
  }

  /**
   * Linearizability. At every moment of every run: each command's reply and effect are those of
   * running it alone on one unsharded table holding exactly what the commands and sweeps placed
   * before it left there; and outside a coordinated installation the owners' tables are that table.
   */
  lemma Linearizable(cfg: Config, states: seq<State>, steps: seq<Step>, i: nat)
    requires cfg.Valid() && IsHistory(cfg, states, steps) && i < |states|
    ensures var s := states[i];
            && s.table == Replay(cfg, s.log)
            && (forall p :: 0 <= p < |s.log| && s.log[p].Ran? ==>
                  s.log[p].reply == Whole(cfg, Replay(cfg, s.log[..p]), s.log[p].op, s.log[p].now).1)
            && |s.owners| == |cfg.limits|
            && (Settled(s.coordinator) ==>
                  forall o :: 0 <= o < |s.owners| ==> s.owners[o].shard.table == Part(s.table, cfg.route, o))
  {
    hide IsHistory;
    RunInvariant(cfg, states, steps, i);
    var s := states[i];
    assert Replayed(cfg, s);
    forall p | 0 <= p < |s.log| && s.log[p].Ran?
      ensures s.log[p].reply == Whole(cfg, Replay(cfg, s.log[..p]), s.log[p].op, s.log[p].now).1
    {
      assert EventOK(cfg, Replay(cfg, s.log[..p]), s.log[p]);
    }
    if Settled(s.coordinator) {
      forall o | 0 <= o < |s.owners|
        ensures s.owners[o].shard.table == Part(s.table, cfg.route, o)
      {
        assert OwnerTable(cfg, s.coordinator, s.table, o, s.owners[o]);
      }
    }
    hide Whole;
    hide Replay;
    hide Part;
    hide Accounted;
    hide Disciplined;
  }

  /**
   * Between the clock sample and its installation an owner holds its part from before the command,
   * and after it its part from after.
   */
  lemma NoPartialWrite(cfg: Config, s: State, o: nat)
    requires cfg.Valid() && Reachable(cfg, s) && o < |s.owners| && s.coordinator.Busy?
    requires s.coordinator.phase == Preparing || s.coordinator.phase == Applying
    ensures var c, w := s.coordinator, s.owners[o];
            && (w.reservation == None ==> w.shard.table == Part(s.table, cfg.route, o))
            && (w.reservation.Some? && (c.phase == Preparing || w.reservation.value.prepared.Some?) ==>
                  && w.shard.table == Part(c.before, cfg.route, o)
                  && Part(s.table, cfg.route, o) == Part(Whole(cfg, c.before, c.request.op, c.now).0, cfg.route, o))
            && (w.reservation.Some? && c.phase == Applying && w.reservation.value.prepared == None ==>
                  w.shard.table == Part(s.table, cfg.route, o))
  {
    ReachableInvariant(cfg, s);
    hide Reachable;
    var c, w := s.coordinator, s.owners[o];
    assert OwnerTable(cfg, c, s.table, o, w);
    assert OwnerOK(c, s.stops, o, w);
    hide Invariant;
    hide Relevant;
    hide Whole;
    hide Part;
    hide IndexOf;
    hide WithinBudget;
    hide Accounted;
    hide VotesOK;
    hide Prepare;
  }

  /**
   * No step reaches a dead location: no assertion of the owner loop fails, and nothing that has to be
   * sent to, split or joined finds its owner, coordinator or results missing.
   */
  lemma NeverFatal(cfg: Config, states: seq<State>, steps: seq<Step>, i: nat)
    requires cfg.Valid() && IsHistory(cfg, states, steps) && i < |states|
    ensures !states[i].coordinator.Crashed?
    ensures forall o :: 0 <= o < |states[i].owners| ==> !states[i].owners[o].at.Panicked?
  {
    hide IsHistory;
    RunInvariant(cfg, states, steps, i);
    assert Disciplined(cfg, states[i]);
    hide Consistent;
    hide Accounted;
    forall o | 0 <= o < |states[i].owners|
      ensures !states[i].owners[o].at.Panicked?
    {
      assert OwnerOK(states[i].coordinator, states[i].stops, o, states[i].owners[o]);
    }
  }

  /**
   * In every reachable state free and held credit add up to the capacity of every target, and the
   * payload queued at an owner, or waiting for and held by the coordinator, is within it.
   */
  lemma ByteCapacity(cfg: Config, s: State, target: Target)
    requires cfg.Valid() && Reachable(cfg, s) && ValidTarget(s, target)
    ensures FreeAt(s, target) + Held(s.clients, target) == cfg.queueBytes
    ensures target.Local? ==> QueuedBytes(s.owners[target.owner].data) <= cfg.queueBytes
    ensures target.Cross? ==> QueuedBytes(CrossQueue(s)) <= cfg.queueBytes
  {
    ReachableInvariant(cfg, s);
    hide Reachable;
    assert RequestsOK(cfg, s) && CreditsOK(cfg, s);
    hide Invariant;
    hide RequestsOK;
    QueuedWithinCapacity(cfg, s, target);
  }

  // ---------- reservations ----------

  /** A reserved owner is reserved for the one command in flight, and its preparation is current. */
  lemma ReservedForActive(cfg: Config, s: State, o: nat)
    requires cfg.Valid() && Reachable(cfg, s) && o < |s.owners| && s.owners[o].reservation.Some?
    ensures s.coordinator.Busy? && s.owners[o].reservation.value.txn == s.coordinator.txn
    ensures IndexOf(s.coordinator.shares, o) < |s.coordinator.shares|
    ensures Current(s.owners[o]) && !s.owners[o].stopping && s.owners[o].at != Exited
  {
    ReachableInvariant(cfg, s);
    hide Reachable;
    assert OwnerOK(s.coordinator, s.stops, o, s.owners[o]);
    hide Invariant;
    hide IndexOf;
    hide Relevant;
  }

  lemma AsideFreezes(w: Owner, step: Step)
    requires IsAside(step) && (step.DoDropStats? ==> step.i < |w.control|)
    ensures Aside(w, step).shard == w.shard
  {
  }

  /** Running a local command, a sweep or a query elsewhere leaves a reserved owner's shard alone. */
  lemma OwnerStepFreezes(cfg: Config, s: State, step: Step, o: nat)
    requires |s.owners| == |cfg.limits| && IsOwnerStep(step) && OwnerEnabled(cfg, s, step)
    requires o < |s.owners| && s.owners[o].reservation.Some? && step != DoControl(o)
    ensures |OwnerStep(cfg, s, step).owners| == |s.owners|
    ensures OwnerStep(cfg, s, step).owners[o].shard == s.owners[o].shard
  {
    if step.DoTurn? {
      TurnEffect(cfg, s, step.o, step.now);
    } else if step.DoData? {
      DataEffect(cfg, s, step.o, step.now);
    }
    hide OwnerTurn;
    hide RunHead;
    hide Sweep;
    hide Handle;
    hide Aside;
    if IsAside(step) {
      AsideFreezes(s.owners[step.o], step);
    }
  }

  lemma HandleFreezes(limits: ShardLimits, w: Owner, m: Control)
    requires !m.ApplyFor?
    ensures Handle(limits, w, m).0.shard == w.shard
  {
    hide Prepare;
  }

  lemma ControlFreezes(cfg: Config, s: State, o: nat)
    requires Disciplined(cfg, s) && o < |s.owners| && OwnerEnabled(cfg, s, DoControl(o))
    requires |OwnerControl(cfg, s, o).owners| == |s.owners|
    requires OwnerControl(cfg, s, o).owners[o].shard != s.owners[o].shard
    ensures s.coordinator.Busy? && s.owners[o].control[0] == ApplyFor(s.coordinator.txn)
    ensures s.coordinator.phase == Applying && Awaiting(s.coordinator, o)
  {
    var w := s.owners[o];
    if !w.control[0].ApplyFor? {
      HandleFreezes(cfg.limits[o], w.(control := w.control[1..]), w.control[0]);
    }
    assert w.control[0].ApplyFor?;
    hide Handle;
    hide OwnerControl;
    OldestMessage(s.coordinator, s.stops, o, w);
    hide OwnerOK;
    hide Relevant;
    hide CoordinatorOK;
  }

  lemma ClientStepFreezes(cfg: Config, s: State, step: Step, o: nat)
    requires Disciplined(cfg, s) && IsClientStep(step) && ClientEnabled(cfg, s, step) && o < |s.owners|
    ensures |ClientStep(cfg, s, step).owners| == |s.owners|
    ensures ClientStep(cfg, s, step).owners[o].shard == s.owners[o].shard
  {
    assert forall p :: 0 <= p < |s.owners| && s.owners[p].at == Exited ==> s.owners[p].dataClosed by {
      assert forall p :: 0 <= p < |s.owners| ==> OwnerOK(s.coordinator, s.stops, p, s.owners[p]);
    }
    ClientFrame(cfg, s, step);
    hide ClientStep;
    hide ClientEnabled;
    hide Disciplined;
    assert SameControl(s.owners[o], ClientStep(cfg, s, step).owners[o]);
  }

  lemma CoordinatorStepFreezes(cfg: Config, s: State, step: Step, o: nat)
    requires !IsOwnerStep(step) && !IsClientStep(step) && CoordinatorEnabled(cfg, s, step) && o < |s.owners|
    ensures |CoordinatorStep(cfg, s, step).owners| == |s.owners|
    ensures CoordinatorStep(cfg, s, step).owners[o].shard == s.owners[o].shard
  {
    if step.DoSend? {
      SentOwners(s);
      hide SendControl;
    } else if step.DoTake? {
      hide Shares;
    } else {
      hide Received;
      hide Whole;
    }
  }

  /** Installing a preparation is the only step that changes a reserved owner's table or revision. */
  lemma FrozenWhileReserved(cfg: Config, s: State, step: Step, s': State, o: nat)
    requires cfg.Valid() && Reachable(cfg, s) && Enabled(cfg, s, step) && s' == Do(cfg, s, step)
    requires o < |s.owners| == |s'.owners| && s.owners[o].reservation.Some?
    requires s'.owners[o].shard != s.owners[o].shard
    ensures step == DoControl(o) && s.owners[o].control != []
    ensures s.coordinator.Busy? && s.owners[o].control[0] == ApplyFor(s.coordinator.txn)
    ensures s.coordinator.phase == Applying && Awaiting(s.coordinator, o)
  {
    ReachableInvariant(cfg, s);
    assert Disciplined(cfg, s);
    hide Reachable;
    hide Invariant;
    hide Disciplined;
    hide OwnerTurn;
    hide OwnerControl;
    hide OwnerTick;
    hide RunHead;
    hide ClientStep;
    hide CoordinatorStep;
    if IsClientStep(step) {
      ClientStepFreezes(cfg, s, step, o);
    } else if !IsOwnerStep(step) {
      CoordinatorStepFreezes(cfg, s, step, o);
    } else if step != DoControl(o) {
      OwnerStepFreezes(cfg, s, step, o);
    } else {
      ControlFreezes(cfg, s, o);
    }
  }
}
