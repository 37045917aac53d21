/** Unending runs: under any schedule that keeps taking the steps that carry work on, the work is done. */
module Eventually {
  import opened Bytes
  import opened Engine
  import opened Machine
  import opened Progress
  import opened Sequential
  import opened Shutdown

  /** An unending run; `None` is a moment at which nothing happens. */
  ghost predicate IsUnending(cfg: Config, states: nat -> State, steps: nat -> Option<Step>) {
    forall i: nat :: Follows(cfg, states(i), steps(i), states(i + 1))
  }

  ghost predicate Follows(cfg: Config, s: State, step: Option<Step>, s': State) {
    if step == None then s' == s else Enabled(cfg, s, step.value) && s' == Do(cfg, s, step.value)
  }

  lemma Moment(cfg: Config, states: nat -> State, steps: nat -> Option<Step>, i: nat)
    requires IsUnending(cfg, states, steps)
    ensures Follows(cfg, states(i), steps(i), states(i + 1))
  {
  }

  // ---------- coming to rest ----------

  /** A step taken at this moment carries the ending on. */
  predicate CarriedOn(states: nat -> State, steps: nat -> Option<Step>, i: nat) {
    steps(i).Some? && Carries(states(i), steps(i).value)
  }

  /** Until every owner has stopped, some later step carries the ending on. */
  ghost predicate KeepsCarrying(states: nat -> State, steps: nat -> Option<Step>) {
    forall i: nat :: !Stopped(states(i)) ==> exists j: nat :: i <= j && CarriedOn(states, steps, j)
  }

  lemma EndingMoment(cfg: Config, s: State, step: Option<Step>, s': State)
    requires cfg.Valid() && Ending(cfg, s) && Follows(cfg, s, step, s')
    ensures Ending(cfg, s') && (LeftOver(s') == LeftOver(s) || Fewer(LeftOver(s'), LeftOver(s)))
    ensures step.Some? && Carries(s, step.value) ==> Fewer(LeftOver(s'), LeftOver(s))
  {
    hide Ending;
    hide Enabled;
    hide Do;
    hide LeftOver;
    hide Fewer;
    hide Carries;
    if step.Some? {
      EndingStep(cfg, s, step.value);
    }
  }

  /** From moment `i` on, with a carrying step due at moment `j`. */
  lemma {:induction false} RestsFrom(
    cfg: Config, states: nat -> State, steps: nat -> Option<Step>, i: nat, j: nat) returns (n: nat)
    requires cfg.Valid() && IsUnending(cfg, states, steps) && KeepsCarrying(states, steps)
    requires Ending(cfg, states(i)) && i <= j && CarriedOn(states, steps, j)
    ensures i <= n && AtRest(states(n))
    decreases LeftOver(states(i)).pending, LeftOver(states(i)).unasked, LeftOver(states(i)).finishing,
              LeftOver(states(i)).waiting, LeftOver(states(i)).command.rounds, LeftOver(states(i)).command.stage,
              LeftOver(states(i)).command.work, LeftOver(states(i)).unsent, LeftOver(states(i)).toil, j - i
  {
    hide IsUnending;
    hide Ending;
    hide Carries;
    hide LeftOver;
    hide Stopped;
    hide AtRest;
    hide Follows;
    Moment(cfg, states, steps, i);
    EndingMoment(cfg, states(i), steps(i), states(i + 1));
    if Stopped(states(i + 1)) {
      n := i + 1;
      StoppedAtRest(cfg, states(n));
    } else if CarriedOn(states, steps, i) {
      var k: nat :| i + 1 <= k && CarriedOn(states, steps, k);
      n := RestsFrom(cfg, states, steps, i + 1, k);
    } else {
      n := RestsFrom(cfg, states, steps, i + 1, j);
    }
  }

  /**
   * Whatever the schedule does between them, if it keeps taking steps that carry the ending on, every
   * owner stops and every accepted command has been answered.
   */
  lemma EventuallyAtRest(cfg: Config, states: nat -> State, steps: nat -> Option<Step>) returns (n: nat)
    requires cfg.Valid() && IsUnending(cfg, states, steps) && KeepsCarrying(states, steps)
    requires Reachable(cfg, states(0)) && (states(0).closing || states(0).dropped)
    ensures AtRest(states(n))
  {
    hide Reachable;
    hide Ending;
    hide IsUnending;
    ReachableEnding(cfg, states(0));
    if Stopped(states(0)) {
      n := 0;
      StoppedAtRest(cfg, states(0));
    } else {
      var j: nat :| 0 <= j && CarriedOn(states, steps, j);
      n := RestsFrom(cfg, states, steps, 0, j);
    }
  }

  // ---------- finishing the command in flight ----------

  predicate Advanced(states: nat -> State, steps: nat -> Option<Step>, i: nat) {
    steps(i).Some? && states(i).coordinator.Busy? && Advances(states(i), steps(i).value)
  }

  /** While a command is in flight, some later step carries one forward. */
  ghost predicate KeepsAdvancing(states: nat -> State, steps: nat -> Option<Step>) {
    forall i: nat :: states(i).coordinator.Busy? ==> exists j: nat :: i <= j && Advanced(states, steps, j)
  }

  predicate IsAnswered(s: State, id: nat) {
    id in s.clients && s.clients[id].Answered?
  }

  /** One moment with a command in flight: it is carried forward, answered, or left as it is. */
  lemma BusyMoment(cfg: Config, s: State, step: Option<Step>, s': State)
    requires cfg.Valid() && Invariant(cfg, s) && s.coordinator.Busy? && Follows(cfg, s, step, s')
    ensures Invariant(cfg, s')
    ensures s'.coordinator.Busy? ==> s'.coordinator.request == s.coordinator.request
    ensures !s'.coordinator.Busy? ==> IsAnswered(s', s.coordinator.request.id)
    ensures Measure(s') == Measure(s) || Below(Measure(s'), Measure(s))
    ensures step.Some? && Advances(s, step.value) ==> Below(Measure(s'), Measure(s))
  {
    hide Invariant;
    hide Enabled;
    hide Do;
    hide Advances;
    hide Measure;
    hide Below;
    if step.Some? {
      StepInvariant(cfg, s, step.value);
      if Advances(s, step.value) {
        Descends(cfg, s, step.value);
        StillInFlight(cfg, s, step.value);
      } else {
        NeverRises(cfg, s, step.value);
      }
    }
  }

  lemma NextAdvance(states: nat -> State, steps: nat -> Option<Step>, i: nat) returns (j: nat)
    requires KeepsAdvancing(states, steps) && states(i).coordinator.Busy?
    ensures i <= j && Advanced(states, steps, j)
  {
    hide Advanced;
    j :| i <= j && Advanced(states, steps, j);
  }

  /** From moment `i` on, with a step that carries the command forward due at moment `j`. */
  lemma {:induction false} AnsweredFrom(
    cfg: Config, states: nat -> State, steps: nat -> Option<Step>, i: nat, j: nat) returns (n: nat)
    requires cfg.Valid() && IsUnending(cfg, states, steps) && KeepsAdvancing(states, steps)
    requires Invariant(cfg, states(i)) && states(i).coordinator.Busy? && i <= j && Advanced(states, steps, j)
    ensures i <= n && IsAnswered(states(n), states(i).coordinator.request.id)
    decreases Measure(states(i)).rounds, Measure(states(i)).stage, Measure(states(i)).work, j - i
  {
    hide IsUnending;
    hide KeepsAdvancing;
    hide Invariant;
    hide Advances;
    hide Measure;
    hide IsAnswered;
    hide Follows;
    Moment(cfg, states, steps, i);
    BusyMoment(cfg, states(i), steps(i), states(i + 1));
    if !states(i + 1).coordinator.Busy? {
      n := i + 1;
    } else if Advanced(states, steps, i) {
      var k := NextAdvance(states, steps, i + 1);
      n := AnsweredFrom(cfg, states, steps, i + 1, k);
    } else {
      n := AnsweredFrom(cfg, states, steps, i + 1, j);
    }
  }

  /**
   * Whatever runs between them, if the schedule keeps taking steps that carry the command in flight
   * forward, its client is answered.
   */
  lemma EventuallyAnswered(cfg: Config, states: nat -> State, steps: nat -> Option<Step>, i: nat) returns (n: nat)
    requires cfg.Valid() && IsUnending(cfg, states, steps) && KeepsAdvancing(states, steps)
    requires Reachable(cfg, states(i)) && states(i).coordinator.Busy?
    ensures i <= n && IsAnswered(states(n), states(i).coordinator.request.id)
  {
    hide Reachable;
    hide Invariant;
    hide IsUnending;
    ReachableInvariant(cfg, states(i));
    var j := NextAdvance(states, steps, i);
    n := AnsweredFrom(cfg, states, steps, i, j);
  }
}
