/** Background expiry cannot be observed, and what it removed cannot come back. */
module Expiration {
  import opened Bytes
  import opened Commands
  import opened Tables
  import R = Replies

  /** One owner's history: commands, and sweeps removing some due keys. */
  datatype Step =
    | Run(op: Operation, now: i64)
    | Clean(removed: set<Bytes>, now: i64)

  ghost function After(st: ShardState, limits: ShardLimits, step: Step): ShardState {
    match step
    case Run(op, now) => Execute(st, limits, op, now).0
    case Clean(removed, now) => Swept(st, removed)
  }

  /** Sweeps remove due keys only; the clock never goes back from `clock`. */
  ghost predicate Legal(st: ShardState, limits: ShardLimits, steps: seq<Step>, clock: i64)
    decreases |steps|
  {
    steps != [] ==>
      && clock <= steps[0].now
      && (steps[0].Clean? ==> steps[0].removed <= DueKeys(st.table, steps[0].now))
      && Legal(After(st, limits, steps[0]), limits, steps[1..], steps[0].now)
  }

  /** The replies of the commands, in order. */
  ghost function Answers(st: ShardState, limits: ShardLimits, steps: seq<Step>): seq<Result<R.Reply, EngineError>>
    decreases |steps|
  {
    if steps == [] then []
    else
      var rest := Answers(After(st, limits, steps[0]), limits, steps[1..]);
      if steps[0].Run? then [Execute(st, limits, steps[0].op, steps[0].now).1] + rest else rest
  }

  function CommandsOf(steps: seq<Step>): seq<Step> {
    if steps == [] then []
    else if steps[0].Run? then [steps[0]] + CommandsOf(steps[1..])
    else CommandsOf(steps[1..])
  }

  function Later(a: i64, b: i64): i64 {
    if a <= b then b else a
  }

  lemma ViewLater(a: Table, b: Table, now: i64, later: i64)
    requires View(a, now) == View(b, now) && now <= later
    ensures View(a, later) == View(b, later)
  {
    forall t: Table
      ensures View(t, later) == View(View(t, now), later)
    {
      ViewOfView(t, now, later);
    }
  }

  lemma ViewOfView(t: Table, now: i64, later: i64)
    requires now <= later
    ensures View(t, later) == View(View(t, now), later)
  {
  }

  lemma SweptView(st: ShardState, removed: set<Bytes>, now: i64, later: i64)
    requires removed <= DueKeys(st.table, now) && now <= later
    ensures View(Swept(st, removed).table, later) == View(st.table, later)
  {
  }

  /** Two tables with the same live entries answer a command alike, unless one lacks the room. */
  lemma SameViewSameAnswer(a: ShardState, b: ShardState, limits: ShardLimits, op: Operation, now: i64)
    requires View(a.table, now) == View(b.table, now)
    requires Execute(a, limits, op, now).1 != Err(OutOfMemory)
    requires Execute(b, limits, op, now).1 != Err(OutOfMemory)
    ensures Execute(a, limits, op, now).1 == Execute(b, limits, op, now).1
    ensures View(Execute(a, limits, op, now).0.table, now) == View(Execute(b, limits, op, now).0.table, now)
  {
    DecideRefinesMeaning(a.table, op, now);
    DecideRefinesMeaning(b.table, op, now);
    hide View;
    hide Decide;
    hide Meaning;
    hide Applied;
    hide TooLong;
    hide WithinBudget;
  }

  /**
   * Under a clock that never goes back, adding or removing sweeps anywhere between the commands
   * changes no reply, as long as no command is rejected for capacity in either history.
   */
  lemma {:induction false} SweepsAreInvisible(
    a: ShardState, b: ShardState, limits: ShardLimits, aSteps: seq<Step>, bSteps: seq<Step>, aClock: i64, bClock: i64)
    requires Legal(a, limits, aSteps, aClock) && Legal(b, limits, bSteps, bClock)
    requires CommandsOf(aSteps) == CommandsOf(bSteps)
    requires View(a.table, Later(aClock, bClock)) == View(b.table, Later(aClock, bClock))
    requires Err(OutOfMemory) !in Answers(a, limits, aSteps)
    requires Err(OutOfMemory) !in Answers(b, limits, bSteps)
    ensures Answers(a, limits, aSteps) == Answers(b, limits, bSteps)
    decreases |aSteps| + |bSteps|
  {
    hide View;
    hide Execute;
    hide DueKeys;
    hide Swept;
    var clock := Later(aClock, bClock);
    if aSteps != [] && aSteps[0].Clean? {
      var now := aSteps[0].now;
      var after := After(a, limits, aSteps[0]);
      ViewLater(a.table, b.table, clock, Later(now, bClock));
      SweptView(a, aSteps[0].removed, now, Later(now, bClock));
      SweepsAreInvisible(after, b, limits, aSteps[1..], bSteps, now, bClock);
    } else if bSteps != [] && bSteps[0].Clean? {
      var now := bSteps[0].now;
      var after := After(b, limits, bSteps[0]);
      ViewLater(a.table, b.table, clock, Later(aClock, now));
      SweptView(b, bSteps[0].removed, now, Later(aClock, now));
      SweepsAreInvisible(a, after, limits, aSteps, bSteps[1..], aClock, now);
    } else if aSteps != [] && bSteps != [] {
      var op, now := aSteps[0].op, aSteps[0].now;
      assert bSteps[0] == aSteps[0] && CommandsOf(aSteps[1..]) == CommandsOf(bSteps[1..]) by {
        assert aSteps[0] == CommandsOf(aSteps)[0] && bSteps[0] == CommandsOf(bSteps)[0];
        assert CommandsOf(aSteps[1..]) == CommandsOf(aSteps)[1..];
        assert CommandsOf(bSteps[1..]) == CommandsOf(bSteps)[1..];
      }
      ViewLater(a.table, b.table, clock, now);
      FirstAnswer(a, limits, aSteps);
      FirstAnswer(b, limits, bSteps);
      SameViewSameAnswer(a, b, limits, op, now);
      SweepsAreInvisible(After(a, limits, aSteps[0]), After(b, limits, bSteps[0]), limits,
                         aSteps[1..], bSteps[1..], now, now);
    }
  }

  lemma FirstAnswer(st: ShardState, limits: ShardLimits, steps: seq<Step>)
    requires steps != [] && steps[0].Run?
    requires Err(OutOfMemory) !in Answers(st, limits, steps)
    ensures Execute(st, limits, steps[0].op, steps[0].now).1 != Err(OutOfMemory)
    ensures Err(OutOfMemory) !in Answers(After(st, limits, steps[0]), limits, steps[1..])
  {
    hide Execute;
    var first := Execute(st, limits, steps[0].op, steps[0].now).1;
    var rest := Answers(After(st, limits, steps[0]), limits, steps[1..]);
    assert Answers(st, limits, steps) == [first] + rest;
    assert first in [first] + rest;
    assert forall r :: r in rest ==> r in [first] + rest;
  }

  /** The keys a command may create. */
  function Writes(op: Operation): set<Bytes> {
    match op
    case Set(key, _, _, _) => {key}
    case Increment(key, _, _) => {key}
    case MultiSet(pairs) => set i | 0 <= i < |pairs| :: pairs[i].0
    case _ => {}
  }

  lemma {:induction false} LastWinsKeys(pairs: seq<(Bytes, Bytes)>)
    ensures LastWins(pairs).Keys == set i | 0 <= i < |pairs| :: pairs[i].0
  {
    if pairs != [] {
      var front := pairs[..|pairs| - 1];
      LastWinsKeys(front);
      assert forall i :: 0 <= i < |front| ==> front[i] == pairs[i];
      assert (set i | 0 <= i < |pairs| :: pairs[i].0) ==
             (set i | 0 <= i < |front| :: front[i].0) + {pairs[|pairs| - 1].0};
    }
  }

  lemma NewKeysAreWritten(t: Table, op: Operation, now: i64)
    ensures Decide(t, op, now).Ok? ==> Applied(t, Decide(t, op, now).value.effects).Keys <= t.Keys + Writes(op)
  {
    if op.MultiSet? {
      LastWinsKeys(op.pairs);
    }
  }

  ghost function AfterAll(st: ShardState, limits: ShardLimits, steps: seq<Step>): ShardState
    decreases |steps|
  {
    if steps == [] then st else AfterAll(After(st, limits, steps[0]), limits, steps[1..])
  }

  /**
   * A removed key stays removed until some command writes it, even if the clock goes back: no step
   * of any kind and at any times brings it into the table again.
   */
  lemma {:induction false} RemovedStaysRemoved(st: ShardState, limits: ShardLimits, steps: seq<Step>, key: Bytes)
    requires key !in st.table
    requires forall i :: 0 <= i < |steps| && steps[i].Run? ==> key !in Writes(steps[i].op)
    ensures key !in AfterAll(st, limits, steps).table
    decreases |steps|
  {
    if steps != [] {
      var next := After(st, limits, steps[0]);
      assert key !in next.table by {
        if steps[0].Run? {
          NewKeysAreWritten(st.table, steps[0].op, steps[0].now);
        }
      }
      RemovedStaysRemoved(next, limits, steps[1..], key);
    }
  }
}
