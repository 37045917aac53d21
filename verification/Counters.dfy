/** Counters are exact: the stored value is the sum of the accepted amounts. */
module Counters {
  import opened Bytes
  import opened Commands
  import opened Decimal
  import opened Tables
  import R = Replies

  datatype Change = Change(amount: i64, subtract: bool, now: i64)

  function Signed(c: Change): int {
    var amount: int := c.amount;
    if c.subtract then -amount else amount
  }

  ghost function Outcome(st: ShardState, limits: ShardLimits, key: Bytes, c: Change)
    : (ShardState, Result<R.Reply, EngineError>)
  {
    Execute(st, limits, Increment(key, c.amount, c.subtract), c.now)
  }

  ghost function RunAll(st: ShardState, limits: ShardLimits, key: Bytes, changes: seq<Change>): ShardState
    decreases |changes|
  {
    if changes == [] then st else RunAll(Outcome(st, limits, key, changes[0]).0, limits, key, changes[1..])
  }

  /** The sum of the amounts of the changes that were accepted. */
  ghost function AcceptedSum(st: ShardState, limits: ShardLimits, key: Bytes, changes: seq<Change>): int
    decreases |changes|
  {
    if changes == [] then 0
    else
      var (next, reply) := Outcome(st, limits, key, changes[0]);
      (if reply.Ok? then Signed(changes[0]) else 0) + AcceptedSum(next, limits, key, changes[1..])
  }

  /** The key holds the counter `n` and outlives every clock reading of the changes. */
  predicate Holds(t: Table, key: Bytes, n: int, deadline: Option<i64>) {
    key in t && t[key] == Entry(Print(n), deadline) && FitsI64(n)
  }

  predicate Unexpired(deadline: Option<i64>, changes: seq<Change>) {
    forall i :: 0 <= i < |changes| ==> deadline.Some? ==> changes[i].now < deadline.value
  }

  /** When the sum is representable, the minimum is not being negated, and the entry fits. */
  ghost predicate Accepts(st: ShardState, limits: ShardLimits, key: Bytes, n: int, deadline: Option<i64>, c: Change) {
    && !(c.subtract && c.amount == I64_MIN)
    && FitsI64(n + Signed(c))
    && !TooLong(R.Integer(n + Signed(c)), limits.maxReply)
    && WithinBudget(st.table[key := Entry(Print(n + Signed(c)), deadline)], limits)
  }

  lemma OneChange(st: ShardState, limits: ShardLimits, key: Bytes, n: int, deadline: Option<i64>, c: Change)
    requires Holds(st.table, key, n, deadline) && Unexpired(deadline, [c])
    ensures var (next, reply) := Outcome(st, limits, key, c);
            if Accepts(st, limits, key, n, deadline, c) then
              && reply == Ok(R.Integer(n + Signed(c)))
              && next.table == st.table[key := Entry(Print(n + Signed(c)), deadline)]
            else reply.Err? && next == st
  {
    assert deadline.Some? ==> [c][0].now < deadline.value;
    IntegerIsCanonical(Print(n), n);
    assert Live(st.table, key, c.now) == Some(Entry(Print(n), deadline));
    var next := NextValue(Live(st.table, key, c.now), c.amount, c.subtract);
    assert next == if c.subtract && c.amount == I64_MIN then Err(CounterOverflow)
                   else if FitsI64(n + Signed(c)) then Ok((n + Signed(c)) as i64) else Err(CounterOverflow);
    if next.Ok? {
      AppliedOne(st.table, key, Some(Entry(Print(next.value), deadline)));
    }
    ExecuteCases(st, limits, Increment(key, c.amount, c.subtract), c.now);
    hide Execute;
    hide Applied;
    hide NextValue;
    hide Print;
    hide TooLong;
    hide WithinBudget;
    hide FitsI64;
    hide Live;
  }

  /**
   * After any run of changes the stored value is the canonical form of the start plus the accepted
   * amounts; the deadline and every other entry are untouched.
   */
  lemma {:induction false} CounterIsExact(
    st: ShardState, limits: ShardLimits, key: Bytes, n: int, deadline: Option<i64>, changes: seq<Change>)
    requires Holds(st.table, key, n, deadline) && Unexpired(deadline, changes)
    ensures FitsI64(n + AcceptedSum(st, limits, key, changes))
    ensures RunAll(st, limits, key, changes).table ==
            st.table[key := Entry(Print(n + AcceptedSum(st, limits, key, changes)), deadline)]
    decreases |changes|
  {
    hide Execute;
    hide Print;
    if changes == [] {
    } else {
      var c := changes[0];
      OneChange(st, limits, key, n, deadline, c);
      var (next, reply) := Outcome(st, limits, key, c);
      var m := if reply.Ok? then n + Signed(c) else n;
      CounterIsExact(next, limits, key, m, deadline, changes[1..]);
    }
  }
}
