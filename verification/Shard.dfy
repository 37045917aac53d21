/** One owner's mutable shard: a table, its timer index and running totals, changed in place. */
module Shards {
  import opened Bytes
  import opened Commands
  import opened Decimal
  import opened Expiry
  import opened Sums
  import opened Tables
  import R = Replies

  /** The deadlines of the entries that have one. */
  function DeadlinesOf(t: Table): map<Bytes, int> {
    map k | k in t && t[k].deadline.Some? :: t[k].deadline.value
  }

  datatype ShardStats = ShardStats(
    keys: nat, payloadBytes: nat, expiringKeys: nat, expiredKeys: nat, appliedCommands: nat, limits: ShardLimits)

  class Shard {
    var entries: Table
    const expiry: ExpiryIndex
    const limits: ShardLimits
    var payloadBytes: nat
    var revision: nat
    var expiredKeys: nat
    var appliedCommands: nat

    /** The running total is the payload, the timers are the table's deadlines, the budgets hold. */
    ghost predicate Valid()
      reads this, expiry
    {
      && limits.Valid()
      && expiry.Valid() && expiry.Deadlines() == DeadlinesOf(entries)
      && payloadBytes == Payload(entries)
      && WithinBudget(entries, limits)
    }

    ghost function State(): ShardState
      reads this
    {
      ShardState(entries, revision)
    }

    constructor (limits: ShardLimits)
      requires limits.Valid()
      ensures Valid() && fresh(expiry) && this.limits == limits
      ensures State() == ShardState(map[], 0)
    {
      this.limits := limits;
      entries := map[];
      expiry := new ExpiryIndex();
      payloadBytes, revision, expiredKeys, appliedCommands := 0, 0, 0, 0;
    }

    method Stats() returns (stats: ShardStats)
      requires Valid()
      ensures stats == ShardStats(
                         |entries|, Payload(entries), |DeadlinesOf(entries)|, expiredKeys, appliedCommands, limits)
    {
      var timers := expiry.Len();
      stats := ShardStats(|entries|, payloadBytes, timers, expiredKeys, appliedCommands, limits);
    }

    // ---------- preparing ----------

    /** Looks a key up; a due entry is absent and its removal joins the effects. */
    method Observe(key: Bytes, now: i64, effects: Effects) returns (entry: Option<Entry>, effects': Effects)
      ensures entry == Live(entries, key, now)
      ensures effects' == effects + Lapsed(entries, {key}, now)
    {
      if key !in entries {
        return None, effects;
      }
      if Due(entries[key], now) {
        return None, effects[key := None];
      }
      return Some(entries[key]), effects;
    }

    method DecideDelete(keys: seq<Bytes>, now: i64) returns (decision: Decision)
      ensures Ok(decision) == Decide(entries, Delete(keys), now)
    {
      var effects: Effects := map[];
      var removed := 0;
      for i := 0 to |keys|
        invariant effects == Removals(keys[..i])
        invariant removed == |LiveAmong(entries, keys[..i], now)|
      {
        LiveAmongNext(entries, keys, i, now);
        DeletedNext(entries, keys[..i], keys[i], now);
        assert keys[..i + 1] == keys[..i] + [keys[i]];
        hide LiveAmong;
        hide Lapsed;
        if keys[i] !in effects {
          var entry, observed := Observe(keys[i], now, effects);
          if entry.Some? {
            removed := removed + 1;
          }
          effects := observed[keys[i] := None];
        }
      }
      assert keys[..|keys|] == keys;
      decision := Decision(effects, R.Integer(removed));
    }

    method DecideExists(keys: seq<Bytes>, now: i64) returns (decision: Decision)
      ensures Ok(decision) == Decide(entries, Exists(keys), now)
    {
      var effects: Effects := map[];
      var count := 0;
      for i := 0 to |keys|
        invariant effects == Lapsed(entries, ToSet(keys[..i]), now)
        invariant count == CountLive(entries, keys[..i], now)
      {
        assert keys[..i + 1][..i] == keys[..i];
        assert ToSet(keys[..i + 1]) == ToSet(keys[..i]) + {keys[i]};
        var entry;
        entry, effects := Observe(keys[i], now, effects);
        if entry.Some? {
          count := count + 1;
        }
      }
      assert keys[..|keys|] == keys;
      decision := Decision(effects, R.Integer(count));
    }

    method DecideMultiGet(keys: seq<Bytes>, now: i64) returns (decision: Decision)
      ensures Ok(decision) == Decide(entries, MultiGet(keys), now)
    {
      var effects: Effects := map[];
      var values: seq<R.Reply> := [];
      for i := 0 to |keys|
        invariant effects == Lapsed(entries, ToSet(keys[..i]), now)
        invariant values == ReadAll(entries, keys[..i], now)
      {
        assert ToSet(keys[..i + 1]) == ToSet(keys[..i]) + {keys[i]};
        var entry;
        entry, effects := Observe(keys[i], now, effects);
        values := values + [ValueReply(entry)];
      }
      assert keys[..|keys|] == keys;
      decision := Decision(effects, R.Array(values));
    }

    method DecideMultiSet(pairs: seq<(Bytes, Bytes)>, now: i64) returns (decision: Decision)
      ensures Ok(decision) == Decide(entries, MultiSet(pairs), now)
    {
      var effects: Effects := map[];
      for i := 0 to |pairs|
        invariant effects == LastWins(pairs[..i])
      {
        assert pairs[..i + 1][..i] == pairs[..i];
        effects := effects[pairs[i].0 := Some(Entry(pairs[i].1, None))];
      }
      assert pairs[..|pairs|] == pairs;
      decision := Decision(effects, R.OK);
    }

    /** The command's effects and response, read off the table without changing it. */
    method DecideCommand(op: Operation, now: i64) returns (r: Result<Decision, EngineError>)
      ensures r == Decide(entries, op, now)
    {
      hide LiveAmong;
      hide CountLive;
      hide LastWins;
      hide ReadAll;
      match op
      case Get(key) =>
        var entry, effects := Observe(key, now, map[]);
        ObservedOnly(entries, key, now);
        return Ok(Decision(effects, ValueReply(entry)));
      case Set(key, value, condition, expiry) =>
        var entry, effects := Observe(key, now, map[]);
        ObservedOnly(entries, key, now);
        var deadline := SetDeadline(entry, expiry, now);
        if deadline.Err? {
          return Err(deadline.error);
        }
        if Blocked(condition, entry.Some?) {
          return Ok(Decision(effects, R.Bulk(None)));
        }
        effects := effects[key := Some(Entry(value, deadline.value))];
        return Ok(Decision(effects, R.OK));
      case Increment(key, amount, subtract) =>
        var entry, effects := Observe(key, now, map[]);
        ObservedOnly(entries, key, now);
        var next := NextValue(entry, amount, subtract);
        if next.Err? {
          return Err(next.error);
        }
        var deadline := if entry.Some? then entry.value.deadline else None;
        effects := effects[key := Some(Entry(Print(next.value), deadline))];
        return Ok(Decision(effects, R.Integer(next.value)));
      case Delete(keys) =>
        var decision := DecideDelete(keys, now);
        return Ok(decision);
      case Exists(keys) =>
        var decision := DecideExists(keys, now);
        return Ok(decision);
      case MultiGet(keys) =>
        var decision := DecideMultiGet(keys, now);
        return Ok(decision);
      case MultiSet(pairs) =>
        var decision := DecideMultiSet(pairs, now);
        return Ok(decision);
      case Expire(key, milliseconds) =>
        var entry, effects := Observe(key, now, map[]);
        ObservedOnly(entries, key, now);
        if entry == None {
          return Ok(Decision(effects, R.Integer(0)));
        }
        if milliseconds <= 0 {
          return Ok(Decision(effects[key := None], R.Integer(1)));
        }
        if !FitsI64(now + milliseconds) {
          return Err(InvalidExpiry);
        }
        effects := effects[key := Some(entry.value.(deadline := Some(now + milliseconds)))];
        return Ok(Decision(effects, R.Integer(1)));
      case Ttl(key, inMilliseconds) =>
        var entry, effects := Observe(key, now, map[]);
        ObservedOnly(entries, key, now);
        return Ok(Decision(effects, R.Integer(Remaining(entry, inMilliseconds, now))));
      case Persist(key) =>
        var entry, effects := Observe(key, now, map[]);
        ObservedOnly(entries, key, now);
        if entry == None {
          return Ok(Decision(effects, R.Integer(0)));
        }
        if entry.value.deadline == None {
          return Ok(Decision(effects, R.Integer(0)));
        }
        effects := effects[key := Some(entry.value.(deadline := None))];
        return Ok(Decision(effects, R.Integer(1)));
    }

    /**
     * The budget check: totals are adjusted effect by effect, visiting the effects in any order.
     */
    method Preflight(effects: Effects, response: R.Reply) returns (r: Result<Prepared, EngineError>)
      requires Valid()
      ensures r ==
              if TooLong(response, limits.maxReply) then Err(ReplyTooLong)
              else if !WithinBudget(Applied(entries, effects), limits) then Err(OutOfMemory)
              else Ok(Prepared(revision, effects, Payload(Applied(entries, effects)), response))
    {
      hide Payload;
      hide Applied;
      hide TooLong;
      hide DeadlinesOf;
      if TooLong(response, limits.maxReply) {
        return Err(ReplyTooLong);
      }
      var keys: int := |entries|;
      var payload: int := payloadBytes;
      var rest := effects.Keys;
      NothingVisited(entries, effects);
      while rest != {}
        invariant rest <= effects.Keys
        invariant keys == |Applied(entries, effects - rest)|
        invariant payload == Payload(Applied(entries, effects - rest))
        decreases rest
      {
        var key :| key in rest;
        VisitEffect(entries, effects, rest, key);
        var next := effects[key];
        if key in entries {
          keys := keys - 1;
          payload := payload - EntrySize(key, entries[key]);
        }
        if next.Some? {
          keys := keys + 1;
          payload := payload + EntrySize(key, next.value);
        }
        rest := rest - {key};
      }
      assert effects - {} == effects;
      if keys > limits.maxKeys || payload > limits.maxPayload {
        return Err(OutOfMemory);
      }
      return Ok(Prepared(revision, effects, payload, response));
    }

    /** Phase one of a command: nothing changes until the preparation is applied. */
    method PrepareCommand(op: Operation, now: i64) returns (r: Result<Prepared, EngineError>)
      requires Valid()
      ensures r == Prepare(State(), limits, op, now)
    {
      var decision := DecideCommand(op, now);
      if decision.Err? {
        return Err(decision.error);
      }
      r := Preflight(decision.value.effects, decision.value.response);
    }

    // ---------- applying ----------

    /**
     * Phase two: installs a preparation made at this very revision. The effects are installed one
     * key at a time, in any order.
     */
    method Apply(prepared: Prepared) returns (response: R.Reply)
      requires Valid() && prepared.revision == revision
      requires prepared.payloadAfter == Payload(Applied(entries, prepared.effects))
      requires WithinBudget(Applied(entries, prepared.effects), limits)
      modifies this, expiry
      ensures Valid()
      ensures State() == Commit(old(State()), prepared) && response == prepared.response
      ensures appliedCommands == old(appliedCommands) + 1 && expiredKeys == old(expiredKeys)
    {
      ghost var before := entries;
      var effects := prepared.effects;
      var rest := effects.Keys;
      NothingVisited(entries, effects);
      hide Applied;
      hide Payload;
      hide DeadlinesOf;
      hide WithinBudget;
      while rest != {}
        invariant rest <= effects.Keys
        invariant entries == Applied(before, effects - rest)
        invariant expiry.Valid() && expiry.Deadlines() == DeadlinesOf(entries)
        invariant revision == old(revision)
        invariant appliedCommands == old(appliedCommands) && expiredKeys == old(expiredKeys)
        decreases rest
      {
        var key :| key in rest;
        InstallEffect(before, effects, rest, key);
        var next := effects[key];
        if next.Some? {
          if next.value.deadline.Some? {
            expiry.Set(key, next.value.deadline.value);
          } else {
            expiry.Remove(key);
          }
          entries := entries[key := next.value];
        } else {
          expiry.Remove(key);
          entries := entries - {key};
        }
        rest := rest - {key};
      }
      assert effects - {} == effects;
      payloadBytes := prepared.payloadAfter;
      revision := revision + 1;
      appliedCommands := appliedCommands + 1;
      response := prepared.response;
    }

    /** A single-owner command. */
    method ExecuteCommand(op: Operation, now: i64) returns (r: Result<R.Reply, EngineError>)
      requires Valid()
      modifies this, expiry
      ensures Valid()
      ensures (State(), r) == Execute(old(State()), limits, op, now)
    {
      var prepared := PrepareCommand(op, now);
      if prepared.Err? {
        return Err(prepared.error);
      }
      var response := Apply(prepared.value);
      return Ok(response);
    }

    /** Removes the earliest due entry, if there is one: a timer always has its due table entry. */
    method ExpireNext(now: i64) returns (removed: Option<Bytes>)
      requires Valid()
      modifies this, expiry
      ensures Valid() && appliedCommands == old(appliedCommands)
      ensures var left := DeadlinesOf(old(entries));
              match removed
              case None =>
                && (forall k :: k in left ==> now < left[k])
                && State() == old(State()) && expiredKeys == old(expiredKeys)
              case Some(key) =>
                && key in left && left[key] <= now && (forall k :: k in left ==> left[key] <= left[k])
                && State() == ShardState(old(entries) - {key}, old(revision) + 1)
                && expiredKeys == old(expiredKeys) + 1
    {
      hide Payload;
      hide DeadlinesOf;
      hide WithinBudget;
      removed := expiry.Expired(now);
      if removed == None {
        return;
      }
      var key := removed.value;
      ExpireOne(entries, key, now, limits);
      expiry.Remove(key);
      assert key in entries;
      var entry := entries[key];
      assert entry.deadline.Some? && entry.deadline.value <= now;
      entries := entries - {key};
      payloadBytes := payloadBytes - (|key| + |entry.value|);
      expiredKeys := expiredKeys + 1;
      revision := revision + 1;
    }

    /** Removes due entries, earliest first, up to a budget. */
    method ExpireDue(now: i64, budget: nat) returns (count: nat, ghost removed: set<Bytes>)
      requires Valid()
      modifies this, expiry
      ensures Valid()
      ensures Sweep(old(entries), now, budget, removed)
      ensures State() == Swept(old(State()), removed)
      ensures count == |removed| && expiredKeys == old(expiredKeys) + count
      ensures appliedCommands == old(appliedCommands)
    {
      hide DeadlinesOf;
      hide EarliestOf;
      hide Sweep;
      hide Payload;
      hide WithinBudget;
      hide DueKeys;
      count := 0;
      removed := {};
      ghost var before := entries;
      SweepStarts(before, now);
      while count < budget
        invariant Valid()
        invariant entries == before - removed
        invariant EarliestOf(before, now, removed)
        invariant count == |removed| <= budget
        invariant revision == old(revision) + count && expiredKeys == old(expiredKeys) + count
        invariant appliedCommands == old(appliedCommands)
        decreases budget - count
      {
        ghost var left := DeadlinesOf(entries);
        var next := ExpireNext(now);
        if next == None {
          NothingDue(before, now, removed, left);
          SweepComplete(before, now, budget, removed);
          return;
        }
        NextDue(before, now, removed, left, next.value);
        count := count + 1;
        removed := removed + {next.value};
      }
      SweepExhausted(before, now, budget, removed);
    }
  }

  /** Observing one key: nothing else is affected, and a write to it replaces its lazy removal. */
  lemma ObservedOnly(t: Table, key: Bytes, now: i64)
    ensures map[] + Lapsed(t, {key}, now) == Lapsed(t, {key}, now)
    ensures forall e: Option<Entry> :: Lapsed(t, {key}, now)[key := e] == map[key := e]
    ensures Live(t, key, now).Some? ==> Lapsed(t, {key}, now) == map[]
  {
  }

  function Removals(keys: seq<Bytes>): Effects {
    map k | k in keys :: None
  }

  /** The keys removed so far, with one more. */
  lemma DeletedNext(t: Table, keys: seq<Bytes>, key: Bytes, now: i64)
    ensures key in keys ==> Removals(keys + [key]) == Removals(keys)
    ensures (Removals(keys) + Lapsed(t, {key}, now))[key := None] == Removals(keys + [key])
  {
  }

  lemma LiveAmongNext(t: Table, keys: seq<Bytes>, i: nat, now: i64)
    requires i < |keys|
    ensures |LiveAmong(t, keys[..i + 1], now)| ==
            |LiveAmong(t, keys[..i], now)| +
            (if keys[i] !in keys[..i] && Live(t, keys[i], now).Some? then 1 else 0)
  {
    var before := LiveAmong(t, keys[..i], now);
    assert keys[..i + 1] == keys[..i] + [keys[i]];
    if keys[i] !in keys[..i] && Live(t, keys[i], now).Some? {
      assert LiveAmong(t, keys[..i + 1], now) == before + {keys[i]};
    } else {
      assert LiveAmong(t, keys[..i + 1], now) == before;
    }
  }

  lemma NothingVisited(t: Table, effects: Effects)
    ensures Applied(t, effects - effects.Keys) == t
  {
    assert effects - effects.Keys == map[];
  }

  lemma VisitNext(effects: Effects, rest: set<Bytes>, key: Bytes)
    requires rest <= effects.Keys && key in rest
    ensures effects - (rest - {key}) == (effects - rest)[key := effects[key]]
  {
  }

  lemma VisitEffect(t: Table, effects: Effects, rest: set<Bytes>, key: Bytes)
    requires rest <= effects.Keys && key in rest
    ensures var next := effects[key];
            var before := Applied(t, effects - rest);
            var after := Applied(t, effects - (rest - {key}));
            && |after| == |before| - (if key in t then 1 else 0) + (if next.Some? then 1 else 0)
            && Payload(after) == Payload(before) - (if key in t then EntrySize(key, t[key]) else 0)
                                 + (if next.Some? then EntrySize(key, next.value) else 0)
  {
    hide Payload;
    VisitNext(effects, rest, key);
    AppliedStep(t, effects - rest, key, effects[key]);
    OneEffect(Applied(t, effects - rest), key, effects[key]);
  }

  lemma InstallEffect(t: Table, effects: Effects, rest: set<Bytes>, key: Bytes)
    requires rest <= effects.Keys && key in rest
    ensures var next := effects[key];
            var before := Applied(t, effects - rest);
            var after := Applied(t, effects - (rest - {key}));
            && after == (if next.Some? then before[key := next.value] else before - {key})
            && DeadlinesOf(after) ==
               if next.Some? && next.value.deadline.Some?
               then DeadlinesOf(before)[key := next.value.deadline.value]
               else DeadlinesOf(before) - {key}
  {
    VisitNext(effects, rest, key);
    AppliedStep(t, effects - rest, key, effects[key]);
    AppliedOne(Applied(t, effects - rest), key, effects[key]);
  }

  /** A sweep in progress: due keys only, none later than a due key still present. */
  predicate EarliestOf(t: Table, now: i64, removed: set<Bytes>) {
    && removed <= DueKeys(t, now)
    && forall r, k :: r in removed && k in DueKeys(t, now) - removed ==> t[r].deadline.value <= t[k].deadline.value
  }

  lemma SweepStarts(t: Table, now: i64)
    ensures EarliestOf(t, now, {}) && t - {} == t
  {
  }

  lemma NothingDue(t: Table, now: i64, removed: set<Bytes>, left: map<Bytes, int>)
    requires EarliestOf(t, now, removed) && left == DeadlinesOf(t - removed)
    requires forall k :: k in left ==> now < left[k]
    ensures removed == DueKeys(t, now)
  {
    assert forall k :: k in DueKeys(t, now) - removed ==> k in left && left[k] <= now;
    assert DueKeys(t, now) - removed == {};
    assert DueKeys(t, now) == (DueKeys(t, now) - removed) + removed;
  }

  lemma NextDue(t: Table, now: i64, removed: set<Bytes>, left: map<Bytes, int>, key: Bytes)
    requires EarliestOf(t, now, removed) && left == DeadlinesOf(t - removed)
    requires key in left && left[key] <= now && forall k :: k in left ==> left[key] <= left[k]
    ensures key in t - removed && Due(t[key], now)
    ensures EarliestOf(t, now, removed + {key})
    ensures t - removed - {key} == t - (removed + {key})
  {
    forall k | k in DueKeys(t, now) - removed
      ensures t[key].deadline.value <= t[k].deadline.value
    {
      assert k in left;
    }
  }

  lemma ExpireOne(t: Table, key: Bytes, now: i64, limits: ShardLimits)
    requires key in DeadlinesOf(t) && DeadlinesOf(t)[key] <= now && WithinBudget(t, limits)
    ensures key in t && Due(t[key], now)
    ensures DeadlinesOf(t - {key}) == DeadlinesOf(t) - {key}
    ensures Payload(t - {key}) == Payload(t) - EntrySize(key, t[key])
    ensures EntrySize(key, t[key]) <= Payload(t)
    ensures WithinBudget(t - {key}, limits)
  {
    SumRemove(t, EntrySize, key);
    SizeRemove(t, key);
  }

  lemma SweepComplete(t: Table, now: i64, budget: nat, removed: set<Bytes>)
    requires removed == DueKeys(t, now) && |removed| <= budget
    ensures Sweep(t, now, budget, removed)
  {
  }

  lemma SweepExhausted(t: Table, now: i64, budget: nat, removed: set<Bytes>)
    requires EarliestOf(t, now, removed) && |removed| == budget
    ensures Sweep(t, now, budget, removed)
  {
    SubsetSize(removed, DueKeys(t, now));
  }
}
