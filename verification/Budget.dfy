/** The owners' payload budgets add up to the configured total, which live data never exceeds. */
module Budget {
  import opened Consistency
  import opened Engine
  import opened Machine
  import opened Sequential
  import opened Sharding
  import opened Tables

  /** One owner's part of the configured payload limit; the remainder goes to the first owners. */
  function ShardPayload(total: nat, workers: nat, owner: nat): nat
    requires 0 < workers
  {
    total / workers + if owner < total % workers then 1 else 0
  }

  lemma {:induction false} EvenShares(each: nat, extra: nat, n: nat)
    ensures SumTo(n, o => each + if o < extra then 1 else 0) == n * each + if n < extra then n else extra
  {
    if n > 0 {
      EvenShares(each, extra, n - 1);
      assert n * each == (n - 1) * each + each;
    }
  }

  /** Nothing of the configured limit is lost to rounding and nothing is granted twice. */
  lemma ShardPayloadsAddUp(total: nat, workers: nat)
    requires 0 < workers
    ensures SumTo(workers, o => ShardPayload(total, workers, o)) == total
  {
    var each, extra := total / workers, total % workers;
    EvenShares(each, extra, workers);
    SumToSame(workers, o => ShardPayload(total, workers, o), o => each + if o < extra then 1 else 0);
    assert workers * each + extra == total;
  }

  /** The engine runs with the limits a total of `total` payload bytes gives. */
  predicate Apportioned(cfg: Config, total: nat) {
    && 0 < |cfg.limits|
    && forall o :: 0 <= o < |cfg.limits| ==> cfg.limits[o].maxPayload == ShardPayload(total, |cfg.limits|, o)
  }

  ghost function PayloadAt(s: State): nat -> nat {
    (o: nat) => if o < |s.owners| then Payload(s.owners[o].shard.table) else 0
  }

  /** In every state of every run the payload held by all owners together is within the configured total. */
  lemma PayloadWithinTotal(cfg: Config, states: seq<State>, steps: seq<Step>, i: nat, total: nat)
    requires cfg.Valid() && Apportioned(cfg, total) && IsHistory(cfg, states, steps) && i < |states|
    ensures |states[i].owners| == |cfg.limits|
    ensures SumTo(|cfg.limits|, PayloadAt(states[i])) <= total
  {
    hide IsHistory;
    RunInvariant(cfg, states, steps, i);
    var s, n := states[i], |cfg.limits|;
    assert Consistent(cfg, s);
    hide Invariant;
    forall o: nat | o < n
      ensures PayloadAt(s)(o) <= (o => ShardPayload(total, n, o))(o)
    {
      assert OwnerTable(cfg, s.coordinator, s.table, o, s.owners[o]);
    }
    hide Consistent;
    SumToSame(n, PayloadAt(s), o => ShardPayload(total, n, o));
    ShardPayloadsAddUp(total, n);
  }
}
