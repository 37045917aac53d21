/** One owner thread's loop, as an object that updates its shard, queues and reservation in place. */
module Owners {
  import opened Bytes
  import opened Commands
  import opened Machine
  import opened Shards
  import opened Tables
  import R = Replies

  /** A preparation made at the shard's revision can be installed: its total is right and it fits. */
  ghost predicate Installable(reservation: Option<Reservation>, st: ShardState, limits: ShardLimits) {
    && reservation.Some? && reservation.value.prepared.Some?
    && reservation.value.prepared.value.revision == st.revision ==>
      var prepared := reservation.value.prepared.value;
      var after := Applied(st.table, prepared.effects);
      prepared.payloadAfter == Payload(after) && WithinBudget(after, limits)
  }

  lemma PreparedInstallable(st: ShardState, limits: ShardLimits, op: Operation, now: i64, txn: nat)
    ensures var r := Prepare(st, limits, op, now);
            r.Ok? ==> Installable(Some(Reservation(txn, Some(r.value))), st, limits)
  {
    hide Decide;
    hide TooLong;
  }

  class OwnerThread {
    const shard: Shard
    var data: seq<Request>
    var dataClosed: bool
    var control: seq<Control>
    var reservation: Option<Reservation>
    var dataTurn: bool
    var stopping: bool
    var at: Location
    var free: nat
    ghost var served: nat
    ghost var handled: nat
    ghost var released: nat

    ghost predicate Valid()
      reads this, shard, shard.expiry
    {
      shard.Valid() && Installable(reservation, shard.State(), shard.limits)
    }

    /** The owner as the engine's state machine sees it. */
    ghost function Value(): (w: Owner)
      reads this, shard
    {
      Owner(
        shard.State(), data, dataClosed, control, reservation, dataTurn, stopping, at,
        free, served, handled, released)
    }

    constructor (limits: ShardLimits, credits: nat)
      requires limits.Valid()
      ensures Valid() && fresh(shard) && fresh(shard.expiry) && shard.limits == limits
      ensures Value() == Owner(ShardState(map[], 0), [], false, [], None, false, false, Top, credits, 0, 0, 0)
    {
      var own := new Shard(limits);
      shard := own;
      data, dataClosed, control := [], false, [];
      reservation, dataTurn, stopping, at := None, false, false, Top;
      free, served, handled, released := credits, 0, 0, 0;
    }

    /** Runs one local command and drops its request, with its credit. */
    method ExecuteLocal(now: i64) returns (id: nat, reply: R.Reply)
      requires Valid() && data != [] && reservation == None
      modifies this, shard, shard.expiry
      ensures Valid() && id == old(data[0].id)
      ensures (Value(), reply) == ServeHead(shard.limits, old(Value()), now)
    {
      hide Execute;
      hide WithinBudget;
      hide Payload;
      var request := data[0];
      var r := shard.ExecuteCommand(request.op, now);
      data := data[1..];
      free := free + request.charge;
      served := served + 1;
      id := request.id;
      reply := match r case Ok(response) => response case Err(error) => error.ToReply();
    }

    /** The top of the loop. */
    method TakeTurn(now: i64) returns (answered: Option<(nat, R.Reply)>)
      requires Valid() && at == Top
      modifies this, shard, shard.expiry
      ensures Valid()
      ensures var w := old(Value());
              if DataFirst(w) && w.data != [] then
                && Value() == ServeHead(shard.limits, TurnTaken(w), now).0
                && answered == Some((w.data[0].id, ServeHead(shard.limits, TurnTaken(w), now).1))
              else Value() == TurnTaken(w) && answered == None
    {
      answered := None;
      at := Selecting;
      if dataTurn && reservation == None {
        dataTurn := false;
        if data != [] {
          var id, reply := ExecuteLocal(now);
          answered := Some((id, reply));
        }
      }
    }

    /** The data branch of the selection. */
    method ReceiveData(now: i64) returns (id: nat, reply: R.Reply)
      requires Valid() && at == Selecting && reservation == None && data != []
      modifies this, shard, shard.expiry
      ensures Valid() && id == old(data[0].id)
      ensures (Value(), reply) == ServeHead(shard.limits, old(Value()).(at := Top), now)
    {
      at := Top;
      id, reply := ExecuteLocal(now);
    }

    /** The tick branch of the selection. */
    method Tick(now: i64, budget: nat) returns (ghost removed: set<Bytes>)
      requires Valid() && at == Selecting && reservation == None
      modifies this, shard, shard.expiry
      ensures Valid() && Sweep(old(Value()).shard.table, now, budget, removed)
      ensures Value() == Ticked(old(Value()), removed)
    {
      hide Sweep;
      hide WithinBudget;
      hide Payload;
      var count;
      count, removed := shard.ExpireDue(now, budget);
      dataTurn := true;
      at := Top;
    }

    /**
     * The control branch of the selection. The owner must not be in a state in which one of the
     * branch's assertions fails.
     */
    method HandleControl() returns (ack: Option<Ack>)
      requires Valid() && at == Selecting && !stopping && control != []
      requires Handle(shard.limits, Value().(control := control[1..]), control[0]).0.at != Panicked
      modifies this, shard, shard.expiry
      ensures Valid()
      ensures (Value(), ack) == Handle(shard.limits, old(Value().(control := control[1..])), old(control[0]))
    {
      hide OnReserve;
      hide OnPrepare;
      hide OnApply;
      hide OnRelease;
      hide Prepare;
      hide Applied;
      hide Payload;
      hide WithinBudget;
      var message := control[0];
      control := control[1..];
      at := Top;
      handled := handled + 1;
      match message
      case ReserveFor(txn) =>
        ack := Reserve(txn);
      case PrepareFor(txn, op, now) =>
        ack := PrepareShare(txn, op, now);
      case ApplyFor(txn) =>
        ack := Install(txn);
      case ReleaseFor(txn) =>
        ack := Release(txn);
      case StatsQuery =>
        dataTurn := true;
        ack := None;
      case Stop =>
        dataClosed := true;
        stopping := true;
        ack := None;
    }

    /** The control branch once every sender is gone; an owner still reserved would be fatal. */
    method ControlClosed()
      requires Valid() && at == Selecting && !stopping && control == [] && OnClosed(Value()).at != Panicked
      modifies this
      ensures Valid() && Value() == OnClosed(old(Value()))
    {
      assert reservation == None;
      dataClosed := true;
      stopping := true;
      at := Top;
    }

    method Reserve(txn: nat) returns (ack: Option<Ack>)
      requires Valid() && OnReserve(Value(), txn).0.at != Panicked
      modifies this
      ensures Valid() && (Value(), ack) == OnReserve(old(Value()), txn)
    {
      assert reservation == None;
      reservation := Some(Reservation(txn, None));
      ack := Some(Done);
    }

    method PrepareShare(txn: nat, op: Operation, now: i64) returns (ack: Option<Ack>)
      requires Valid() && OnPrepare(shard.limits, Value(), txn, op, now).0.at != Panicked
      modifies this
      ensures Valid() && (Value(), ack) == OnPrepare(shard.limits, old(Value()), txn, op, now)
    {
      assert reservation == Some(Reservation(txn, None));
      PreparedInstallable(shard.State(), shard.limits, op, now, txn);
      var result := shard.PrepareCommand(op, now);
      hide Prepare;
      hide Installable;
      if result.Ok? {
        reservation := Some(Reservation(txn, Some(result.value)));
        return Some(Voted(Ok(result.value.response)));
      }
      return Some(Voted(Err(result.error)));
    }

    method Install(txn: nat) returns (ack: Option<Ack>)
      requires Valid() && OnApply(Value(), txn).0.at != Panicked
      modifies this, shard, shard.expiry
      ensures Valid() && (Value(), ack) == OnApply(old(Value()), txn)
    {
      var active := reservation.value;
      assert active.txn == txn && active.prepared.Some?;
      var response := shard.Apply(active.prepared.value);
      reservation := Some(Reservation(txn, None));
      ack := Some(Done);
    }

    method Release(txn: nat) returns (ack: Option<Ack>)
      requires Valid() && OnRelease(Value(), txn).0.at != Panicked
      modifies this
      ensures Valid() && (Value(), ack) == OnRelease(old(Value()), txn)
    {
      assert reservation.Some? && reservation.value.txn == txn;
      reservation := None;
      dataTurn := true;
      released := released + 1;
      ack := Some(Done);
    }
  }
}
