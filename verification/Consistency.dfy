/**
 * Atomicity: at every moment the owners' tables, together with the coordinated command in flight,
 * make up one sequential table.
 */
module Consistency {
  import opened Bytes
  import opened Commands
  import opened Discipline
  import opened Machine
  import opened Sequential
  import opened Sharding
  import opened Tables
  import R = Replies

  /** The command in flight has taken its place in the history but not yet changed this owner. */
  predicate Pending(c: Coordinator, o: nat) {
    && c.Busy? && (c.phase == Preparing || c.phase == Applying)
    && IndexOf(c.shares, o) < |c.shares|
    && !(c.phase == Applying && Acked(c, IndexOf(c.shares, o)))
  }

  /** The whole command, at its clock sample. */
  ghost function Outcome(cfg: Config, c: Coordinator): (Table, R.Reply)
    requires c.Busy?
  {
    Whole(cfg, c.before, c.request.op, c.now)
  }

  ghost predicate PreparationOK(cfg: Config, c: Coordinator, o: nat, w: Owner)
    requires o < |cfg.limits|
  {
    Pending(c, o) && w.reservation.Some? && w.reservation.value.prepared.Some? ==>
      Prepare(w.shard, cfg.limits[o], c.shares[IndexOf(c.shares, o)].operation, c.now) ==
      Ok(w.reservation.value.prepared.value)
  }

  /** An owner holds its part of the sequential table, or the part it had before a pending command. */
  ghost predicate OwnerTable(cfg: Config, c: Coordinator, t: Table, o: nat, w: Owner)
    requires o < |cfg.limits|
  {
    && WithinBudget(w.shard.table, cfg.limits[o])
    && (if Pending(c, o) then
          && w.shard.table == Part(c.before, cfg.route, o)
          && Part(t, cfg.route, o) == Part(Outcome(cfg, c).0, cfg.route, o)
        else w.shard.table == Part(t, cfg.route, o))
    && PreparationOK(cfg, c, o, w)
  }

  /** The first `n` shares all voted in favour, with these results. */
  ghost predicate VotesSoFar(
    cfg: Config, op: Operation, t: Table, now: i64, shares: seq<Share>, n: nat, results: seq<R.Reply>)
  {
    && op.Divisible() && shares == Shares(op, cfg.route, |cfg.limits|) && n <= |shares|
    && results == Responses(t, shares, cfg.route, now)[..n]
    && forall i :: 0 <= i < n ==> Vote(cfg, t, shares[i], now).Ok?
  }

  /** The votes collected so far, and the reply they lead to, are those of the whole command. */
  ghost predicate VotesOK(cfg: Config, c: Coordinator) {
    c.Busy? ==>
      && (c.phase == Preparing || c.phase == Applying || c.phase == Releasing ==> Budgeted(cfg, c.before))
      && (c.phase == Preparing ==>
            && VotesSoFar(cfg, c.request.op, c.before, c.now, c.shares, c.next, c.results)
            && (c.ack.Some? && c.next < |c.shares| ==>
                  c.ack.value == Voted(Vote(cfg, c.before, c.shares[c.next], c.now))))
      && (c.phase == Applying ==>
            && c.request.op.Divisible()
            && Outcome(cfg, c) == (Applied(c.before, DecideDivisible(c.before, c.request.op, c.now).effects), c.reply))
      && (c.phase == Releasing ==> c.reply == Outcome(cfg, c).1)
  }

  ghost predicate Consistent(cfg: Config, s: State) {
    && |s.owners| == |cfg.limits|
    && Budgeted(cfg, s.table)
    && VotesOK(cfg, s.coordinator)
    && forall o :: 0 <= o < |s.owners| ==> OwnerTable(cfg, s.coordinator, s.table, o, s.owners[o])
  }

  lemma InitiallyConsistent(cfg: Config)
    requires cfg.Valid()
    ensures Consistent(cfg, Initial(cfg))
  {
    forall o
      ensures Part(map[], cfg.route, o) == map[]
    {
    }
  }

  // ---------- one owner changes ----------

  /** An unreserved owner is not part of any pending command. */
  lemma UnreservedNotPending(c: Coordinator, stops: nat, o: nat, w: Owner)
    requires OwnerOK(c, stops, o, w) && w.reservation == None
    ensures !Pending(c, o)
  {
    hide Relevant;
    hide IndexOf;
  }

  /** Replacing an unreserved owner's table together with its part of the sequential table. */
  lemma LocalChange(cfg: Config, s: State, s': State, o: nat)
    requires Consistent(cfg, s) && o < |s.owners| == |s'.owners|
    requires s'.owners == s.owners[o := s'.owners[o]] && s'.coordinator == s.coordinator
    requires !Pending(s.coordinator, o)
    requires OnlyAt(cfg, s.table, s'.table, o, s'.owners[o].shard.table) && Budgeted(cfg, s'.table)
    ensures Consistent(cfg, s')
  {
    hide Pending;
    hide VotesOK;
    hide WithinBudget;
    hide Part;
    hide Whole;
    hide Prepare;
    forall p | 0 <= p < |s.owners|
      ensures OwnerTable(cfg, s'.coordinator, s'.table, p, s'.owners[p])
    {
      assert OwnerTable(cfg, s.coordinator, s.table, p, s.owners[p]);
    }
  }

  lemma RunHeadConsistent(cfg: Config, s: State, o: nat, now: i64)
    requires cfg.Valid() && Consistent(cfg, s) && o < |s.owners| && s.owners[o].data != []
    requires !Pending(s.coordinator, o) && RoutesTo(s.owners[o].data[0].op, cfg.route, o)
    ensures Consistent(cfg, RunHead(cfg, s, o, now))
  {
    var w := s.owners[o];
    var op := w.data[0].op;
    var s' := RunHead(cfg, s, o, now);
    RunHeadOwner(cfg, s, o, now);
    RunHeadFrame(cfg, s, o, now);
    assert s'.table == Whole(cfg, s.table, op, now).0;
    assert w.shard == ShardState(Part(s.table, cfg.route, o), w.shard.revision) by {
      assert OwnerTable(cfg, s.coordinator, s.table, o, w);
    }
    LocalIsWhole(cfg, s.table, o, w.shard.revision, op, now);
    WholeKeepsBudget(cfg, s.table, op, now);
    hide RunHead;
    hide Whole;
    hide Execute;
    hide Budgeted;
    hide OnlyAt;
    hide Part;
    hide Pending;
    LocalChange(cfg, s, s', o);
  }

  lemma TickConsistent(cfg: Config, s: State, o: nat, now: i64, removed: set<Bytes>)
    requires Consistent(cfg, s) && o < |s.owners| && !Pending(s.coordinator, o)
    requires Sweep(s.owners[o].shard.table, now, cfg.expiryBatch, removed)
    ensures Consistent(cfg, OwnerTick(s, o, now, removed))
  {
    assert OwnerTable(cfg, s.coordinator, s.table, o, s.owners[o]);
    var s' := OwnerTick(s, o, now, removed);
    forall p: nat
      ensures Part(s'.table, cfg.route, o) == Part(s.table, cfg.route, o) - removed
      ensures p != o ==> Part(s'.table, cfg.route, p) == Part(s.table, cfg.route, p)
    {
      SweepPart(cfg, s.table, o, removed, p);
    }
    SweepKeepsBudget(cfg, s.table, o, removed);
    hide Part;
    hide Budgeted;
    hide Pending;
    LocalChange(cfg, s, s', o);
  }

  /** Steps that change neither tables nor reservations. */
  lemma SameTables(cfg: Config, s: State, s': State)
    requires Consistent(cfg, s) && |s'.owners| == |s.owners| && s'.table == s.table
    requires s'.coordinator == s.coordinator
    requires forall o :: 0 <= o < |s.owners| ==>
               s'.owners[o].shard == s.owners[o].shard && s'.owners[o].reservation == s.owners[o].reservation
    ensures Consistent(cfg, s')
  {
    hide Pending;
    hide VotesOK;
    hide Budgeted;
    hide WithinBudget;
    hide Part;
    hide Whole;
    hide Prepare;
    forall o | 0 <= o < |s.owners|
      ensures OwnerTable(cfg, s'.coordinator, s'.table, o, s'.owners[o])
    {
      assert OwnerTable(cfg, s.coordinator, s.table, o, s.owners[o]);
      assert s'.owners[o].shard == s.owners[o].shard;
    }
  }

  lemma TurnConsistent(cfg: Config, s: State, o: nat, now: i64)
    requires cfg.Valid() && Disciplined(cfg, s) && Consistent(cfg, s) && o < |s.owners| && s.owners[o].at == Top
    requires s.owners[o].data != [] ==> RoutesTo(s.owners[o].data[0].op, cfg.route, o)
    ensures Consistent(cfg, OwnerTurn(cfg, s, o, now))
  {
    var w := s.owners[o];
    var middle := SetOwner(s, o, TurnTaken(w));
    assert OwnerOK(s.coordinator, s.stops, o, w);
    hide Disciplined;
    hide RunHead;
    hide OwnerOK;
    hide Consistent;
    hide Pending;
    hide RoutesTo;
    SameTables(cfg, s, middle);
    if DataFirst(w) && w.data != [] {
      UnreservedNotPending(s.coordinator, s.stops, o, w);
      RunHeadConsistent(cfg, middle, o, now);
    }
  }

  // ---------- control messages ----------

  /** A completion concerns the awaited owner only. */
  lemma OthersTables(cfg: Config, c: Coordinator, ack: Ack, t: Table, other: nat, w: Owner)
    requires CoordinatorOK(cfg, c) && c.Busy? && c.next < |c.shares| && c.shares[c.next].owner != other
    requires other < |cfg.limits| && OwnerTable(cfg, c, t, other, w)
    ensures OwnerTable(cfg, c.(ack := Some(ack)), t, other, w)
  {
    IndexOfOwner(c.shares, c.next);
    assert IndexOf(c.shares, other) != c.next;
    hide IndexOf;
    hide CoordinatorOK;
    hide WithinBudget;
    hide Part;
    hide Whole;
    hide Prepare;
    assert Pending(c.(ack := Some(ack)), other) == Pending(c, other);
  }

  /** The vote an owner casts is the vote on its part of the table at the clock sample. */
  lemma VoteCast(cfg: Config, c: Coordinator, t: Table, o: nat, w: Owner)
    requires CoordinatorOK(cfg, c) && Awaiting(c, o) && c.phase == Preparing && o < |cfg.limits|
    requires VotesOK(cfg, c) && OwnerTable(cfg, c, t, o, w)
    ensures var result := Prepare(w.shard, cfg.limits[o], c.shares[c.next].operation, c.now);
            var (w', ack) := CastVote(w, c.txn, result);
            && VotesOK(cfg, c.(ack := ack)) && OwnerTable(cfg, c.(ack := ack), t, o, w')
  {
    var share := c.shares[c.next];
    IndexOfOwner(c.shares, c.next);
    VoteIsPrepare(cfg, c.before, share, c.now, w.shard.revision);
    assert w.shard == ShardState(Part(c.before, cfg.route, o), w.shard.revision);
    hide IndexOf;
    hide Prepare;
    hide Part;
    hide Vote;
    hide Whole;
    hide Budgeted;
    hide WithinBudget;
    hide Responses;
    hide Decide;
    hide DecideDivisible;
    hide Shares;
    hide Applied;
    var result := Prepare(w.shard, cfg.limits[o], share.operation, c.now);
    var (w', ack) := CastVote(w, c.txn, result);
    assert ack.value == Voted(Vote(cfg, c.before, share, c.now));
  }

  /** What an owner has prepared is exactly what the whole command does to its part. */
  lemma PreparedEffects(cfg: Config, c: Coordinator, t: Table, o: nat, w: Owner)
    requires CoordinatorOK(cfg, c) && Awaiting(c, o) && c.phase == Applying && o < |cfg.limits|
    requires VotesOK(cfg, c) && OwnerTable(cfg, c, t, o, w)
    requires w.reservation.Some? && w.reservation.value.prepared.Some?
    ensures var after := Applied(w.shard.table, w.reservation.value.prepared.value.effects);
            after == Part(t, cfg.route, o) && WithinBudget(after, cfg.limits[o])
  {
    var share := c.shares[c.next];
    IndexOfOwner(c.shares, c.next);
    VoteIsPrepare(cfg, c.before, share, c.now, w.shard.revision);
    ShareInstalls(cfg, c.before, c.request.op, o, c.now);
    assert share == ShareOf(c.request.op, cfg.route, o) by {
      SharesCover(c.request.op, cfg.route, |cfg.limits|);
    }
    assert w.shard == ShardState(Part(c.before, cfg.route, o), w.shard.revision);
    hide IndexOf;
    hide Prepare;
    hide Part;
    hide Vote;
    hide Whole;
    hide Budgeted;
    hide WithinBudget;
    hide Responses;
    hide Decide;
    hide DecideDivisible;
    hide Shares;
    hide ShareOf;
    hide Applied;
  }

  /** Applying turns an owner's earlier part into its part of the sequential table. */
  lemma ApplyInstalls(cfg: Config, c: Coordinator, t: Table, o: nat, w: Owner, w': Owner, ack: Ack)
    requires CoordinatorOK(cfg, c) && Awaiting(c, o) && c.phase == Applying && o < |cfg.limits|
    requires VotesOK(cfg, c) && OwnerTable(cfg, c, t, o, w)
    requires w.reservation.Some? && w.reservation.value.prepared.Some?
    requires w'.shard.table == Applied(w.shard.table, w.reservation.value.prepared.value.effects)
    ensures VotesOK(cfg, c.(ack := Some(ack))) && OwnerTable(cfg, c.(ack := Some(ack)), t, o, w')
  {
    PreparedEffects(cfg, c, t, o, w);
    IndexOfOwner(c.shares, c.next);
    hide IndexOf;
    hide Prepare;
    hide Part;
    hide Vote;
    hide Whole;
    hide Budgeted;
    hide WithinBudget;
    hide Responses;
    hide Decide;
    hide DecideDivisible;
    hide Shares;
    hide Applied;
  }

  function Completed(c: Coordinator, ack: Option<Ack>): Coordinator {
    if ack.Some? then Deliver(c, ack.value) else c
  }

  /** Messages that do not touch the table. */
  lemma QuietMessage(cfg: Config, c: Coordinator, t: Table, o: nat, w: Owner, w': Owner, ack: Option<Ack>)
    requires CoordinatorOK(cfg, c) && o < |cfg.limits| && VotesOK(cfg, c) && OwnerTable(cfg, c, t, o, w)
    requires w'.shard == w.shard
    requires ack.Some? ==> c.Busy? && (c.phase == Reserving || c.phase == Releasing)
    requires ack == None ==> w'.reservation == w.reservation
    ensures VotesOK(cfg, Completed(c, ack)) && OwnerTable(cfg, Completed(c, ack), t, o, w')
  {
    hide CoordinatorOK;
    hide IndexOf;
    hide Part;
    hide WithinBudget;
    hide Whole;
    hide Prepare;
    hide Vote;
    hide Shares;
    hide Responses;
    hide Budgeted;
  }

  lemma MovedOwner(cfg: Config, c: Coordinator, t: Table, o: nat, w: Owner, w': Owner)
    requires o < |cfg.limits| && OwnerTable(cfg, c, t, o, w)
    requires w'.shard == w.shard && w'.reservation == w.reservation
    ensures OwnerTable(cfg, c, t, o, w')
  {
    hide Pending;
    hide WithinBudget;
    hide Part;
    hide Whole;
    hide Prepare;
  }

  /** A reserved and prepared owner, as the discipline describes it while applying. */
  lemma ReservedPrepared(cfg: Config, c: Coordinator, stops: nat, o: nat, w: Owner)
    requires CoordinatorOK(cfg, c) && OwnerOK(c, stops, o, w) && Awaiting(c, o) && c.phase == Applying
    ensures w.reservation.Some? && w.reservation.value.txn == c.txn && w.reservation.value.prepared.Some?
    ensures w.reservation.value.prepared.value.revision == w.shard.revision
  {
    IndexOfOwner(c.shares, c.next);
    hide IndexOf;
    hide Shares;
    hide Relevant;
  }

  /** The owner as it stands when it starts on its oldest message. */
  function Started(w: Owner): Owner
    requires w.control != []
  {
    w.(control := w.control[1..], at := Top, handled := w.handled + 1)
  }

  lemma PrepareIsVote(limits: ShardLimits, w: Owner, txn: nat, op: Operation, now: i64)
    requires w.control != [] && w.control[0] == PrepareFor(txn, op, now)
    requires w.reservation == Some(Reservation(txn, None))
    ensures Handle(limits, w.(control := w.control[1..]), w.control[0]) ==
            CastVote(Started(w), txn, Prepare(w.shard, limits, op, now))
  {
    hide Prepare;
    hide CastVote;
  }

  lemma PrepareMessage(cfg: Config, c: Coordinator, stops: nat, t: Table, o: nat, w: Owner)
    requires CoordinatorOK(cfg, c) && OwnerOK(c, stops, o, w) && o < |cfg.limits| && w.control != []
    requires VotesOK(cfg, c) && OwnerTable(cfg, c, t, o, w)
    requires Awaiting(c, o) && w.control[0] == Expected(c) && c.phase == Preparing
    ensures var (w', ack) := Handle(cfg.limits[o], w.(control := w.control[1..]), w.control[0]);
            VotesOK(cfg, Completed(c, ack)) && OwnerTable(cfg, Completed(c, ack), t, o, w')
  {
    hide VotesOK;
    hide OwnerTable;
    hide OwnerOK;
    hide CoordinatorOK;
    hide Prepare;
    hide Handle;
    ReservedUnprepared(cfg, c, stops, o, w);
    PrepareIsVote(cfg.limits[o], w, c.txn, c.shares[c.next].operation, c.now);
    MovedOwner(cfg, c, t, o, w, Started(w));
    VoteCast(cfg, c, t, o, Started(w));
  }

  lemma ApplyMessage(cfg: Config, c: Coordinator, stops: nat, t: Table, o: nat, w: Owner)
    requires CoordinatorOK(cfg, c) && OwnerOK(c, stops, o, w) && o < |cfg.limits| && w.control != []
    requires VotesOK(cfg, c) && OwnerTable(cfg, c, t, o, w)
    requires Awaiting(c, o) && w.control[0] == Expected(c) && c.phase == Applying
    ensures var (w', ack) := Handle(cfg.limits[o], w.(control := w.control[1..]), w.control[0]);
            VotesOK(cfg, Completed(c, ack)) && OwnerTable(cfg, Completed(c, ack), t, o, w')
  {
    var (w', ack) := Handle(cfg.limits[o], w.(control := w.control[1..]), w.control[0]);
    ReservedPrepared(cfg, c, stops, o, w);
    hide VotesOK;
    hide OwnerTable;
    hide OwnerOK;
    hide CoordinatorOK;
    assert ack == Some(Done);
    ApplyInstalls(cfg, c, t, o, w, w', Done);
  }

  lemma OtherMessage(cfg: Config, c: Coordinator, stops: nat, t: Table, o: nat, w: Owner)
    requires CoordinatorOK(cfg, c) && OwnerOK(c, stops, o, w) && o < |cfg.limits|
    requires w.control != [] && w.at == Selecting && !w.stopping
    requires VotesOK(cfg, c) && OwnerTable(cfg, c, t, o, w)
    requires Awaiting(c, o) && w.control[0] == Expected(c) ==> c.phase == Reserving || c.phase == Releasing
    ensures var (w', ack) := Handle(cfg.limits[o], w.(control := w.control[1..]), w.control[0]);
            VotesOK(cfg, Completed(c, ack)) && OwnerTable(cfg, Completed(c, ack), t, o, w')
  {
    OldestMessage(c, stops, o, w);
    var m := w.control[0];
    var (w', ack) := Handle(cfg.limits[o], w.(control := w.control[1..]), m);
    hide VotesOK;
    hide OwnerTable;
    hide OwnerOK;
    hide CoordinatorOK;
    hide Relevant;
    assert m == StatsQuery || m == Stop || m.ReserveFor? || m.ReleaseFor?;
    assert w'.shard == w.shard;
    assert ack.Some? ==> Awaiting(c, o) && m == Expected(c);
    assert ack == None ==> w'.reservation == w.reservation;
    hide Handle;
    QuietMessage(cfg, c, t, o, w, w', ack);
  }

  /** Handling any message keeps the owner's table and the votes consistent. */
  lemma HandleConsistent(cfg: Config, c: Coordinator, stops: nat, t: Table, o: nat, w: Owner)
    requires CoordinatorOK(cfg, c) && OwnerOK(c, stops, o, w) && o < |cfg.limits|
    requires w.control != [] && w.at == Selecting && !w.stopping
    requires VotesOK(cfg, c) && OwnerTable(cfg, c, t, o, w)
    ensures var (w', ack) := Handle(cfg.limits[o], w.(control := w.control[1..]), w.control[0]);
            VotesOK(cfg, Completed(c, ack)) && OwnerTable(cfg, Completed(c, ack), t, o, w')
  {
    hide VotesOK;
    hide OwnerTable;
    hide OwnerOK;
    hide CoordinatorOK;
    hide Handle;
    if Awaiting(c, o) && w.control[0] == Expected(c) && c.phase == Preparing {
      PrepareMessage(cfg, c, stops, t, o, w);
    } else if Awaiting(c, o) && w.control[0] == Expected(c) && c.phase == Applying {
      ApplyMessage(cfg, c, stops, t, o, w);
    } else {
      OtherMessage(cfg, c, stops, t, o, w);
    }
  }

  lemma ControlConsistent(cfg: Config, s: State, o: nat)
    requires Disciplined(cfg, s) && Consistent(cfg, s) && OwnerEnabled(cfg, s, DoControl(o))
    ensures Consistent(cfg, OwnerControl(cfg, s, o))
  {
    var w := s.owners[o];
    var (w', ack) := Handle(cfg.limits[o], w.(control := w.control[1..]), w.control[0]);
    HandleMessage(cfg, s.coordinator, s.stops, o, w);
    HandleConsistent(cfg, s.coordinator, s.stops, s.table, o, w);
    var s' := OwnerControl(cfg, s, o);
    hide Handle;
    hide OwnerTable;
    hide VotesOK;
    hide OwnerOK;
    hide CoordinatorOK;
    forall other | 0 <= other < |s.owners|
      ensures OwnerTable(cfg, s'.coordinator, s'.table, other, s'.owners[other])
    {
      if other != o && ack.Some? {
        OthersTables(cfg, s.coordinator, ack.value, s.table, other, s.owners[other]);
      }
    }
  }

  lemma AsideTables(w: Owner, step: Step)
    requires IsAside(step) && (step.DoDropStats? ==> step.i < |w.control|)
    ensures Aside(w, step).shard == w.shard && Aside(w, step).reservation == w.reservation
  {
  }

  lemma QuietOwnerStep(cfg: Config, s: State, step: Step)
    requires Consistent(cfg, s) && |s.owners| == |cfg.limits| && IsAside(step) && OwnerEnabled(cfg, s, step)
    ensures Consistent(cfg, OwnerStep(cfg, s, step))
  {
    hide Consistent;
    hide Aside;
    hide Sweep;
    AsideTables(s.owners[step.o], step);
    var w' := Aside(s.owners[step.o], step);
    hide OwnerEnabled;
    SameTables(cfg, s, SetOwner(s, step.o, w'));
  }

  lemma DataConsistent(cfg: Config, s: State, o: nat, now: i64)
    requires cfg.Valid() && Consistent(cfg, s) && o < |s.owners| && s.owners[o].data != []
    requires OwnerOK(s.coordinator, s.stops, o, s.owners[o]) && s.owners[o].reservation == None
    requires RoutesTo(s.owners[o].data[0].op, cfg.route, o)
    ensures Consistent(cfg, RunHead(cfg, SetOwner(s, o, s.owners[o].(at := Top)), o, now))
  {
    UnreservedNotPending(s.coordinator, s.stops, o, s.owners[o]);
    var middle := SetOwner(s, o, s.owners[o].(at := Top));
    hide OwnerOK;
    hide Consistent;
    hide RunHead;
    hide Pending;
    SameTables(cfg, s, middle);
    RunHeadConsistent(cfg, middle, o, now);
  }

  lemma OwnerStepConsistent(cfg: Config, s: State, step: Step)
    requires cfg.Valid() && Disciplined(cfg, s) && Consistent(cfg, s)
    requires IsOwnerStep(step) && OwnerEnabled(cfg, s, step)
    requires forall o :: 0 <= o < |s.owners| && s.owners[o].data != [] ==>
               RoutesTo(s.owners[o].data[0].op, cfg.route, o)
    ensures Consistent(cfg, OwnerStep(cfg, s, step))
  {
    assert OwnerOK(s.coordinator, s.stops, step.o, s.owners[step.o]);
    hide RoutesTo;
    hide Disciplined;
    hide Consistent;
    hide OwnerTurn;
    hide OwnerControl;
    hide RunHead;
    hide Sweep;
    hide OwnerOK;
    if step.DoTurn? {
      TurnConsistent(cfg, s, step.o, step.now);
    } else if step.DoControl? {
      ControlConsistent(cfg, s, step.o);
    } else if step.DoTick? {
      UnreservedNotPending(s.coordinator, s.stops, step.o, s.owners[step.o]);
      TickConsistent(cfg, s, step.o, step.now, step.removed);
    } else if step.DoData? {
      DataConsistent(cfg, s, step.o, step.now);
    } else {
      QuietOwnerStep(cfg, s, step);
    }
  }
}
