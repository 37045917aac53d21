/**
 * Reservation discipline: which owner is reserved, prepared and addressed at each point of a
 * coordinated command, and why no assertion of the owner loop can fail.
 */
module Discipline {
  import opened Bytes
  import opened Commands
  import opened Machine
  import opened Sequential
  import opened Sharding
  import opened Tables

  /** Control messages other than operational queries. */
  function Relevant(control: seq<Control>): seq<Control> {
    if control == [] then []
    else
      var before := Relevant(control[..|control| - 1]);
      if control[|control| - 1] == StatsQuery then before else before + [control[|control| - 1]]
  }

  lemma {:induction false} RelevantJoin(a: seq<Control>, b: seq<Control>)
    ensures Relevant(a + b) == Relevant(a) + Relevant(b)
    decreases |b|
  {
    if b == [] {
      assert a + b == a;
    } else {
      RelevantJoin(a, b[..|b| - 1]);
      assert (a + b)[..|a + b| - 1] == a + b[..|b| - 1];
      assert (a + b)[|a + b| - 1] == b[|b| - 1];
    }
  }

  lemma RelevantOne(m: Control)
    ensures Relevant([m]) == if m == StatsQuery then [] else [m]
  {
    assert [m][..0] == [];
  }

  lemma RelevantPush(control: seq<Control>, m: Control)
    ensures Relevant(control + [m]) == if m == StatsQuery then Relevant(control) else Relevant(control) + [m]
  {
    assert (control + [m])[..|control|] == control;
  }

  lemma RelevantPop(control: seq<Control>)
    requires control != []
    ensures Relevant(control) ==
            if control[0] == StatsQuery then Relevant(control[1..]) else [control[0]] + Relevant(control[1..])
  {
    RelevantJoin([control[0]], control[1..]);
    RelevantOne(control[0]);
    assert [control[0]] + control[1..] == control;
    assert [] + Relevant(control[1..]) == Relevant(control[1..]);
  }

  lemma RelevantDrop(control: seq<Control>, i: nat)
    requires i < |control| && control[i] == StatsQuery
    ensures Relevant(control[..i] + control[i + 1..]) == Relevant(control)
  {
    RelevantJoin(control[..i], control[i + 1..]);
    RelevantJoin(control[..i], control[i..]);
    RelevantPop(control[i..]);
    assert control[..i] + control[i..] == control;
    assert control[i..][1..] == control[i + 1..];
  }

  /** The index of an owner's share, or the number of shares if it has none. */
  function IndexOf(shares: seq<Share>, o: nat): (i: nat)
    ensures i <= |shares|
    ensures i < |shares| ==> shares[i].owner == o
    ensures forall j :: 0 <= j < i ==> shares[j].owner != o
  {
    if shares == [] then 0
    else if shares[0].owner == o then 0
    else
      var rest := shares[1..];
      var i := IndexOf(rest, o);
      assert forall j :: 0 < j < 1 + i ==> shares[j] == rest[j - 1];
      1 + i
  }

  lemma IndexOfOwner(shares: seq<Share>, i: nat)
    requires i < |shares| && forall j, k :: 0 <= j < k < |shares| ==> shares[j].owner < shares[k].owner
    ensures IndexOf(shares, shares[i].owner) == i
  {
  }

  /** The owner of share `i` has completed the current phase. */
  predicate Acked(c: Coordinator, i: nat)
    requires c.Busy?
  {
    i < c.next || (i == c.next && c.ack.Some?)
  }

  /** Share `i`'s owner is reserved. */
  predicate Holds(c: Coordinator, i: nat)
    requires c.Busy?
  {
    match c.phase
    case Reserving => Acked(c, i)
    case Releasing => !Acked(c, i)
    case _ => true
  }

  predicate PreparedOK(c: Coordinator, i: nat, prepared: Option<Prepared>)
    requires c.Busy?
  {
    match c.phase
    case Reserving => prepared == None
    case Sampling => prepared == None
    case Preparing =>
      if i < c.next then prepared.Some?
      else if i == c.next && c.ack.Some? then
        prepared.Some? <==> c.ack.value.Voted? && c.ack.value.result.Ok?
      else prepared == None
    case Applying => prepared.Some? <==> !Acked(c, i)
    case Releasing => true
  }

  predicate ReservationOK(c: Coordinator, o: nat, reservation: Option<Reservation>) {
    if c.Busy? && IndexOf(c.shares, o) < |c.shares| && Holds(c, IndexOf(c.shares, o)) then
      && reservation.Some? && reservation.value.txn == c.txn
      && PreparedOK(c, IndexOf(c.shares, o), reservation.value.prepared)
    else reservation == None
  }

  /** A preparation is still current: nothing has changed the shard since it was made. */
  predicate Current(w: Owner) {
    w.reservation.Some? && w.reservation.value.prepared.Some? ==>
      w.reservation.value.prepared.value.revision == w.shard.revision
  }

  predicate Awaiting(c: Coordinator, o: nat) {
    && c.Busy? && c.sent && c.ack == None && c.next < |c.shares| && c.phase != Sampling
    && c.shares[c.next].owner == o
  }

  /** The messages that must be waiting at an owner, besides queries. */
  function Outstanding(c: Coordinator, stops: nat, o: nat, stopping: bool): seq<Control> {
    if Awaiting(c, o) then [Expected(c)]
    else if c.Finished? && o < stops && !stopping then [Stop]
    else []
  }

  predicate OwnerOK(c: Coordinator, stops: nat, o: nat, w: Owner) {
    && w.at != Panicked
    && Relevant(w.control) == Outstanding(c, stops, o, w.stopping)
    && ReservationOK(c, o, w.reservation)
    && Current(w)
    && (w.stopping ==> c.Finished?)
    && w.dataClosed == w.stopping
    && (w.at == Exited ==> w.stopping && w.data == [])
  }

  predicate CoordinatorOK(cfg: Config, c: Coordinator) {
    && !c.Crashed?
    && (c.Busy? ==>
          && c.request.op.Divisible()
          && c.shares == Shares(c.request.op, cfg.route, |cfg.limits|) && c.shares != []
          && (forall j, k :: 0 <= j < k < |c.shares| ==> c.shares[j].owner < c.shares[k].owner)
          && c.next <= |c.shares|
          && (c.phase != Releasing ==> c.next < |c.shares|)
          && (c.phase == Sampling ==> c.next == 0 && !c.sent)
          && (c.ack.Some? ==> c.sent)
          && (c.sent ==> c.next < |c.shares|)
          && (c.ack.Some? ==> (c.ack.value.Voted? <==> c.phase == Preparing)))
  }

  /** During a shutdown only owners that have been asked are stopping. */
  predicate StopsInOrder(s: State) {
    !s.dropped ==> forall o :: 0 <= o < |s.owners| && s.owners[o].stopping ==> o < s.stops
  }

  predicate Disciplined(cfg: Config, s: State) {
    && |s.owners| == |cfg.limits|
    && CoordinatorOK(cfg, s.coordinator)
    && s.stops <= |s.owners|
    && (s.stops > 0 ==> s.coordinator == Finished && s.stopRequested)
    && (s.coordinator == Finished ==> s.cross == [] && (s.crossClosed || s.dropped))
    && (s.dropped ==> !s.closing)
    && StopsInOrder(s)
    && (s.crossClosed ==> s.stopRequested) && (s.stopRequested ==> s.closing)
    && (StopRequest in s.cross ==> s.stopRequested)
    && forall o :: 0 <= o < |s.owners| ==> OwnerOK(s.coordinator, s.stops, o, s.owners[o])
  }

  lemma InitiallyDisciplined(cfg: Config)
    requires cfg.Valid()
    ensures Disciplined(cfg, Initial(cfg))
  {
  }

  // ---------- steps of one owner ----------

  /** Replacing one owner by another acceptable one, with everything else in place. */
  lemma OneOwner(cfg: Config, s: State, s': State, o: nat)
    requires Disciplined(cfg, s) && o < |s.owners| == |s'.owners|
    requires s'.owners == s.owners[o := s'.owners[o]]
    requires s'.coordinator == s.coordinator && s'.stops == s.stops && s'.cross == s.cross
    requires s'.crossClosed == s.crossClosed && s'.stopRequested == s.stopRequested && s'.closing == s.closing
    requires s'.dropped == s.dropped
    requires OwnerOK(s.coordinator, s.stops, o, s'.owners[o])
    requires s'.owners[o].stopping && !s.dropped ==> s.owners[o].stopping || o < s.stops
    ensures Disciplined(cfg, s')
  {
    hide OwnerOK;
    hide CoordinatorOK;
    forall p | 0 <= p < |s.owners| && p != o
      ensures s'.owners[p] == s.owners[p]
    {
    }
  }

  lemma RunHeadDisciplined(cfg: Config, s: State, o: nat, now: i64)
    requires Disciplined(cfg, s) && o < |s.owners| && s.owners[o].data != []
    requires s.owners[o].reservation == None && s.owners[o].at != Exited
    ensures Disciplined(cfg, RunHead(cfg, s, o, now))
  {
    hide Execute;
    hide Whole;
    var s' := RunHead(cfg, s, o, now);
    hide RunHead;
    assert OwnerOK(s.coordinator, s.stops, o, s'.owners[o]) by {
      RunHeadOwner(cfg, s, o, now);
    }
    RunHeadFrame(cfg, s, o, now);
    OneOwner(cfg, s, s', o);
  }

  lemma RunHeadOwner(cfg: Config, s: State, o: nat, now: i64)
    requires o < |s.owners| == |cfg.limits| && s.owners[o].data != []
    ensures var w, w' := s.owners[o], RunHead(cfg, s, o, now).owners[o];
            && w'.control == w.control && w'.reservation == w.reservation && w'.at == w.at
            && w'.stopping == w.stopping && w'.dataClosed == w.dataClosed && w'.dataTurn == w.dataTurn
            && w'.data == w.data[1..] && w'.handled == w.handled && w'.released == w.released
            && w'.served == w.served + 1 && w'.free == w.free + w.data[0].charge
            && w'.shard == Execute(w.shard, cfg.limits[o], w.data[0].op, now).0
  {
    hide Execute;
    hide Whole;
  }

  lemma RunHeadFrame(cfg: Config, s: State, o: nat, now: i64)
    requires o < |s.owners| == |cfg.limits| && s.owners[o].data != []
    ensures var s' := RunHead(cfg, s, o, now);
            && |s'.owners| == |s.owners| && s'.owners == s.owners[o := s'.owners[o]]
            && s'.coordinator == s.coordinator && s'.stops == s.stops && s'.cross == s.cross
            && s'.crossClosed == s.crossClosed && s'.stopRequested == s.stopRequested && s'.closing == s.closing
            && s'.crossFree == s.crossFree && s'.lastTxn == s.lastTxn && s'.dropped == s.dropped
  {
    hide Execute;
    hide Whole;
  }

  /** The step concerns one owner only, its clients and the history aside. */
  predicate OnlyOwner(s: State, s': State, o: nat) {
    && o < |s.owners| == |s'.owners| && s'.owners == s.owners[o := s'.owners[o]]
    && s'.coordinator == s.coordinator && s'.stops == s.stops && s'.cross == s.cross
    && s'.crossClosed == s.crossClosed && s'.stopRequested == s.stopRequested
    && s'.closing == s.closing && s'.dropped == s.dropped
  }

  /** The owner ran its oldest local command, or nothing at all. */
  predicate RanOldest(w: Owner, w': Owner, ran: bool) {
    && w'.control == w.control && w'.reservation == w.reservation && w'.stopping == w.stopping
    && w'.dataClosed == w.dataClosed && w'.handled == w.handled && w'.released == w.released
    && (ran ==> w.data != [] && w'.data == w.data[1..] && w'.served == w.served + 1)
    && (!ran ==> w'.data == w.data && w'.served == w.served && w'.shard == w.shard)
  }

  lemma TurnEffect(cfg: Config, s: State, o: nat, now: i64)
    requires o < |s.owners| == |cfg.limits|
    ensures var w, s' := s.owners[o], OwnerTurn(cfg, s, o, now);
            && OnlyOwner(s, s', o) && s'.owners[o].at == Selecting
            && RanOldest(w, s'.owners[o], DataFirst(w) && w.data != [])
  {
    var middle := SetOwner(s, o, TurnTaken(s.owners[o]));
    if middle.owners[o].data != [] {
      RunHeadOwner(cfg, middle, o, now);
      RunHeadFrame(cfg, middle, o, now);
    }
    hide RunHead;
  }

  lemma DataEffect(cfg: Config, s: State, o: nat, now: i64)
    requires o < |s.owners| == |cfg.limits| && s.owners[o].data != []
    ensures var s' := RunHead(cfg, SetOwner(s, o, s.owners[o].(at := Top)), o, now);
            OnlyOwner(s, s', o) && s'.owners[o].at == Top && RanOldest(s.owners[o], s'.owners[o], true)
  {
    var middle := SetOwner(s, o, s.owners[o].(at := Top));
    RunHeadOwner(cfg, middle, o, now);
    RunHeadFrame(cfg, middle, o, now);
    hide RunHead;
  }

  lemma TurnDisciplined(cfg: Config, s: State, o: nat, now: i64)
    requires Disciplined(cfg, s) && o < |s.owners| && s.owners[o].at == Top
    ensures Disciplined(cfg, OwnerTurn(cfg, s, o, now))
  {
    var w := s.owners[o];
    var middle := SetOwner(s, o, TurnTaken(w));
    assert OwnerOK(s.coordinator, s.stops, o, TurnTaken(w));
    OneOwner(cfg, s, middle, o);
    hide RunHead;
    if DataFirst(w) && w.data != [] {
      RunHeadDisciplined(cfg, middle, o, now);
    }
  }

  /** What the oldest control message can be. */
  lemma OldestMessage(c: Coordinator, stops: nat, o: nat, w: Owner)
    requires OwnerOK(c, stops, o, w) && w.control != [] && !w.stopping
    ensures var m, rest := w.control[0], Relevant(w.control[1..]);
            || (m == StatsQuery && rest == Outstanding(c, stops, o, false))
            || (Awaiting(c, o) && m == Expected(c) && rest == [])
            || (m == Stop && c.Finished? && o < stops && rest == [])
  {
    RelevantPop(w.control);
    hide Relevant;
    var out := Outstanding(c, stops, o, false);
    assert |out| <= 1;
    if w.control[0] != StatsQuery {
      assert out[0] == w.control[0] && |out| == 1 + |Relevant(w.control[1..])|;
    }
  }

  /** A handled message leaves an acceptable owner, and at most completes what was awaited. */
  predicate Handled(cfg: Config, c: Coordinator, stops: nat, o: nat, w': Owner, ack: Option<Ack>) {
    && (ack.Some? ==> Awaiting(c, o))
    && OwnerOK(if ack.Some? then c.(ack := ack) else c, stops, o, w')
    && CoordinatorOK(cfg, if ack.Some? then c.(ack := ack) else c)
  }

  lemma HandleQuery(cfg: Config, c: Coordinator, stops: nat, o: nat, w: Owner)
    requires CoordinatorOK(cfg, c) && OwnerOK(c, stops, o, w) && w.at == Selecting && o < |cfg.limits|
    requires w.control != [] && !w.stopping && w.control[0] == StatsQuery
    requires Relevant(w.control[1..]) == Outstanding(c, stops, o, false)
    ensures var (w', ack) := Handle(cfg.limits[o], w.(control := w.control[1..]), w.control[0]);
            Handled(cfg, c, stops, o, w', ack)
  {
    hide Relevant;
    hide ReservationOK;
    hide CoordinatorOK;
  }

  lemma HandleStop(cfg: Config, c: Coordinator, stops: nat, o: nat, w: Owner)
    requires CoordinatorOK(cfg, c) && OwnerOK(c, stops, o, w) && w.at == Selecting && o < |cfg.limits|
    requires w.control != [] && !w.stopping && w.control[0] == Stop
    requires c.Finished? && o < stops && Relevant(w.control[1..]) == []
    ensures var (w', ack) := Handle(cfg.limits[o], w.(control := w.control[1..]), w.control[0]);
            Handled(cfg, c, stops, o, w', ack)
  {
    hide Relevant;
  }

  /** An owner is reserved exactly when the coordinator first asks. */
  lemma HandleReserve(cfg: Config, c: Coordinator, stops: nat, o: nat, w: Owner)
    requires CoordinatorOK(cfg, c) && OwnerOK(c, stops, o, w) && w.at == Selecting && o < |cfg.limits|
    requires !w.stopping && Awaiting(c, o) && c.phase == Reserving
    ensures forall control, handled :: Relevant(control) == [] ==>
              var (w', ack) := OnReserve(w.(control := control, at := Top, handled := handled), c.txn);
              Handled(cfg, c, stops, o, w', ack)
  {
    IndexOfOwner(c.shares, c.next);
    hide IndexOf;
    hide Relevant;
    hide Shares;
    hide Prepare;
    forall control, handled | Relevant(control) == []
      ensures var (w', ack) := OnReserve(w.(control := control, at := Top, handled := handled), c.txn);
              Handled(cfg, c, stops, o, w', ack)
    {
      var (w', ack) := OnReserve(w.(control := control, at := Top, handled := handled), c.txn);
      assert ReservationOK(c.(ack := ack), o, w'.reservation);
      hide ReservationOK;
    }
  }

  lemma VoteHandled(
    cfg: Config, c: Coordinator, stops: nat, o: nat, w: Owner, control: seq<Control>, handled: nat,
    result: Result<Prepared, EngineError>)
    requires CoordinatorOK(cfg, c) && OwnerOK(c, stops, o, w) && w.at == Selecting && o < |cfg.limits|
    requires !w.stopping && Awaiting(c, o) && c.phase == Preparing
    requires Relevant(control) == [] && (result.Ok? ==> result.value.revision == w.shard.revision)
    ensures var w := w.(control := control, at := Top, handled := handled);
            var (w', ack) := CastVote(w, c.txn, result);
            Handled(cfg, c, stops, o, w', ack)
  {
    IndexOfOwner(c.shares, c.next);
    hide IndexOf;
    hide Relevant;
    hide Shares;
    var (w', ack) := CastVote(w.(control := control, at := Top, handled := handled), c.txn, result);
    assert ReservationOK(c.(ack := ack), o, w'.reservation);
    hide ReservationOK;
  }

  /** A reserved owner prepares its share at its current revision. */
  lemma HandlePrepare(cfg: Config, c: Coordinator, stops: nat, o: nat, w: Owner)
    requires CoordinatorOK(cfg, c) && OwnerOK(c, stops, o, w) && w.at == Selecting && o < |cfg.limits|
    requires !w.stopping && Awaiting(c, o) && c.phase == Preparing
    ensures forall control, handled :: Relevant(control) == [] ==>
              var (w', ack) := OnPrepare(cfg.limits[o], w.(control := control, at := Top, handled := handled), c.txn,
                                         c.shares[c.next].operation, c.now);
              Handled(cfg, c, stops, o, w', ack)
  {
    ReservedUnprepared(cfg, c, stops, o, w);
    var result := Prepare(w.shard, cfg.limits[o], c.shares[c.next].operation, c.now);
    PreparedIsCurrent(w.shard, cfg.limits[o], c.shares[c.next].operation, c.now);
    hide Prepare;
    forall control, handled | Relevant(control) == []
      ensures var (w', ack) := OnPrepare(cfg.limits[o], w.(control := control, at := Top, handled := handled), c.txn,
                                         c.shares[c.next].operation, c.now);
              Handled(cfg, c, stops, o, w', ack)
    {
      VoteHandled(cfg, c, stops, o, w, control, handled, result);
      hide CastVote;
      hide Handled;
    }
  }

  lemma ReservedUnprepared(cfg: Config, c: Coordinator, stops: nat, o: nat, w: Owner)
    requires CoordinatorOK(cfg, c) && OwnerOK(c, stops, o, w) && Awaiting(c, o) && c.phase == Preparing
    ensures w.reservation == Some(Reservation(c.txn, None))
  {
    IndexOfOwner(c.shares, c.next);
    hide IndexOf;
    hide Shares;
    hide Relevant;
  }

  /** A prepared owner installs its preparation, which is never stale. */
  lemma HandleApply(cfg: Config, c: Coordinator, stops: nat, o: nat, w: Owner)
    requires CoordinatorOK(cfg, c) && OwnerOK(c, stops, o, w) && w.at == Selecting && o < |cfg.limits|
    requires !w.stopping && Awaiting(c, o) && c.phase == Applying
    ensures forall control, handled :: Relevant(control) == [] ==>
              var (w', ack) := OnApply(w.(control := control, at := Top, handled := handled), c.txn);
              Handled(cfg, c, stops, o, w', ack)
  {
    IndexOfOwner(c.shares, c.next);
    hide IndexOf;
    hide Relevant;
    hide Shares;
    hide Prepare;
    forall control, handled | Relevant(control) == []
      ensures var (w', ack) := OnApply(w.(control := control, at := Top, handled := handled), c.txn);
              Handled(cfg, c, stops, o, w', ack)
    {
      var (w', ack) := OnApply(w.(control := control, at := Top, handled := handled), c.txn);
      assert ReservationOK(c.(ack := ack), o, w'.reservation);
      hide ReservationOK;
    }
  }

  /** A reserved owner is released, dropping whatever it had prepared. */
  lemma HandleRelease(cfg: Config, c: Coordinator, stops: nat, o: nat, w: Owner)
    requires CoordinatorOK(cfg, c) && OwnerOK(c, stops, o, w) && w.at == Selecting && o < |cfg.limits|
    requires !w.stopping && Awaiting(c, o) && c.phase == Releasing
    ensures forall control, handled :: Relevant(control) == [] ==>
              var (w', ack) := OnRelease(w.(control := control, at := Top, handled := handled), c.txn);
              Handled(cfg, c, stops, o, w', ack)
  {
    IndexOfOwner(c.shares, c.next);
    hide IndexOf;
    hide Relevant;
    hide Shares;
    hide Prepare;
    forall control, handled | Relevant(control) == []
      ensures var (w', ack) := OnRelease(w.(control := control, at := Top, handled := handled), c.txn);
              Handled(cfg, c, stops, o, w', ack)
    {
      var (w', ack) := OnRelease(w.(control := control, at := Top, handled := handled), c.txn);
      assert ReservationOK(c.(ack := ack), o, w'.reservation);
      hide ReservationOK;
    }
  }

  lemma PreparedIsCurrent(st: ShardState, limits: ShardLimits, op: Operation, now: i64)
    ensures Prepare(st, limits, op, now).Ok? ==> Prepare(st, limits, op, now).value.revision == st.revision
  {
    hide Decide;
    hide TooLong;
    hide WithinBudget;
  }

  /** Handling a message: never fatal, and the completion sent is the one the phase calls for. */
  lemma HandleMessage(cfg: Config, c: Coordinator, stops: nat, o: nat, w: Owner)
    requires CoordinatorOK(cfg, c) && OwnerOK(c, stops, o, w) && o < |cfg.limits|
    requires w.control != [] && w.at == Selecting && !w.stopping
    ensures var (w', ack) := Handle(cfg.limits[o], w.(control := w.control[1..]), w.control[0]);
            Handled(cfg, c, stops, o, w', ack)
  {
    OldestMessage(c, stops, o, w);
    hide OwnerOK;
    hide CoordinatorOK;
    hide Handled;
    hide Relevant;
    hide OnReserve;
    hide OnPrepare;
    hide OnApply;
    hide OnRelease;
    if w.control[0] == StatsQuery {
      HandleQuery(cfg, c, stops, o, w);
    } else if w.control[0] == Stop {
      HandleStop(cfg, c, stops, o, w);
    } else if c.phase == Reserving {
      HandleReserve(cfg, c, stops, o, w);
    } else if c.phase == Preparing {
      HandlePrepare(cfg, c, stops, o, w);
    } else if c.phase == Applying {
      HandleApply(cfg, c, stops, o, w);
    } else {
      HandleRelease(cfg, c, stops, o, w);
    }
  }

  /** A completion reaching the coordinator concerns the awaited owner only. */
  lemma OthersUnaffected(cfg: Config, c: Coordinator, ack: Ack, stops: nat, o: nat, other: nat, w: Owner)
    requires CoordinatorOK(cfg, c) && Awaiting(c, o) && other != o
    requires OwnerOK(c, stops, other, w)
    ensures OwnerOK(c.(ack := Some(ack)), stops, other, w)
  {
    hide Relevant;
    hide Shares;
    IndexOfOwner(c.shares, c.next);
    assert IndexOf(c.shares, other) != c.next;
    hide IndexOf;
  }

  /** Only a stop message makes an owner stop. */
  lemma HandleStopping(limits: ShardLimits, w: Owner, m: Control)
    ensures Handle(limits, w, m).0.stopping ==> w.stopping || m == Stop
  {
    hide Prepare;
  }

  lemma ControlStopping(limits: ShardLimits, c: Coordinator, stops: nat, o: nat, w: Owner)
    requires OwnerOK(c, stops, o, w) && w.control != [] && !w.stopping
    ensures Handle(limits, w.(control := w.control[1..]), w.control[0]).0.stopping ==> o < stops
  {
    HandleStopping(limits, w.(control := w.control[1..]), w.control[0]);
    OldestMessage(c, stops, o, w);
    hide Handle;
    hide OwnerOK;
    hide Relevant;
  }

  lemma ControlDisciplined(cfg: Config, s: State, o: nat)
    requires Disciplined(cfg, s) && OwnerEnabled(cfg, s, DoControl(o))
    ensures Disciplined(cfg, OwnerControl(cfg, s, o))
  {
    var w := s.owners[o];
    var (w', ack) := Handle(cfg.limits[o], w.(control := w.control[1..]), w.control[0]);
    HandleMessage(cfg, s.coordinator, s.stops, o, w);
    ControlStopping(cfg.limits[o], s.coordinator, s.stops, o, w);
    var s' := OwnerControl(cfg, s, o);
    hide Handle;
    hide CoordinatorOK;
    hide OwnerOK;
    hide Awaiting;
    assert s'.owners == s.owners[o := w']
        && s'.coordinator == if ack.Some? then s.coordinator.(ack := ack) else s.coordinator by {
      AwaitedIsBusy(s.coordinator, o);
    }
    hide OwnerControl;
    forall other | 0 <= other < |s.owners|
      ensures OwnerOK(s'.coordinator, s.stops, other, s'.owners[other])
      ensures s'.owners[other].stopping ==> s.owners[other].stopping || other < s.stops
    {
      if other != o && ack.Some? {
        OthersUnaffected(cfg, s.coordinator, ack.value, s.stops, o, other, s.owners[other]);
      }
    }
  }

  lemma AwaitedIsBusy(c: Coordinator, o: nat)
    ensures Awaiting(c, o) ==> c.Busy?
  {
  }

  lemma OwnerStepDisciplined(cfg: Config, s: State, step: Step)
    requires Disciplined(cfg, s) && IsOwnerStep(step) && OwnerEnabled(cfg, s, step)
    ensures Disciplined(cfg, OwnerStep(cfg, s, step))
  {
    hide OwnerTurn;
    hide OwnerControl;
    hide RunHead;
    hide Sweep;
    hide Relevant;
    match step
    case DoTurn(o, now) => TurnDisciplined(cfg, s, o, now);
    case DoControl(o) => ControlDisciplined(cfg, s, o);
    case DoTick(o, now, removed) => OneOwner(cfg, s, OwnerTick(s, o, now, removed), o);
    case DoData(o, now) =>
      var middle := SetOwner(s, o, s.owners[o].(at := Top));
      OneOwner(cfg, s, middle, o);
      RunHeadDisciplined(cfg, middle, o, now);
    case DoExit(o) => ExitDisciplined(cfg, s, o);
    case DoAskStats(o) =>
      RelevantPush(s.owners[o].control, StatsQuery);
      OneOwner(cfg, s, OwnerStep(cfg, s, step), o);
    case DoDropStats(o, i) =>
      RelevantDrop(s.owners[o].control, i);
      OneOwner(cfg, s, OwnerStep(cfg, s, step), o);
    case DoControlClosed(o) => ClosedDisciplined(cfg, s, o);
  }

  /** When the control channels close no owner is reserved. */
  lemma ClosedDisciplined(cfg: Config, s: State, o: nat)
    requires Disciplined(cfg, s) && OwnerEnabled(cfg, s, DoControlClosed(o))
    ensures Disciplined(cfg, SetOwner(s, o, OnClosed(s.owners[o])))
  {
    assert OwnerOK(s.coordinator, s.stops, o, s.owners[o]);
    assert s.owners[o].reservation == None;
    OneOwner(cfg, s, SetOwner(s, o, OnClosed(s.owners[o])), o);
  }

  lemma ExitDisciplined(cfg: Config, s: State, o: nat)
    requires Disciplined(cfg, s) && OwnerEnabled(cfg, s, DoExit(o))
    ensures Disciplined(cfg, SetOwner(s, o, s.owners[o].(at := Exited)))
  {
    assert OwnerOK(s.coordinator, s.stops, o, s.owners[o]);
    OneOwner(cfg, s, SetOwner(s, o, s.owners[o].(at := Exited)), o);
  }

  // ---------- client steps ----------

  /** Steps that leave every owner's control side alone. */
  predicate SameControl(w: Owner, w': Owner) {
    && w'.control == w.control && w'.reservation == w.reservation && w'.shard == w.shard
    && w'.at == w.at && w'.stopping == w.stopping && w'.dataClosed == w.dataClosed
    && (w.at == Exited ==> w'.data == w.data)
  }

  lemma SameControlDisciplined(cfg: Config, s: State, s': State)
    requires Disciplined(cfg, s) && |s'.owners| == |s.owners|
    requires s'.coordinator == s.coordinator && s'.stops == s.stops
    requires s'.crossClosed == s.crossClosed && s'.stopRequested == s.stopRequested && s'.closing == s.closing
    requires s'.dropped == s.dropped && (s'.crossClosed || s'.dropped ==> s'.cross == s.cross)
    requires StopRequest in s'.cross ==> StopRequest in s.cross
    requires forall o :: 0 <= o < |s.owners| ==> SameControl(s.owners[o], s'.owners[o])
    ensures Disciplined(cfg, s')
  {
    hide CoordinatorOK;
    hide Relevant;
    hide ReservationOK;
    hide Outstanding;
    forall o | 0 <= o < |s.owners|
      ensures OwnerOK(s'.coordinator, s'.stops, o, s'.owners[o])
    {
      assert SameControl(s.owners[o], s'.owners[o]);
      assert OwnerOK(s.coordinator, s.stops, o, s.owners[o]);
    }
  }

  /** Steps that change no owner's control side, nor anything the discipline speaks of. */
  predicate ControlFrame(s: State, s': State) {
    && |s'.owners| == |s.owners|
    && s'.coordinator == s.coordinator && s'.stops == s.stops
    && s'.crossClosed == s.crossClosed && s'.stopRequested == s.stopRequested && s'.closing == s.closing
    && s'.dropped == s.dropped && (s'.crossClosed || s'.dropped ==> s'.cross == s.cross)
    && (StopRequest in s'.cross ==> StopRequest in s.cross)
    && forall o :: 0 <= o < |s.owners| ==> SameControl(s.owners[o], s'.owners[o])
  }

  lemma FreeFrame(s: State, target: Target, free: nat)
    requires ValidTarget(s, target)
    ensures ControlFrame(s, WithFree(s, target, free))
  {
  }

  lemma EnqueueFrame(s: State, id: nat)
    requires id in s.clients && s.clients[id].WaitingQueue? && ValidTarget(s, s.clients[id].target)
    requires !QueueClosed(s, s.clients[id].target) && !s.dropped
    requires forall o :: 0 <= o < |s.owners| && s.owners[o].at == Exited ==> s.owners[o].dataClosed
    ensures ControlFrame(s, Enqueue(s, id))
  {
  }

  lemma FrameMore(s: State, middle: State, s': State)
    requires ControlFrame(s, middle) && s' == middle.(clients := s'.clients, log := s'.log)
    ensures ControlFrame(s, s')
  {
  }

  lemma AcquireFrame(s: State, id: nat)
    requires id in s.clients && s.clients[id].WaitingCredit? && ValidTarget(s, s.clients[id].target)
    requires s.clients[id].charge <= FreeAt(s, s.clients[id].target)
    ensures ControlFrame(s, Acquire(s, id))
  {
    var c := s.clients[id];
    var middle := WithFree(s, c.target, FreeAt(s, c.target) - c.charge);
    FreeFrame(s, c.target, FreeAt(s, c.target) - c.charge);
    hide WithFree;
    FrameMore(s, middle, Acquire(s, id));
  }

  lemma ReturnFrame(s: State, id: nat)
    requires id in s.clients && (s.clients[id].WaitingCredit? || s.clients[id].WaitingQueue?)
    requires ValidTarget(s, s.clients[id].target)
    ensures ControlFrame(s, ReturnCredit(s, id))
  {
    var c := s.clients[id];
    FreeFrame(s, c.target, FreeAt(s, c.target) + c.charge);
  }

  lemma ClientFrame(cfg: Config, s: State, step: Step)
    requires IsClientStep(step) && ClientEnabled(cfg, s, step)
    requires forall o :: 0 <= o < |s.owners| && s.owners[o].at == Exited ==> s.owners[o].dataClosed
    ensures ControlFrame(s, ClientStep(cfg, s, step))
  {
    hide TargetOf;
    hide Charge;
    hide WithFree;
    hide FreeAt;
    hide ReturnCredit;
    hide Acquire;
    hide Enqueue;
    if step.DoAcquire? {
      AcquireFrame(s, step.id);
    } else if step.DoEnqueue? {
      EnqueueFrame(s, step.id);
    } else if !step.DoBegin? {
      ReturnFrame(s, step.id);
      hide ControlFrame;
      FrameMore(s, ReturnCredit(s, step.id), ClientStep(cfg, s, step));
    }
  }

  lemma ClientStepDisciplined(cfg: Config, s: State, step: Step)
    requires Disciplined(cfg, s) && IsClientStep(step) && ClientEnabled(cfg, s, step)
    ensures Disciplined(cfg, ClientStep(cfg, s, step))
  {
    assert forall o :: 0 <= o < |s.owners| && s.owners[o].at == Exited ==> s.owners[o].dataClosed by {
      assert forall o :: 0 <= o < |s.owners| ==> OwnerOK(s.coordinator, s.stops, o, s.owners[o]);
    }
    ClientFrame(cfg, s, step);
    SameControlDisciplined(cfg, s, ClientStep(cfg, s, step));
  }
}
