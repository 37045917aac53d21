/**
 * The running engine as a state machine: owner loops with their queues and reservations, the
 * coordinator's phases, client admission with byte credits, and shutdown, interleaved freely.
 * A failing assertion of the owner loop, a control channel closed while reserved, an owner or a
 * coordinator that is gone when a message has to be sent, an operation that cannot be split and
 * results that cannot be joined are steps into dead locations.
 */
module Machine {
  import opened Bytes
  import opened Commands
  import opened Sequential
  import opened Sharding
  import opened Tables
  import R = Replies

  datatype Request = Request(id: nat, op: Operation, charge: nat)

  // ---------- owners ----------

  datatype Control =
    | ReserveFor(txn: nat)
    | PrepareFor(txn: nat, op: Operation, now: i64)
    | ApplyFor(txn: nat)
    | ReleaseFor(txn: nat)
    | StatsQuery
    | Stop

  datatype Reservation = Reservation(txn: nat, prepared: Option<Prepared>)

  /** Where an owner is in its loop; an assertion failure ends in `Panicked`. */
  datatype Location = Top | Selecting | Exited | Panicked

  /**
   * One owner. The control queue holds the channel's buffer followed by the senders blocked on it,
   * who are served in arrival order. The counters record how many local commands have run, control
   * messages have been handled and reservations have been released.
   */
  datatype Owner = Owner(
    shard: ShardState,
    data: seq<Request>, dataClosed: bool,
    control: seq<Control>,
    reservation: Option<Reservation>,
    dataTurn: bool, stopping: bool,
    at: Location,
    free: nat,
    served: nat, handled: nat, released: nat)

  // ---------- the coordinator ----------

  datatype Ack = Done | Voted(result: Result<R.Reply, EngineError>)

  datatype Phase = Reserving | Sampling | Preparing | Applying | Releasing

  /** `before` remembers the whole table at the command's clock sample. */
  datatype Coordinator =
    | Idle
    | Busy(request: Request, txn: nat, shares: seq<Share>, phase: Phase, next: nat, sent: bool, ack: Option<Ack>,
           now: i64, before: Table, results: seq<R.Reply>, reply: R.Reply)
    | Finished
    | Crashed

  datatype CrossRequest = Coordinate(request: Request) | StopRequest

  // ---------- clients ----------

  datatype Target = Local(owner: nat) | Cross

  datatype Client =
    | WaitingCredit(op: Operation, target: Target, charge: nat)
    | WaitingQueue(op: Operation, target: Target, charge: nat)
    | Accepted(op: Operation, target: Target, charge: nat)
    | Answered(reply: R.Reply)
    | Refused(reply: R.Reply)
    | Gone

  /** What happened, in order. */
  datatype Event =
    | Invoked(id: nat, op: Operation)
    | Ran(id: nat, op: Operation, now: i64, reply: R.Reply)
    | Cleaned(owner: nat, removed: set<Bytes>, now: i64)
    | Returned(id: nat, reply: R.Reply)
    | Rejected(id: nat, reply: R.Reply)

  /**
   * The engine, with the sequential table its history stands for. It ends by `closing`, the orderly
   * shutdown, or by being `dropped`, when the last handle goes away without one.
   */
  datatype State = State(
    owners: seq<Owner>,
    coordinator: Coordinator,
    cross: seq<CrossRequest>, crossClosed: bool, crossFree: nat, lastTxn: nat,
    clients: map<nat, Client>,
    closing: bool, stopRequested: bool, stops: nat, dropped: bool,
    table: Table, log: seq<Event>)

  function NewOwner(cfg: Config): Owner {
    Owner(ShardState(map[], 0), [], false, [], None, false, false, Top, cfg.queueBytes, 0, 0, 0)
  }

  function Initial(cfg: Config): State {
    State(
      seq(|cfg.limits|, _ => NewOwner(cfg)), Idle, [], false, cfg.queueBytes, 0, map[],
      false, false, 0, false, map[], [])
  }

  // ---------- admission ----------

  const SHUTTING_DOWN := R.Error(Ascii("BUSY Recall is shutting down"))
  const NO_KEYS := R.Error(Ascii("ERR empty key set"))
  const TOO_LARGE := R.Error(Ascii("BUSY command exceeds queue byte capacity"))
  const TIMED_OUT := R.Error(Ascii("BUSY admission queue deadline exceeded"))

  /** Payload bytes plus a conservative charge per argument and per request. */
  function Charge(op: Operation): nat {
    op.PayloadBytes() + |op.Keys()| * 128 + 256
  }

  function TargetOf(cfg: Config, op: Operation): Target
    requires op.Keys() != []
  {
    var first := cfg.route(op.Keys()[0]);
    if forall k :: k in op.Keys() ==> cfg.route(k) == first then Local(first) else Cross
  }

  function Refuse(s: State, id: nat, reply: R.Reply): State {
    s.(clients := s.clients[id := Refused(reply)], log := s.log + [Rejected(id, reply)])
  }

  function Begin(cfg: Config, s: State, id: nat, op: Operation): State {
    var s := s.(log := s.log + [Invoked(id, op)]);
    if s.closing then Refuse(s, id, SHUTTING_DOWN)
    else if op.Keys() == [] then Refuse(s, id, NO_KEYS)
    else if Charge(op) > cfg.queueBytes then Refuse(s, id, TOO_LARGE)
    else s.(clients := s.clients[id := WaitingCredit(op, TargetOf(cfg, op), Charge(op))])
  }

  predicate ValidTarget(s: State, target: Target) {
    target.Local? ==> target.owner < |s.owners|
  }

  function FreeAt(s: State, target: Target): nat
    requires ValidTarget(s, target)
  {
    match target
    case Local(o) => s.owners[o].free
    case Cross => s.crossFree
  }

  function WithFree(s: State, target: Target, free: nat): State
    requires ValidTarget(s, target)
  {
    match target
    case Local(o) => s.(owners := s.owners[o := s.owners[o].(free := free)])
    case Cross => s.(crossFree := free)
  }

  function Acquire(s: State, id: nat): State
    requires id in s.clients && s.clients[id].WaitingCredit? && ValidTarget(s, s.clients[id].target)
    requires s.clients[id].charge <= FreeAt(s, s.clients[id].target)
  {
    var c := s.clients[id];
    var s := WithFree(s, c.target, FreeAt(s, c.target) - c.charge);
    s.(clients := s.clients[id := WaitingQueue(c.op, c.target, c.charge)])
  }

  predicate QueueClosed(s: State, target: Target)
    requires ValidTarget(s, target)
  {
    match target
    case Local(o) => s.owners[o].dataClosed
    case Cross => s.crossClosed
  }

  predicate QueueHasRoom(cfg: Config, s: State, target: Target)
    requires ValidTarget(s, target)
  {
    match target
    case Local(o) => |s.owners[o].data| < cfg.queueCapacity
    case Cross => |s.cross| < cfg.queueCapacity
  }

  function Enqueue(s: State, id: nat): State
    requires id in s.clients && s.clients[id].WaitingQueue? && ValidTarget(s, s.clients[id].target)
  {
    var c := s.clients[id];
    var request := Request(id, c.op, c.charge);
    var s := s.(clients := s.clients[id := Accepted(c.op, c.target, c.charge)]);
    match c.target
    case Local(o) => s.(owners := s.owners[o := s.owners[o].(data := s.owners[o].data + [request])])
    case Cross => s.(cross := s.cross + [Coordinate(request)])
  }

  /** An admission that ends without entering a queue returns whatever credit it holds. */
  function ReturnCredit(s: State, id: nat): State
    requires id in s.clients && (s.clients[id].WaitingCredit? || s.clients[id].WaitingQueue?)
    requires ValidTarget(s, s.clients[id].target)
  {
    var c := s.clients[id];
    if c.WaitingQueue? then WithFree(s, c.target, FreeAt(s, c.target) + c.charge) else s
  }

  // ---------- owner steps ----------

  function SetOwner(s: State, o: nat, w: Owner): State
    requires o < |s.owners|
  {
    s.(owners := s.owners[o := w])
  }

  /** An owner runs its oldest local command to completion, and its credit is free again. */
  ghost function ServeHead(limits: ShardLimits, w: Owner, now: i64): (Owner, R.Reply)
    requires w.data != []
  {
    var (shard, result) := Execute(w.shard, limits, w.data[0].op, now);
    (w.(shard := shard, data := w.data[1..], free := w.free + w.data[0].charge, served := w.served + 1),
     ReplyOf(result))
  }

  /** Runs the oldest queued local command of an owner; the command takes its place in the history and is answered. */
  ghost function RunHead(cfg: Config, s: State, o: nat, now: i64): State
    requires o < |s.owners| == |cfg.limits| && s.owners[o].data != []
  {
    var request := s.owners[o].data[0];
    var (w', reply) := ServeHead(cfg.limits[o], s.owners[o], now);
    SetOwner(s, o, w').(
      clients := s.clients[request.id := Answered(reply)],
      table := Whole(cfg, s.table, request.op, now).0,
      log := s.log + [Ran(request.id, request.op, now, reply), Returned(request.id, reply)])
  }

  predicate DataFirst(w: Owner) {
    w.dataTurn && w.reservation == None
  }

  function TurnTaken(w: Owner): Owner {
    if DataFirst(w) then w.(dataTurn := false, at := Selecting) else w.(at := Selecting)
  }

  /** The top of the loop: one local command first, if it is the data queue's turn. */
  ghost function OwnerTurn(cfg: Config, s: State, o: nat, now: i64): State
    requires o < |s.owners| == |cfg.limits|
  {
    var middle := SetOwner(s, o, TurnTaken(s.owners[o]));
    if DataFirst(s.owners[o]) && s.owners[o].data != [] then RunHead(cfg, middle, o, now) else middle
  }

  function Deliver(c: Coordinator, ack: Ack): Coordinator {
    if c.Busy? then c.(ack := Some(ack)) else c
  }

  function Dead(w: Owner): (Owner, Option<Ack>) {
    (w.(at := Panicked), None)
  }

  function OnReserve(w: Owner, txn: nat): (Owner, Option<Ack>) {
    if w.reservation.Some? then Dead(w)
    else (w.(reservation := Some(Reservation(txn, None))), Some(Done))
  }

  ghost function OnPrepare(limits: ShardLimits, w: Owner, txn: nat, op: Operation, now: i64): (Owner, Option<Ack>) {
    if w.reservation == None || w.reservation.value.txn != txn || w.reservation.value.prepared.Some? then Dead(w)
    else CastVote(w, txn, Prepare(w.shard, limits, op, now))
  }

  function CastVote(w: Owner, txn: nat, result: Result<Prepared, EngineError>): (Owner, Option<Ack>) {
    match result
    case Err(error) => (w, Some(Voted(Err(error))))
    case Ok(prepared) =>
      (w.(reservation := Some(Reservation(txn, Some(prepared)))), Some(Voted(Ok(prepared.response))))
  }

  /** Only a preparation made at the current revision may be applied. */
  function OnApply(w: Owner, txn: nat): (Owner, Option<Ack>) {
    if w.reservation == None || w.reservation.value.txn != txn || w.reservation.value.prepared == None
       || w.reservation.value.prepared.value.revision != w.shard.revision then Dead(w)
    else
      (w.(shard := Commit(w.shard, w.reservation.value.prepared.value), reservation := Some(Reservation(txn, None))),
       Some(Done))
  }

  function OnRelease(w: Owner, txn: nat): (Owner, Option<Ack>) {
    if w.reservation == None || w.reservation.value.txn != txn then Dead(w)
    else (w.(reservation := None, dataTurn := true, released := w.released + 1), Some(Done))
  }

  /** Every sender of the control channel is gone: the owner drains its queue and leaves. */
  function OnClosed(w: Owner): Owner {
    if w.reservation.Some? then w.(at := Panicked) else w.(dataClosed := true, stopping := true, at := Top)
  }

  function OnStop(w: Owner): (Owner, Option<Ack>) {
    if w.reservation.Some? then Dead(w) else (w.(dataClosed := true, stopping := true), None)
  }

  /** An owner's reaction to one control message, and the completion it sends. */
  ghost function Handle(limits: ShardLimits, w: Owner, m: Control): (Owner, Option<Ack>) {
    var w := w.(at := Top, handled := w.handled + 1);
    match m
    case ReserveFor(txn) => OnReserve(w, txn)
    case PrepareFor(txn, op, now) => OnPrepare(limits, w, txn, op, now)
    case ApplyFor(txn) => OnApply(w, txn)
    case ReleaseFor(txn) => OnRelease(w, txn)
    case StatsQuery => (w.(dataTurn := true), None)
    case Stop => OnStop(w)
  }

  ghost function OwnerControl(cfg: Config, s: State, o: nat): State
    requires o < |s.owners| == |cfg.limits| && s.owners[o].control != []
  {
    var w := s.owners[o];
    var (w', ack) := Handle(cfg.limits[o], w.(control := w.control[1..]), w.control[0]);
    SetOwner(s, o, w').(coordinator := if ack.Some? then Deliver(s.coordinator, ack.value) else s.coordinator)
  }

  function Ticked(w: Owner, removed: set<Bytes>): Owner {
    w.(shard := Swept(w.shard, removed), dataTurn := true, at := Top)
  }

  /** A tick: the owner sweeps due entries. */
  function OwnerTick(s: State, o: nat, now: i64, removed: set<Bytes>): State
    requires o < |s.owners|
  {
    SetOwner(s, o, Ticked(s.owners[o], removed)).(
      table := s.table - removed, log := s.log + [Cleaned(o, removed, now)])
  }

  /** The control branch is disabled once stopping; otherwise it has priority over the others. */
  predicate ControlIdle(w: Owner) {
    w.stopping || w.control == []
  }

  // ---------- coordinator steps ----------

  function Expected(c: Coordinator): Control
    requires c.Busy? && c.next < |c.shares| && c.phase != Sampling
  {
    match c.phase
    case Reserving => ReserveFor(c.txn)
    case Preparing => PrepareFor(c.txn, c.shares[c.next].operation, c.now)
    case Applying => ApplyFor(c.txn)
    case Releasing => ReleaseFor(c.txn)
  }

  function Take(cfg: Config, s: State): State
    requires s.cross != [] && s.cross[0].Coordinate?
  {
    var request := s.cross[0].request;
    var s := s.(cross := s.cross[1..], lastTxn := s.lastTxn + 1);
    if request.op.Divisible() then
      var shares := Shares(request.op, cfg.route, |cfg.limits|);
      s.(coordinator := Busy(request, s.lastTxn, shares, Reserving, 0, false, None, 0, map[], [], R.OK))
    else s.(coordinator := Crashed)
  }

  function SendControl(s: State): State
    requires s.coordinator.Busy? && s.coordinator.next < |s.coordinator.shares| && s.coordinator.phase != Sampling
    requires s.coordinator.shares[s.coordinator.next].owner < |s.owners|
  {
    var c := s.coordinator;
    var o := c.shares[c.next].owner;
    var w := s.owners[o];
    if w.at == Exited then s.(coordinator := Crashed)
    else SetOwner(s, o, w.(control := w.control + [Expected(c)])).(coordinator := c.(sent := true))
  }

  /** The clock sample: every participant is reserved, and the command takes its place in the history. */
  ghost function Sample(cfg: Config, s: State, now: i64): State
    requires s.coordinator.Busy?
  {
    var c := s.coordinator;
    var (after, reply) := Whole(cfg, s.table, c.request.op, now);
    s.(coordinator := c.(phase := Preparing, next := 0, now := now, before := s.table, results := []),
       table := after, log := s.log + [Ran(c.request.id, c.request.op, now, reply)])
  }

  /** After the last vote: join the results, check the size, then apply or give up. */
  function Join(cfg: Config, c: Coordinator, results: seq<R.Reply>): Coordinator
    requires c.Busy?
  {
    if !Combinable(c.request.op, c.shares, results) then Crashed
    else
      var reply := Combined(c.request.op, c.shares, results);
      var c := c.(next := 0, results := results);
      if TooLong(reply, cfg.maxReply) then c.(phase := Releasing, reply := ReplyTooLong.ToReply())
      else c.(phase := Applying, reply := reply)
  }

  function Received(cfg: Config, c: Coordinator): Coordinator
    requires c.Busy? && c.ack.Some?
  {
    var ack := c.ack.value;
    var last := c.next + 1 == |c.shares|;
    var c := c.(sent := false, ack := None, next := c.next + 1);
    match c.phase
    case Reserving => if last then c.(phase := Sampling, next := 0) else c
    case Sampling => Crashed
    case Preparing =>
      (match ack
       case Done => Crashed
       case Voted(Err(error)) => c.(phase := Releasing, next := 0, reply := error.ToReply())
       case Voted(Ok(reply)) =>
         if last then Join(cfg, c, c.results + [reply]) else c.(results := c.results + [reply]))
    case Applying => if last then c.(phase := Releasing, next := 0) else c
    case Releasing => c
  }

  function Complete(s: State): State
    requires s.coordinator.Busy?
  {
    var c := s.coordinator;
    var request := c.request;
    s.(coordinator := Idle, crossFree := s.crossFree + request.charge,
       clients := s.clients[request.id := Answered(c.reply)], log := s.log + [Returned(request.id, c.reply)])
  }

  // ---------- ending ----------

  predicate Waiting(c: Client) {
    c.WaitingCredit? || c.WaitingQueue?
  }

  /** The last handle can go only when no admission holds one. */
  predicate NobodyWaits(s: State) {
    forall id :: id in s.clients ==> !Waiting(s.clients[id])
  }

  /** The coordinator held the last senders of the control channels. */
  predicate ChannelsClosed(s: State) {
    s.dropped && s.coordinator == Finished
  }

  /** Shutdown asks the coordinator to stop; a coordinator that is gone already is fatal. */
  function CrossStop(s: State): State {
    if s.crossClosed || s.coordinator == Finished then s.(coordinator := Crashed)
    else s.(cross := s.cross + [StopRequest], stopRequested := true)
  }

  /** Then it asks the owners, one after another; an owner that is gone already is fatal. */
  function OwnerStop(s: State): State
    requires s.stops < |s.owners|
  {
    var w := s.owners[s.stops];
    if w.at == Exited then s.(coordinator := Crashed)
    else SetOwner(s, s.stops, w.(control := w.control + [Stop])).(stops := s.stops + 1)
  }

  // ---------- all steps ----------

  datatype Step =
    | DoBegin(id: nat, op: Operation)
    | DoAcquire(id: nat)
    | DoEnqueue(id: nat)
    | DoRefuseClosed(id: nat)
    | DoTimeOut(id: nat)
    | DoAbandon(id: nat)
    | DoTurn(o: nat, now: i64)
    | DoControl(o: nat)
    | DoTick(o: nat, now: i64, removed: set<Bytes>)
    | DoData(o: nat, now: i64)
    | DoExit(o: nat)
    | DoTake
    | DoTakeStop
    | DoFinish
    | DoSend
    | DoReceive
    | DoSample(now: i64)
    | DoComplete
    | DoAskStats(o: nat)
    | DoDropStats(o: nat, i: nat)
    | DoControlClosed(o: nat)
    | DoDropHandles
    | DoShutdown
    | DoCrossStop
    | DoOwnerStop

  ghost predicate OwnerEnabled(cfg: Config, s: State, step: Step)
    requires |s.owners| == |cfg.limits|
  {
    match step
    case DoTurn(o, now) => o < |s.owners| && s.owners[o].at == Top
    case DoControl(o) =>
      o < |s.owners| && s.owners[o].at == Selecting && !s.owners[o].stopping && s.owners[o].control != []
    case DoTick(o, now, removed) =>
      && o < |s.owners| && s.owners[o].at == Selecting && s.owners[o].reservation == None
      && !s.owners[o].stopping && s.owners[o].control == [] && !ChannelsClosed(s)
      && Sweep(s.owners[o].shard.table, now, cfg.expiryBatch, removed)
    case DoData(o, now) =>
      && o < |s.owners| && s.owners[o].at == Selecting && s.owners[o].reservation == None
      && ControlIdle(s.owners[o]) && (ChannelsClosed(s) ==> s.owners[o].stopping) && s.owners[o].data != []
    case DoExit(o) =>
      && o < |s.owners| && s.owners[o].at == Selecting && s.owners[o].reservation == None
      && ControlIdle(s.owners[o]) && s.owners[o].data == [] && s.owners[o].dataClosed
    case DoAskStats(o) => o < |s.owners| && s.owners[o].at != Exited && !s.dropped
    case DoDropStats(o, i) =>
      o < |s.owners| && 8 <= i < |s.owners[o].control| && s.owners[o].control[i] == StatsQuery
    case DoControlClosed(o) =>
      && o < |s.owners| && s.owners[o].at == Selecting && !s.owners[o].stopping
      && s.owners[o].control == [] && ChannelsClosed(s)
    case _ => false
  }

  predicate CoordinatorEnabled(cfg: Config, s: State, step: Step) {
    var c := s.coordinator;
    match step
    case DoTake => c == Idle && s.cross != [] && s.cross[0].Coordinate?
    case DoTakeStop => c == Idle && s.cross != [] && s.cross[0].StopRequest?
    case DoFinish => c == Idle && s.cross == [] && (s.crossClosed || s.dropped)
    case DoSend =>
      && c.Busy? && !c.sent && c.next < |c.shares| && c.phase != Sampling
      && c.shares[c.next].owner < |s.owners|
    case DoReceive => c.Busy? && c.ack.Some?
    case DoSample(now) => c.Busy? && c.phase == Sampling
    case DoComplete => c.Busy? && c.phase == Releasing && c.next == |c.shares| && !c.sent
    case DoDropHandles => !s.closing && !s.dropped && NobodyWaits(s)
    case DoShutdown => !s.closing && !s.dropped
    case DoCrossStop =>
      && s.closing && !s.stopRequested
      && (s.crossClosed || c == Finished || |s.cross| < cfg.queueCapacity)
    case DoOwnerStop => c == Finished && s.stopRequested && s.stops < |s.owners|
    case _ => false
  }

  /** Whoever is being served holds a handle, so none of these steps follows the last one's drop. */
  predicate ClientEnabled(cfg: Config, s: State, step: Step) {
    && !s.dropped
    && match step
       case DoBegin(id, op) => id !in s.clients
       case DoAcquire(id) =>
         && id in s.clients && s.clients[id].WaitingCredit? && ValidTarget(s, s.clients[id].target)
         && s.clients[id].charge <= FreeAt(s, s.clients[id].target)
       case DoEnqueue(id) =>
         && id in s.clients && s.clients[id].WaitingQueue? && ValidTarget(s, s.clients[id].target)
         && !QueueClosed(s, s.clients[id].target) && QueueHasRoom(cfg, s, s.clients[id].target)
       case DoRefuseClosed(id) =>
         && id in s.clients && s.clients[id].WaitingQueue? && ValidTarget(s, s.clients[id].target)
         && QueueClosed(s, s.clients[id].target)
       case DoTimeOut(id) =>
         && id in s.clients && (s.clients[id].WaitingCredit? || s.clients[id].WaitingQueue?)
         && ValidTarget(s, s.clients[id].target)
       case DoAbandon(id) =>
         && id in s.clients && (s.clients[id].WaitingCredit? || s.clients[id].WaitingQueue?)
         && ValidTarget(s, s.clients[id].target)
       case _ => false
  }

  predicate IsOwnerStep(step: Step) {
    step.DoTurn? || step.DoControl? || step.DoTick? || step.DoData? || step.DoExit?
    || step.DoAskStats? || step.DoDropStats? || step.DoControlClosed?
  }

  predicate IsClientStep(step: Step) {
    step.DoBegin? || step.DoAcquire? || step.DoEnqueue? || step.DoRefuseClosed? || step.DoTimeOut? || step.DoAbandon?
  }

  ghost predicate Enabled(cfg: Config, s: State, step: Step) {
    && |s.owners| == |cfg.limits|
    && (if IsOwnerStep(step) then OwnerEnabled(cfg, s, step)
        else if IsClientStep(step) then ClientEnabled(cfg, s, step)
        else CoordinatorEnabled(cfg, s, step))
  }

  /** Steps that change only an owner's control queue or whether it goes on. */
  predicate IsAside(step: Step) {
    step.DoExit? || step.DoAskStats? || step.DoDropStats? || step.DoControlClosed?
  }

  function Aside(w: Owner, step: Step): Owner
    requires IsAside(step) && (step.DoDropStats? ==> step.i < |w.control|)
  {
    match step
    case DoExit(_) => w.(at := Exited)
    case DoAskStats(_) => w.(control := w.control + [StatsQuery])
    case DoDropStats(_, i) => w.(control := w.control[..i] + w.control[i + 1..])
    case DoControlClosed(_) => OnClosed(w)
  }

  ghost function OwnerStep(cfg: Config, s: State, step: Step): State
    requires |s.owners| == |cfg.limits| && IsOwnerStep(step) && OwnerEnabled(cfg, s, step)
  {
    match step
    case DoTurn(o, now) => OwnerTurn(cfg, s, o, now)
    case DoControl(o) => OwnerControl(cfg, s, o)
    case DoTick(o, now, removed) => OwnerTick(s, o, now, removed)
    case DoData(o, now) => RunHead(cfg, SetOwner(s, o, s.owners[o].(at := Top)), o, now)
    case DoExit(o) => SetOwner(s, o, Aside(s.owners[o], step))
    case DoAskStats(o) => SetOwner(s, o, Aside(s.owners[o], step))
    case DoDropStats(o, i) => SetOwner(s, o, Aside(s.owners[o], step))
    case DoControlClosed(o) => SetOwner(s, o, Aside(s.owners[o], step))
  }

  function ClientStep(cfg: Config, s: State, step: Step): State
    requires IsClientStep(step) && ClientEnabled(cfg, s, step)
  {
    match step
    case DoBegin(id, op) => Begin(cfg, s, id, op)
    case DoAcquire(id) => Acquire(s, id)
    case DoEnqueue(id) => Enqueue(s, id)
    case DoRefuseClosed(id) => Refuse(ReturnCredit(s, id), id, SHUTTING_DOWN)
    case DoTimeOut(id) => Refuse(ReturnCredit(s, id), id, TIMED_OUT)
    case DoAbandon(id) => ReturnCredit(s, id).(clients := s.clients[id := Gone])
  }

  ghost function CoordinatorStep(cfg: Config, s: State, step: Step): State
    requires !IsOwnerStep(step) && !IsClientStep(step) && CoordinatorEnabled(cfg, s, step)
  {
    match step
    case DoTake => Take(cfg, s)
    case DoTakeStop => s.(cross := s.cross[1..], crossClosed := true)
    case DoFinish => s.(coordinator := Finished)
    case DoSend => SendControl(s)
    case DoReceive => s.(coordinator := Received(cfg, s.coordinator))
    case DoSample(now) => Sample(cfg, s, now)
    case DoComplete => Complete(s)
    case DoDropHandles => s.(dropped := true)
    case DoShutdown => s.(closing := true)
    case DoCrossStop => CrossStop(s)
    case DoOwnerStop => OwnerStop(s)
  }

  ghost function Do(cfg: Config, s: State, step: Step): State
    requires Enabled(cfg, s, step)
  {
    if IsOwnerStep(step) then OwnerStep(cfg, s, step)
    else if IsClientStep(step) then ClientStep(cfg, s, step)
    else CoordinatorStep(cfg, s, step)
  }

  /** A run: consecutive states, each reached from the one before by an enabled step. */
  ghost predicate IsRun(cfg: Config, states: seq<State>, steps: seq<Step>) {
    && |states| == |steps| + 1
    && forall i :: 0 <= i < |steps| ==>
         Enabled(cfg, states[i], steps[i]) && states[i + 1] == Do(cfg, states[i], steps[i])
  }
}
