/**
 * The history of a run: what each client saw, in order, and the one sequential table that the
 * commands and sweeps in it add up to.
 */
module History {
  import opened Bytes
  import opened Consistency
  import opened Discipline
  import opened Machine
  import opened Requests
  import opened Sequential
  import opened Sharding
  import opened Tables
  import R = Replies

  // ---------- the sequential run in the log ----------

  /** The table after the commands and sweeps of the log, one at a time, on one unsharded table. */
  ghost function Replay(cfg: Config, log: seq<Event>): Table {
    if log == [] then map[] else Next(cfg, Replay(cfg, log[..|log| - 1]), log[|log| - 1])
  }

  ghost function Next(cfg: Config, t: Table, e: Event): Table {
    match e
    case Ran(_, op, now, _) => Whole(cfg, t, op, now).0
    case Cleaned(_, removed, _) => t - removed
    case _ => t
  }

  /** A command answers what the sequential table says; a sweep removes only due keys, earliest first. */
  ghost predicate EventOK(cfg: Config, t: Table, e: Event) {
    match e
    case Ran(_, op, now, reply) => reply == Whole(cfg, t, op, now).1
    case Cleaned(o, removed, now) =>
      o < |cfg.limits| && Sweep(Part(t, cfg.route, o), now, cfg.expiryBatch, removed)
    case _ => true
  }

  ghost predicate Faithful(cfg: Config, log: seq<Event>) {
    forall i :: 0 <= i < |log| ==> EventOK(cfg, Replay(cfg, log[..i]), log[i])
  }

  ghost predicate Replayed(cfg: Config, s: State) {
    Replay(cfg, s.log) == s.table && Faithful(cfg, s.log)
  }

  lemma ReplayMore(cfg: Config, log: seq<Event>, e: Event)
    ensures Replay(cfg, log + [e]) == Next(cfg, Replay(cfg, log), e)
  {
    assert (log + [e])[..|log|] == log;
  }

  lemma FaithfulMore(cfg: Config, log: seq<Event>, e: Event)
    requires Faithful(cfg, log) && EventOK(cfg, Replay(cfg, log), e)
    ensures Faithful(cfg, log + [e])
  {
    hide Replay;
    hide EventOK;
    forall i | 0 <= i < |log + [e]|
      ensures EventOK(cfg, Replay(cfg, (log + [e])[..i]), (log + [e])[i])
    {
      if i == |log| {
        assert (log + [e])[..i] == log;
      } else {
        assert (log + [e])[..i] == log[..i];
      }
    }
  }

  /** One more event, which the sequential table agrees with. */
  lemma OneEvent(cfg: Config, s: State, s': State, e: Event)
    requires Replayed(cfg, s) && s'.log == s.log + [e]
    requires EventOK(cfg, s.table, e) && s'.table == Next(cfg, s.table, e)
    ensures Replayed(cfg, s')
  {
    ReplayMore(cfg, s.log, e);
    FaithfulMore(cfg, s.log, e);
    hide Replay;
    hide EventOK;
    hide Next;
    hide Faithful;
  }

  /** A local command's reply is the sequential table's. */
  lemma RunHeadReplayed(cfg: Config, s: State, o: nat, now: i64)
    requires cfg.Valid() && Consistent(cfg, s) && Replayed(cfg, s) && o < |s.owners| && s.owners[o].data != []
    requires !Pending(s.coordinator, o) && RoutesTo(s.owners[o].data[0].op, cfg.route, o)
    ensures Replayed(cfg, RunHead(cfg, s, o, now))
  {
    var w, r, s' := s.owners[o], s.owners[o].data[0], RunHead(cfg, s, o, now);
    var reply := ReplyOf(Execute(w.shard, cfg.limits[o], r.op, now).1);
    assert w.shard == ShardState(Part(s.table, cfg.route, o), w.shard.revision) by {
      assert OwnerTable(cfg, s.coordinator, s.table, o, w);
    }
    LocalIsWhole(cfg, s.table, o, w.shard.revision, r.op, now);
    var ran, returned := Ran(r.id, r.op, now, reply), Returned(r.id, reply);
    RunHeadLog(cfg, s, o, now);
    hide RunHead;
    hide Whole;
    hide Execute;
    hide Consistent;
    hide OnlyAt;
    hide Replayed;
    var middle := s.(table := s'.table, log := s.log + [ran]);
    assert s'.log == middle.log + [returned] by {
      assert s.log + [ran, returned] == s.log + [ran] + [returned];
    }
    OneEvent(cfg, s, middle, ran);
    OneEvent(cfg, middle, s', returned);
  }

  lemma RunHeadLog(cfg: Config, s: State, o: nat, now: i64)
    requires o < |s.owners| == |cfg.limits| && s.owners[o].data != []
    ensures var r, s' := s.owners[o].data[0], RunHead(cfg, s, o, now);
            var reply := ReplyOf(Execute(s.owners[o].shard, cfg.limits[o], r.op, now).1);
            && s'.log == s.log + [Ran(r.id, r.op, now, reply), Returned(r.id, reply)]
            && s'.clients == s.clients[r.id := Answered(reply)]
            && s'.table == Whole(cfg, s.table, r.op, now).0
  {
    hide Execute;
    hide Whole;
  }

  lemma TickReplayed(cfg: Config, s: State, o: nat, now: i64, removed: set<Bytes>)
    requires Consistent(cfg, s) && Replayed(cfg, s) && o < |s.owners| && !Pending(s.coordinator, o)
    requires Sweep(s.owners[o].shard.table, now, cfg.expiryBatch, removed)
    ensures Replayed(cfg, OwnerTick(s, o, now, removed))
  {
    assert OwnerTable(cfg, s.coordinator, s.table, o, s.owners[o]);
    OneEvent(cfg, s, OwnerTick(s, o, now, removed), Cleaned(o, removed, now));
  }

  // ---------- what one client saw ----------

  predicate Concerns(e: Event, id: nat) {
    !e.Cleaned? && e.id == id
  }

  /** The events of one request, in order. */
  function About(log: seq<Event>, id: nat): seq<Event> {
    if log == [] then []
    else
      var before := About(log[..|log| - 1], id);
      if Concerns(log[|log| - 1], id) then before + [log[|log| - 1]] else before
  }

  lemma AboutMore(log: seq<Event>, e: Event, id: nat)
    ensures About(log + [e], id) == if Concerns(e, id) then About(log, id) + [e] else About(log, id)
  {
    assert (log + [e])[..|log|] == log;
  }

  lemma AboutTwoMore(log: seq<Event>, e: Event, f: Event, id: nat)
    requires Concerns(e, id) <==> Concerns(f, id)
    ensures About(log + [e, f], id) == if Concerns(e, id) then About(log, id) + [e, f] else About(log, id)
  {
    AboutMore(log, e, id);
    AboutMore(log + [e], f, id);
    assert log + [e, f] == log + [e] + [f];
  }

  function ClientAt(clients: map<nat, Client>, id: nat): Option<Client> {
    if id in clients then Some(clients[id]) else None
  }

  function PlacedAt(placed: Option<Placed>, id: nat): Option<Placed> {
    if placed.Some? && placed.value.id == id then placed else None
  }

  /**
   * The life of a request: invoked once; refused, abandoned or accepted; if accepted, placed in the
   * history once; answered once, with the reply of that place.
   */
  predicate LifeOK(client: Option<Client>, placed: Option<Placed>, id: nat, h: seq<Event>) {
    match client
    case None => h == []
    case Some(WaitingCredit(op, _, _)) => h == [Invoked(id, op)]
    case Some(WaitingQueue(op, _, _)) => h == [Invoked(id, op)]
    case Some(Accepted(op, _, _)) =>
      if placed.Some? then h == [Invoked(id, op), Ran(id, op, placed.value.now, placed.value.reply)]
      else h == [Invoked(id, op)]
    case Some(Answered(reply)) =>
      && |h| == 3 && h[0].Invoked? && h[1].Ran?
      && h == [Invoked(id, h[0].op), Ran(id, h[0].op, h[1].now, reply), Returned(id, reply)]
    case Some(Refused(reply)) => |h| == 2 && h[0].Invoked? && h == [Invoked(id, h[0].op), Rejected(id, reply)]
    case Some(Gone) => |h| == 1 && h[0].Invoked? && h == [Invoked(id, h[0].op)]
  }

  ghost predicate Lives(cfg: Config, s: State) {
    forall id: nat ::
      LifeOK(ClientAt(s.clients, id), PlacedAt(InFlight(cfg, s.coordinator), id), id, About(s.log, id))
  }

  lemma InitialLives(cfg: Config)
    ensures Lives(cfg, Initial(cfg)) && Replayed(cfg, Initial(cfg))
  {
  }

  /** Only one request's life moves on. */
  lemma OneLife(cfg: Config, s: State, s': State, id: nat)
    requires Lives(cfg, s)
    requires forall other: nat :: other != id ==>
               && ClientAt(s'.clients, other) == ClientAt(s.clients, other)
               && PlacedAt(InFlight(cfg, s'.coordinator), other) == PlacedAt(InFlight(cfg, s.coordinator), other)
               && About(s'.log, other) == About(s.log, other)
    requires LifeOK(ClientAt(s'.clients, id), PlacedAt(InFlight(cfg, s'.coordinator), id), id, About(s'.log, id))
    ensures Lives(cfg, s')
  {
    hide LifeOK;
    hide ClientAt;
    hide PlacedAt;
    hide InFlight;
    hide About;
    forall other: nat
      ensures LifeOK(ClientAt(s'.clients, other), PlacedAt(InFlight(cfg, s'.coordinator), other), other,
                     About(s'.log, other))
    {
      assert LifeOK(ClientAt(s.clients, other), PlacedAt(InFlight(cfg, s.coordinator), other), other,
                    About(s.log, other));
    }
  }

  /** One client changes and at most one event about it is logged, with the coordinator's place unchanged. */
  lemma ClientLife(cfg: Config, s: State, s': State, id: nat, c: Client, e: Event)
    requires Lives(cfg, s) && s'.clients == s.clients[id := c]
    requires s'.log == s.log || (s'.log == s.log + [e] && Concerns(e, id))
    requires InFlight(cfg, s'.coordinator) == InFlight(cfg, s.coordinator)
    requires PlacedAt(InFlight(cfg, s.coordinator), id) == None
    requires LifeOK(Some(c), None, id, if s'.log == s.log then About(s.log, id) else About(s.log, id) + [e])
    ensures Lives(cfg, s')
  {
    forall other: nat
      ensures About(s.log + [e], other) == if Concerns(e, other) then About(s.log, other) + [e] else About(s.log, other)
    {
      AboutMore(s.log, e, other);
    }
    hide About;
    hide LifeOK;
    hide InFlight;
    OneLife(cfg, s, s', id);
  }

  lemma NotPlaced(cfg: Config, s: State, id: nat)
    requires RequestsOK(cfg, s) && (id in s.clients ==> !s.clients[id].Accepted? || s.clients[id].target != Cross)
    ensures PlacedAt(InFlight(cfg, s.coordinator), id) == None
  {
    if s.coordinator.Busy? {
      assert CrossQueue(s)[0] == s.coordinator.request;
    }
    hide Outcome;
  }

  // ---------- steps ----------

  lemma QuietLives(cfg: Config, s: State, s': State)
    requires Lives(cfg, s) && SameRequests(cfg, s, s') && s'.log == s.log
    ensures Lives(cfg, s')
  {
    hide InFlight;
    hide About;
    hide LifeOK;
  }

  lemma TickLives(cfg: Config, s: State, s': State, o: nat, removed: set<Bytes>, now: i64)
    requires Lives(cfg, s) && SameRequests(cfg, s, s') && s'.log == s.log + [Cleaned(o, removed, now)]
    ensures Lives(cfg, s')
  {
    forall id: nat
      ensures About(s'.log, id) == About(s.log, id)
    {
      AboutMore(s.log, Cleaned(o, removed, now), id);
    }
    hide InFlight;
    hide About;
    hide LifeOK;
  }

  /** A request that runs and is answered at once. */
  lemma AnsweredAtOnce(cfg: Config, s: State, s': State, r: Request, target: Target, now: i64, reply: R.Reply)
    requires Lives(cfg, s) && r.id in s.clients && s.clients[r.id] == Accepted(r.op, target, r.charge)
    requires PlacedAt(InFlight(cfg, s.coordinator), r.id) == None && s'.coordinator == s.coordinator
    requires s'.clients == s.clients[r.id := Answered(reply)]
    requires s'.log == s.log + [Ran(r.id, r.op, now, reply), Returned(r.id, reply)]
    ensures Lives(cfg, s')
  {
    var e, f := Ran(r.id, r.op, now, reply), Returned(r.id, reply);
    forall other: nat
      ensures About(s'.log, other) == if other == r.id then About(s.log, other) + [e, f] else About(s.log, other)
    {
      AboutTwoMore(s.log, e, f, other);
    }
    assert LifeOK(ClientAt(s.clients, r.id), None, r.id, About(s.log, r.id));
    hide About;
    hide InFlight;
    OneLife(cfg, s, s', r.id);
  }

  lemma RunHeadLives(cfg: Config, s: State, o: nat, now: i64)
    requires RequestsOK(cfg, s) && Lives(cfg, s) && o < |s.owners| && s.owners[o].data != []
    ensures Lives(cfg, RunHead(cfg, s, o, now))
  {
    var r := s.owners[o].data[0];
    RunHeadLog(cfg, s, o, now);
    RunHeadFrame(cfg, s, o, now);
    assert r.id in s.clients && s.clients[r.id] == Accepted(r.op, Local(o), r.charge) by {
      assert QueueOK(s.clients, Local(o), s.owners[o].data);
    }
    NotPlaced(cfg, s, r.id);
    hide RequestsOK;
    hide Lives;
    hide InFlight;
    hide PlacedAt;
    hide Execute;
    hide RunHead;
    hide Whole;
    AnsweredAtOnce(cfg, s, RunHead(cfg, s, o, now), r, Local(o), now,
                   ReplyOf(Execute(s.owners[o].shard, cfg.limits[o], r.op, now).1));
  }

  /** The coordinated command takes its place. */
  lemma SampleLives(cfg: Config, s: State, now: i64)
    requires RequestsOK(cfg, s) && Lives(cfg, s) && s.coordinator.Busy? && s.coordinator.phase == Sampling
    ensures Lives(cfg, Sample(cfg, s, now))
  {
    var r, s' := s.coordinator.request, Sample(cfg, s, now);
    assert s.clients[r.id] == Accepted(r.op, Cross, r.charge) by {
      assert CrossQueue(s)[0] == r;
    }
    var reply := Whole(cfg, s.table, r.op, now).1;
    var e := Ran(r.id, r.op, now, reply);
    assert InFlight(cfg, s.coordinator) == None;
    assert InFlight(cfg, s'.coordinator) == Some(Placed(r.id, r.op, now, reply));
    forall other: nat
      ensures About(s'.log, other) == if other == r.id then About(s.log, other) + [e] else About(s.log, other)
    {
      AboutMore(s.log, e, other);
    }
    assert LifeOK(ClientAt(s.clients, r.id), None, r.id, About(s.log, r.id));
    assert s'.clients == s.clients;
    hide About;
    hide InFlight;
    hide Whole;
    hide Sample;
    OneLife(cfg, s, s', r.id);
  }

  /** The coordinated command is answered with the reply of its place. */
  lemma CompleteLives(cfg: Config, s: State)
    requires RequestsOK(cfg, s) && VotesOK(cfg, s.coordinator) && Lives(cfg, s)
    requires s.coordinator.Busy? && s.coordinator.phase == Releasing
    ensures Lives(cfg, Complete(s))
  {
    var c, s' := s.coordinator, Complete(s);
    var r := c.request;
    assert s.clients[r.id] == Accepted(r.op, Cross, r.charge) by {
      assert CrossQueue(s)[0] == r;
    }
    var e := Returned(r.id, c.reply);
    assert InFlight(cfg, c) == Some(Placed(r.id, r.op, c.now, c.reply));
    assert InFlight(cfg, s'.coordinator) == None;
    forall other: nat
      ensures About(s'.log, other) == if other == r.id then About(s.log, other) + [e] else About(s.log, other)
    {
      AboutMore(s.log, e, other);
    }
    assert LifeOK(ClientAt(s.clients, r.id), InFlight(cfg, c), r.id, About(s.log, r.id));
    hide About;
    hide InFlight;
    hide Complete;
    hide VotesOK;
    assert s'.clients == s.clients[r.id := Answered(c.reply)];
    OneLife(cfg, s, s', r.id);
  }
}
