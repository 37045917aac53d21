/** The coordinator's and clients' steps keep the owners' tables and the sequential table together. */
module Atomicity {
  import opened Bytes
  import opened Commands
  import opened Consistency
  import opened Coordination
  import opened Discipline
  import opened Machine
  import opened Sequential
  import opened Sharding
  import opened Tables
  import R = Replies

  /** A step that changes no owner's table or reservation. */
  lemma NewCoordinator(cfg: Config, s: State, s': State)
    requires Consistent(cfg, s) && |s'.owners| == |s.owners| && s'.table == s.table
    requires VotesOK(cfg, s'.coordinator)
    requires forall o :: 0 <= o < |s.owners| ==>
               s'.owners[o].shard == s.owners[o].shard && s'.owners[o].reservation == s.owners[o].reservation
    requires forall o :: 0 <= o < |s.owners| && OwnerTable(cfg, s.coordinator, s.table, o, s.owners[o]) ==>
               OwnerTable(cfg, s'.coordinator, s.table, o, s.owners[o])
    ensures Consistent(cfg, s')
  {
    hide OwnerTable;
    hide VotesOK;
    hide Budgeted;
    forall o | 0 <= o < |s.owners|
      ensures OwnerTable(cfg, s'.coordinator, s'.table, o, s'.owners[o])
    {
      MovedOwner(cfg, s'.coordinator, s.table, o, s.owners[o], s'.owners[o]);
    }
  }

  /** No command has taken its place in the history and still waits to be installed. */
  predicate Settled(c: Coordinator) {
    c.Busy? ==> c.phase != Preparing && c.phase != Applying
  }

  lemma SettledTable(cfg: Config, c: Coordinator, c': Coordinator, t: Table, o: nat, w: Owner)
    requires Settled(c) && Settled(c') && o < |cfg.limits| && OwnerTable(cfg, c, t, o, w)
    ensures OwnerTable(cfg, c', t, o, w)
  {
    hide IndexOf;
    hide WithinBudget;
    hide Part;
    hide Whole;
    hide Prepare;
  }

  /** Steps between settled coordinators. */
  lemma SettledStep(cfg: Config, s: State, s': State)
    requires Consistent(cfg, s) && |s'.owners| == |s.owners| && s'.table == s.table
    requires Settled(s.coordinator) && Settled(s'.coordinator) && VotesOK(cfg, s'.coordinator)
    requires forall o :: 0 <= o < |s.owners| ==>
               s'.owners[o].shard == s.owners[o].shard && s'.owners[o].reservation == s.owners[o].reservation
    ensures Consistent(cfg, s')
  {
    forall o | 0 <= o < |s.owners| && OwnerTable(cfg, s.coordinator, s.table, o, s.owners[o])
      ensures OwnerTable(cfg, s'.coordinator, s.table, o, s.owners[o])
    {
      SettledTable(cfg, s.coordinator, s'.coordinator, s.table, o, s.owners[o]);
    }
    hide OwnerTable;
    hide VotesOK;
    hide Settled;
    NewCoordinator(cfg, s, s');
  }

  // ---------- sending ----------

  lemma SentTable(cfg: Config, c: Coordinator, t: Table, o: nat, w: Owner)
    requires c.Busy? && o < |cfg.limits| && OwnerTable(cfg, c, t, o, w)
    ensures OwnerTable(cfg, c.(sent := true), t, o, w)
  {
    hide IndexOf;
    hide WithinBudget;
    hide Part;
    hide Whole;
    hide Prepare;
    assert Pending(c.(sent := true), o) == Pending(c, o);
    assert Outcome(cfg, c.(sent := true)) == Outcome(cfg, c);
  }

  lemma SentVotes(cfg: Config, c: Coordinator)
    requires c.Busy? && VotesOK(cfg, c)
    ensures VotesOK(cfg, c.(sent := true))
  {
    hide Whole;
    hide Vote;
    hide Shares;
    hide Responses;
    hide Budgeted;
    assert Outcome(cfg, c.(sent := true)) == Outcome(cfg, c);
  }

  lemma SentOwners(s: State)
    requires s.coordinator.Busy? && s.coordinator.next < |s.coordinator.shares| && s.coordinator.phase != Sampling
    requires s.coordinator.shares[s.coordinator.next].owner < |s.owners|
    ensures var s' := SendControl(s);
            && |s'.owners| == |s.owners| && s'.table == s.table
            && (s'.coordinator.Crashed? || s'.coordinator == s.coordinator.(sent := true))
            && forall o :: 0 <= o < |s.owners| ==>
                 s'.owners[o].shard == s.owners[o].shard && s'.owners[o].reservation == s.owners[o].reservation
  {
    hide Expected;
    var c := s.coordinator;
    var o := c.shares[c.next].owner;
    if s.owners[o].at != Exited {
      assert SendControl(s).owners == s.owners[o := s.owners[o].(control := s.owners[o].control + [Expected(c)])];
    }
    hide SendControl;
  }

  lemma SendConsistent(cfg: Config, s: State)
    requires Disciplined(cfg, s) && Consistent(cfg, s) && CoordinatorEnabled(cfg, s, DoSend)
    ensures Consistent(cfg, SendControl(s))
  {
    var c := s.coordinator;
    SendDisciplined(cfg, s);
    SentVotes(cfg, c);
    SentOwners(s);
    assert |s.owners| == |cfg.limits|;
    hide OwnerTable;
    hide VotesOK;
    hide Disciplined;
    hide Consistent;
    hide SendControl;
    forall o | 0 <= o < |s.owners| && OwnerTable(cfg, c, s.table, o, s.owners[o])
      ensures OwnerTable(cfg, c.(sent := true), s.table, o, s.owners[o])
    {
      SentTable(cfg, c, s.table, o, s.owners[o]);
    }
    NewCoordinator(cfg, s, SendControl(s));
  }

  // ---------- receiving votes ----------

  /** A vote in favour extends the votes counted so far. */
  lemma VoteInFavour(cfg: Config, op: Operation, t: Table, now: i64, shares: seq<Share>, n: nat, results: seq<R.Reply>)
    requires VotesSoFar(cfg, op, t, now, shares, n, results) && n < |shares| && Vote(cfg, t, shares[n], now).Ok?
    ensures VotesSoFar(cfg, op, t, now, shares, n + 1, results + [Vote(cfg, t, shares[n], now).value])
  {
    hide Responses;
    hide Vote;
    hide Shares;
    VoteIsResponse(cfg, t, shares, n, now);
    PrefixGrows(Responses(t, shares, cfg.route, now), n);
  }

  lemma PrefixGrows<T>(s: seq<T>, n: nat)
    requires n < |s|
    ensures s[..n + 1] == s[..n] + [s[n]]
  {
  }

  lemma VoteIsResponse(cfg: Config, t: Table, shares: seq<Share>, n: nat, now: i64)
    requires forall i :: 0 <= i < |shares| ==> shares[i].operation.Divisible()
    requires n < |shares| && shares[n].owner < |cfg.limits| && Vote(cfg, t, shares[n], now).Ok?
    ensures Vote(cfg, t, shares[n], now).value == Responses(t, shares, cfg.route, now)[n]
  {
    assert shares[n].operation.Divisible();
    VoteIsPrepare(cfg, t, shares[n], now, 0);
    hide Vote;
    hide Prepare;
    hide DecideDivisible;
    hide Part;
  }

  lemma VoteCounted(cfg: Config, c: Coordinator)
    requires c.Busy? && c.phase == Preparing && c.ack.Some? && c.ack.value.Voted? && c.ack.value.result.Ok?
    requires c.next + 1 < |c.shares|
    ensures Received(cfg, c) ==
            c.(sent := false, ack := None, next := c.next + 1, results := c.results + [c.ack.value.result.value])
  {
    hide Combinable;
    hide Combined;
    hide TooLong;
  }

  lemma NextVote(cfg: Config, c: Coordinator)
    requires CoordinatorOK(cfg, c) && VotesOK(cfg, c)
    requires c.Busy? && c.phase == Preparing && c.ack.Some? && c.ack.value.result.Ok? && c.next + 1 < |c.shares|
    ensures VotesOK(cfg, Received(cfg, c))
  {
    VoteInFavour(cfg, c.request.op, c.before, c.now, c.shares, c.next, c.results);
    VoteCounted(cfg, c);
    hide Received;
    hide CoordinatorOK;
    hide VotesSoFar;
    hide Vote;
    hide Budgeted;
    hide Outcome;
  }

  lemma AllInFavour(cfg: Config, op: Operation, t: Table, now: i64, shares: seq<Share>, results: seq<R.Reply>)
    requires VotesSoFar(cfg, op, t, now, shares, |shares|, results)
    ensures Unanimous(cfg, t, op, now) && results == Responses(t, shares, cfg.route, now)
  {
    var all := Responses(t, shares, cfg.route, now);
    assert all[..|all|] == all;
    hide Vote;
    hide Responses;
    hide Shares;
  }

  /** With every vote in, the joined results are the whole command's answer. */
  lemma LastVote(cfg: Config, c: Coordinator)
    requires cfg.Valid() && CoordinatorOK(cfg, c) && VotesOK(cfg, c)
    requires c.Busy? && c.phase == Preparing && c.ack.Some? && c.ack.value.result.Ok? && c.next + 1 == |c.shares|
    ensures var results := c.results + [c.ack.value.result.value];
            && Combinable(c.request.op, c.shares, results)
            && var reply := Combined(c.request.op, c.shares, results);
               if TooLong(reply, cfg.maxReply) then Outcome(cfg, c) == (c.before, ReplyTooLong.ToReply())
               else
                 Outcome(cfg, c) ==
                 (Applied(c.before, DecideDivisible(c.before, c.request.op, c.now).effects), reply)
  {
    VoteInFavour(cfg, c.request.op, c.before, c.now, c.shares, c.next, c.results);
    AllInFavour(cfg, c.request.op, c.before, c.now, c.shares, c.results + [c.ack.value.result.value]);
    assert Budgeted(cfg, c.before);
    hide VotesOK;
    hide VotesSoFar;
    hide Vote;
    UnanimousVote(cfg, c.before, c.request.op, c.now);
    hide Combined;
    hide Combinable;
    hide TooLong;
    hide Whole;
    hide Unanimous;
    hide Responses;
    hide Budgeted;
    hide Shares;
    hide Applied;
    hide DecideDivisible;
  }

  /** One refusal is the whole command's answer. */
  lemma RefusedOutcome(cfg: Config, c: Coordinator)
    requires cfg.Valid() && CoordinatorOK(cfg, c) && VotesOK(cfg, c)
    requires c.Busy? && c.phase == Preparing && c.ack.Some? && c.ack.value.result.Err?
    ensures Outcome(cfg, c) == (c.before, c.ack.value.result.error.ToReply())
  {
    var share := c.shares[c.next];
    SharesCover(c.request.op, cfg.route, |cfg.limits|);
    assert share == ShareOf(c.request.op, cfg.route, share.owner);
    assert c.ack.value == Voted(Vote(cfg, c.before, share, c.now));
    hide Vote;
    hide Whole;
    hide Responses;
    hide Budgeted;
    hide Shares;
    hide ShareOf;
    RefusedVote(cfg, c.before, c.request.op, share.owner, c.now);
  }

  /** A completion never finds the coordinator with results it cannot join. */
  lemma ReceivedAlive(cfg: Config, c: Coordinator)
    requires cfg.Valid() && CoordinatorOK(cfg, c) && VotesOK(cfg, c) && c.Busy? && c.ack.Some?
    ensures !Received(cfg, c).Crashed?
  {
    if c.phase == Preparing && c.ack.value.result.Ok? && c.next + 1 == |c.shares| {
      LastVote(cfg, c);
    }
    hide VotesOK;
    hide Combined;
    hide Combinable;
    hide TooLong;
    hide Outcome;
    hide Shares;
  }

  lemma ReceivedVotes(cfg: Config, c: Coordinator)
    requires cfg.Valid() && CoordinatorOK(cfg, c) && VotesOK(cfg, c) && c.Busy? && c.ack.Some?
    ensures VotesOK(cfg, Received(cfg, c))
  {
    hide Combined;
    hide Combinable;
    hide TooLong;
    hide Whole;
    hide Vote;
    hide Responses;
    hide Budgeted;
    hide Shares;
    hide Applied;
    hide DecideDivisible;
    if c.phase == Preparing && c.ack.value.result.Err? {
      RefusedOutcome(cfg, c);
    } else if c.phase == Preparing && c.next + 1 == |c.shares| {
      LastVote(cfg, c);
    } else if c.phase == Preparing {
      NextVote(cfg, c);
    }
  }

  /** Moving on to the release phase without applying means the command changed nothing. */
  lemma ReceivedNothing(cfg: Config, c: Coordinator)
    requires cfg.Valid() && CoordinatorOK(cfg, c) && VotesOK(cfg, c) && c.Busy? && c.ack.Some?
    requires c.phase == Preparing && Received(cfg, c).Busy? && Received(cfg, c).phase == Releasing
    ensures Outcome(cfg, c).0 == c.before
  {
    if c.ack.value.result.Err? {
      RefusedOutcome(cfg, c);
    } else if c.next + 1 == |c.shares| {
      LastVote(cfg, c);
    }
    hide VotesOK;
    hide Combined;
    hide Combinable;
    hide TooLong;
    hide Outcome;
    hide Shares;
  }

  lemma ReceivedTable(cfg: Config, c: Coordinator, t: Table, o: nat, w: Owner)
    requires cfg.Valid() && CoordinatorOK(cfg, c) && VotesOK(cfg, c) && c.Busy? && c.ack.Some?
    requires o < |cfg.limits| && OwnerTable(cfg, c, t, o, w)
    ensures OwnerTable(cfg, Received(cfg, c), t, o, w)
  {
    ReceivedAlive(cfg, c);
    ReceivedShape(cfg, c);
    var c' := Received(cfg, c);
    if c.phase == Preparing && c'.phase == Releasing {
      ReceivedNothing(cfg, c);
    }
    hide Received;
    hide IndexOf;
    hide WithinBudget;
    hide Part;
    hide Whole;
    hide Prepare;
    hide VotesOK;
    hide CoordinatorOK;
    assert Outcome(cfg, c') == Outcome(cfg, c);
    assert Pending(c', o) == (Pending(c, o) && c'.phase != Releasing);
  }

  lemma ReceiveConsistent(cfg: Config, s: State)
    requires cfg.Valid() && Disciplined(cfg, s) && Consistent(cfg, s) && CoordinatorEnabled(cfg, s, DoReceive)
    ensures Consistent(cfg, s.(coordinator := Received(cfg, s.coordinator)))
  {
    ReceivedVotes(cfg, s.coordinator);
    forall o | 0 <= o < |s.owners| && OwnerTable(cfg, s.coordinator, s.table, o, s.owners[o])
      ensures OwnerTable(cfg, Received(cfg, s.coordinator), s.table, o, s.owners[o])
    {
      ReceivedTable(cfg, s.coordinator, s.table, o, s.owners[o]);
    }
    hide OwnerTable;
    hide VotesOK;
    hide Received;
    hide CoordinatorOK;
    NewCoordinator(cfg, s, s.(coordinator := Received(cfg, s.coordinator)));
  }

  // ---------- the clock sample ----------

  lemma NoShare(cfg: Config, c: Coordinator, o: nat)
    requires CoordinatorOK(cfg, c) && c.Busy? && o < |cfg.limits| && IndexOf(c.shares, o) == |c.shares|
    ensures !Participates(c.request.op, cfg.route, o)
  {
    SharesCover(c.request.op, cfg.route, |cfg.limits|);
    assert !Covered(c.shares, o);
    hide Shares;
  }

  /** An owner without a share keeps its part whatever the command does. */
  lemma NotSharing(cfg: Config, t: Table, op: Operation, o: nat, now: i64)
    requires op.Divisible() && !Participates(op, cfg.route, o)
    ensures Part(Whole(cfg, t, op, now).0, cfg.route, o) == Part(t, cfg.route, o)
  {
    ShareInstalls(cfg, t, op, o, now);
    hide Part;
    hide Participates;
    hide Budgeted;
    hide TooLong;
    hide ShareOf;
    hide Applied;
  }

  lemma SampledTable(cfg: Config, c: Coordinator, stops: nat, t: Table, o: nat, w: Owner, now: i64)
    requires CoordinatorOK(cfg, c) && c.Busy? && c.phase == Sampling && o < |cfg.limits|
    requires OwnerOK(c, stops, o, w) && OwnerTable(cfg, c, t, o, w)
    ensures OwnerTable(cfg, c.(phase := Preparing, next := 0, now := now, before := t, results := []),
                       Whole(cfg, t, c.request.op, now).0, o, w)
  {
    if IndexOf(c.shares, o) == |c.shares| {
      NoShare(cfg, c, o);
      NotSharing(cfg, t, c.request.op, o, now);
    }
    hide IndexOf;
    hide CoordinatorOK;
    hide WithinBudget;
    hide Part;
    hide Whole;
    hide Prepare;
    hide Relevant;
  }

  lemma SampledVotes(cfg: Config, c: Coordinator, t: Table, now: i64)
    requires CoordinatorOK(cfg, c) && c.Busy? && c.phase == Sampling && Budgeted(cfg, t)
    ensures VotesOK(cfg, c.(phase := Preparing, next := 0, now := now, before := t, results := []))
  {
    assert VotesSoFar(cfg, c.request.op, t, now, c.shares, 0, []) by {
      assert Responses(t, c.shares, cfg.route, now)[..0] == [];
      hide Responses;
      hide Shares;
    }
    hide VotesSoFar;
    hide Whole;
    hide Vote;
    hide Budgeted;
    hide Shares;
  }

  lemma SampleConsistent(cfg: Config, s: State, now: i64)
    requires Disciplined(cfg, s) && Consistent(cfg, s) && CoordinatorEnabled(cfg, s, DoSample(now))
    ensures Consistent(cfg, Sample(cfg, s, now))
  {
    var c := s.coordinator;
    var s' := Sample(cfg, s, now);
    WholeKeepsBudget(cfg, s.table, c.request.op, now);
    SampledVotes(cfg, c, s.table, now);
    hide OwnerTable;
    hide VotesOK;
    hide CoordinatorOK;
    hide OwnerOK;
    hide Budgeted;
    hide Whole;
    forall o | 0 <= o < |s.owners|
      ensures OwnerTable(cfg, s'.coordinator, s'.table, o, s'.owners[o])
    {
      SampledTable(cfg, c, s.stops, s.table, o, s.owners[o], now);
    }
  }

  // ---------- the rest ----------

  lemma TakeConsistent(cfg: Config, s: State)
    requires Consistent(cfg, s) && CoordinatorEnabled(cfg, s, DoTake)
    ensures Consistent(cfg, Take(cfg, s))
  {
    hide Shares;
    hide OwnerTable;
    hide Consistent;
    SettledStep(cfg, s, Take(cfg, s));
  }

  lemma CoordinatorStepConsistent(cfg: Config, s: State, step: Step)
    requires cfg.Valid() && Disciplined(cfg, s) && Consistent(cfg, s)
    requires !IsOwnerStep(step) && !IsClientStep(step) && CoordinatorEnabled(cfg, s, step)
    ensures Consistent(cfg, CoordinatorStep(cfg, s, step))
  {
    assert |s.owners| == |cfg.limits|;
    hide Disciplined;
    hide Consistent;
    hide Received;
    hide Take;
    hide SendControl;
    hide Sample;
    if step.DoTake? {
      TakeConsistent(cfg, s);
    } else if step.DoSend? {
      SendConsistent(cfg, s);
    } else if step.DoReceive? {
      ReceiveConsistent(cfg, s);
    } else if step.DoSample? {
      SampleConsistent(cfg, s, step.now);
    } else if step.DoComplete? || step.DoFinish? {
      SettledStep(cfg, s, CoordinatorStep(cfg, s, step));
    } else {
      SameTables(cfg, s, CoordinatorStep(cfg, s, step));
    }
  }

  lemma ClientStepConsistent(cfg: Config, s: State, step: Step)
    requires Disciplined(cfg, s) && Consistent(cfg, s) && IsClientStep(step) && ClientEnabled(cfg, s, step)
    ensures Consistent(cfg, ClientStep(cfg, s, step))
  {
    assert forall o :: 0 <= o < |s.owners| && s.owners[o].at == Exited ==> s.owners[o].dataClosed by {
      assert forall o :: 0 <= o < |s.owners| ==> OwnerOK(s.coordinator, s.stops, o, s.owners[o]);
    }
    ClientFrame(cfg, s, step);
    ClientTable(cfg, s, step);
    hide Disciplined;
    hide Consistent;
    hide ClientStep;
    var s' := ClientStep(cfg, s, step);
    forall o | 0 <= o < |s.owners|
      ensures s'.owners[o].shard == s.owners[o].shard && s'.owners[o].reservation == s.owners[o].reservation
    {
      assert SameControl(s.owners[o], s'.owners[o]);
    }
    SameTables(cfg, s, s');
  }

  lemma ClientTable(cfg: Config, s: State, step: Step)
    requires IsClientStep(step) && ClientEnabled(cfg, s, step)
    ensures ClientStep(cfg, s, step).table == s.table
  {
    hide TargetOf;
    hide Charge;
    hide QueueClosed;
    hide QueueHasRoom;
    if step.DoTimeOut? || step.DoAbandon? || step.DoRefuseClosed? {
      assert ReturnCredit(s, step.id).table == s.table;
      hide ReturnCredit;
    }
  }
}
