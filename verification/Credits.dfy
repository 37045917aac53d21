/** Byte credits: what is free and what admitted requests hold always add up to the configured capacity. */
module Credits {
  import opened Bytes
  import opened Commands
  import opened Discipline
  import opened Machine
  import opened Requests
  import opened Sequential
  import opened Sums
  import opened Tables

  /** The credit a client holds at a target: from its grant until its command has run. */
  function Amount(c: Client, target: Target): nat {
    if (c.WaitingQueue? || c.Accepted?) && c.target == target then c.charge else 0
  }

  ghost function AmountAt(target: Target): (nat, Client) -> nat {
    (id, c) => Amount(c, target)
  }

  ghost function Held(clients: map<nat, Client>, target: Target): nat {
    Sum(clients, AmountAt(target))
  }

  ghost predicate CreditsOK(cfg: Config, s: State) {
    forall target :: ValidTarget(s, target) ==> FreeAt(s, target) + Held(s.clients, target) == cfg.queueBytes
  }

  lemma InitialCredits(cfg: Config)
    ensures CreditsOK(cfg, Initial(cfg))
  {
    forall target
      ensures Held(map[], target) == 0
    {
      SumEmpty<nat, Client>(AmountAt(target));
    }
  }

  function AmountOf(clients: map<nat, Client>, id: nat, target: Target): nat {
    if id in clients then Amount(clients[id], target) else 0
  }

  lemma HeldChange(clients: map<nat, Client>, id: nat, c: Client, target: Target)
    ensures Held(clients[id := c], target) + AmountOf(clients, id, target) == Held(clients, target) + Amount(c, target)
  {
    SumInsert(clients, AmountAt(target), id, c);
    if id in clients {
      SumRemove(clients, AmountAt(target), id);
    } else {
      SumAbsent(clients, AmountAt(target), id);
    }
  }

  /** A step that changes one client and gives or takes exactly the difference in what it holds. */
  lemma OneHolder(cfg: Config, s: State, s': State, id: nat, c: Client)
    requires CreditsOK(cfg, s) && |s'.owners| == |s.owners| && s'.clients == s.clients[id := c]
    requires forall target :: ValidTarget(s, target) ==>
               FreeAt(s', target) + Amount(c, target) == FreeAt(s, target) + AmountOf(s.clients, id, target)
    ensures CreditsOK(cfg, s')
  {
    hide FreeAt;
    hide Amount;
    hide AmountOf;
    hide Held;
    forall target | ValidTarget(s', target)
      ensures FreeAt(s', target) + Held(s'.clients, target) == cfg.queueBytes
    {
      assert ValidTarget(s, target);
      HeldChange(s.clients, id, c, target);
    }
  }

  lemma QuietCredits(cfg: Config, s: State, s': State)
    requires CreditsOK(cfg, s) && SameRequests(cfg, s, s')
    ensures CreditsOK(cfg, s')
  {
    hide Held;
    hide InFlight;
    hide CrossQueue;
    forall target | ValidTarget(s', target)
      ensures ValidTarget(s, target) && FreeAt(s', target) == FreeAt(s, target)
    {
    }
  }

  lemma FreedAt(s: State, target: Target, free: nat, other: Target)
    requires ValidTarget(s, target) && ValidTarget(s, other)
    ensures FreeAt(WithFree(s, target, free), other) == if other == target then free else FreeAt(s, other)
  {
  }

  lemma AcquiredAt(s: State, id: nat, target: Target)
    requires id in s.clients && s.clients[id].WaitingCredit? && ValidTarget(s, s.clients[id].target)
    requires s.clients[id].charge <= FreeAt(s, s.clients[id].target) && ValidTarget(s, target)
    ensures var c, s' := s.clients[id], Acquire(s, id);
            && |s'.owners| == |s.owners| && s'.clients == s.clients[id := WaitingQueue(c.op, c.target, c.charge)]
            && FreeAt(s', target) + (if target == c.target then c.charge else 0) == FreeAt(s, target)
  {
    var c := s.clients[id];
    FreedAt(s, c.target, FreeAt(s, c.target) - c.charge, target);
    var middle := WithFree(s, c.target, FreeAt(s, c.target) - c.charge);
    assert |middle.owners| == |s.owners| && middle.clients == s.clients;
    hide WithFree;
    assert FreeAt(Acquire(s, id), target) == FreeAt(middle, target);
    hide FreeAt;
  }

  lemma AcquireCredits(cfg: Config, s: State, id: nat)
    requires CreditsOK(cfg, s) && id in s.clients
    requires s.clients[id].WaitingCredit? && ValidTarget(s, s.clients[id].target)
    requires s.clients[id].charge <= FreeAt(s, s.clients[id].target)
    ensures CreditsOK(cfg, Acquire(s, id))
  {
    var s' := Acquire(s, id);
    AcquiredAt(s, id, s.clients[id].target);
    hide CreditsOK;
    hide Acquire;
    hide FreeAt;
    forall target | ValidTarget(s, target)
      ensures FreeAt(s', target) + Amount(s'.clients[id], target) == FreeAt(s, target)
    {
      AcquiredAt(s, id, target);
    }
    OneHolder(cfg, s, s', id, s'.clients[id]);
  }

  lemma EnqueuedAt(s: State, id: nat, target: Target)
    requires id in s.clients && s.clients[id].WaitingQueue? && ValidTarget(s, s.clients[id].target)
    requires ValidTarget(s, target)
    ensures var c, s' := s.clients[id], Enqueue(s, id);
            && |s'.owners| == |s.owners| && s'.clients == s.clients[id := Accepted(c.op, c.target, c.charge)]
            && FreeAt(s', target) == FreeAt(s, target)
  {
  }

  lemma EnqueueCredits(cfg: Config, s: State, id: nat)
    requires CreditsOK(cfg, s) && id in s.clients && s.clients[id].WaitingQueue? && ValidTarget(s, s.clients[id].target)
    ensures CreditsOK(cfg, Enqueue(s, id))
  {
    hide CreditsOK;
    hide Enqueue;
    hide FreeAt;
    var s' := Enqueue(s, id);
    EnqueuedAt(s, id, s.clients[id].target);
    forall target | ValidTarget(s, target)
      ensures FreeAt(s', target) == FreeAt(s, target)
    {
      EnqueuedAt(s, id, target);
    }
    OneHolder(cfg, s, s', id, s'.clients[id]);
  }

  lemma ReturnedAt(s: State, id: nat, target: Target)
    requires id in s.clients && (s.clients[id].WaitingCredit? || s.clients[id].WaitingQueue?)
    requires ValidTarget(s, s.clients[id].target) && ValidTarget(s, target)
    ensures |ReturnCredit(s, id).owners| == |s.owners|
    ensures FreeAt(ReturnCredit(s, id), target) == FreeAt(s, target) + AmountOf(s.clients, id, target)
  {
    var was := s.clients[id];
    if was.WaitingQueue? {
      FreedAt(s, was.target, FreeAt(s, was.target) + was.charge, target);
    }
    hide FreeAt;
  }

  /** Whoever leaves admission early gives back what it holds. */
  lemma LeaveCredits(cfg: Config, s: State, s': State, id: nat, c: Client)
    requires CreditsOK(cfg, s) && id in s.clients && (s.clients[id].WaitingCredit? || s.clients[id].WaitingQueue?)
    requires ValidTarget(s, s.clients[id].target) && (c.Refused? || c.Gone?)
    requires s'.owners == ReturnCredit(s, id).owners && s'.crossFree == ReturnCredit(s, id).crossFree
    requires s'.clients == s.clients[id := c]
    ensures CreditsOK(cfg, s')
  {
    ReturnedAt(s, id, s.clients[id].target);
    forall target | ValidTarget(s, target)
      ensures FreeAt(s', target) + Amount(c, target) == FreeAt(s, target) + AmountOf(s.clients, id, target)
    {
      ReturnedAt(s, id, target);
      assert FreeAt(s', target) == FreeAt(ReturnCredit(s, id), target);
      hide ReturnCredit;
    }
    hide CreditsOK;
    hide ReturnCredit;
    OneHolder(cfg, s, s', id, c);
  }

  lemma BeginCredits(cfg: Config, s: State, id: nat, op: Operation)
    requires CreditsOK(cfg, s) && id !in s.clients
    ensures CreditsOK(cfg, Begin(cfg, s, id, op))
  {
    hide TargetOf;
    hide Charge;
    var s' := Begin(cfg, s, id, op);
    forall target | ValidTarget(s, target)
      ensures FreeAt(s', target) == FreeAt(s, target)
    {
    }
    hide CreditsOK;
    OneHolder(cfg, s, s', id, s'.clients[id]);
  }

  /** A local command gives its credit back when it has run. */
  lemma RunHeadCredits(cfg: Config, s: State, o: nat, now: i64)
    requires CreditsOK(cfg, s) && o < |s.owners| == |cfg.limits| && s.owners[o].data != []
    requires QueueOK(s.clients, Local(o), s.owners[o].data)
    ensures CreditsOK(cfg, RunHead(cfg, s, o, now))
  {
    var r, s' := s.owners[o].data[0], RunHead(cfg, s, o, now);
    RunHeadOwner(cfg, s, o, now);
    RunHeadFrame(cfg, s, o, now);
    hide RunHead;
    forall target | ValidTarget(s, target)
      ensures FreeAt(s', target) == FreeAt(s, target) + AmountOf(s.clients, r.id, target)
    {
    }
    hide CreditsOK;
    RunHeadClients(cfg, s, o, now);
    OneHolder(cfg, s, s', r.id, s'.clients[r.id]);
  }

  lemma RunHeadClients(cfg: Config, s: State, o: nat, now: i64)
    requires o < |s.owners| == |cfg.limits| && s.owners[o].data != []
    ensures var r, s' := s.owners[o].data[0], RunHead(cfg, s, o, now);
            r.id in s'.clients && s'.clients[r.id].Answered? && s'.clients == s.clients[r.id := s'.clients[r.id]]
  {
    hide Execute;
    hide Whole;
  }

  /** A coordinated command gives its credit back when it is answered. */
  lemma CompleteCredits(cfg: Config, s: State)
    requires CreditsOK(cfg, s) && s.coordinator.Busy? && QueueOK(s.clients, Cross, CrossQueue(s))
    ensures CreditsOK(cfg, Complete(s))
  {
    var r, s' := s.coordinator.request, Complete(s);
    assert CrossQueue(s)[0] == r;
    forall target | ValidTarget(s, target)
      ensures FreeAt(s', target) == FreeAt(s, target) + AmountOf(s.clients, r.id, target)
    {
    }
    hide CreditsOK;
    OneHolder(cfg, s, s', r.id, s'.clients[r.id]);
  }

  // ---------- what conservation gives ----------

  function QueuedBytes(q: seq<Request>): nat {
    if q == [] then 0 else QueuedBytes(q[..|q| - 1]) + q[|q| - 1].op.PayloadBytes()
  }

  /** The payload of the requests in a queue is covered by the credits their clients hold. */
  lemma {:induction false} QueuedIsHeld(clients: map<nat, Client>, target: Target, q: seq<Request>)
    requires forall i :: 0 <= i < |q| ==>
               q[i].id in clients && clients[q[i].id] == Accepted(q[i].op, target, Charge(q[i].op))
    requires forall i, j :: 0 <= i < j < |q| ==> q[i].id != q[j].id
    ensures QueuedBytes(q) <= Held(clients, target)
  {
    if q != [] {
      var last := q[|q| - 1];
      SumRemove(clients, AmountAt(target), last.id);
      QueuedIsHeld(clients - {last.id}, target, q[..|q| - 1]);
    }
  }

  /** Payload waiting for or being coordinated at any target never exceeds its byte capacity. */
  lemma QueuedWithinCapacity(cfg: Config, s: State, target: Target)
    requires RequestsOK(cfg, s) && CreditsOK(cfg, s) && ValidTarget(s, target)
    ensures target.Local? ==> QueuedBytes(s.owners[target.owner].data) <= cfg.queueBytes
    ensures target.Cross? ==> QueuedBytes(CrossQueue(s)) <= cfg.queueBytes
  {
    var q := if target.Local? then s.owners[target.owner].data else CrossQueue(s);
    assert QueueOK(s.clients, target, q);
    forall i | 0 <= i < |q|
      ensures q[i].id in s.clients && s.clients[q[i].id] == Accepted(q[i].op, target, Charge(q[i].op))
    {
      assert ClientOK(cfg, s.clients[q[i].id]);
    }
    QueuedIsHeld(s.clients, target, q);
  }

  lemma {:induction false} NobodyHolds(clients: map<nat, Client>, target: Target)
    requires forall id :: id in clients ==> Amount(clients[id], target) == 0
    ensures Held(clients, target) == 0
    decreases |clients|
  {
    if clients == map[] {
      SumEmpty<nat, Client>(AmountAt(target));
    } else {
      var id :| id in clients;
      SizeRemove(clients, id);
      SumRemove(clients, AmountAt(target), id);
      NobodyHolds(clients - {id}, target);
    }
  }

  /** Once nobody is being admitted or waiting at a target, all of its credit is free again. */
  lemma AllReturned(cfg: Config, s: State, target: Target)
    requires CreditsOK(cfg, s) && ValidTarget(s, target)
    requires forall id :: id in s.clients ==> s.clients[id].Answered? || s.clients[id].Refused? || s.clients[id].Gone?
    ensures FreeAt(s, target) == cfg.queueBytes
  {
    NobodyHolds(s.clients, target);
  }
}
