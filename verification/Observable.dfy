/**
 * What clients can observe: under a clock that does not go back, the history without its sweeps is a
 * sequential run of a plain map from keys to values with optional deadlines.
 */
module Observable {
  import opened Bytes
  import opened Commands
  import opened Consistency
  import opened Engine
  import E = Expiration
  import opened History
  import opened Machine
  import opened Sequential
  import opened Sharding
  import opened Tables
  import R = Replies

  /** A command turned away for lack of room. */
  predicate RefusedForRoom(e: Event) {
    e.Ran? && e.reply == OutOfMemory.ToReply()
  }

  /** The answer of a command run on a plain map of live entries. */
  function PlainReply(cfg: Config, m: Table, op: Operation, now: i64): R.Reply {
    match Meaning(View(m, now), op, now)
    case Err(error) => error.ToReply()
    case Ok((_, response)) => if TooLong(response, cfg.maxReply) then ReplyTooLong.ToReply() else response
  }

  /** The map after a command; an error, an answer too long and a lack of room change nothing. */
  function PlainNext(cfg: Config, m: Table, e: Event): Table {
    if !e.Ran? || RefusedForRoom(e) then m
    else
      match Meaning(View(m, e.now), e.op, e.now)
      case Err(_) => m
      case Ok((after, response)) => if TooLong(response, cfg.maxReply) then m else after
  }

  /** The map after the commands of a history, its sweeps left out. */
  function Plain(cfg: Config, log: seq<Event>): Table {
    if log == [] then map[] else PlainNext(cfg, Plain(cfg, log[..|log| - 1]), log[|log| - 1])
  }

  predicate Timed(e: Event) {
    e.Ran? || e.Cleaned?
  }

  predicate ClockForward(log: seq<Event>) {
    forall i, j :: 0 <= i < j < |log| && Timed(log[i]) && Timed(log[j]) ==> log[i].now <= log[j].now
  }

  predicate Past(log: seq<Event>, now: i64) {
    forall i :: 0 <= i < |log| && Timed(log[i]) ==> log[i].now <= now
  }

  /** A plain map never answers an error where it succeeds. */
  lemma MeaningSucceeds(m: Table, op: Operation, now: i64)
    ensures Meaning(m, op, now).Ok? ==> !Meaning(m, op, now).value.1.Error?
  {
  }

  /** One command keeps the physical table and the plain map alike, now and later. */
  lemma CommandAlike(cfg: Config, t: Table, m: Table, e: Event, later: i64)
    requires e.Ran? && e.now <= later && EventOK(cfg, t, e)
    requires View(t, e.now) == View(m, e.now) && View(t, later) == View(m, later)
    ensures View(Next(cfg, t, e), later) == View(PlainNext(cfg, m, e), later)
    ensures RefusedForRoom(e) || e.reply == PlainReply(cfg, m, e.op, e.now)
  {
    WholeIsMeaning(cfg, t, e.op, e.now);
    MeaningSucceeds(View(t, e.now), e.op, e.now);
    E.ViewOfView(Whole(cfg, t, e.op, e.now).0, e.now, later);
    hide Meaning;
    hide Whole;
    hide View;
    hide TooLong;
  }

  /** A sweep removes nothing a client can still see. */
  lemma SweepAlike(cfg: Config, t: Table, e: Event, later: i64)
    requires e.Cleaned? && e.now <= later && EventOK(cfg, t, e)
    ensures View(Next(cfg, t, e), later) == View(t, later)
  {
    forall k | k in e.removed
      ensures k in t && Due(t[k], later)
    {
      assert k in Part(t, cfg.route, e.owner);
    }
  }

  /** At every clock reading not before the last one, the physical table shows what the plain map holds. */
  lemma {:induction false} TablesAlike(cfg: Config, log: seq<Event>, later: i64)
    requires Faithful(cfg, log) && ClockForward(log) && Past(log, later)
    ensures View(Replay(cfg, log), later) == View(Plain(cfg, log), later)
    decreases |log|
  {
    if log != [] {
      var front, e := log[..|log| - 1], log[|log| - 1];
      FaithfulFront(cfg, log);
      assert ClockForward(front) && Past(front, later);
      TablesAlike(cfg, front, later);
      if e.Ran? {
        assert Past(front, e.now);
        TablesAlike(cfg, front, e.now);
        CommandAlike(cfg, Replay(cfg, front), Plain(cfg, front), e, later);
      } else if e.Cleaned? {
        SweepAlike(cfg, Replay(cfg, front), e, later);
      }
    }
  }

  lemma FaithfulFront(cfg: Config, log: seq<Event>)
    requires Faithful(cfg, log) && log != []
    ensures Faithful(cfg, log[..|log| - 1]) && EventOK(cfg, Replay(cfg, log[..|log| - 1]), log[|log| - 1])
  {
    hide Replay;
    hide EventOK;
    var front := log[..|log| - 1];
    forall i | 0 <= i < |front|
      ensures EventOK(cfg, Replay(cfg, front[..i]), front[i])
    {
      assert front[..i] == log[..i];
    }
  }

  lemma {:induction false} FaithfulPrefix(cfg: Config, log: seq<Event>, p: nat)
    requires Faithful(cfg, log) && p <= |log|
    ensures Faithful(cfg, log[..p])
    decreases |log|
  {
    if p < |log| {
      FaithfulFront(cfg, log);
      FaithfulPrefix(cfg, log[..|log| - 1], p);
      assert log[..|log| - 1][..p] == log[..p];
    } else {
      assert log[..p] == log;
    }
  }

  // ---------- room ----------

  /** The owners' budgets hold at every place of a history. */
  lemma {:induction false} ReplayBudgeted(cfg: Config, log: seq<Event>)
    requires cfg.Valid() && Faithful(cfg, log)
    ensures Budgeted(cfg, Replay(cfg, log))
    decreases |log|
  {
    if log == [] {
      NothingBudgeted(cfg);
    } else {
      var front, e := log[..|log| - 1], log[|log| - 1];
      FaithfulFront(cfg, log);
      ReplayBudgeted(cfg, front);
      hide Budgeted;
      if e.Ran? {
        WholeKeepsBudget(cfg, Replay(cfg, front), e.op, e.now);
      } else if e.Cleaned? {
        SweepKeepsBudget(cfg, Replay(cfg, front), e.owner, e.removed);
      }
      hide Whole;
    }
  }

  lemma NothingBudgeted(cfg: Config)
    requires cfg.Valid()
    ensures Budgeted(cfg, map[])
  {
    forall o
      ensures Part(map[], cfg.route, o) == map[]
    {
    }
  }

  /** Only a command that stores a value is ever refused for lack of room. */
  lemma RefusedStores(cfg: Config, log: seq<Event>, p: nat)
    requires cfg.Valid() && Faithful(cfg, log) && p < |log| && RefusedForRoom(log[p])
    ensures log[p].op.StoresValue()
  {
    FaithfulPrefix(cfg, log, p);
    ReplayBudgeted(cfg, log[..p]);
    assert EventOK(cfg, Replay(cfg, log[..p]), log[p]);
    hide Replay;
    hide Faithful;
    hide Budgeted;
    OnlyValuesRefused(cfg, Replay(cfg, log[..p]), log[p].op, log[p].now);
  }

  /**
   * In every run whose clock readings do not go back, every reply is the one a plain map gives after
   * the commands placed before it, sweeps left out. The one exception is a command that stores a value
   * and is refused for lack of room, which leaves the map as it was.
   */
  lemma PlainLinearizable(cfg: Config, states: seq<State>, steps: seq<Step>, i: nat, p: nat)
    requires cfg.Valid() && IsHistory(cfg, states, steps) && i < |states| && ClockForward(states[i].log)
    requires p < |states[i].log| && states[i].log[p].Ran?
    ensures var log := states[i].log;
            || (RefusedForRoom(log[p]) && log[p].op.StoresValue())
            || log[p].reply == PlainReply(cfg, Plain(cfg, log[..p]), log[p].op, log[p].now)
  {
    hide IsHistory;
    RunInvariant(cfg, states, steps, i);
    var log := states[i].log;
    assert Faithful(cfg, log);
    hide Invariant;
    if RefusedForRoom(log[p]) {
      RefusedStores(cfg, log, p);
    }
    FaithfulPrefix(cfg, log, p);
    assert EventOK(cfg, Replay(cfg, log[..p]), log[p]);
    hide Replay;
    hide Plain;
    hide EventOK;
    assert ClockForward(log[..p]) && Past(log[..p], log[p].now);
    TablesAlike(cfg, log[..p], log[p].now);
    CommandAlike(cfg, Replay(cfg, log[..p]), Plain(cfg, log[..p]), log[p], log[p].now);
  }

  // ---------- what is gone stays gone ----------

  /** Whatever the clock does, a command brings back only keys it writes, and a sweep brings back none. */
  lemma AbsentAfter(cfg: Config, t: Table, e: Event, key: Bytes)
    requires key !in t && (e.Ran? ==> key !in E.Writes(e.op))
    ensures key !in Next(cfg, t, e)
  {
    if e.Ran? {
      E.NewKeysAreWritten(t, e.op, e.now);
      hide Decide;
      hide Budgeted;
      hide TooLong;
    }
  }

  lemma {:induction false} AbsentUntilWritten(cfg: Config, log: seq<Event>, i: nat, j: nat, key: Bytes)
    requires i <= j <= |log| && key !in Replay(cfg, log[..i])
    requires forall p :: i <= p < j && log[p].Ran? ==> key !in E.Writes(log[p].op)
    ensures key !in Replay(cfg, log[..j])
    decreases j
  {
    if i < j {
      AbsentUntilWritten(cfg, log, i, j - 1, key);
      assert log[..j] == log[..j - 1] + [log[j - 1]];
      ReplayMore(cfg, log[..j - 1], log[j - 1]);
      AbsentAfter(cfg, Replay(cfg, log[..j - 1]), log[j - 1], key);
    }
  }

  /**
   * In every run, under any clock readings, a key that has been removed is in no settled owner's table again
   * until a command that writes it takes its place in the history.
   */
  lemma RemovedUntilWritten(
    cfg: Config, states: seq<State>, steps: seq<Step>, n: nat, i: nat, key: Bytes, o: nat)
    requires cfg.Valid() && IsHistory(cfg, states, steps) && n < |states|
    requires i <= |states[n].log| && key !in Replay(cfg, states[n].log[..i])
    requires forall p :: i <= p < |states[n].log| && states[n].log[p].Ran? ==> key !in E.Writes(states[n].log[p].op)
    requires o < |states[n].owners| && !Pending(states[n].coordinator, o)
    ensures key !in states[n].owners[o].shard.table
  {
    hide IsHistory;
    hide Pending;
    RunInvariant(cfg, states, steps, n);
    var s := states[n];
    AbsentUntilWritten(cfg, s.log, i, |s.log|, key);
    assert s.log[..|s.log|] == s.log;
    assert Replayed(cfg, s) && OwnerTable(cfg, s.coordinator, s.table, o, s.owners[o]);
  }
}
