/**
 * The engine as one sequential, unsharded table: what every command answers and changes when it
 * runs alone on the union of all owners' tables, under the owners' budgets.
 */
module Sequential {
  import opened Bytes
  import opened Commands
  import opened Sharding
  import opened Tables
  import R = Replies

  /** The fixed parameters of a running engine. */
  datatype Config = Config(
    route: Route, limits: seq<ShardLimits>, maxReply: nat, queueBytes: nat, queueCapacity: nat, expiryBatch: nat)
  {
    ghost predicate Valid() {
      && 0 < |limits|
      && (forall o :: 0 <= o < |limits| ==> limits[o].Valid() && limits[o].maxReply == maxReply)
      && (forall k :: route(k) < |limits|)
      && queueBytes <= 0xFFFF_FFFF && 0 < queueCapacity && 0 < expiryBatch
    }
  }

  /** Every owner's part is within that owner's budget. */
  ghost predicate Budgeted(cfg: Config, t: Table) {
    forall o :: 0 <= o < |cfg.limits| ==> WithinBudget(Part(t, cfg.route, o), cfg.limits[o])
  }

  /** One command on the whole table: it commits everywhere, or answers an error and changes nothing. */
  ghost function Whole(cfg: Config, t: Table, op: Operation, now: i64): (Table, R.Reply) {
    match Decide(t, op, now)
    case Err(error) => (t, error.ToReply())
    case Ok(Decision(effects, response)) =>
      if TooLong(response, cfg.maxReply) then (t, ReplyTooLong.ToReply())
      else if !Budgeted(cfg, Applied(t, effects)) then (t, OutOfMemory.ToReply())
      else (Applied(t, effects), response)
  }

  /**
   * On the live entries a command means what it means on a plain map: it answers the map's answer
   * and leaves the map's result, unless the answer is too long or an owner's budget is exhausted.
   */
  lemma WholeIsMeaning(cfg: Config, t: Table, op: Operation, now: i64)
    ensures var (after, reply) := Whole(cfg, t, op, now);
            match Meaning(View(t, now), op, now)
            case Err(error) => after == t && reply == error.ToReply()
            case Ok((map', response)) =>
              if TooLong(response, cfg.maxReply) then after == t && reply == ReplyTooLong.ToReply()
              else (after == t && reply == OutOfMemory.ToReply()) || (View(after, now) == map' && reply == response)
  {
    DecideRefinesMeaning(t, op, now);
    hide Meaning;
    hide Decide;
    hide View;
    hide TooLong;
    hide Budgeted;
    hide Applied;
  }

  lemma WholeKeepsBudget(cfg: Config, t: Table, op: Operation, now: i64)
    requires Budgeted(cfg, t)
    ensures Budgeted(cfg, Whole(cfg, t, op, now).0)
  {
  }

  function ReplyOf(r: Result<R.Reply, EngineError>): R.Reply {
    match r
    case Ok(reply) => reply
    case Err(error) => error.ToReply()
  }

  // ---------- single-owner commands ----------

  predicate RoutesTo(op: Operation, route: Route, owner: nat) {
    forall k :: k in op.Keys() ==> route(k) == owner
  }

  lemma {:induction false} CountLocal(t: Table, keys: seq<Bytes>, route: Route, owner: nat, now: i64)
    requires forall k :: k in keys ==> route(k) == owner
    ensures CountLive(Part(t, route, owner), keys, now) == CountLive(t, keys, now)
  {
    if keys != [] {
      assert keys[|keys| - 1] in keys;
      LiveInPart(t, route, keys[|keys| - 1], now);
      CountLocal(t, keys[..|keys| - 1], route, owner, now);
    }
  }

  lemma KeysInPart(t: Table, keys: seq<Bytes>, route: Route, owner: nat, now: i64)
    requires forall k :: k in keys ==> route(k) == owner
    ensures forall k :: k in keys ==> Live(Part(t, route, owner), k, now) == Live(t, k, now)
    ensures Lapsed(Part(t, route, owner), ToSet(keys), now) == Lapsed(t, ToSet(keys), now)
    ensures LiveAmong(Part(t, route, owner), keys, now) == LiveAmong(t, keys, now)
    ensures ReadAll(Part(t, route, owner), keys, now) == ReadAll(t, keys, now)
  {
    var part := Part(t, route, owner);
    forall i | 0 <= i < |keys|
      ensures ReadAll(part, keys, now)[i] == ReadAll(t, keys, now)[i]
    {
      assert keys[i] in keys;
      LiveInPart(t, route, keys[i], now);
    }
  }

  lemma OneKeyInPart(t: Table, key: Bytes, owner: nat, route: Route, now: i64)
    requires route(key) == owner
    ensures Live(Part(t, route, owner), key, now) == Live(t, key, now)
    ensures Lapsed(Part(t, route, owner), {key}, now) == Lapsed(t, {key}, now)
  {
  }

  /** A command whose keys all belong to one owner is decided alike on that owner's part. */
  lemma DecideLocal(t: Table, op: Operation, route: Route, owner: nat, now: i64)
    requires RoutesTo(op, route, owner)
    ensures Decide(Part(t, route, owner), op, now) == Decide(t, op, now)
  {
    hide Part;
    hide Live;
    hide Lapsed;
    hide LiveAmong;
    hide CountLive;
    hide ReadAll;
    match op
    case Delete(keys) => KeysInPart(t, keys, route, owner, now);
    case Exists(keys) =>
      KeysInPart(t, keys, route, owner, now);
      CountLocal(t, keys, route, owner, now);
    case MultiGet(keys) => KeysInPart(t, keys, route, owner, now);
    case MultiSet(pairs) =>
    case _ =>
      assert op.key in op.Keys();
      OneKeyInPart(t, op.key, owner, route, now);
  }

  lemma {:induction false} LastWinsRoutes(pairs: seq<(Bytes, Bytes)>)
    ensures forall k :: k in LastWins(pairs) ==> k in PairKeys(pairs)
  {
    if pairs != [] {
      var front := pairs[..|pairs| - 1];
      LastWinsRoutes(front);
      assert PairKeys(pairs) == PairKeys(front) + [pairs[|pairs| - 1].0];
    }
  }

  lemma EffectsOnKeys(t: Table, op: Operation, now: i64)
    ensures Decide(t, op, now).Ok? ==> forall k :: k in Decide(t, op, now).value.effects ==> k in op.Keys()
  {
    if op.MultiSet? {
      LastWinsRoutes(op.pairs);
    }
  }

  lemma LocalEffects(t: Table, effects: Effects, route: Route, owner: nat, other: nat)
    requires forall k :: k in effects ==> route(k) == owner
    ensures Part(Applied(t, effects), route, owner) == Applied(Part(t, route, owner), effects)
    ensures other != owner ==> Part(Applied(t, effects), route, other) == Part(t, route, other)
  {
  }

  /** Effects on one owner's keys exceed some budget exactly when they exceed that owner's. */
  lemma LocalBudget(cfg: Config, t: Table, effects: Effects, owner: nat)
    requires owner < |cfg.limits| && Budgeted(cfg, t)
    requires forall k :: k in effects ==> cfg.route(k) == owner
    ensures Budgeted(cfg, Applied(t, effects)) <==>
            WithinBudget(Applied(Part(t, cfg.route, owner), effects), cfg.limits[owner])
  {
    LocalEffects(t, effects, cfg.route, owner, owner);
    forall o | 0 <= o < |cfg.limits| && o != owner
      ensures Part(Applied(t, effects), cfg.route, o) == Part(t, cfg.route, o)
    {
      LocalEffects(t, effects, cfg.route, owner, o);
    }
    hide Part;
    hide Applied;
    hide WithinBudget;
  }

  /** `next` is what owner `owner` holds after `after`, and no other owner's part changed since `t`. */
  ghost predicate OnlyAt(cfg: Config, t: Table, after: Table, owner: nat, next: Table) {
    && next == Part(after, cfg.route, owner)
    && forall o: nat :: o != owner ==> Part(after, cfg.route, o) == Part(t, cfg.route, o)
  }

  lemma LocalOnly(cfg: Config, t: Table, effects: Effects, owner: nat)
    requires forall k :: k in effects ==> cfg.route(k) == owner
    ensures OnlyAt(cfg, t, Applied(t, effects), owner, Applied(Part(t, cfg.route, owner), effects))
  {
    forall o: nat
      ensures Part(Applied(t, effects), cfg.route, owner) == Applied(Part(t, cfg.route, owner), effects)
      ensures o != owner ==> Part(Applied(t, effects), cfg.route, o) == Part(t, cfg.route, o)
    {
      LocalEffects(t, effects, cfg.route, owner, o);
    }
  }

  // ---------- room ----------

  /** No other error reads like the refusal for lack of room. */
  lemma DistinctRefusal(t: Table, op: Operation, now: i64)
    ensures Decide(t, op, now).Err? ==> Decide(t, op, now).error.ToReply() != OutOfMemory.ToReply()
    ensures Decide(t, op, now).Ok? ==> Decide(t, op, now).value.response != OutOfMemory.ToReply()
    ensures ReplyTooLong.ToReply() != OutOfMemory.ToReply()
  {
    OtherMessages();
    assert Decide(t, op, now).Err? ==> Decide(t, op, now).error != OutOfMemory;
    assert Decide(t, op, now).Ok? ==> !Decide(t, op, now).value.response.Error?;
  }

  lemma FirstLetter(s: string)
    requires s != []
    ensures Ascii(s)[0] as int == s[0] as int % 256
  {
  }

  lemma OtherMessages()
    ensures forall e: EngineError :: e != OutOfMemory ==> e.Message() != OutOfMemory.Message()
  {
    FirstLetter("OOM owner key or payload budget exhausted");
    FirstLetter("ERR invalid expire time in 'set' command");
    FirstLetter("ERR invalid expire time in 'expire' command");
    FirstLetter("ERR value is not an integer or out of range");
    FirstLetter("ERR increment or decrement would overflow");
    FirstLetter("ERR response exceeds configured limit");
  }

  /** A command that stores no value changes at most one entry's deadline, or only removes. */
  lemma NoValueEffects(t: Table, op: Operation, now: i64)
    requires Decide(t, op, now).Ok? && !op.StoresValue()
    ensures var effects := Decide(t, op, now).value.effects;
            || (forall k :: k in effects ==> effects[k] == None)
            || exists key, deadline :: key in t && effects == map[key := Some(t[key].(deadline := deadline))]
  {
    var effects := Decide(t, op, now).value.effects;
    if op.Expire? && Live(t, op.key, now).Some? && op.milliseconds > 0 {
      assert effects == map[op.key := Some(t[op.key].(deadline := Some(now + op.milliseconds)))];
    } else if op.Persist? && Live(t, op.key, now).Some? && Live(t, op.key, now).value.deadline.Some? {
      assert effects == map[op.key := Some(t[op.key].(deadline := None))];
    }
  }

  lemma DeadlineKeepsBudgets(cfg: Config, t: Table, key: Bytes, deadline: Option<i64>)
    requires Budgeted(cfg, t) && key in t
    ensures Budgeted(cfg, Applied(t, map[key := Some(t[key].(deadline := deadline))]))
  {
    var effects: Effects := map[key := Some(t[key].(deadline := deadline))];
    var owner := cfg.route(key);
    forall o | 0 <= o < |cfg.limits|
      ensures WithinBudget(Part(Applied(t, effects), cfg.route, o), cfg.limits[o])
    {
      LocalEffects(t, effects, cfg.route, owner, o);
      if o == owner {
        DeadlineNeedsNoRoom(Part(t, cfg.route, o), key, deadline, cfg.limits[o]);
      }
    }
  }

  lemma RemovalsKeepBudgets(cfg: Config, t: Table, effects: Effects)
    requires Budgeted(cfg, t) && forall k :: k in effects ==> effects[k] == None
    ensures Budgeted(cfg, Applied(t, effects))
  {
    forall o | 0 <= o < |cfg.limits|
      ensures WithinBudget(Part(Applied(t, effects), cfg.route, o), cfg.limits[o])
    {
      PartOfApplied(t, effects, cfg.route, o);
      RemovalKeepsBudget(Part(t, cfg.route, o), EffectsAt(effects, cfg.route, o), cfg.limits[o]);
    }
  }

  lemma NoValueFits(cfg: Config, t: Table, op: Operation, now: i64)
    requires Budgeted(cfg, t) && Decide(t, op, now).Ok?
    ensures !op.StoresValue() ==> Budgeted(cfg, Applied(t, Decide(t, op, now).value.effects))
  {
    if !op.StoresValue() {
      var effects := Decide(t, op, now).value.effects;
      NoValueEffects(t, op, now);
      hide Decide;
      hide Budgeted;
      hide Applied;
      if forall k :: k in effects ==> effects[k] == None {
        RemovalsKeepBudgets(cfg, t, effects);
      } else {
        var key, deadline :| key in t && effects == map[key := Some(t[key].(deadline := deadline))];
        DeadlineKeepsBudgets(cfg, t, key, deadline);
      }
    }
  }

  /** Only commands that store a value are ever refused for lack of room. */
  lemma OnlyValuesRefused(cfg: Config, t: Table, op: Operation, now: i64)
    requires Budgeted(cfg, t) && Whole(cfg, t, op, now).1 == OutOfMemory.ToReply()
    ensures op.StoresValue()
  {
    DistinctRefusal(t, op, now);
    assert Decide(t, op, now).Ok? && !Budgeted(cfg, Applied(t, Decide(t, op, now).value.effects));
    NoValueFits(cfg, t, op, now);
  }

  /** Executing a local command on its owner is executing it on the whole table. */
  lemma LocalIsWhole(cfg: Config, t: Table, owner: nat, revision: nat, op: Operation, now: i64)
    requires cfg.Valid() && owner < |cfg.limits| && RoutesTo(op, cfg.route, owner)
    requires Budgeted(cfg, t)
    ensures var (next, r) := Execute(ShardState(Part(t, cfg.route, owner), revision), cfg.limits[owner], op, now);
            var (after, reply) := Whole(cfg, t, op, now);
            reply == ReplyOf(r) && OnlyAt(cfg, t, after, owner, next.table)
  {
    ExecuteCases(ShardState(Part(t, cfg.route, owner), revision), cfg.limits[owner], op, now);
    DecideLocal(t, op, cfg.route, owner, now);
    EffectsOnKeys(t, op, now);
    assert Decide(t, op, now).Ok? ==> forall k :: k in Decide(t, op, now).value.effects ==> cfg.route(k) == owner;
    LocalUnchanged(cfg, t, owner);
    hide Execute;
    hide Decide;
    hide Applied;
    hide TooLong;
    hide WithinBudget;
    hide Budgeted;
    hide OnlyAt;
    hide Part;
    if Decide(t, op, now).Ok? {
      LocalBudget(cfg, t, Decide(t, op, now).value.effects, owner);
      LocalOnly(cfg, t, Decide(t, op, now).value.effects, owner);
    }
  }

  lemma LocalUnchanged(cfg: Config, t: Table, owner: nat)
    ensures OnlyAt(cfg, t, t, owner, Part(t, cfg.route, owner))
  {
  }

  // ---------- coordinated commands ----------

  /** A participant's vote on its share of a command. */
  ghost function Vote(cfg: Config, t: Table, share: Share, now: i64): Result<R.Reply, EngineError>
    requires share.owner < |cfg.limits|
  {
    match Prepare(ShardState(Part(t, cfg.route, share.owner), 0), cfg.limits[share.owner], share.operation, now)
    case Err(error) => Err(error)
    case Ok(prepared) => Ok(prepared.response)
  }

  lemma VoteIsPrepare(cfg: Config, t: Table, share: Share, now: i64, revision: nat)
    requires share.owner < |cfg.limits| && share.operation.Divisible()
    ensures var part := Part(t, cfg.route, share.owner);
            var prepared := Prepare(ShardState(part, revision), cfg.limits[share.owner], share.operation, now);
            var decision := DecideDivisible(part, share.operation, now);
            && Vote(cfg, t, share, now) ==
               (match prepared case Err(error) => Err(error) case Ok(p) => Ok(p.response))
            && (prepared.Ok? ==>
                  && prepared.value.revision == revision
                  && prepared.value.effects == decision.effects && prepared.value.response == decision.response
                  && prepared.value.payloadAfter == Payload(Applied(part, decision.effects))
                  && WithinBudget(Applied(part, decision.effects), cfg.limits[share.owner]))
  {
    hide Decide;
    hide DecideDivisible;
    hide TooLong;
    hide WithinBudget;
    hide Payload;
    hide Applied;
  }

  lemma OnlyWritesGrow(t: Table, op: Operation, now: i64)
    requires op.Delete? || op.Exists? || op.MultiGet?
    ensures forall k :: k in DecideDivisible(t, op, now).effects ==> DecideDivisible(t, op, now).effects[k] == None
  {
  }

  /** Any refused share is the answer of the whole command, which then changes nothing. */
  lemma RefusedVote(cfg: Config, t: Table, op: Operation, owner: nat, now: i64)
    requires cfg.Valid() && op.Divisible() && owner < |cfg.limits| && Budgeted(cfg, t)
    requires Vote(cfg, t, ShareOf(op, cfg.route, owner), now).Err?
    ensures Whole(cfg, t, op, now) == (t, Vote(cfg, t, ShareOf(op, cfg.route, owner), now).error.ToReply())
  {
    var share := ShareOf(op, cfg.route, owner);
    var part := Part(t, cfg.route, owner);
    VoteIsPrepare(cfg, t, share, now, 0);
    EffectsSplit(t, op, cfg.route, owner, now);
    ShareAnswerIsShorter(t, op, cfg.route, |cfg.limits|, owner, now);
    var mine, all := DecideDivisible(part, share.operation, now), DecideDivisible(t, op, now);
    TooLongIsLength(mine.response, cfg.maxReply);
    TooLongIsLength(all.response, cfg.maxReply);
    PartOfApplied(t, all.effects, cfg.route, owner);
    assert mine.effects == EffectsAt(all.effects, cfg.route, owner);
    RefusedForRoom(cfg, t, op, owner, now);
    hide Part;
    hide Applied;
    hide TooLong;
    hide WithinBudget;
    hide EffectsAt;
    hide ShareOf;
    hide Decide;
    hide DecideDivisible;
  }

  /** A share short of room belongs to an assignment, whose answer is never too long. */
  lemma RefusedForRoom(cfg: Config, t: Table, op: Operation, owner: nat, now: i64)
    requires cfg.Valid() && op.Divisible() && owner < |cfg.limits| && Budgeted(cfg, t)
    ensures var share := ShareOf(op, cfg.route, owner);
            var part := Part(t, cfg.route, owner);
            !WithinBudget(Applied(part, DecideDivisible(part, share.operation, now).effects), cfg.limits[owner]) ==>
              !TooLong(DecideDivisible(t, op, now).response, cfg.maxReply)
  {
    var share := ShareOf(op, cfg.route, owner);
    var part := Part(t, cfg.route, owner);
    if op.MultiSet? {
      TooLongIsLength(R.OK, cfg.maxReply);
      assert |Ascii("OK")| == 2;
      assert |R.Encode(R.OK)| == 5;
    } else {
      OnlyWritesGrow(part, share.operation, now);
      RemovalKeepsBudget(part, DecideDivisible(part, share.operation, now).effects, cfg.limits[owner]);
    }
  }

  /** What a unanimous vote means for the whole command. */
  ghost predicate Unanimous(cfg: Config, t: Table, op: Operation, now: i64)
    requires op.Divisible()
  {
    var shares := Shares(op, cfg.route, |cfg.limits|);
    forall i :: 0 <= i < |shares| ==> Vote(cfg, t, shares[i], now).Ok?
  }

  /** An owner without a share is left alone; an owner with one gets exactly its prepared effects. */
  lemma ShareInstalls(cfg: Config, t: Table, op: Operation, owner: nat, now: i64)
    requires op.Divisible()
    ensures var after := Applied(t, DecideDivisible(t, op, now).effects);
            var part := Part(t, cfg.route, owner);
            && Part(after, cfg.route, owner) ==
               Applied(part, DecideDivisible(part, ShareOf(op, cfg.route, owner).operation, now).effects)
            && (!Participates(op, cfg.route, owner) ==> Part(after, cfg.route, owner) == part)
  {
    var effects := DecideDivisible(t, op, now).effects;
    EffectsSplit(t, op, cfg.route, owner, now);
    PartOfApplied(t, effects, cfg.route, owner);
    EffectsOnKeys(t, op, now);
    if !Participates(op, cfg.route, owner) {
      assert EffectsAt(effects, cfg.route, owner) == map[];
      assert Applied(Part(t, cfg.route, owner), map[]) == Part(t, cfg.route, owner);
    }
  }

  /** When every participant votes yes and the joined answer is short enough, the command commits. */
  lemma UnanimousVote(cfg: Config, t: Table, op: Operation, now: i64)
    requires cfg.Valid() && op.Divisible() && Budgeted(cfg, t) && Unanimous(cfg, t, op, now)
    ensures var shares := Shares(op, cfg.route, |cfg.limits|);
            var results := Responses(t, shares, cfg.route, now);
            && Combinable(op, shares, results)
            && var reply := Combined(op, shares, results);
               if TooLong(reply, cfg.maxReply) then Whole(cfg, t, op, now) == (t, ReplyTooLong.ToReply())
               else Whole(cfg, t, op, now) == (Applied(t, DecideDivisible(t, op, now).effects), reply)
  {
    var shares := Shares(op, cfg.route, |cfg.limits|);
    AnswersJoin(t, op, cfg.route, |cfg.limits|, now);
    var after := Applied(t, DecideDivisible(t, op, now).effects);
    forall o | 0 <= o < |cfg.limits|
      ensures WithinBudget(Part(after, cfg.route, o), cfg.limits[o])
    {
      ShareInstalls(cfg, t, op, o, now);
      if Participates(op, cfg.route, o) {
        SharesCover(op, cfg.route, |cfg.limits|);
        assert Covered(shares, o);
        var i :| 0 <= i < |shares| && shares[i].owner == o;
        assert shares[i] == ShareOf(op, cfg.route, o);
        VoteIsPrepare(cfg, t, shares[i], now, 0);
      }
    }
    hide Combined;
    hide Combinable;
    hide Decide;
    hide DecideDivisible;
    hide WithinBudget;
    hide TooLong;
  }

  // ---------- sweeps ----------

  lemma SweepPart(cfg: Config, t: Table, owner: nat, removed: set<Bytes>, other: nat)
    requires removed <= Part(t, cfg.route, owner).Keys
    ensures Part(t - removed, cfg.route, owner) == Part(t, cfg.route, owner) - removed
    ensures other != owner ==> Part(t - removed, cfg.route, other) == Part(t, cfg.route, other)
  {
  }

  lemma SweepKeepsBudget(cfg: Config, t: Table, owner: nat, removed: set<Bytes>)
    requires Budgeted(cfg, t) && removed <= Part(t, cfg.route, owner).Keys
    ensures Budgeted(cfg, t - removed)
  {
    forall o | 0 <= o < |cfg.limits|
      ensures WithinBudget(Part(t - removed, cfg.route, o), cfg.limits[o])
    {
      SweepPart(cfg, t, owner, removed, o);
      RemovedKeepsBudget(Part(t, cfg.route, o), removed, cfg.limits[o]);
    }
  }

  lemma RemovedKeepsBudget(t: Table, removed: set<Bytes>, limits: ShardLimits)
    requires WithinBudget(t, limits)
    ensures WithinBudget(t - removed, limits)
  {
    var effects: Effects := map k | k in removed :: None;
    assert Applied(t, effects) == t - removed;
    RemovalKeepsBudget(t, effects, limits);
  }
}
