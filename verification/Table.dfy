/**
 * What one owner's commands mean. `Decide`, `Applied` and `Prepare` describe the two-phase
 * execution over the physical table; `Meaning` is an independent description on plain maps that
 * hold live entries only.
 */
module Tables {
  import opened Bytes
  import opened Commands
  import opened Decimal
  import opened Sums
  import R = Replies

  datatype Entry = Entry(value: Bytes, deadline: Option<i64>)

  type Table = map<Bytes, Entry>

  /** Requested changes: a new entry, or removal. */
  type Effects = map<Bytes, Option<Entry>>

  datatype EngineError =
    | InvalidSetExpiry
    | InvalidExpiry
    | NotAnInteger
    | CounterOverflow
    | ReplyTooLong
    | OutOfMemory
  {
    function Message(): Bytes {
      match this
      case InvalidSetExpiry => Ascii("ERR invalid expire time in 'set' command")
      case InvalidExpiry => Ascii("ERR invalid expire time in 'expire' command")
      case NotAnInteger => Ascii("ERR value is not an integer or out of range")
      case CounterOverflow => Ascii("ERR increment or decrement would overflow")
      case ReplyTooLong => Ascii("ERR response exceeds configured limit")
      case OutOfMemory => Ascii("OOM owner key or payload budget exhausted")
    }

    function ToReply(): R.Reply {
      R.Error(Message())
    }
  }

  datatype ShardLimits = ShardLimits(maxKeys: nat, maxPayload: nat, maxReply: nat) {
    predicate Valid() {
      maxKeys > 0 && maxPayload > 0 && 64 <= maxReply <= USIZE_MAX
    }
  }

  // ---------- expiry ----------

  predicate Due(entry: Entry, now: i64) {
    entry.deadline.Some? && entry.deadline.value <= now
  }

  function Live(t: Table, key: Bytes, now: i64): Option<Entry> {
    if key in t && !Due(t[key], now) then Some(t[key]) else None
  }

  /** The entries a command at `now` can observe. */
  function View(t: Table, now: i64): Table {
    map k | k in t && !Due(t[k], now) :: t[k]
  }

  /** Lazy removal of the due entries among the observed keys. */
  function Lapsed(t: Table, keys: set<Bytes>, now: i64): Effects {
    map k | k in keys && k in t && Due(t[k], now) :: None
  }

  // ---------- deciding ----------

  datatype Decision = Decision(effects: Effects, response: R.Reply)

  function ValueReply(entry: Option<Entry>): R.Reply {
    R.Bulk(if entry.Some? then Some(entry.value.value) else None)
  }

  function SetDeadline(found: Option<Entry>, expiry: Expiry, now: i64): Result<Option<i64>, EngineError> {
    match expiry
    case Clear => Ok(None)
    case Keep => Ok(if found.Some? then found.value.deadline else None)
    case AfterMilliseconds(duration) =>
      if duration > 0 && FitsI64(now + duration) then Ok(Some(now + duration)) else Err(InvalidSetExpiry)
  }

  predicate Blocked(condition: Condition, present: bool) {
    (condition == IfAbsent && present) || (condition == IfPresent && !present)
  }

  /** The counter's next value. */
  function NextValue(found: Option<Entry>, amount: i64, subtract: bool): (r: Result<i64, EngineError>) {
    if subtract && amount == I64_MIN then Err(CounterOverflow)
    else
      var current := if found.Some? then Integer(found.value.value) else Some(0);
      if current == None then Err(NotAnInteger)
      else
        var next := if subtract then current.value - amount else current.value + amount;
        if FitsI64(next) then Ok(next) else Err(CounterOverflow)
  }

  function SaturatingSub(a: i64, b: i64): i64 {
    if a - b > I64_MAX then I64_MAX else if a - b < I64_MIN then I64_MIN else a - b
  }

  /** Remaining life of a live entry: -1 without a deadline, seconds rounded to the nearest. */
  function Remaining(entry: Option<Entry>, inMilliseconds: bool, now: i64): int {
    match entry
    case None => -2
    case Some(Entry(_, None)) => -1
    case Some(Entry(_, Some(deadline))) =>
      var left := SaturatingSub(deadline, now);
      if inMilliseconds then left
      else TruncatedSeconds(left)
  }

  /** Division truncates towards zero, as does its remainder. */
  function TruncatedSeconds(left: int): int {
    if left >= 0 then left / 1000 + (if left % 1000 >= 500 then 1 else 0) else -(-left / 1000)
  }

  function CountLive(t: Table, keys: seq<Bytes>, now: i64): nat {
    if keys == [] then 0
    else CountLive(t, keys[..|keys| - 1], now) + (if Live(t, keys[|keys| - 1], now).Some? then 1 else 0)
  }

  function LiveAmong(t: Table, keys: seq<Bytes>, now: i64): set<Bytes> {
    set k | k in keys && Live(t, k, now).Some?
  }

  function ReadAll(t: Table, keys: seq<Bytes>, now: i64): (rs: seq<R.Reply>)
    ensures |rs| == |keys|
  {
    seq(|keys|, i requires 0 <= i < |keys| => ValueReply(Live(t, keys[i], now)))
  }

  function ToSet(keys: seq<Bytes>): set<Bytes> {
    set k | k in keys
  }

  /** Each key keeps the last value assigned to it. */
  function LastWins(pairs: seq<(Bytes, Bytes)>): Effects {
    if pairs == [] then map[]
    else LastWins(pairs[..|pairs| - 1])[pairs[|pairs| - 1].0 := Some(Entry(pairs[|pairs| - 1].1, None))]
  }

  /** The effects and the response of a command, before any budget is considered. */
  function Decide(t: Table, op: Operation, now: i64): Result<Decision, EngineError> {
    match op
    case Get(key) => Ok(Decision(Lapsed(t, {key}, now), ValueReply(Live(t, key, now))))
    case Set(key, value, condition, expiry) =>
      var found := Live(t, key, now);
      (match SetDeadline(found, expiry, now)
       case Err(error) => Err(error)
       case Ok(deadline) =>
         if Blocked(condition, found.Some?) then Ok(Decision(Lapsed(t, {key}, now), R.Bulk(None)))
         else Ok(Decision(map[key := Some(Entry(value, deadline))], R.OK)))
    case Increment(key, amount, subtract) =>
      var found := Live(t, key, now);
      (match NextValue(found, amount, subtract)
       case Err(error) => Err(error)
       case Ok(next) =>
         var deadline := if found.Some? then found.value.deadline else None;
         Ok(Decision(map[key := Some(Entry(Print(next), deadline))], R.Integer(next))))
    case Delete(keys) =>
      Ok(Decision(map k | k in keys :: None, R.Integer(|LiveAmong(t, keys, now)|)))
    case Exists(keys) => Ok(Decision(Lapsed(t, ToSet(keys), now), R.Integer(CountLive(t, keys, now))))
    case MultiGet(keys) => Ok(Decision(Lapsed(t, ToSet(keys), now), R.Array(ReadAll(t, keys, now))))
    case MultiSet(pairs) => Ok(Decision(LastWins(pairs), R.OK))
    case Expire(key, milliseconds) =>
      (match Live(t, key, now)
       case None => Ok(Decision(Lapsed(t, {key}, now), R.Integer(0)))
       case Some(found) =>
         if milliseconds <= 0 then Ok(Decision(map[key := None], R.Integer(1)))
         else if !FitsI64(now + milliseconds) then Err(InvalidExpiry)
         else Ok(Decision(map[key := Some(found.(deadline := Some(now + milliseconds)))], R.Integer(1))))
    case Ttl(key, inMilliseconds) =>
      Ok(Decision(Lapsed(t, {key}, now), R.Integer(Remaining(Live(t, key, now), inMilliseconds, now))))
    case Persist(key) =>
      (match Live(t, key, now)
       case None => Ok(Decision(Lapsed(t, {key}, now), R.Integer(0)))
       case Some(found) =>
         if found.deadline.Some? then Ok(Decision(map[key := Some(found.(deadline := None))], R.Integer(1)))
         else Ok(Decision(map[], R.Integer(0))))
  }

  /** Commands over several keys are never refused while deciding. */
  function DecideDivisible(t: Table, op: Operation, now: i64): (decision: Decision)
    requires op.Divisible()
    ensures Decide(t, op, now) == Ok(decision)
  {
    Decide(t, op, now).value
  }

  // ---------- applying ----------

  function Applied(t: Table, effects: Effects): Table {
    map k | k in t.Keys + effects.Keys && (k in effects ==> effects[k].Some?) ::
      if k in effects then effects[k].value else t[k]
  }

  function EntrySize(key: Bytes, entry: Entry): nat {
    |key| + |entry.value|
  }

  /** Bytes of every key and value in the table. */
  ghost function Payload(t: Table): nat {
    Sum(t, EntrySize)
  }

  ghost predicate WithinBudget(t: Table, limits: ShardLimits) {
    |t| <= limits.maxKeys && Payload(t) <= limits.maxPayload
  }

  predicate TooLong(r: R.Reply, maxReply: nat) {
    R.EncodedLen(r) == None || R.EncodedLen(r).value > maxReply
  }

  lemma TooLongIsLength(r: R.Reply, maxReply: nat)
    requires maxReply <= USIZE_MAX
    ensures TooLong(r, maxReply) <==> |R.Encode(r)| > maxReply
  {
    R.EncodedLenIsExact(r);
  }

  /** One owner's committed state: its table, and a revision every change advances. */
  datatype ShardState = ShardState(table: Table, revision: nat)

  datatype Prepared = Prepared(revision: nat, effects: Effects, payloadAfter: nat, response: R.Reply)

  ghost function Prepare(st: ShardState, limits: ShardLimits, op: Operation, now: i64): Result<Prepared, EngineError> {
    match Decide(st.table, op, now)
    case Err(error) => Err(error)
    case Ok(Decision(effects, response)) =>
      var after := Applied(st.table, effects);
      if TooLong(response, limits.maxReply) then Err(ReplyTooLong)
      else if !WithinBudget(after, limits) then Err(OutOfMemory)
      else Ok(Prepared(st.revision, effects, Payload(after), response))
  }

  function Commit(st: ShardState, prepared: Prepared): ShardState {
    ShardState(Applied(st.table, prepared.effects), st.revision + 1)
  }

  /** A single-owner command: prepared and committed at once, or rejected without any change. */
  ghost function Execute(st: ShardState, limits: ShardLimits, op: Operation, now: i64)
    : (ShardState, Result<R.Reply, EngineError>)
  {
    match Prepare(st, limits, op, now)
    case Err(error) => (st, Err(error))
    case Ok(prepared) => (Commit(st, prepared), Ok(prepared.response))
  }

  /** Execution in one piece: the ways a command can end. */
  lemma ExecuteCases(st: ShardState, limits: ShardLimits, op: Operation, now: i64)
    ensures Execute(st, limits, op, now) ==
            match Decide(st.table, op, now)
            case Err(error) => (st, Err(error))
            case Ok(Decision(effects, response)) =>
              if TooLong(response, limits.maxReply) then (st, Err(ReplyTooLong))
              else if !WithinBudget(Applied(st.table, effects), limits) then (st, Err(OutOfMemory))
              else (ShardState(Applied(st.table, effects), st.revision + 1), Ok(response))
  {
    hide Decide;
    hide TooLong;
    hide WithinBudget;
    hide Applied;
    hide Payload;
  }

  function DueKeys(t: Table, now: i64): set<Bytes> {
    set k | k in t && Due(t[k], now)
  }

  /** `removed` is what a sweep with this budget may remove: due keys only, earliest deadlines first. */
  predicate Sweep(t: Table, now: i64, budget: nat, removed: set<Bytes>) {
    && removed <= DueKeys(t, now)
    && |removed| == (if |DueKeys(t, now)| <= budget then |DueKeys(t, now)| else budget)
    && forall r, k :: r in removed && k in DueKeys(t, now) - removed ==> t[r].deadline.value <= t[k].deadline.value
  }

  function Swept(st: ShardState, removed: set<Bytes>): ShardState {
    ShardState(st.table - removed, st.revision + |removed|)
  }

  // ---------- the meaning on live entries ----------

  function AssignAll(v: Table, pairs: seq<(Bytes, Bytes)>): Table
    decreases |pairs|
  {
    if pairs == [] then v else AssignAll(v[pairs[0].0 := Entry(pairs[0].1, None)], pairs[1..])
  }

  function Lookup(v: Table, key: Bytes): Option<Entry> {
    if key in v then Some(v[key]) else None
  }

  /** The plain-map reading of every command: a table of live entries, without lazy removal or effects. */
  function Meaning(v: Table, op: Operation, now: i64): Result<(Table, R.Reply), EngineError> {
    match op
    case Get(key) => Ok((v, ValueReply(Lookup(v, key))))
    case Set(key, value, condition, expiry) =>
      (match SetDeadline(Lookup(v, key), expiry, now)
       case Err(error) => Err(error)
       case Ok(deadline) =>
         if Blocked(condition, key in v) then Ok((v, R.Bulk(None)))
         else Ok((v[key := Entry(value, deadline)], R.OK)))
    case Increment(key, amount, subtract) =>
      (match NextValue(Lookup(v, key), amount, subtract)
       case Err(error) => Err(error)
       case Ok(next) =>
         Ok((v[key := Entry(Print(next), if key in v then v[key].deadline else None)], R.Integer(next))))
    case Delete(keys) => Ok((v - ToSet(keys), R.Integer(|v.Keys * ToSet(keys)|)))
    case Exists(keys) => Ok((v, R.Integer(|Present(v, keys)|)))
    case MultiGet(keys) =>
      Ok((v, R.Array(seq(|keys|, i requires 0 <= i < |keys| => ValueReply(Lookup(v, keys[i]))))))
    case MultiSet(pairs) => Ok((AssignAll(v, pairs), R.OK))
    case Expire(key, milliseconds) =>
      if key !in v then Ok((v, R.Integer(0)))
      else if milliseconds <= 0 then Ok((v - {key}, R.Integer(1)))
      else if !FitsI64(now + milliseconds) then Err(InvalidExpiry)
      else Ok((v[key := v[key].(deadline := Some(now + milliseconds))], R.Integer(1)))
    case Ttl(key, inMilliseconds) => Ok((v, R.Integer(Remaining(Lookup(v, key), inMilliseconds, now))))
    case Persist(key) =>
      if key in v && v[key].deadline.Some? then Ok((v[key := v[key].(deadline := None)], R.Integer(1)))
      else Ok((v, R.Integer(0)))
  }

  /** The positions whose key is present: every repeated argument counts. */
  function Present(v: Table, keys: seq<Bytes>): set<nat> {
    set i: nat | i < |keys| && keys[i] in v
  }

  /** What the physical decision does to the live entries. */
  function Observed(t: Table, decision: Result<Decision, EngineError>, now: i64)
    : Result<(Table, R.Reply), EngineError>
  {
    match decision
    case Err(error) => Err(error)
    case Ok(Decision(effects, response)) => Ok((View(Applied(t, effects), now), response))
  }

  lemma LapsedIsInvisible(t: Table, keys: set<Bytes>, now: i64)
    ensures View(Applied(t, Lapsed(t, keys, now)), now) == View(t, now)
  {
  }

  lemma LiveIsLookup(t: Table, key: Bytes, now: i64)
    ensures Live(t, key, now) == Lookup(View(t, now), key)
  {
  }

  lemma {:induction false} CountIsPresent(t: Table, keys: seq<Bytes>, now: i64)
    ensures CountLive(t, keys, now) == |Present(View(t, now), keys)|
  {
    if keys != [] {
      var front, last := keys[..|keys| - 1], keys[|keys| - 1];
      CountIsPresent(t, front, now);
      var v := View(t, now);
      if last in v {
        assert Present(v, keys) == Present(v, front) + {|front|};
      } else {
        assert Present(v, keys) == Present(v, front);
      }
    }
  }

  lemma {:induction false} AssignAllLast(v: Table, pairs: seq<(Bytes, Bytes)>, last: (Bytes, Bytes))
    ensures AssignAll(v, pairs + [last]) == AssignAll(v, pairs)[last.0 := Entry(last.1, None)]
    decreases |pairs|
  {
    var longer := pairs + [last];
    if pairs == [] {
      assert longer[1..] == [];
    } else {
      assert longer[1..] == pairs[1..] + [last];
      AssignAllLast(v[pairs[0].0 := Entry(pairs[0].1, None)], pairs[1..], last);
    }
  }

  lemma {:induction false} LastWinsIsAssignAll(t: Table, pairs: seq<(Bytes, Bytes)>, now: i64)
    ensures View(Applied(t, LastWins(pairs)), now) == AssignAll(View(t, now), pairs)
    decreases |pairs|
  {
    if pairs == [] {
      assert Applied(t, map[]) == t;
    } else {
      hide View;
      hide Applied;
      var front, last := pairs[..|pairs| - 1], pairs[|pairs| - 1];
      LastWinsIsAssignAll(t, front, now);
      AssignAllLast(View(t, now), front, last);
      assert front + [last] == pairs;
      var entry := Entry(last.1, None);
      AppliedStep(t, LastWins(front), last.0, Some(entry));
      WriteIsVisible(Applied(t, LastWins(front)), last.0, entry, now);
    }
  }

  lemma WriteIsVisible(t: Table, key: Bytes, entry: Entry, now: i64)
    requires !Due(entry, now)
    ensures View(Applied(t, map[key := Some(entry)]), now) == View(t, now)[key := entry]
  {
  }

  lemma RemovalIsVisible(t: Table, key: Bytes, now: i64)
    ensures View(Applied(t, map[key := None]), now) == View(t, now) - {key}
  {
  }

  lemma DeletionIsVisible(t: Table, keys: seq<Bytes>, now: i64)
    ensures View(Applied(t, map k | k in keys :: None), now) == View(t, now) - ToSet(keys)
    ensures LiveAmong(t, keys, now) == View(t, now).Keys * ToSet(keys)
  {
  }

  /**
   * Refinement: on the live entries, every command does exactly what the plain map does, with the
   * same reply and the same errors, whatever due entries the physical table still holds.
   */
  lemma DecideRefinesMeaning(t: Table, op: Operation, now: i64)
    ensures Observed(t, Decide(t, op, now), now) == Meaning(View(t, now), op, now)
  {
    hide View;
    hide Applied;
    hide Lapsed;
    hide Live;
    match op
    case Get(key) =>
      LapsedIsInvisible(t, {key}, now);
      LiveIsLookup(t, key, now);
    case Set(key, value, condition, expiry) => SetRefines(t, op, now);
    case Increment(key, amount, subtract) => IncrementRefines(t, op, now);
    case Delete(keys) => DeletionIsVisible(t, keys, now);
    case Exists(keys) =>
      LapsedIsInvisible(t, ToSet(keys), now);
      CountIsPresent(t, keys, now);
    case MultiGet(keys) =>
      LapsedIsInvisible(t, ToSet(keys), now);
      forall i | 0 <= i < |keys|
        ensures Live(t, keys[i], now) == Lookup(View(t, now), keys[i])
      {
        LiveIsLookup(t, keys[i], now);
      }
      assert ReadAll(t, keys, now) ==
             seq(|keys|, i requires 0 <= i < |keys| => ValueReply(Lookup(View(t, now), keys[i])));
    case MultiSet(pairs) => LastWinsIsAssignAll(t, pairs, now);
    case Expire(key, milliseconds) => ExpireRefines(t, op, now);
    case Ttl(key, inMilliseconds) =>
      LapsedIsInvisible(t, {key}, now);
      LiveIsLookup(t, key, now);
    case Persist(key) => PersistRefines(t, op, now);
  }

  lemma SetRefines(t: Table, op: Operation, now: i64)
    requires op.Set?
    ensures Observed(t, Decide(t, op, now), now) == Meaning(View(t, now), op, now)
  {
    hide View;
    hide Applied;
    hide Lapsed;
    LapsedIsInvisible(t, {op.key}, now);
    LiveIsLookup(t, op.key, now);
    match SetDeadline(Live(t, op.key, now), op.expiry, now)
    case Err(error) =>
    case Ok(deadline) => WriteIsVisible(t, op.key, Entry(op.value, deadline), now);
  }

  lemma IncrementRefines(t: Table, op: Operation, now: i64)
    requires op.Increment?
    ensures Observed(t, Decide(t, op, now), now) == Meaning(View(t, now), op, now)
  {
    hide View;
    hide Applied;
    hide Lapsed;
    LiveIsLookup(t, op.key, now);
    var found := Live(t, op.key, now);
    match NextValue(found, op.amount, op.subtract)
    case Err(error) =>
    case Ok(next) =>
      WriteIsVisible(t, op.key, Entry(Print(next), if found.Some? then found.value.deadline else None), now);
  }

  lemma ExpireRefines(t: Table, op: Operation, now: i64)
    requires op.Expire?
    ensures Observed(t, Decide(t, op, now), now) == Meaning(View(t, now), op, now)
  {
    hide View;
    hide Applied;
    hide Lapsed;
    hide Live;
    LapsedIsInvisible(t, {op.key}, now);
    LiveIsLookup(t, op.key, now);
    RemovalIsVisible(t, op.key, now);
    var found := Live(t, op.key, now);
    if found.Some? && op.milliseconds > 0 && FitsI64(now + op.milliseconds) {
      WriteIsVisible(t, op.key, found.value.(deadline := Some(now + op.milliseconds)), now);
    }
  }

  lemma PersistRefines(t: Table, op: Operation, now: i64)
    requires op.Persist?
    ensures Observed(t, Decide(t, op, now), now) == Meaning(View(t, now), op, now)
  {
    assert Applied(t, map[]) == t;
    hide View;
    hide Applied;
    hide Lapsed;
    hide Live;
    LapsedIsInvisible(t, {op.key}, now);
    LiveIsLookup(t, op.key, now);
    var found := Live(t, op.key, now);
    if found.Some? {
      WriteIsVisible(t, op.key, found.value.(deadline := None), now);
    }
  }

  // ---------- budgets ----------

  /** One effect's contribution to the number of keys and the payload. */
  lemma OneEffect(t: Table, key: Bytes, next: Option<Entry>)
    ensures var after := Applied(t, map[key := next]);
            && |after| == |t| - (if key in t then 1 else 0) + (if next.Some? then 1 else 0)
            && Payload(after) == Payload(t) - (if key in t then EntrySize(key, t[key]) else 0)
                                 + (if next.Some? then EntrySize(key, next.value) else 0)
  {
    hide Sum;
    if key in t {
      SumRemove(t, EntrySize, key);
      SizeRemove(t, key);
    } else {
      SumAbsent(t, EntrySize, key);
      assert t - {key} == t;
    }
    AppliedOne(t, key, next);
    if next.Some? {
      SumInsert(t, EntrySize, key, next.value);
      SizeInsert(t, key, next.value);
    }
  }

  lemma AppliedOne(t: Table, key: Bytes, next: Option<Entry>)
    ensures Applied(t, map[key := next]) == if next.Some? then t[key := next.value] else t - {key}
  {
  }

  /** Effects on different keys may be installed one at a time, in any order. */
  lemma AppliedStep(t: Table, done: Effects, key: Bytes, next: Option<Entry>)
    ensures Applied(t, done[key := next]) == Applied(Applied(t, done), map[key := next])
  {
  }

  /** Removing only what is due never exceeds a budget the table already respects. */
  lemma RemovalKeepsBudget(t: Table, effects: Effects, limits: ShardLimits)
    requires WithinBudget(t, limits)
    requires forall k :: k in effects ==> effects[k] == None
    ensures WithinBudget(Applied(t, effects), limits)
  {
    SumSubset(Applied(t, effects), t, EntrySize);
  }

  // ---------- what executing a command means ----------

  /** Rewriting the deadline of a key does not change the room its entry takes. */
  lemma DeadlineNeedsNoRoom(t: Table, key: Bytes, deadline: Option<i64>, limits: ShardLimits)
    requires WithinBudget(t, limits) && key in t
    ensures WithinBudget(Applied(t, map[key := Some(t[key].(deadline := deadline))]), limits)
  {
    OneEffect(t, key, Some(t[key].(deadline := deadline)));
    hide Applied;
    hide Payload;
  }

  /** Only commands that store a value can lack room. */
  lemma OnlyValuesNeedRoom(t: Table, op: Operation, now: i64, limits: ShardLimits)
    requires WithinBudget(t, limits) && Decide(t, op, now).Ok?
    requires !op.StoresValue()
    ensures WithinBudget(Applied(t, Decide(t, op, now).value.effects), limits)
  {
    var effects := Decide(t, op, now).value.effects;
    if op.Expire? && Live(t, op.key, now).Some? && op.milliseconds > 0 {
      DeadlineNeedsNoRoom(t, op.key, Some(now + op.milliseconds), limits);
    } else if op.Persist? && Live(t, op.key, now).Some? && Live(t, op.key, now).value.deadline.Some? {
      DeadlineNeedsNoRoom(t, op.key, None, limits);
    } else {
      assert forall k :: k in effects ==> effects[k] == None;
      RemovalKeepsBudget(t, effects, limits);
    }
  }

  /**
   * Executing a command does and answers what it means on a plain map of the live entries. Otherwise
   * the shard is exactly as before: when the command is in error, when its answer is too long, and
   * when a command that stores a value lacks the room for it.
   */
  lemma ExecuteIsMeaning(st: ShardState, limits: ShardLimits, op: Operation, now: i64)
    requires WithinBudget(st.table, limits)
    ensures var (next, r) := Execute(st, limits, op, now);
            && WithinBudget(next.table, limits)
            && match Meaning(View(st.table, now), op, now)
               case Err(error) => next == st && r == Err(error)
               case Ok((after, response)) =>
                 if TooLong(response, limits.maxReply) then next == st && r == Err(ReplyTooLong)
                 else if r == Err(OutOfMemory) then next == st && op.StoresValue()
                 else r == Ok(response) && View(next.table, now) == after && next.revision == st.revision + 1
  {
    ExecuteCases(st, limits, op, now);
    DecideRefinesMeaning(st.table, op, now);
    if Decide(st.table, op, now).Ok? && !op.StoresValue() {
      OnlyValuesNeedRoom(st.table, op, now, limits);
    }
    hide Execute;
    hide Decide;
    hide Meaning;
    hide View;
    hide TooLong;
    hide WithinBudget;
    hide Applied;
  }
}
