/** From request arguments to data commands. */
module Parser {
  import opened Bytes
  import opened Commands
  import opened Decimal

  datatype CommandError =
    | EmptyCommand
    | NotData
    | WrongArity
    | SyntaxError
    | InvalidInteger
    | InvalidSetTime
    | InvalidExpireTime
    | KeyTooLong
    | ValueTooLong

  function Lower(b: byte): byte {
    if 65 <= b <= 90 then b + 32 else b
  }

  /** The word spells the name, in any mixture of upper and lower case. */
  predicate Spells(word: Bytes, name: string) {
    |word| == |name| && forall i :: 0 <= i < |word| ==> Lower(word[i]) == Lower(Ascii(name)[i])
  }

  // ---------- the options of an assignment ----------

  /** One option, as its documentation lists them. */
  datatype Clause = Nx | Xx | KeepTtl | Ex(seconds: i64) | Px(milliseconds: i64)
  {
    predicate Conditional() { Nx? || Xx? }

    function Duration(): int {
      match this
      case Ex(n) => n * 1000
      case Px(n) => n
      case _ => 1
    }
  }

  /** The words write down the options, in order. */
  ghost predicate Writes(clauses: seq<Clause>, words: seq<Bytes>)
    decreases |clauses|
  {
    if clauses == [] then words == []
    else
      match clauses[0]
      case Nx => words != [] && Spells(words[0], "nx") && Writes(clauses[1..], words[1..])
      case Xx => words != [] && Spells(words[0], "xx") && Writes(clauses[1..], words[1..])
      case KeepTtl => words != [] && Spells(words[0], "keepttl") && Writes(clauses[1..], words[1..])
      case Ex(n) => |words| >= 2 && Spells(words[0], "ex") && words[1] == Print(n) && Writes(clauses[1..], words[2..])
      case Px(n) => |words| >= 2 && Spells(words[0], "px") && words[1] == Print(n) && Writes(clauses[1..], words[2..])
  }

  /** At most one condition, at most one expiry, and positive durations that fit. */
  ghost predicate Legal(clauses: seq<Clause>) {
    && (forall i, j :: 0 <= i < j < |clauses| ==> clauses[i].Conditional() != clauses[j].Conditional())
    && forall i :: 0 <= i < |clauses| ==> 0 < clauses[i].Duration() <= I64_MAX
  }

  function ConditionOf(clauses: seq<Clause>): Condition {
    if Nx in clauses then IfAbsent else if Xx in clauses then IfPresent else Always
  }

  function ExpiryOf(clauses: seq<Clause>): Expiry {
    if clauses == [] then Clear
    else
      match clauses[0]
      case KeepTtl => Keep
      case Ex(n) => if FitsI64(n * 1000) then AfterMilliseconds(n * 1000) else Clear
      case Px(n) => AfterMilliseconds(n)
      case _ => ExpiryOf(clauses[1..])
  }

  /** One option word and what it does to the choices made so far. */
  datatype Options = Options(condition: Condition, expiry: Expiry)

  function Milliseconds(amount: Bytes, seconds: bool): Result<i64, CommandError> {
    match Integer(amount)
    case None => Err(InvalidInteger)
    case Some(n) =>
      var duration := if seconds then n * 1000 else n;
      if !FitsI64(duration) || duration <= 0 then Err(InvalidSetTime) else Ok(duration)
  }

  /** Reads the remaining option words. */
  function ParseOptions(words: seq<Bytes>, chosen: Options): Result<Options, CommandError>
    decreases |words|
  {
    if words == [] then Ok(chosen)
    else if Spells(words[0], "nx") || Spells(words[0], "xx") then
      if chosen.condition != Always then Err(SyntaxError)
      else ParseOptions(words[1..], chosen.(condition := if Spells(words[0], "nx") then IfAbsent else IfPresent))
    else if Spells(words[0], "keepttl") then
      if chosen.expiry != Clear then Err(SyntaxError) else ParseOptions(words[1..], chosen.(expiry := Keep))
    else if Spells(words[0], "ex") || Spells(words[0], "px") then
      if chosen.expiry != Clear || |words| == 1 then Err(SyntaxError)
      else
        match Milliseconds(words[1], Spells(words[0], "ex"))
        case Err(error) => Err(error)
        case Ok(duration) => ParseOptions(words[2..], chosen.(expiry := AfterMilliseconds(duration)))
    else Err(SyntaxError)
  }

  function SetOf(a: seq<Bytes>): Result<Operation, CommandError>
    requires |a| >= 3
  {
    match ParseOptions(a[3..], Options(Always, Clear))
    case Err(error) => Err(error)
    case Ok(chosen) => Ok(Set(a[1], a[2], chosen.condition, chosen.expiry))
  }

  /** Scans the options of an assignment from left to right. */
  method ParseSet(a: seq<Bytes>) returns (r: Result<Operation, CommandError>)
    requires |a| >= 3
    ensures r == SetOf(a)
  {
    var condition, expiry := Always, Clear;
    var index := 3;
    while index < |a|
      invariant 3 <= index <= |a|
      invariant ParseOptions(a[3..], Options(Always, Clear)) == ParseOptions(a[index..], Options(condition, expiry))
    {
      hide Spells;
      hide Milliseconds;
      var option := a[index];
      ghost var rest := a[index..];
      assert rest[1..] == a[index + 1..];
      if Spells(option, "nx") || Spells(option, "xx") {
        if condition != Always {
          return Err(SyntaxError);
        }
        condition := if Spells(option, "nx") then IfAbsent else IfPresent;
      } else if Spells(option, "keepttl") {
        if expiry != Clear {
          return Err(SyntaxError);
        }
        expiry := Keep;
      } else if Spells(option, "ex") || Spells(option, "px") {
        if expiry != Clear || index + 1 == |a| {
          return Err(SyntaxError);
        }
        index := index + 1;
        var duration := Milliseconds(a[index], Spells(option, "ex"));
        if duration.Err? {
          return Err(duration.error);
        }
        assert rest[2..] == a[index + 1..];
        expiry := AfterMilliseconds(duration.value);
      } else {
        return Err(SyntaxError);
      }
      index := index + 1;
    }
    assert a[index..] == [];
    return Ok(Set(a[1], a[2], condition, expiry));
  }

  /** No word spells two options. */
  lemma DifferentOptions(word: Bytes)
    ensures Spells(word, "nx") ==> !Spells(word, "xx")
    ensures Spells(word, "nx") || Spells(word, "xx") ==>
              !Spells(word, "keepttl") && !Spells(word, "ex") && !Spells(word, "px")
    ensures Spells(word, "keepttl") ==> !Spells(word, "ex") && !Spells(word, "px")
    ensures Spells(word, "ex") ==> !Spells(word, "px")
  {
    if |word| == 2 {
      assert Lower(Ascii("nx")[0]) == 110 && Lower(Ascii("xx")[0]) == 120;
      assert Lower(Ascii("ex")[0]) == 101 && Lower(Ascii("px")[0]) == 112;
    }
  }

  /** The choices still allow these options. */
  ghost predicate Allows(chosen: Options, clauses: seq<Clause>) {
    && Legal(clauses)
    && (chosen.condition != Always ==> forall i :: 0 <= i < |clauses| ==> !clauses[i].Conditional())
    && (chosen.expiry != Clear ==> forall i :: 0 <= i < |clauses| ==> clauses[i].Conditional())
  }

  function Chosen(chosen: Options, clauses: seq<Clause>): Options {
    Options(if chosen.condition != Always then chosen.condition else ConditionOf(clauses),
            if chosen.expiry != Clear then chosen.expiry else ExpiryOf(clauses))
  }

  lemma AllowsRest(chosen: Options, clauses: seq<Clause>)
    requires clauses != [] && Allows(chosen, clauses)
    ensures var c, rest := clauses[0], clauses[1..];
            && 0 < c.Duration() <= I64_MAX
            && (c.Conditional() ==>
                  && chosen.condition == Always && ExpiryOf(clauses) == ExpiryOf(rest)
                  && ConditionOf(clauses) == (if c.Nx? then IfAbsent else IfPresent)
                  && forall condition :: Allows(chosen.(condition := condition), rest))
            && (!c.Conditional() ==>
                  && chosen.expiry == Clear && ConditionOf(clauses) == ConditionOf(rest)
                  && forall expiry :: Allows(chosen.(expiry := expiry), rest))
  {
    var c, rest := clauses[0], clauses[1..];
    assert clauses == [c] + rest;
    forall i | 0 <= i < |rest|
      ensures rest[i] == clauses[i + 1] && rest[i].Conditional() != c.Conditional()
    {
      assert clauses[0].Conditional() != clauses[i + 1].Conditional();
    }
    assert Legal(rest);
    assert c.Conditional() ==> forall i :: 0 <= i < |rest| ==> rest[i] != Nx && rest[i] != Xx;
  }

  /** Options that may still be given, written down in any case, are read as what they say. */
  lemma {:induction false} OptionsAccepted(clauses: seq<Clause>, words: seq<Bytes>, chosen: Options)
    requires Writes(clauses, words) && Allows(chosen, clauses)
    ensures ParseOptions(words, chosen) == Ok(Chosen(chosen, clauses))
    decreases |clauses|
  {
    if clauses != [] {
      AllowsRest(chosen, clauses);
      DifferentOptions(words[0]);
      hide Spells;
      hide Legal;
      hide ConditionOf;
      match clauses[0]
      case Nx => OptionsAccepted(clauses[1..], words[1..], chosen.(condition := IfAbsent));
      case Xx => OptionsAccepted(clauses[1..], words[1..], chosen.(condition := IfPresent));
      case KeepTtl => OptionsAccepted(clauses[1..], words[1..], chosen.(expiry := Keep));
      case Ex(n) =>
        IntegerIsCanonical(words[1], n);
        OptionsAccepted(clauses[1..], words[2..], chosen.(expiry := AfterMilliseconds(n * 1000)));
      case Px(n) =>
        IntegerIsCanonical(words[1], n);
        OptionsAccepted(clauses[1..], words[2..], chosen.(expiry := AfterMilliseconds(n)));
    }
  }

  lemma AllowsMore(chosen: Options, next: Options, c: Clause, rest: seq<Clause>)
    requires Allows(next, rest) && 0 < c.Duration() <= I64_MAX
    requires c.Conditional() ==> chosen.condition == Always && next.condition != Always && next.expiry == chosen.expiry
    requires !c.Conditional() ==> chosen.expiry == Clear && next.expiry != Clear && next.condition == chosen.condition
    ensures Allows(chosen, [c] + rest)
  {
    var clauses := [c] + rest;
    assert forall i :: 0 < i < |clauses| ==> clauses[i] == rest[i - 1];
  }

  /** Words that are read without error write down options that may be given. */
  lemma {:induction false} OptionsReadBack(words: seq<Bytes>, chosen: Options) returns (clauses: seq<Clause>)
    requires ParseOptions(words, chosen).Ok?
    ensures Writes(clauses, words) && Allows(chosen, clauses)
    decreases |words|
  {
    if words == [] {
      clauses := [];
      return;
    }
    hide Spells;
    hide Allows;
    hide Print;
    var word := words[0];
    if Spells(word, "nx") || Spells(word, "xx") {
      var next := chosen.(condition := if Spells(word, "nx") then IfAbsent else IfPresent);
      var rest := OptionsReadBack(words[1..], next);
      var c := if Spells(word, "nx") then Nx else Xx;
      AllowsMore(chosen, next, c, rest);
      clauses := [c] + rest;
      assert clauses[1..] == rest;
    } else if Spells(word, "keepttl") {
      var rest := OptionsReadBack(words[1..], chosen.(expiry := Keep));
      AllowsMore(chosen, chosen.(expiry := Keep), KeepTtl, rest);
      clauses := [KeepTtl] + rest;
      assert clauses[1..] == rest;
    } else {
      var seconds := Spells(word, "ex");
      var n := Integer(words[1]).value;
      IntegerIsCanonical(words[1], n);
      hide Integer;
      var next := chosen.(expiry := AfterMilliseconds(Milliseconds(words[1], seconds).value));
      var rest := OptionsReadBack(words[2..], next);
      var c := if seconds then Ex(n) else Px(n);
      AllowsMore(chosen, next, c, rest);
      clauses := [c] + rest;
      assert clauses[1..] == rest;
    }
  }

  /**
   * An assignment is accepted exactly when the words after its value write down at most one
   * condition and at most one expiry, in any order and case, with a positive duration that fits.
   */
  lemma SetAccepted(a: seq<Bytes>, op: Operation)
    requires |a| >= 3
    ensures SetOf(a) == Ok(op) <==>
            exists clauses ::
              && Writes(clauses, a[3..]) && Legal(clauses)
              && op == Set(a[1], a[2], ConditionOf(clauses), ExpiryOf(clauses))
  {
    var start := Options(Always, Clear);
    forall clauses | Writes(clauses, a[3..]) && Legal(clauses)
      ensures ParseOptions(a[3..], start) == Ok(Options(ConditionOf(clauses), ExpiryOf(clauses)))
    {
      OptionsAccepted(clauses, a[3..], start);
    }
    if ParseOptions(a[3..], start).Ok? {
      var clauses := OptionsReadBack(a[3..], start);
      assert Writes(clauses, a[3..]) && Legal(clauses);
    }
    hide Writes;
    hide Legal;
    hide ConditionOf;
    hide ExpiryOf;
    hide ParseOptions;
  }

  // ---------- whole commands ----------

  /** The data commands by name, with the argument counts the command table gives them. */
  datatype Verb =
    | ForGet | ForSet | ForIncr | ForIncrBy | ForDecr | ForDecrBy | ForDel | ForExists | ForMget | ForMset
    | ForExpire | ForPexpire | ForTtl | ForPttl | ForPersist
  {
    function Name(): (name: string)
      ensures name != [] && forall i :: 0 <= i < |name| ==> 'a' <= name[i] <= 'z'
    {
      match this
      case ForGet => "get"
      case ForSet => "set"
      case ForIncr => "incr"
      case ForIncrBy => "incrby"
      case ForDecr => "decr"
      case ForDecrBy => "decrby"
      case ForDel => "del"
      case ForExists => "exists"
      case ForMget => "mget"
      case ForMset => "mset"
      case ForExpire => "expire"
      case ForPexpire => "pexpire"
      case ForTtl => "ttl"
      case ForPttl => "pttl"
      case ForPersist => "persist"
    }

    /** How many words the command has, its name included; a negative number is a minimum. */
    function Arity(): int {
      match this
      case ForSet => -3
      case ForIncrBy => 3
      case ForDecrBy => 3
      case ForDel => -2
      case ForExists => -2
      case ForMget => -2
      case ForMset => -3
      case ForExpire => 3
      case ForPexpire => 3
      case _ => 2
    }

    predicate Takes(count: nat) {
      if Arity() > 0 then count == Arity() else count >= -Arity()
    }
  }

  function Verbs(): seq<Verb> {
    [ForGet, ForSet, ForIncr, ForIncrBy, ForDecr, ForDecrBy, ForDel, ForExists, ForMget, ForMset,
     ForExpire, ForPexpire, ForTtl, ForPttl, ForPersist]
  }

  /** The first entry of the table that the word spells. */
  function Find(word: Bytes, verbs: seq<Verb>): (v: Option<Verb>)
    ensures v.Some? ==> v.value in verbs && Spells(word, v.value.Name())
    ensures v == None ==> forall u :: u in verbs ==> !Spells(word, u.Name())
  {
    if verbs == [] then None
    else if Spells(word, verbs[0].Name()) then Some(verbs[0])
    else Find(word, verbs[1..])
  }

  datatype ParseLimits = ParseLimits(maxKey: nat, maxValue: nat)

  function Pairs(words: seq<Bytes>): (pairs: seq<(Bytes, Bytes)>) {
    seq(|words| / 2, i requires 0 <= i < |words| / 2 => (words[2 * i], words[2 * i + 1]))
  }

  function Build(verb: Verb, a: seq<Bytes>): Result<Operation, CommandError>
    requires verb.Takes(|a|)
  {
    match verb
    case ForGet => Ok(Get(a[1]))
    case ForSet => SetOf(a)
    case ForIncr => Ok(Increment(a[1], 1, false))
    case ForDecr => Ok(Increment(a[1], 1, true))
    case ForIncrBy => BuildIncrement(a, false)
    case ForDecrBy => BuildIncrement(a, true)
    case ForDel => Ok(Delete(a[1..]))
    case ForExists => Ok(Exists(a[1..]))
    case ForMget => Ok(MultiGet(a[1..]))
    case ForMset => if |a| % 2 == 1 then Ok(MultiSet(Pairs(a[1..]))) else Err(SyntaxError)
    case ForExpire => BuildExpire(a, true)
    case ForPexpire => BuildExpire(a, false)
    case ForTtl => Ok(Ttl(a[1], false))
    case ForPttl => Ok(Ttl(a[1], true))
    case ForPersist => Ok(Persist(a[1]))
  }

  function BuildIncrement(a: seq<Bytes>, subtract: bool): Result<Operation, CommandError>
    requires |a| == 3
  {
    match Integer(a[2])
    case None => Err(InvalidInteger)
    case Some(amount) => Ok(Increment(a[1], amount, subtract))
  }

  function BuildExpire(a: seq<Bytes>, seconds: bool): Result<Operation, CommandError>
    requires |a| == 3
  {
    match Integer(a[2])
    case None => Err(InvalidInteger)
    case Some(n) =>
      var milliseconds := if seconds then n * 1000 else n;
      if FitsI64(milliseconds) then Ok(Expire(a[1], milliseconds)) else Err(InvalidExpireTime)
  }

  predicate KeysFit(op: Operation, limits: ParseLimits) {
    forall k :: k in op.Keys() ==> |k| <= limits.maxKey
  }

  predicate ValuesFit(op: Operation, limits: ParseLimits) {
    match op
    case Set(_, value, _, _) => |value| <= limits.maxValue
    case MultiSet(pairs) => forall i :: 0 <= i < |pairs| ==> |pairs[i].1| <= limits.maxValue
    case _ => true
  }

  /** Reads a data command; any other name is `NotData`. */
  function Parse(a: seq<Bytes>, limits: ParseLimits): Result<Operation, CommandError> {
    if a == [] then Err(EmptyCommand)
    else
      match Find(a[0], Verbs())
      case None => Err(NotData)
      case Some(verb) =>
        if !verb.Takes(|a|) then Err(WrongArity)
        else
          match Build(verb, a)
          case Err(error) => Err(error)
          case Ok(op) =>
            if !KeysFit(op, limits) then Err(KeyTooLong)
            else if !ValuesFit(op, limits) then Err(ValueTooLong)
            else Ok(op)
  }

  // ---------- the grammar ----------

  function Flat(pairs: seq<(Bytes, Bytes)>): seq<Bytes> {
    seq(2 * |pairs|, i requires 0 <= i < 2 * |pairs| => if i % 2 == 0 then pairs[i / 2].0 else pairs[i / 2].1)
  }

  /** The words write down the command. */
  ghost predicate Renders(op: Operation, a: seq<Bytes>) {
    && a != []
    && match op
       case Get(key) => Spells(a[0], "get") && a[1..] == [key]
       case Set(key, value, condition, expiry) =>
         && Spells(a[0], "set") && |a| >= 3 && a[1] == key && a[2] == value
         && exists clauses ::
              && Writes(clauses, a[3..]) && Legal(clauses)
              && condition == ConditionOf(clauses) && expiry == ExpiryOf(clauses)
       case Increment(key, amount, subtract) =>
         || (Spells(a[0], if subtract then "decr" else "incr") && a[1..] == [key] && amount == 1)
         || (Spells(a[0], if subtract then "decrby" else "incrby") && a[1..] == [key, Print(amount)])
       case Delete(keys) => Spells(a[0], "del") && a[1..] == keys != []
       case Exists(keys) => Spells(a[0], "exists") && a[1..] == keys != []
       case MultiGet(keys) => Spells(a[0], "mget") && a[1..] == keys != []
       case MultiSet(pairs) => Spells(a[0], "mset") && a[1..] == Flat(pairs) && pairs != []
       case Expire(key, milliseconds) =>
         || (Spells(a[0], "pexpire") && a[1..] == [key, Print(milliseconds)])
         || (Spells(a[0], "expire") && milliseconds % 1000 == 0 && a[1..] == [key, Print(milliseconds / 1000)])
       case Ttl(key, inMilliseconds) => Spells(a[0], if inMilliseconds then "pttl" else "ttl") && a[1..] == [key]
       case Persist(key) => Spells(a[0], "persist") && a[1..] == [key]
  }

  lemma OneSpelling(word: Bytes, name: string, other: string)
    requires Spells(word, name) && Spells(word, other)
    requires forall i :: 0 <= i < |name| ==> 'a' <= name[i] <= 'z'
    requires forall i :: 0 <= i < |other| ==> 'a' <= other[i] <= 'z'
    ensures name == other
  {
    forall i | 0 <= i < |name|
      ensures name[i] == other[i]
    {
      assert Lower(Ascii(name)[i]) == name[i] as int as byte && Lower(Ascii(other)[i]) == other[i] as int as byte;
    }
  }

  lemma NamesDiffer(u: Verb, v: Verb)
    requires u.Name() == v.Name()
    ensures u == v
  {
  }

  lemma FindSpelled(word: Bytes, verb: Verb)
    requires Spells(word, verb.Name())
    ensures Find(word, Verbs()) == Some(verb)
  {
    assert verb in Verbs();
    var found := Find(word, Verbs());
    OneSpelling(word, found.value.Name(), verb.Name());
    NamesDiffer(found.value, verb);
  }

  lemma PairsOfFlat(pairs: seq<(Bytes, Bytes)>)
    ensures |Flat(pairs)| == 2 * |pairs| && Pairs(Flat(pairs)) == pairs
  {
    var words := Flat(pairs);
    forall i | 0 <= i < |pairs|
      ensures Pairs(words)[i] == pairs[i]
    {
      assert words[2 * i] == pairs[i].0 && words[2 * i + 1] == pairs[i].1;
    }
  }

  lemma FlatOfPairs(words: seq<Bytes>)
    requires |words| % 2 == 0
    ensures Flat(Pairs(words)) == words
  {
    var pairs := Pairs(words);
    forall i | 0 <= i < |words|
      ensures Flat(pairs)[i] == words[i]
    {
      assert pairs[i / 2] == (words[2 * (i / 2)], words[2 * (i / 2) + 1]);
    }
  }

  lemma IncrementRenders(a: seq<Bytes>, subtract: bool, op: Operation)
    requires |a| == 3 && Spells(a[0], if subtract then "decrby" else "incrby") && BuildIncrement(a, subtract) == Ok(op)
    ensures Renders(op, a)
  {
    IntegerIsCanonical(a[2], op.amount);
    hide Spells;
    hide Print;
    hide Integer;
  }

  lemma ExpireRenders(a: seq<Bytes>, seconds: bool, op: Operation)
    requires |a| == 3 && Spells(a[0], if seconds then "expire" else "pexpire") && BuildExpire(a, seconds) == Ok(op)
    ensures Renders(op, a)
  {
    var n := Integer(a[2]).value;
    IntegerIsCanonical(a[2], n);
    assert op == Expire(a[1], if seconds then n * 1000 else n) && a[2] == Print(n);
    hide BuildExpire;
    hide Spells;
    hide Print;
    hide Integer;
    hide Writes;
    hide Legal;
    hide Flat;
    assert a[1..] == [a[1], a[2]];
  }

  /** What is built from a request is what the request says. */
  lemma BuildRenders(verb: Verb, a: seq<Bytes>, op: Operation)
    requires a != [] && Spells(a[0], verb.Name()) && verb.Takes(|a|) && Build(verb, a) == Ok(op)
    ensures Renders(op, a)
  {
    assert |Pairs(a[1..])| == (|a| - 1) / 2;
    hide Spells;
    hide Print;
    hide SetOf;
    hide BuildIncrement;
    hide BuildExpire;
    hide Flat;
    hide Pairs;
    match verb
    case ForSet =>
      SetAccepted(a, op);
      var clauses :|
        && Writes(clauses, a[3..]) && Legal(clauses)
        && op == Set(a[1], a[2], ConditionOf(clauses), ExpiryOf(clauses));
    case ForIncrBy => IncrementRenders(a, false, op);
    case ForDecrBy => IncrementRenders(a, true, op);
    case ForExpire => ExpireRenders(a, true, op);
    case ForPexpire => ExpireRenders(a, false, op);
    case ForMset => FlatOfPairs(a[1..]);
    case _ =>
  }

  function VerbFor(op: Operation, a: seq<Bytes>): Verb {
    match op
    case Get(_) => ForGet
    case Set(_, _, _, _) => ForSet
    case Increment(_, _, subtract) =>
      if |a| == 2 then (if subtract then ForDecr else ForIncr) else (if subtract then ForDecrBy else ForIncrBy)
    case Delete(_) => ForDel
    case Exists(_) => ForExists
    case MultiGet(_) => ForMget
    case MultiSet(_) => ForMset
    case Expire(_, _) => if a != [] && Spells(a[0], "pexpire") then ForPexpire else ForExpire
    case Ttl(_, inMilliseconds) => if inMilliseconds then ForPttl else ForTtl
    case Persist(_) => ForPersist
  }

  lemma IncrementBuilds(op: Operation, a: seq<Bytes>)
    requires op.Increment? && Renders(op, a)
    ensures var verb := VerbFor(op, a); Spells(a[0], verb.Name()) && verb.Takes(|a|) && Build(verb, a) == Ok(op)
  {
    IntegerIsCanonical(Print(op.amount), op.amount);
    hide Spells;
    hide Print;
    hide Integer;
    assert a == [a[0]] + a[1..];
  }

  lemma ExpireReads(a: seq<Bytes>, key: Bytes, n: i64, seconds: bool)
    requires a != [] && a[1..] == [key, Print(n)] && (seconds ==> FitsI64(n * 1000))
    ensures |a| == 3 && BuildExpire(a, seconds) == Ok(Expire(key, if seconds then n * 1000 else n))
  {
    IntegerIsCanonical(Print(n), n);
    assert a == [a[0]] + a[1..];
    hide Print;
    hide Integer;
  }

  lemma ExpireSays(op: Operation, a: seq<Bytes>)
    requires op.Expire? && Renders(op, a)
    ensures a != []
    ensures if Spells(a[0], "pexpire") then a[1..] == [op.key, Print(op.milliseconds)]
            else
              && Spells(a[0], "expire") && op.milliseconds % 1000 == 0
              && a[1..] == [op.key, Print(op.milliseconds / 1000)]
  {
    assert Spells(a[0], "pexpire") ==> !Spells(a[0], "expire");
    hide Spells;
    hide Print;
  }

  lemma ExpireBuilds(op: Operation, a: seq<Bytes>)
    requires op.Expire? && Renders(op, a)
    ensures var verb := VerbFor(op, a); Spells(a[0], verb.Name()) && verb.Takes(|a|) && Build(verb, a) == Ok(op)
  {
    ExpireSays(op, a);
    hide Renders;
    hide Spells;
    hide Print;
    hide SetOf;
    hide BuildIncrement;
    hide BuildExpire;
    hide Pairs;
    if Spells(a[0], "pexpire") {
      ExpireReads(a, op.key, op.milliseconds, false);
    } else {
      ExpireReads(a, op.key, op.milliseconds / 1000, true);
    }
  }

  /** A request that says a command builds it. */
  lemma RendersBuild(op: Operation, a: seq<Bytes>)
    requires Renders(op, a)
    ensures var verb := VerbFor(op, a); Spells(a[0], verb.Name()) && verb.Takes(|a|) && Build(verb, a) == Ok(op)
  {
    hide Spells;
    hide Print;
    hide SetOf;
    hide BuildIncrement;
    hide BuildExpire;
    hide Flat;
    hide Pairs;
    match op
    case Set(_, _, _, _) => SetAccepted(a, op);
    case Increment(_, _, _) => IncrementBuilds(op, a);
    case Expire(_, _) => ExpireBuilds(op, a);
    case MultiSet(pairs) =>
      PairsOfFlat(pairs);
      assert |a| == 1 + |a[1..]|;
    case _ =>
      assert a == [a[0]] + a[1..];
  }

  /**
   * A request is read as a command exactly when its words write that command down, in any case and
   * any accepted form, and its keys and values are within their limits.
   */
  lemma ParseIsGrammar(a: seq<Bytes>, limits: ParseLimits, op: Operation)
    ensures Parse(a, limits) == Ok(op) <==> Renders(op, a) && KeysFit(op, limits) && ValuesFit(op, limits)
  {
    hide Spells;
    hide Build;
    hide KeysFit;
    hide ValuesFit;
    if Parse(a, limits) == Ok(op) {
      BuildRenders(Find(a[0], Verbs()).value, a, op);
    }
    if Renders(op, a) {
      RendersBuild(op, a);
      FindSpelled(a[0], VerbFor(op, a));
    }
    hide Renders;
  }
}
