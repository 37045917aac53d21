/** Splitting a multi-key command over owners, joining the answers, and why neither changes its meaning. */
module Sharding {
  import opened Bytes
  import opened Commands
  import opened Decimal
  import opened Tables
  import R = Replies

  /** Which owner a key belongs to: any fixed function of the key. */
  type Route = Bytes -> nat

  /** One owner's part of the whole table. */
  function Part(t: Table, route: Route, owner: nat): Table {
    map k | k in t && route(k) == owner :: t[k]
  }

  /** One owner's share of a command, with the argument positions it answers for. */
  datatype Share = Share(owner: nat, operation: Operation, positions: seq<nat>)

  function KeysAt(keys: seq<Bytes>, route: Route, owner: nat): seq<Bytes> {
    if keys == [] then []
    else
      var before := KeysAt(keys[..|keys| - 1], route, owner);
      if route(keys[|keys| - 1]) == owner then before + [keys[|keys| - 1]] else before
  }

  function PositionsAt(keys: seq<Bytes>, route: Route, owner: nat): seq<nat> {
    if keys == [] then []
    else
      var before := PositionsAt(keys[..|keys| - 1], route, owner);
      if route(keys[|keys| - 1]) == owner then before + [|keys| - 1] else before
  }

  function PairsAt(pairs: seq<(Bytes, Bytes)>, route: Route, owner: nat): seq<(Bytes, Bytes)> {
    if pairs == [] then []
    else
      var before := PairsAt(pairs[..|pairs| - 1], route, owner);
      if route(pairs[|pairs| - 1].0) == owner then before + [pairs[|pairs| - 1]] else before
  }

  function ShareOf(op: Operation, route: Route, owner: nat): (share: Share)
    requires op.Divisible()
    ensures share.operation.Divisible() && share.owner == owner
  {
    match op
    case MultiSet(pairs) => Share(owner, MultiSet(PairsAt(pairs, route, owner)), [])
    case Delete(keys) => Share(owner, Delete(KeysAt(keys, route, owner)), PositionsAt(keys, route, owner))
    case Exists(keys) => Share(owner, Exists(KeysAt(keys, route, owner)), PositionsAt(keys, route, owner))
    case MultiGet(keys) => Share(owner, MultiGet(KeysAt(keys, route, owner)), PositionsAt(keys, route, owner))
  }

  predicate Participates(op: Operation, route: Route, owner: nat) {
    exists k :: k in op.Keys() && route(k) == owner
  }

  /** The shares of the participating owners below `bound`, in ascending owner order. */
  function Shares(op: Operation, route: Route, bound: nat): (shares: seq<Share>)
    requires op.Divisible()
    ensures forall i :: 0 <= i < |shares| ==> shares[i].operation.Divisible() && shares[i].owner < bound
  {
    if bound == 0 then []
    else if Participates(op, route, bound - 1) then Shares(op, route, bound - 1) + [ShareOf(op, route, bound - 1)]
    else Shares(op, route, bound - 1)
  }

  lemma SharesStep(op: Operation, route: Route, bound: nat)
    requires op.Divisible()
    ensures Shares(op, route, bound + 1) ==
            if Participates(op, route, bound) then Shares(op, route, bound) + [ShareOf(op, route, bound)]
            else Shares(op, route, bound)
  {
  }

  /** Exactly the participating owners, each with its own share, in ascending order. */
  predicate Covers(shares: seq<Share>, op: Operation, route: Route, bound: nat)
    requires op.Divisible()
  {
    && (forall i :: 0 <= i < |shares| ==>
          && shares[i] == ShareOf(op, route, shares[i].owner)
          && shares[i].owner < bound && Participates(op, route, shares[i].owner))
    && (forall i, j :: 0 <= i < j < |shares| ==> shares[i].owner < shares[j].owner)
    && (forall o :: 0 <= o < bound && Participates(op, route, o) ==> Covered(shares, o))
  }

  predicate Covered(shares: seq<Share>, owner: nat) {
    exists i :: 0 <= i < |shares| && shares[i].owner == owner
  }

  lemma {:induction false} SharesCover(op: Operation, route: Route, bound: nat)
    requires op.Divisible()
    ensures Covers(Shares(op, route, bound), op, route, bound)
  {
    hide Covers;
    hide Shares;
    hide ShareOf;
    hide Participates;
    if bound == 0 {
      NoSharesCover(op, route);
    } else {
      SharesCover(op, route, bound - 1);
      SharesStep(op, route, bound - 1);
      CoversMore(Shares(op, route, bound - 1), op, route, bound - 1);
    }
  }

  lemma NoSharesCover(op: Operation, route: Route)
    requires op.Divisible()
    ensures Covers(Shares(op, route, 0), op, route, 0)
  {
  }

  lemma CoversMore(before: seq<Share>, op: Operation, route: Route, owner: nat)
    requires op.Divisible() && Covers(before, op, route, owner)
    ensures !Participates(op, route, owner) ==> Covers(before, op, route, owner + 1)
    ensures Participates(op, route, owner) ==> Covers(before + [ShareOf(op, route, owner)], op, route, owner + 1)
  {
    hide Participates;
    hide ShareOf;
    if Participates(op, route, owner) {
      var share := ShareOf(op, route, owner);
      var shares := before + [share];
      forall i | 0 <= i < |shares|
        ensures shares[i] == ShareOf(op, route, shares[i].owner)
        ensures shares[i].owner < owner + 1 && Participates(op, route, shares[i].owner)
      {
        if i < |before| {
          assert shares[i] == before[i];
        }
      }
      forall o | 0 <= o < owner + 1 && Participates(op, route, o)
        ensures Covered(shares, o)
      {
        CoveredMore(before, share, o);
      }
    }
  }

  lemma CoveredMore(before: seq<Share>, share: Share, o: nat)
    requires Covered(before, o) || share.owner == o
    ensures Covered(before + [share], o)
  {
    var shares := before + [share];
    if share.owner == o {
      assert shares[|before|].owner == o;
    } else {
      var i :| 0 <= i < |before| && before[i].owner == o;
      assert shares[i].owner == o;
    }
  }

  // ---------- splitting, as the coordinator does it ----------

  datatype Group = Group(keys: seq<Bytes>, positions: seq<nat>)

  /** Groups keys by owner in one pass over the arguments. */
  method GroupKeys(keys: seq<Bytes>, route: Route) returns (groups: map<nat, Group>)
    ensures forall o :: o in groups <==> exists k :: k in keys && route(k) == o
    ensures forall o :: o in groups ==> groups[o] == Group(KeysAt(keys, route, o), PositionsAt(keys, route, o))
  {
    groups := map[];
    for i := 0 to |keys|
      invariant forall o :: o in groups <==> exists k :: k in keys[..i] && route(k) == o
      invariant forall o :: o in groups ==>
                  groups[o] == Group(KeysAt(keys[..i], route, o), PositionsAt(keys[..i], route, o))
    {
      var owner := route(keys[i]);
      var group := if owner in groups then groups[owner] else Group([], []);
      if owner !in groups {
        NoKeysAt(keys[..i], route, owner);
      }
      assert keys[..i + 1][..i] == keys[..i];
      assert forall k :: k in keys[..i + 1] <==> k in keys[..i] || k == keys[i];
      groups := groups[owner := Group(group.keys + [keys[i]], group.positions + [i])];
    }
    assert keys[..|keys|] == keys;
  }

  method GroupPairs(pairs: seq<(Bytes, Bytes)>, route: Route) returns (groups: map<nat, seq<(Bytes, Bytes)>>)
    ensures forall o :: o in groups <==> exists k :: k in PairKeys(pairs) && route(k) == o
    ensures forall o :: o in groups ==> groups[o] == PairsAt(pairs, route, o)
  {
    groups := map[];
    for i := 0 to |pairs|
      invariant forall o :: o in groups <==> exists k :: k in PairKeys(pairs[..i]) && route(k) == o
      invariant forall o :: o in groups ==> groups[o] == PairsAt(pairs[..i], route, o)
    {
      var owner := route(pairs[i].0);
      var group := if owner in groups then groups[owner] else [];
      if owner !in groups {
        NoPairsAt(pairs[..i], route, owner);
      }
      PairsNext(pairs, i);
      ghost var front, key := pairs[..i], pairs[i].0;
      assert pairs[..i + 1][..i] == front;
      assert forall o :: PairsAt(pairs[..i + 1], route, o) ==
                         if route(key) == o then PairsAt(front, route, o) + [pairs[i]] else PairsAt(front, route, o);
      hide PairsAt;
      hide PairKeys;
      groups := groups[owner := group + [pairs[i]]];
    }
    assert pairs[..|pairs|] == pairs;
  }

  lemma PairsNext(pairs: seq<(Bytes, Bytes)>, i: nat)
    requires i < |pairs|
    ensures forall k :: k in PairKeys(pairs[..i + 1]) <==> k in PairKeys(pairs[..i]) || k == pairs[i].0
  {
    assert PairKeys(pairs[..i + 1]) == PairKeys(pairs[..i]) + [pairs[i].0];
  }

  /** Splits a command into the participating owners' shares, in ascending owner order. */
  method Split(op: Operation, route: Route, owners: nat) returns (shares: seq<Share>)
    requires op.Divisible()
    ensures shares == Shares(op, route, owners)
  {
    if op.MultiSet? {
      shares := SplitPairs(op, route, owners);
    } else {
      shares := SplitKeys(op, route, owners);
    }
  }

  method SplitPairs(op: Operation, route: Route, owners: nat) returns (shares: seq<Share>)
    requires op.MultiSet?
    ensures shares == Shares(op, route, owners)
  {
    var groups := GroupPairs(op.pairs, route);
    shares := [];
    hide PairsAt;
    for o := 0 to owners
      invariant shares == Shares(op, route, o)
    {
      SharesStep(op, route, o);
      hide Shares;
      assert o in groups <==> Participates(op, route, o);
      if o in groups {
        shares := shares + [Share(o, MultiSet(groups[o]), [])];
      }
    }
  }

  method SplitKeys(op: Operation, route: Route, owners: nat) returns (shares: seq<Share>)
    requires op.Delete? || op.Exists? || op.MultiGet?
    ensures shares == Shares(op, route, owners)
  {
    var groups := GroupKeys(op.keys, route);
    shares := [];
    hide KeysAt;
    hide PositionsAt;
    for o := 0 to owners
      invariant shares == Shares(op, route, o)
    {
      SharesStep(op, route, o);
      hide Shares;
      assert o in groups <==> Participates(op, route, o);
      if o in groups {
        var keys := groups[o].keys;
        var part := if op.Delete? then Delete(keys) else if op.Exists? then Exists(keys) else MultiGet(keys);
        shares := shares + [Share(o, part, groups[o].positions)];
      }
    }
  }

  lemma {:induction false} NoKeysAt(keys: seq<Bytes>, route: Route, owner: nat)
    requires forall k :: k in keys ==> route(k) != owner
    ensures KeysAt(keys, route, owner) == [] && PositionsAt(keys, route, owner) == []
  {
    if keys != [] {
      assert keys[|keys| - 1] in keys;
      NoKeysAt(keys[..|keys| - 1], route, owner);
    }
  }

  lemma {:induction false} NoPairsAt(pairs: seq<(Bytes, Bytes)>, route: Route, owner: nat)
    requires forall k :: k in PairKeys(pairs) ==> route(k) != owner
    ensures PairsAt(pairs, route, owner) == []
  {
    if pairs != [] {
      var front := pairs[..|pairs| - 1];
      assert PairKeys(pairs)[|pairs| - 1] == pairs[|pairs| - 1].0;
      assert PairKeys(pairs) == PairKeys(front) + [pairs[|pairs| - 1].0];
      NoPairsAt(front, route, owner);
    }
  }

  // ---------- joining ----------

  /** Writes the first `m` values at their positions. */
  function Fill(response: seq<R.Reply>, positions: seq<nat>, values: seq<R.Reply>, m: nat): (r: seq<R.Reply>)
    requires m <= |positions| == |values| && forall p :: p in positions ==> p < |response|
    ensures |r| == |response|
  {
    if m == 0 then response
    else
      assert positions[m - 1] in positions;
      Fill(response, positions, values, m - 1)[positions[m - 1] := values[m - 1]]
  }

  /** Every result is an array with one value per position of its share. */
  predicate Fits(shares: seq<Share>, results: seq<R.Reply>, size: nat) {
    && |shares| == |results|
    && forall i :: 0 <= i < |shares| ==>
         && results[i].Array? && |results[i].values| == |shares[i].positions|
         && forall p :: p in shares[i].positions ==> p < size
  }

  function FillAll(size: nat, shares: seq<Share>, results: seq<R.Reply>, m: nat): (r: seq<R.Reply>)
    requires Fits(shares, results, size) && m <= |shares|
    ensures |r| == size
  {
    if m == 0 then seq(size, i => R.Bulk(None))
    else
      var before := FillAll(size, shares, results, m - 1);
      Fill(before, shares[m - 1].positions, results[m - 1].values, |shares[m - 1].positions|)
  }

  predicate AllIntegers(results: seq<R.Reply>) {
    forall i :: 0 <= i < |results| ==> results[i].Integer?
  }

  function Total(results: seq<R.Reply>): int
    requires AllIntegers(results)
  {
    if results == [] then 0 else Total(results[..|results| - 1]) + results[|results| - 1].value
  }

  /** Whether the participants' results have the form the coordinator relies on. */
  predicate Combinable(op: Operation, shares: seq<Share>, results: seq<R.Reply>) {
    match op
    case MultiSet(_) => true
    case MultiGet(keys) => Fits(shares, results, |keys|)
    case Delete(_) => AllIntegers(results)
    case Exists(_) => AllIntegers(results)
    case _ => false
  }

  function Combined(op: Operation, shares: seq<Share>, results: seq<R.Reply>): R.Reply
    requires Combinable(op, shares, results)
  {
    match op
    case MultiSet(_) => R.OK
    case MultiGet(keys) => R.Array(FillAll(|keys|, shares, results, |shares|))
    case Delete(_) => R.Integer(Total(results))
    case Exists(_) => R.Integer(Total(results))
  }

  /** Joins the participants' results, writing each value at its argument's position. */
  method Combine(op: Operation, shares: seq<Share>, results: seq<R.Reply>) returns (reply: R.Reply)
    requires Combinable(op, shares, results)
    ensures reply == Combined(op, shares, results)
  {
    if op.MultiSet? {
      return R.OK;
    }
    if op.MultiGet? {
      var response := seq(|op.keys|, i => R.Bulk(None));
      for i := 0 to |shares|
        invariant response == FillAll(|op.keys|, shares, results, i)
      {
        var positions, values := shares[i].positions, results[i].values;
        ghost var before := response;
        for j := 0 to |positions|
          invariant response == Fill(before, positions, values, j)
        {
          assert positions[j] in positions;
          response := response[positions[j] := values[j]];
        }
      }
      return R.Array(response);
    }
    var sum := 0;
    for i := 0 to |results|
      invariant sum == Total(results[..i])
    {
      assert results[..i + 1][..i] == results[..i];
      sum := sum + results[i].value;
    }
    assert results[..|results|] == results;
    return R.Integer(sum);
  }

  // ---------- effects split exactly ----------

  function EffectsAt(effects: Effects, route: Route, owner: nat): Effects {
    map k | k in effects && route(k) == owner :: effects[k]
  }

  lemma PartOfApplied(t: Table, effects: Effects, route: Route, owner: nat)
    ensures Part(Applied(t, effects), route, owner) == Applied(Part(t, route, owner), EffectsAt(effects, route, owner))
  {
  }

  lemma {:induction false} KeysAtSet(keys: seq<Bytes>, route: Route, owner: nat)
    ensures ToSet(KeysAt(keys, route, owner)) == set k | k in keys && route(k) == owner
  {
    if keys != [] {
      var front, last := keys[..|keys| - 1], keys[|keys| - 1];
      KeysAtSet(front, route, owner);
      assert forall k :: k in keys <==> k in front || k == last;
      assert ToSet(KeysAt(keys, route, owner)) ==
             ToSet(KeysAt(front, route, owner)) + (if route(last) == owner then {last} else {});
    }
  }

  lemma {:induction false} LastWinsAt(pairs: seq<(Bytes, Bytes)>, route: Route, owner: nat)
    ensures LastWins(PairsAt(pairs, route, owner)) == EffectsAt(LastWins(pairs), route, owner)
  {
    if pairs != [] {
      var front, last := pairs[..|pairs| - 1], pairs[|pairs| - 1];
      LastWinsAt(front, route, owner);
      if route(last.0) == owner {
        var longer := PairsAt(front, route, owner) + [last];
        assert longer[..|longer| - 1] == PairsAt(front, route, owner);
      }
    }
  }

  lemma LapsedAt(t: Table, keys: seq<Bytes>, route: Route, owner: nat, now: i64)
    ensures Lapsed(Part(t, route, owner), ToSet(KeysAt(keys, route, owner)), now) ==
            EffectsAt(Lapsed(t, ToSet(keys), now), route, owner)
  {
    KeysAtSet(keys, route, owner);
  }

  lemma DeletedAt(keys: seq<Bytes>, route: Route, owner: nat)
    ensures var all: Effects := map k | k in keys :: None;
            var here: Effects := map k | k in KeysAt(keys, route, owner) :: None;
            here == EffectsAt(all, route, owner)
  {
    KeysAtSet(keys, route, owner);
    assert forall k :: k in KeysAt(keys, route, owner) <==> k in ToSet(KeysAt(keys, route, owner));
  }

  /** Every owner's share of a command has exactly the whole command's effects on that owner's keys. */
  lemma EffectsSplit(t: Table, op: Operation, route: Route, owner: nat, now: i64)
    requires op.Divisible()
    ensures DecideDivisible(Part(t, route, owner), ShareOf(op, route, owner).operation, now).effects ==
            EffectsAt(DecideDivisible(t, op, now).effects, route, owner)
  {
    hide Part;
    hide EffectsAt;
    hide Lapsed;
    hide LastWins;
    hide KeysAt;
    hide PairsAt;
    match op
    case MultiSet(pairs) => LastWinsAt(pairs, route, owner);
    case Delete(keys) => DeletedAt(keys, route, owner);
    case Exists(keys) => LapsedAt(t, keys, route, owner, now);
    case MultiGet(keys) => LapsedAt(t, keys, route, owner, now);
  }

  // ---------- answers join exactly ----------

  ghost function SumTo(n: nat, f: nat -> nat): nat {
    if n == 0 then 0 else SumTo(n - 1, f) + f(n - 1)
  }

  lemma {:induction false} SumToSame(n: nat, f: nat -> nat, g: nat -> nat)
    requires forall o: nat :: o < n ==> f(o) <= g(o)
    ensures SumTo(n, f) <= SumTo(n, g)
    ensures (forall o: nat :: o < n ==> f(o) == g(o)) ==> SumTo(n, f) == SumTo(n, g)
  {
    if n > 0 {
      SumToSame(n - 1, f, g);
    }
  }

  lemma {:induction false} SumToBump(n: nat, f: nat -> nat, g: nat -> nat, at: nat, extra: nat)
    requires forall o :: g(o) == f(o) + (if o == at then extra else 0)
    ensures SumTo(n, g) == SumTo(n, f) + (if at < n then extra else 0)
  {
    if n > 0 {
      SumToBump(n - 1, f, g, at, extra);
    }
  }

  lemma {:induction false} SumToZero(n: nat, f: nat -> nat)
    requires forall o :: f(o) == 0
    ensures SumTo(n, f) == 0
  {
    if n > 0 {
      SumToZero(n - 1, f);
    }
  }

  lemma LiveInPart(t: Table, route: Route, key: Bytes, now: i64)
    ensures Live(Part(t, route, route(key)), key, now) == Live(t, key, now)
  {
  }

  ghost function CountAt(t: Table, keys: seq<Bytes>, route: Route, now: i64): nat -> nat {
    o => CountLive(Part(t, route, o), KeysAt(keys, route, o), now)
  }

  /** Repeated arguments count once each, wherever they are counted. */
  lemma {:induction false} CountSplits(t: Table, keys: seq<Bytes>, route: Route, owners: nat, now: i64)
    requires forall k :: k in keys ==> route(k) < owners
    ensures SumTo(owners, CountAt(t, keys, route, now)) == CountLive(t, keys, now)
  {
    if keys == [] {
      SumToZero(owners, CountAt(t, keys, route, now));
    } else {
      var front, last := keys[..|keys| - 1], keys[|keys| - 1];
      var f, g := CountAt(t, front, route, now), CountAt(t, keys, route, now);
      assert last in keys;
      CountSplits(t, front, route, owners, now);
      var extra := if Live(t, last, now).Some? then 1 else 0;
      forall o
        ensures g(o) == f(o) + (if o == route(last) then extra else 0)
      {
        if o == route(last) {
          LiveInPart(t, route, last, now);
          CountAppend(Part(t, route, o), KeysAt(front, route, o), last, now);
        }
      }
      SumToBump(owners, f, g, route(last), extra);
    }
  }

  lemma CountAppend(t: Table, keys: seq<Bytes>, last: Bytes, now: i64)
    ensures CountLive(t, keys + [last], now) == CountLive(t, keys, now) + (if Live(t, last, now).Some? then 1 else 0)
  {
    assert (keys + [last])[..|keys|] == keys;
  }

  ghost function SizeAt(s: set<Bytes>, route: Route): nat -> nat {
    o => |set k | k in s && route(k) == o|
  }

  lemma SizeAtWithout(s: set<Bytes>, route: Route, key: Bytes, o: nat)
    requires key in s
    ensures SizeAt(s, route)(o) == SizeAt(s - {key}, route)(o) + (if o == route(key) then 1 else 0)
  {
    var there := set k | k in s - {key} && route(k) == o;
    assert (set k | k in s && route(k) == o) == there + (if o == route(key) then {key} else {});
  }

  lemma {:induction false} SetSplits(s: set<Bytes>, route: Route, owners: nat)
    requires forall k :: k in s ==> route(k) < owners
    ensures SumTo(owners, SizeAt(s, route)) == |s|
  {
    hide SizeAt;
    if s == {} {
      forall o
        ensures SizeAt(s, route)(o) == 0
      {
        SizeAtNothing(route, o);
      }
      SumToZero(owners, SizeAt(s, route));
    } else {
      var key :| key in s;
      var rest := s - {key};
      SetSplits(rest, route, owners);
      forall o
        ensures SizeAt(s, route)(o) == SizeAt(rest, route)(o) + (if o == route(key) then 1 else 0)
      {
        SizeAtWithout(s, route, key, o);
      }
      SumToBump(owners, SizeAt(rest, route), SizeAt(s, route), route(key), 1);
    }
  }

  lemma SizeAtNothing(route: Route, o: nat)
    ensures SizeAt({}, route)(o) == 0
  {
    assert (set k: Bytes | k in {} && route(k) == o) == {};
  }

  lemma LiveAmongAt(t: Table, keys: seq<Bytes>, route: Route, owner: nat, now: i64)
    ensures LiveAmong(Part(t, route, owner), KeysAt(keys, route, owner), now) ==
            set k | k in LiveAmong(t, keys, now) && route(k) == owner
  {
    KeysAtSet(keys, route, owner);
    assert forall k :: k in KeysAt(keys, route, owner) <==> k in ToSet(KeysAt(keys, route, owner));
  }

  /** The participants' responses when each decides its share on its own part. */
  function Responses(t: Table, shares: seq<Share>, route: Route, now: i64): (rs: seq<R.Reply>)
    requires forall i :: 0 <= i < |shares| ==> shares[i].operation.Divisible()
    ensures |rs| == |shares|
  {
    seq(|shares|, i requires 0 <= i < |shares| =>
      DecideDivisible(Part(t, route, shares[i].owner), shares[i].operation, now).response)
  }

  /** The integer an owner would answer, participating or not. */
  ghost function AnswerAt(t: Table, op: Operation, route: Route, now: i64): nat -> nat
    requires op.Delete? || op.Exists?
  {
    if op.Exists? then CountAt(t, op.keys, route, now) else SizeAt(LiveAmong(t, op.keys, now), route)
  }

  lemma AnswerIsResponse(t: Table, op: Operation, route: Route, owner: nat, now: i64)
    requires op.Delete? || op.Exists?
    ensures DecideDivisible(Part(t, route, owner), ShareOf(op, route, owner).operation, now).response ==
            R.Integer(AnswerAt(t, op, route, now)(owner))
    ensures !Participates(op, route, owner) ==> AnswerAt(t, op, route, now)(owner) == 0
  {
    LiveAmongAt(t, op.keys, route, owner, now);
    if !Participates(op, route, owner) {
      NoKeysAt(op.keys, route, owner);
      assert LiveAmong(Part(t, route, owner), [], now) == {};
    }
  }

  lemma ResponsesAppend(t: Table, before: seq<Share>, share: Share, route: Route, now: i64)
    requires share.operation.Divisible()
    requires forall i :: 0 <= i < |before| ==> before[i].operation.Divisible()
    ensures Responses(t, before + [share], route, now) ==
            Responses(t, before, route, now) +
            [DecideDivisible(Part(t, route, share.owner), share.operation, now).response]
  {
    hide Decide;
    hide DecideDivisible;
    hide Part;
    var longer := before + [share];
    var left := Responses(t, longer, route, now);
    var right := Responses(t, before, route, now) +
                 [DecideDivisible(Part(t, route, share.owner), share.operation, now).response];
    assert forall i :: 0 <= i < |before| ==> longer[i] == before[i];
    assert forall i :: 0 <= i < |left| ==> left[i] == right[i];
  }

  lemma TotalAppend(results: seq<R.Reply>, n: int)
    requires AllIntegers(results)
    ensures AllIntegers(results + [R.Integer(n)]) && Total(results + [R.Integer(n)]) == Total(results) + n
  {
    assert (results + [R.Integer(n)])[..|results|] == results;
  }

  lemma {:induction false} TotalsAdd(t: Table, op: Operation, route: Route, bound: nat, now: i64)
    requires op.Delete? || op.Exists?
    ensures var results := Responses(t, Shares(op, route, bound), route, now);
            AllIntegers(results) && Total(results) == SumTo(bound, AnswerAt(t, op, route, now))
  {
    if bound > 0 {
      var owner := bound - 1;
      TotalsAdd(t, op, route, owner, now);
      AnswerIsResponse(t, op, route, owner, now);
      SharesStep(op, route, owner);
      hide AnswerAt;
      hide Decide;
      hide DecideDivisible;
      hide Shares;
      hide Participates;
      hide Responses;
      if Participates(op, route, owner) {
        var before := Shares(op, route, owner);
        ResponsesAppend(t, before, ShareOf(op, route, owner), route, now);
        TotalAppend(Responses(t, before, route, now), AnswerAt(t, op, route, now)(owner));
      }
    }
  }

  lemma IntegerAnswersJoin(t: Table, op: Operation, route: Route, owners: nat, now: i64)
    requires op.Delete? || op.Exists?
    requires forall k :: k in op.keys ==> route(k) < owners
    ensures var results := Responses(t, Shares(op, route, owners), route, now);
            AllIntegers(results) && R.Integer(Total(results)) == DecideDivisible(t, op, now).response
  {
    TotalsAdd(t, op, route, owners, now);
    if op.Exists? {
      CountSplits(t, op.keys, route, owners, now);
    } else {
      SetSplits(LiveAmong(t, op.keys, now), route, owners);
    }
  }

  // ---------- values join in argument order ----------

  lemma {:induction false} PositionsPointBack(keys: seq<Bytes>, route: Route, owner: nat)
    ensures |PositionsAt(keys, route, owner)| == |KeysAt(keys, route, owner)|
    ensures forall j :: 0 <= j < |PositionsAt(keys, route, owner)| ==>
              var p := PositionsAt(keys, route, owner)[j];
              p < |keys| && keys[p] == KeysAt(keys, route, owner)[j] && route(keys[p]) == owner
    ensures forall p :: 0 <= p < |keys| && route(keys[p]) == owner ==> p in PositionsAt(keys, route, owner)
  {
    if keys != [] {
      var front, n := keys[..|keys| - 1], |keys| - 1;
      PositionsPointBack(front, route, owner);
      var positions := PositionsAt(keys, route, owner);
      assert positions == PositionsAt(front, route, owner) + (if route(keys[n]) == owner then [n] else []);
      assert KeysAt(keys, route, owner) ==
             KeysAt(front, route, owner) + (if route(keys[n]) == owner then [keys[n]] else []);
      forall p | 0 <= p < |keys| && route(keys[p]) == owner
        ensures p in positions
      {
        if p < n {
          assert keys[p] == front[p];
        } else {
          assert positions[|positions| - 1] == n;
        }
      }
    }
  }

  lemma {:induction false} FillPlaces(
    response: seq<R.Reply>, positions: seq<nat>, values: seq<R.Reply>, m: nat, want: seq<R.Reply>)
    requires m <= |positions| == |values| && |want| == |response|
    requires forall p :: p in positions ==> p < |response|
    requires forall j :: 0 <= j < |positions| ==> positions[j] in positions && values[j] == want[positions[j]]
    ensures forall p :: 0 <= p < |response| ==>
              Fill(response, positions, values, m)[p] == if p in positions[..m] then want[p] else response[p]
  {
    if m > 0 {
      FillPlaces(response, positions, values, m - 1, want);
      assert positions[..m] == positions[..m - 1] + [positions[m - 1]];
    }
  }

  lemma {:induction false} ValuesJoin(t: Table, keys: seq<Bytes>, route: Route, bound: nat, now: i64)
    ensures var shares := Shares(MultiGet(keys), route, bound);
            var results := Responses(t, shares, route, now);
            && Fits(shares, results, |keys|)
            && forall p :: 0 <= p < |keys| ==>
                 FillAll(|keys|, shares, results, |shares|)[p] ==
                 if route(keys[p]) < bound then ValueReply(Live(t, keys[p], now)) else R.Bulk(None)
  {
    var op := MultiGet(keys);
    if bound > 0 {
      var owner := bound - 1;
      ValuesJoin(t, keys, route, owner, now);
      SharesStep(op, route, owner);
      assert !Participates(op, route, owner) ==>
               forall p :: 0 <= p < |keys| ==> keys[p] in op.Keys() && route(keys[p]) != owner;
      hide Decide;
      hide DecideDivisible;
      hide Shares;
      hide Responses;
      hide FillAll;
      hide Live;
      if Participates(op, route, owner) {
        ShareJoins(t, keys, route, Shares(op, route, owner), owner, now);
      }
    }
  }

  lemma {:induction false} FillAllPrefix(
    size: nat, shares: seq<Share>, results: seq<R.Reply>, longer: seq<Share>, more: seq<R.Reply>, m: nat)
    requires Fits(shares, results, size) && Fits(longer, more, size)
    requires shares <= longer && results <= more && m <= |shares|
    ensures FillAll(size, longer, more, m) == FillAll(size, shares, results, m)
  {
    if m > 0 {
      FillAllPrefix(size, shares, results, longer, more, m - 1);
    }
  }

  lemma ShareJoins(t: Table, keys: seq<Bytes>, route: Route, before: seq<Share>, owner: nat, now: i64)
    requires forall i :: 0 <= i < |before| ==> before[i].operation.Divisible()
    requires var results := Responses(t, before, route, now);
             && Fits(before, results, |keys|)
             && forall p :: 0 <= p < |keys| ==>
                  FillAll(|keys|, before, results, |before|)[p] ==
                  if route(keys[p]) < owner then ValueReply(Live(t, keys[p], now)) else R.Bulk(None)
    ensures var shares := before + [ShareOf(MultiGet(keys), route, owner)];
            var results := Responses(t, shares, route, now);
            && Fits(shares, results, |keys|)
            && forall p :: 0 <= p < |keys| ==>
                 FillAll(|keys|, shares, results, |shares|)[p] ==
                 if route(keys[p]) <= owner then ValueReply(Live(t, keys[p], now)) else R.Bulk(None)
  {
    var share := ShareOf(MultiGet(keys), route, owner);
    var here := KeysAt(keys, route, owner);
    var values := ReadAll(Part(t, route, owner), here, now);
    var earlier := Responses(t, before, route, now);
    ResponsesAppend(t, before, share, route, now);
    assert Responses(t, before + [share], route, now) == earlier + [R.Array(values)];
    assert share.positions == PositionsAt(keys, route, owner);
    PositionsPointBack(keys, route, owner);
    ValuesFromWhole(t, keys, route, owner, now);
    hide Decide;
    hide DecideDivisible;
    hide Responses;
    hide KeysAt;
    hide PositionsAt;
    hide Live;
    hide Part;
    hide Fits;
    hide FillAll;
    hide ShareOf;
    JoinOne(|keys|, before, earlier, share, values, ReadAll(t, keys, now));
  }

  /** One more share fills in exactly its own positions. */
  lemma JoinOne(
    size: nat, shares: seq<Share>, results: seq<R.Reply>, share: Share, values: seq<R.Reply>, want: seq<R.Reply>)
    requires Fits(shares, results, size) && |want| == size && |values| == |share.positions|
    requires forall p :: p in share.positions ==> p < size
    requires forall j :: 0 <= j < |values| ==>
               share.positions[j] in share.positions && values[j] == want[share.positions[j]]
    ensures var more, all := shares + [share], results + [R.Array(values)];
            && Fits(more, all, size)
            && forall p :: 0 <= p < size ==>
                 FillAll(size, more, all, |more|)[p] ==
                 if p in share.positions then want[p] else FillAll(size, shares, results, |shares|)[p]
  {
    var more, all := shares + [share], results + [R.Array(values)];
    FitsAppend(size, shares, results, share, R.Array(values));
    FillAllPrefix(size, shares, results, more, all, |shares|);
    var filled := FillAll(size, shares, results, |shares|);
    assert FillAll(size, more, all, |more|) == Fill(filled, share.positions, values, |share.positions|);
    FillPlaces(filled, share.positions, values, |share.positions|, want);
    assert share.positions[..|share.positions|] == share.positions;
    hide Fits;
    hide FillAll;
    hide Fill;
  }

  /** An owner's values are the whole command's values at its positions. */
  lemma ValuesFromWhole(t: Table, keys: seq<Bytes>, route: Route, owner: nat, now: i64)
    ensures var positions := PositionsAt(keys, route, owner);
            var values := ReadAll(Part(t, route, owner), KeysAt(keys, route, owner), now);
            && |positions| == |values|
            && forall j :: 0 <= j < |positions| ==>
                 positions[j] in positions && positions[j] < |keys| && values[j] == ReadAll(t, keys, now)[positions[j]]
  {
    PositionsPointBack(keys, route, owner);
    var here := KeysAt(keys, route, owner);
    forall j | 0 <= j < |here|
      ensures ValueReply(Live(Part(t, route, owner), here[j], now)) == ValueReply(Live(t, here[j], now))
    {
      LiveInPart(t, route, here[j], now);
    }
  }

  lemma FitsAppend(size: nat, shares: seq<Share>, results: seq<R.Reply>, share: Share, result: R.Reply)
    requires Fits(shares, results, size)
    requires result.Array? && |result.values| == |share.positions| && forall p :: p in share.positions ==> p < size
    ensures Fits(shares + [share], results + [result], size)
  {
    forall i | 0 <= i < |shares| + 1
      ensures (results + [result])[i].Array?
      ensures |(results + [result])[i].values| == |(shares + [share])[i].positions|
      ensures forall p :: p in (shares + [share])[i].positions ==> p < size
    {
      if i < |shares| {
        assert (shares + [share])[i] == shares[i] && (results + [result])[i] == results[i];
      }
    }
  }

  /** Joining the participants' answers gives the answer of the whole command on the whole table. */
  lemma AnswersJoin(t: Table, op: Operation, route: Route, owners: nat, now: i64)
    requires op.Divisible() && forall k :: k in op.Keys() ==> route(k) < owners
    ensures var shares := Shares(op, route, owners);
            var results := Responses(t, shares, route, now);
            Combinable(op, shares, results) && Combined(op, shares, results) == DecideDivisible(t, op, now).response
  {
    match op
    case MultiSet(pairs) =>
    case Delete(keys) => IntegerAnswersJoin(t, op, route, owners, now);
    case Exists(keys) => IntegerAnswersJoin(t, op, route, owners, now);
    case MultiGet(keys) =>
      ValuesJoin(t, keys, route, owners, now);
      var shares := Shares(op, route, owners);
      assert FillAll(|keys|, shares, Responses(t, shares, route, now), |shares|) == ReadAll(t, keys, now) by {
        assert forall p :: 0 <= p < |keys| ==> keys[p] in keys;
      }
  }

  // ---------- sizes ----------

  lemma {:induction false} SumToAtLeast(n: nat, f: nat -> nat, o: nat)
    requires o < n
    ensures f(o) <= SumTo(n, f)
  {
    if o < n - 1 {
      SumToAtLeast(n - 1, f, o);
    }
  }

  lemma {:induction false} ReadAllShorter(t: Table, keys: seq<Bytes>, route: Route, owner: nat, now: i64)
    ensures |KeysAt(keys, route, owner)| <= |keys|
    ensures |R.EncodeAll(ReadAll(Part(t, route, owner), KeysAt(keys, route, owner), now))| <=
            |R.EncodeAll(ReadAll(t, keys, now))|
  {
    if keys != [] {
      var front, last := keys[..|keys| - 1], keys[|keys| - 1];
      ReadAllShorter(t, front, route, owner, now);
      var value := ValueReply(Live(t, last, now));
      assert ReadAll(t, keys, now) == ReadAll(t, front, now) + [value];
      R.EncodeAllAppend(ReadAll(t, front, now), value);
      if route(last) == owner {
        var part := Part(t, route, owner);
        LiveInPart(t, route, last, now);
        assert ReadAll(part, KeysAt(keys, route, owner), now) ==
               ReadAll(part, KeysAt(front, route, owner), now) + [value];
        R.EncodeAllAppend(ReadAll(part, KeysAt(front, route, owner), now), value);
      }
    }
  }

  /** No share's answer is longer on the wire than the whole answer. */
  lemma ShareAnswerIsShorter(t: Table, op: Operation, route: Route, owners: nat, owner: nat, now: i64)
    requires op.Divisible() && owner < owners && forall k :: k in op.Keys() ==> route(k) < owners
    ensures |R.Encode(DecideDivisible(Part(t, route, owner), ShareOf(op, route, owner).operation, now).response)| <=
            |R.Encode(DecideDivisible(t, op, now).response)|
  {
    match op
    case MultiSet(pairs) =>
    case MultiGet(keys) =>
      ReadAllShorter(t, keys, route, owner, now);
      DigitsMonotone(|KeysAt(keys, route, owner)|, |keys|);
    case Delete(keys) => IntegerAnswerIsShorter(t, op, route, owners, owner, now);
    case Exists(keys) => IntegerAnswerIsShorter(t, op, route, owners, owner, now);
  }

  lemma IntegerAnswerIsShorter(t: Table, op: Operation, route: Route, owners: nat, owner: nat, now: i64)
    requires op.Delete? || op.Exists?
    requires owner < owners && forall k :: k in op.keys ==> route(k) < owners
    ensures |R.Encode(DecideDivisible(Part(t, route, owner), ShareOf(op, route, owner).operation, now).response)| <=
            |R.Encode(DecideDivisible(t, op, now).response)|
  {
    TotalsAdd(t, op, route, owners, now);
    IntegerAnswersJoin(t, op, route, owners, now);
    AnswerIsResponse(t, op, route, owner, now);
    SumToAtLeast(owners, AnswerAt(t, op, route, now), owner);
    DigitsMonotone(AnswerAt(t, op, route, now)(owner), SumTo(owners, AnswerAt(t, op, route, now)));
  }
}
