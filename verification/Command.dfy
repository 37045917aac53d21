/** Data commands as the engine receives them. */
module Commands {
  import opened Bytes

  datatype Condition = Always | IfAbsent | IfPresent

  datatype Expiry = Clear | Keep | AfterMilliseconds(duration: i64)

  datatype Operation =
    | Get(key: Bytes)
    | Set(key: Bytes, value: Bytes, condition: Condition, expiry: Expiry)
    | Increment(key: Bytes, amount: i64, subtract: bool)
    | Delete(keys: seq<Bytes>)
    | Exists(keys: seq<Bytes>)
    | MultiGet(keys: seq<Bytes>)
    | MultiSet(pairs: seq<(Bytes, Bytes)>)
    | Expire(key: Bytes, milliseconds: i64)
    | Ttl(key: Bytes, inMilliseconds: bool)
    | Persist(key: Bytes)
  {
    /** Every key argument, in order, with repetitions. */
    function Keys(): seq<Bytes> {
      match this
      case Delete(keys) => keys
      case Exists(keys) => keys
      case MultiGet(keys) => keys
      case MultiSet(pairs) => PairKeys(pairs)
      case _ => [key]
    }

    function PayloadBytes(): nat {
      match this
      case Set(key, value, _, _) => |key| + |value|
      case MultiSet(pairs) => PairsSize(pairs)
      case _ => TotalSize(Keys())
    }

    /** The commands that store a value. */
    predicate StoresValue() {
      Set? || Increment? || MultiSet?
    }

    /** The commands a coordinator may spread over several owners. */
    predicate Divisible() {
      Delete? || Exists? || MultiGet? || MultiSet?
    }
  }

  function PairKeys(pairs: seq<(Bytes, Bytes)>): (keys: seq<Bytes>)
    ensures |keys| == |pairs|
  {
    seq(|pairs|, i requires 0 <= i < |pairs| => pairs[i].0)
  }

  function TotalSize(keys: seq<Bytes>): nat {
    if keys == [] then 0 else TotalSize(keys[..|keys| - 1]) + |keys[|keys| - 1]|
  }

  function PairsSize(pairs: seq<(Bytes, Bytes)>): nat {
    if pairs == [] then 0
    else PairsSize(pairs[..|pairs| - 1]) + |pairs[|pairs| - 1].0| + |pairs[|pairs| - 1].1|
  }
}
