/**
 * Replies on the wire: the encoder, its exact size predictor, and the client-side reader.
 * The format is the RESP2 part of the Redis serialization protocol specification.
 */
module Replies {
  import opened Bytes
  import opened Decimal

  datatype Reply =
    | Simple(text: Bytes)
    | Error(text: Bytes)
    | Integer(value: int)
    | Bulk(data: Option<Bytes>)
    | Array(values: seq<Reply>)

  const OK := Simple(Ascii("OK"))

  const PLUS_SIGN: byte := 43
  const MINUS_SIGN: byte := 45
  const COLON: byte := 58
  const DOLLAR: byte := 36
  const STAR: byte := 42

  // ---------- encoding ----------

  /** The bytes a reply is sent as. */
  function Encode(r: Reply): (wire: Bytes)
    ensures |wire| >= 1
  {
    match r
    case Simple(text) => [PLUS_SIGN] + text + CRLF
    case Error(text) => [MINUS_SIGN] + text + CRLF
    case Integer(value) => [COLON] + Print(value) + CRLF
    case Bulk(None) => [DOLLAR, MINUS, 49] + CRLF
    case Bulk(Some(data)) => [DOLLAR] + Digits(|data|) + CRLF + data + CRLF
    case Array(values) => [STAR] + Digits(|values|) + CRLF + EncodeAll(values)
  }

  function EncodeAll(rs: seq<Reply>): Bytes {
    if rs == [] then [] else Encode(rs[0]) + EncodeAll(rs[1..])
  }

  lemma {:induction false} EncodeAllAppend(rs: seq<Reply>, last: Reply)
    ensures EncodeAll(rs + [last]) == EncodeAll(rs) + Encode(last)
  {
    var longer := rs + [last];
    if rs == [] {
      assert longer[1..] == [];
      assert EncodeAll(longer[1..]) == [];
    } else {
      assert longer[1..] == rs[1..] + [last];
      EncodeAllAppend(rs[1..], last);
      var head, middle, tail := Encode(rs[0]), EncodeAll(rs[1..]), Encode(last);
      assert head + (middle + tail) == (head + middle) + tail;
    }
  }

  /** Appends a reply to an output buffer, piece by piece. */
  method EncodeTo(r: Reply, output: Buffer)
    modifies output
    ensures output.data == old(output.data) + Encode(r)
    decreases r
  {
    hide EncodeAll;
    hide Digits;
    hide Print;
    ghost var before := output.data;
    match r
    case Simple(text) =>
      output.Extend([PLUS_SIGN]);
      output.Extend(text);
      output.Extend(CRLF);
      assert output.data == before + ([PLUS_SIGN] + text + CRLF);
    case Error(text) =>
      output.Extend([MINUS_SIGN]);
      output.Extend(text);
      output.Extend(CRLF);
      assert output.data == before + ([MINUS_SIGN] + text + CRLF);
    case Integer(value) =>
      output.Extend([COLON]);
      output.Extend(Print(value));
      output.Extend(CRLF);
      assert output.data == before + ([COLON] + Print(value) + CRLF);
    case Bulk(None) =>
      output.Extend([DOLLAR, MINUS, 49] + CRLF);
    case Bulk(Some(data)) =>
      output.Extend([DOLLAR]);
      output.Extend(Digits(|data|));
      output.Extend(CRLF);
      output.Extend(data);
      output.Extend(CRLF);
      assert output.data == before + ([DOLLAR] + Digits(|data|) + CRLF + data + CRLF);
    case Array(values) =>
      output.Extend([STAR]);
      output.Extend(Digits(|values|));
      output.Extend(CRLF);
      EncodeEach(values, output);
      assert output.data == before + ([STAR] + Digits(|values|) + CRLF + EncodeAll(values));
  }

  method EncodeEach(values: seq<Reply>, output: Buffer)
    modifies output
    ensures output.data == old(output.data) + EncodeAll(values)
    decreases values
  {
    ghost var before := output.data;
    for i := 0 to |values|
      invariant output.data == before + EncodeAll(values[..i])
    {
      EncodeTo(values[i], output);
      EncodeAllAppend(values[..i], values[i]);
      assert values[..i] + [values[i]] == values[..i + 1];
    }
    assert values[..|values|] == values;
  }

  // ---------- size prediction ----------

  function CheckedAdd(a: nat, b: nat): Option<nat> {
    if a + b <= USIZE_MAX then Some(a + b) else None
  }

  /** The size predictor, with the overflow checks of 64-bit arithmetic. */
  function EncodedLen(r: Reply): Option<nat>
    decreases r
  {
    match r
    case Simple(text) => CheckedAdd(|text|, 3)
    case Error(text) => CheckedAdd(|text|, 3)
    case Integer(value) =>
      CheckedAdd(|Digits(if value < 0 then -value else value)|, if value < 0 then 4 else 3)
    case Bulk(None) => Some(5)
    case Bulk(Some(data)) =>
      var header := CheckedAdd(|Digits(|data|)|, 5);
      if header == None then None else CheckedAdd(header.value, |data|)
    case Array(values) =>
      var header := CheckedAdd(|Digits(|values|)|, 3);
      if header == None then None else EncodedLenAll(header.value, values)
  }

  function EncodedLenAll(total: nat, rs: seq<Reply>): Option<nat>
    decreases rs
  {
    if rs == [] then Some(total)
    else
      var next := EncodedLen(rs[0]);
      if next == None then None
      else
        var sum := CheckedAdd(total, next.value);
        if sum == None then None else EncodedLenAll(sum.value, rs[1..])
  }

  function IfFits(n: nat): Option<nat> {
    if n <= USIZE_MAX then Some(n) else None
  }

  /** The predictor is exact, and gives up only on replies no 64-bit length can describe. */
  lemma {:induction false} EncodedLenIsExact(r: Reply)
    ensures EncodedLen(r) == IfFits(|Encode(r)|)
    decreases r
  {
    if r.Array? {
      var header := |Digits(|r.values|)| + 3;
      assert |Encode(r)| == header + |EncodeAll(r.values)|;
      if header <= USIZE_MAX {
        EncodedLenAllIsExact(header, r.values);
      }
    }
  }

  lemma {:induction false} EncodedLenAllIsExact(total: nat, rs: seq<Reply>)
    requires total <= USIZE_MAX
    ensures EncodedLenAll(total, rs) == IfFits(total + |EncodeAll(rs)|)
    decreases rs
  {
    if rs != [] {
      EncodedLenIsExact(rs[0]);
      if EncodedLen(rs[0]).Some? && total + EncodedLen(rs[0]).value <= USIZE_MAX {
        EncodedLenAllIsExact(total + EncodedLen(rs[0]).value, rs[1..]);
      }
    }
  }

  // ---------- reading replies back ----------

  const MAX_LINE := 4096
  const MAX_BULK := 64 * 1024 * 1024
  const MAX_COUNT := 4096

  /** Reads up to CR LF; the line itself may not exceed `MAX_LINE` bytes. */
  function ReadLine(input: Bytes, line: Bytes): (r: Option<(Bytes, Bytes)>)
    requires |line| <= MAX_LINE
    ensures r.Some? ==> |r.value.1| < |input|
    decreases |input|
  {
    if input == [] then None
    else if input[0] == CR then
      if |input| >= 2 && input[1] == LF then Some((line, input[2..])) else None
    else if |line| >= MAX_LINE then None
    else ReadLine(input[1..], line + [input[0]])
  }

  /** The client's recursive reader: the reply and the unread bytes, or `None` on malformed input. */
  function ReadReply(input: Bytes): (r: Option<(Reply, Bytes)>)
    ensures r.Some? ==> |r.value.1| < |input|
    decreases |input|, 0
  {
    if input == [] then None
    else
      match ReadLine(input[1..], [])
      case None => None
      case Some((line, rest)) =>
        if input[0] == PLUS_SIGN then Some((Simple(line), rest))
        else if input[0] == MINUS_SIGN then Some((Error(line), rest))
        else
          var number := ParseI64(line);
          if number == None then None
          else if input[0] == COLON then Some((Integer(number.value), rest))
          else if input[0] == DOLLAR then ReadBulk(number.value, rest)
          else if input[0] == STAR then
            if !(0 <= number.value <= MAX_COUNT) then None
            else
              match ReadMany(number.value, rest)
              case None => None
              case Some((values, after)) => Some((Array(values), after))
          else None
  }

  function ReadBulk(length: int, rest: Bytes): (r: Option<(Reply, Bytes)>)
    ensures r.Some? ==> |r.value.1| <= |rest|
  {
    if length == -1 then Some((Bulk(None), rest))
    else if !(0 <= length <= MAX_BULK) then None
    else if |rest| < length + 2 then None
    else if rest[length..length + 2] != CRLF then None
    else Some((Bulk(Some(rest[..length])), rest[length + 2..]))
  }

  function ReadMany(count: nat, input: Bytes): (r: Option<(seq<Reply>, Bytes)>)
    ensures r.Some? ==> |r.value.1| <= |input|
    ensures r.Some? ==> |r.value.0| == count
    decreases |input|, 1, count
  {
    if count == 0 then Some(([], input))
    else
      match ReadReply(input)
      case None => None
      case Some((first, rest)) =>
        match ReadMany(count - 1, rest)
        case None => None
        case Some((others, after)) => Some(([first] + others, after))
  }

  /** What the reader's limits and the line format allow. */
  predicate Readable(r: Reply) {
    match r
    case Simple(text) => |text| <= MAX_LINE && CR !in text
    case Error(text) => |text| <= MAX_LINE && CR !in text
    case Integer(value) => FitsI64(value)
    case Bulk(None) => true
    case Bulk(Some(data)) => |data| <= MAX_BULK
    case Array(values) => |values| <= MAX_COUNT && forall v :: v in values ==> Readable(v)
  }

  lemma {:induction false} ReadLineOfText(text: Bytes, rest: Bytes, line: Bytes)
    requires |line| <= MAX_LINE
    ensures |line| + |text| <= MAX_LINE && CR !in text ==>
              ReadLine(text + CRLF + rest, line) == Some((line + text, rest))
    ensures |line| + |text| > MAX_LINE && CR !in text ==> ReadLine(text + CRLF + rest, line) == None
    ensures |line| + |text| > MAX_LINE || CR in text ==>
              (var r := ReadLine(text + CRLF + rest, line); r.Some? ==> r.value.0 != line + text)
    decreases |text|
  {
    var input := text + CRLF + rest;
    if text == [] {
      assert input[2..] == rest;
      assert line + text == line;
    } else if text[0] == CR {
      assert input[0] == CR;
    } else if |line| < MAX_LINE {
      ReadLineOfText(text[1..], rest, line + [text[0]]);
      assert input[1..] == text[1..] + CRLF + rest;
      assert line + [text[0]] + text[1..] == line + text;
      assert CR in text <==> CR in text[1..];
    }
  }

  lemma DigitsLine(n: nat, rest: Bytes)
    requires n <= MAX_BULK
    ensures ReadLine(Digits(n) + CRLF + rest, []) == Some((Digits(n), rest))
    ensures ParseI64(Digits(n)) == Some(n)
  {
    ParsePrint(n);
    PrintLength(n);
    ReadLineOfText(Digits(n), rest, []);
    assert [] + Digits(n) == Digits(n);
  }

  /** A length line too large for the reader's limit is never accepted as that length. */
  lemma LongLine(n: nat, rest: Bytes)
    ensures var r := ReadLine(Digits(n) + CRLF + rest, []);
            r.Some? ==> r.value == (Digits(n), rest) && (ParseI64(r.value.0) == None || ParseI64(r.value.0) == Some(n))
  {
    ReadLineOfText(Digits(n), rest, []);
    assert [] + Digits(n) == Digits(n);
    ParsePrint(n);
    assert CR !in Digits(n) by {
      forall b | b in Digits(n) ensures b != CR {
        assert IsDigit(b);
      }
    }
  }

  /**
   * Unique readability: followed by any bytes, an encoded reply reads back as itself and leaves
   * those bytes untouched, exactly when it is within the reader's limits.
   */
  lemma {:induction false} ReadReplyOfEncode(r: Reply, rest: Bytes)
    ensures Readable(r) ==> ReadReply(Encode(r) + rest) == Some((r, rest))
    ensures !Readable(r) ==> NotReadAs(r, ReadReply(Encode(r) + rest))
    decreases r
  {
    match r
    case Simple(text) => ReadText(r, rest);
    case Error(text) => ReadText(r, rest);
    case Integer(value) => ReadInteger(value, rest);
    case Bulk(None) => ReadNil(rest);
    case Bulk(Some(data)) => ReadBulkOfEncode(data, rest);
    case Array(values) =>
      ReadManyOfEncode(values, rest);
      ReadArray(values, rest);
  }

  predicate NotReadAs(r: Reply, back: Option<(Reply, Bytes)>) {
    back.Some? ==> back.value.0 != r
  }

  /** An array reply is read as its count line followed by that many replies. */
  lemma ReadArray(values: seq<Reply>, rest: Bytes)
    ensures var after := EncodeAll(values) + rest;
            var back := ReadReply(Encode(Array(values)) + rest);
            if |values| <= MAX_COUNT then
              (match ReadMany(|values|, after)
               case None => back == None
               case Some((read, left)) => back == Some((Array(read), left)))
            else back == None
  {
    var input := Encode(Array(values)) + rest;
    var after := EncodeAll(values) + rest;
    assert input[1..] == Digits(|values|) + CRLF + after;
    LongLine(|values|, after);
    if |values| <= MAX_COUNT {
      DigitsLine(|values|, after);
    }
  }

  lemma ReadText(r: Reply, rest: Bytes)
    requires r.Simple? || r.Error?
    ensures Readable(r) ==> ReadReply(Encode(r) + rest) == Some((r, rest))
    ensures !Readable(r) ==> NotReadAs(r, ReadReply(Encode(r) + rest))
  {
    assert (Encode(r) + rest)[1..] == r.text + CRLF + rest;
    ReadLineOfText(r.text, rest, []);
    assert [] + r.text == r.text;
  }

  lemma ReadNil(rest: Bytes)
    ensures ReadReply(Encode(Bulk(None)) + rest) == Some((Bulk(None), rest))
  {
    var line := Print(-1);
    assert line == [MINUS, 49] by { assert Digits(1) == [49]; }
    assert (Encode(Bulk(None)) + rest)[1..] == line + CRLF + rest;
    ParsePrint(-1);
    ReadLineOfText(line, rest, []);
    assert [] + line == line;
  }

  lemma ReadInteger(value: int, rest: Bytes)
    ensures Readable(Integer(value)) ==> ReadReply(Encode(Integer(value)) + rest) == Some((Integer(value), rest))
    ensures !Readable(Integer(value)) ==> NotReadAs(Integer(value), ReadReply(Encode(Integer(value)) + rest))
  {
    hide Value;
    hide Digits;
    var input := Encode(Integer(value)) + rest;
    var line := Print(value);
    assert input[1..] == line + CRLF + rest;
    assert CR !in line by {
      forall b | b in line ensures b != CR {
        assert b == MINUS || IsDigit(b);
      }
    }
    ParsePrint(value);
    ReadLineOfText(line, rest, []);
    assert [] + line == line;
    if FitsI64(value) {
      PrintLength(value);
    }
  }

  lemma ReadBulkPayload(data: Bytes, rest: Bytes)
    requires |data| <= MAX_BULK
    ensures ReadBulk(|data|, data + CRLF + rest) == Some((Bulk(Some(data)), rest))
  {
    var after := data + CRLF + rest;
    assert after[|data|..|data| + 2] == CRLF;
    assert after[..|data|] == data;
    assert after[|data| + 2..] == rest;
  }

  lemma ReadBulkOfEncode(data: Bytes, rest: Bytes)
    ensures Readable(Bulk(Some(data))) ==>
              ReadReply(Encode(Bulk(Some(data))) + rest) == Some((Bulk(Some(data)), rest))
    ensures !Readable(Bulk(Some(data))) ==> ReadReply(Encode(Bulk(Some(data))) + rest) == None
  {
    hide Digits;
    hide ReadLine;
    var input := Encode(Bulk(Some(data))) + rest;
    var after := data + CRLF + rest;
    assert input[1..] == Digits(|data|) + CRLF + after;
    LongLine(|data|, after);
    if |data| <= MAX_BULK {
      DigitsLine(|data|, after);
      ReadBulkPayload(data, rest);
      hide ReadBulk;
    }
  }

  /** A pipeline of replies splits back into the same list. */
  lemma {:induction false} ReadManyOfEncode(rs: seq<Reply>, rest: Bytes)
    ensures (forall v :: v in rs ==> Readable(v)) ==> ReadMany(|rs|, EncodeAll(rs) + rest) == Some((rs, rest))
    ensures !(forall v :: v in rs ==> Readable(v)) ==>
              (var back := ReadMany(|rs|, EncodeAll(rs) + rest); back.Some? ==> back.value.0 != rs)
    decreases rs
  {
    hide Encode;
    hide ReadReply;
    hide Readable;
    if rs == [] {
      assert EncodeAll(rs) + rest == rest;
    } else {
      var after := EncodeAll(rs[1..]) + rest;
      assert EncodeAll(rs) + rest == Encode(rs[0]) + after;
      assert rs == [rs[0]] + rs[1..];
      hide EncodeAll;
      ReadReplyOfEncode(rs[0], after);
      if Readable(rs[0]) {
        ReadManyOfEncode(rs[1..], rest);
      }
    }
  }
}
