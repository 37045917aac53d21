/** The reply encoder and the request decoder undo each other. */
module Roundtrip {
  import opened Bytes
  import opened Decimal
  import opened Framing
  import R = Replies

  function Bulks(arguments: seq<Bytes>): (rs: seq<R.Reply>)
    ensures |rs| == |arguments|
  {
    seq(|arguments|, i requires 0 <= i < |arguments| => R.Bulk(Some(arguments[i])))
  }

  /** A request as a client sends it: an array of bulk strings. */
  function Wire(arguments: seq<Bytes>): Bytes {
    R.Encode(R.Array(Bulks(arguments)))
  }

  function HeaderSize(n: nat): nat {
    |Digits(n)| + 3
  }

  predicate ArgumentFits(limits: Limits, argument: Bytes) {
    |argument| <= limits.maxBulk && HeaderSize(|argument|) <= limits.maxHeader
  }

  /** What a caller can check before sending. */
  predicate RequestFits(limits: Limits, arguments: seq<Bytes>) {
    && 0 < |arguments| <= limits.maxArguments
    && HeaderSize(|arguments|) <= limits.maxHeader
    && (forall a :: a in arguments ==> ArgumentFits(limits, a))
    && |Wire(arguments)| <= limits.maxFrame
  }

  lemma {:induction false} FindLineAt(limits: Limits, input: Bytes, cursor: nat, scan: nat, end: nat)
    requires cursor <= scan <= end && end + 1 < |input|
    requires forall i :: scan <= i < end ==> input[i] != CR && input[i] != LF
    requires input[end] == CR && input[end + 1] == LF
    ensures end - cursor + 2 <= limits.maxHeader && end + 2 <= limits.maxFrame ==>
              FindLine(limits, input, cursor, scan) == Found(end)
    ensures end - cursor + 2 > limits.maxHeader || end + 2 > limits.maxFrame ==>
              FindLine(limits, input, cursor, scan) == Bad(HeaderTooLong)
    decreases end - scan
  {
    if scan < end {
      FindLineAt(limits, input, cursor, scan + 1, end);
    }
  }

  /** A printed length is read back. */
  lemma LengthReadsBack(n: nat)
    ensures if n <= USIZE_MAX then ReadLength(Digits(n)) == Ok(n) else ReadLength(Digits(n)).Err?
  {
    ValueOfDigits(n);
  }

  /** The bytes of a header written between `before` and `after`. */
  lemma HeaderBytes(before: Bytes, prefix: byte, n: nat, after: Bytes)
    requires prefix != CR && prefix != LF
    ensures var input := before + [prefix] + Digits(n) + CRLF + after;
            var end := |before| + 1 + |Digits(n)|;
            && end + 1 < |input|
            && input[|before|] == prefix && input[end] == CR && input[end + 1] == LF
            && input[|before| + 1..end] == Digits(n)
            && forall i :: |before| <= i < end ==> input[i] != CR && input[i] != LF
  {
    var digits := Digits(n);
    var input := before + [prefix] + digits + CRLF + after;
    var cursor := |before|;
    var end := cursor + 1 + |digits|;
    forall i | cursor <= i < end
      ensures input[i] != CR && input[i] != LF
    {
      if i > cursor {
        assert input[i] == digits[i - cursor - 1];
        assert IsDigit(input[i]);
      }
    }
  }

  /** A length header printed at `|before|` is found, and read back as its length. */
  lemma HeaderReadsBack(limits: Limits, before: Bytes, prefix: byte, n: nat, after: Bytes)
    requires limits.Valid() && prefix != CR && prefix != LF
    ensures var input := before + [prefix] + Digits(n) + CRLF + after;
            var end := |before| + 1 + |Digits(n)|;
            var line := FindLine(limits, input, |before|, |before|);
            && end + 1 < |input|
            && (if HeaderSize(n) <= limits.maxHeader && end + 2 <= limits.maxFrame
                then line == Found(end) else line == Bad(HeaderTooLong))
            && HeaderLength(input, |before|, end, prefix) == ReadLength(Digits(n))
            && (if n <= USIZE_MAX then ReadLength(Digits(n)) == Ok(n) else ReadLength(Digits(n)).Err?)
  {
    hide FindLine;
    hide ReadLength;
    hide Digits;
    HeaderBytes(before, prefix, n, after);
    var input := before + [prefix] + Digits(n) + CRLF + after;
    FindLineAt(limits, input, |before|, |before|, |before| + 1 + |Digits(n)|);
    LengthReadsBack(n);
  }

  /** The arguments still to be read fit, starting from `cursor`. */
  predicate RestFits(limits: Limits, cursor: nat, rest: seq<Bytes>) {
    && (forall a :: a in rest ==> ArgumentFits(limits, a))
    && cursor + |R.EncodeAll(Bulks(rest))| <= limits.maxFrame
  }

  predicate ReadsBack(fits: bool, arguments: seq<Bytes>, size: nat, outcome: Outcome) {
    if fits then outcome == Frame(Request(arguments, size)) else outcome.Malformed?
  }

  lemma BulksFront(rest: seq<Bytes>)
    requires rest != []
    ensures Bulks(rest)[0] == R.Bulk(Some(rest[0]))
    ensures R.EncodeAll(Bulks(rest)) ==
            ([R.DOLLAR] + Digits(|rest[0]|) + CRLF) + (rest[0] + CRLF + R.EncodeAll(Bulks(rest[1..])))
  {
    assert Bulks(rest)[1..] == Bulks(rest[1..]);
  }

  /** One bulk header: read as its length, or malformed. */
  lemma ArgumentHeader(
    limits: Limits, before: Bytes, count: nat, spans: seq<Span>, n: nat, after: Bytes)
    requires limits.Valid() && |spans| < count && Inside(spans, |before|)
    ensures var input := before + [R.DOLLAR] + Digits(n) + CRLF + after;
            var cursor := |before| + HeaderSize(n);
            var outcome := ParseArguments(limits, input, |before|, count, spans);
            if HeaderSize(n) <= limits.maxHeader && cursor <= limits.maxFrame && n <= limits.maxBulk
            then outcome == ParsePayload(limits, input, cursor, count, spans, n)
            else outcome.Malformed?
  {
    hide FindLine;
    hide ParsePayload;
    hide ReadLength;
    HeaderReadsBack(limits, before, R.DOLLAR, n, after);
  }

  lemma {:induction false} ArgumentsReadBack(
    limits: Limits, before: Bytes, arguments: seq<Bytes>, spans: seq<Span>, rest: seq<Bytes>, tail: Bytes)
    requires limits.Valid() && rest != []
    requires Inside(spans, |before|) && Arguments(before, spans) + rest == arguments
    ensures var input := before + R.EncodeAll(Bulks(rest)) + tail;
            ReadsBack(RestFits(limits, |before|, rest), arguments, |before| + |R.EncodeAll(Bulks(rest))|,
                      ParseArguments(limits, input, |before|, |arguments|, spans))
    decreases |rest|
  {
    hide R.EncodeAll;
    hide ParseArguments;
    hide ParsePayload;
    var value, others := rest[0], rest[1..];
    BulksFront(rest);
    RestFitsFront(limits, |before|, rest);
    NoReplies();
    var body := R.EncodeAll(Bulks(others));
    var header := [R.DOLLAR] + Digits(|value|) + CRLF;
    var before' := before + header + value + CRLF;
    var input := before + R.EncodeAll(Bulks(rest)) + tail;
    assert input == before + [R.DOLLAR] + Digits(|value|) + CRLF + (value + CRLF + body + tail);
    ArgumentHeader(limits, before, |arguments|, spans, |value|, value + CRLF + body + tail);
    assert input == (before + header) + value + CRLF + (body + tail);
    PayloadReadsBack(limits, before + header, arguments, spans, value, body + tail);
    SpanAdded(before, header, arguments, spans, value, others);
    assert input == before' + body + tail;
    var span := Span(|before + header|, |before + header| + |value|);
    if others == [] {
      ArgumentsBefore(before', input, spans + [span]);
    } else {
      ArgumentsReadBack(limits, before', arguments, spans + [span], others, tail);
    }
  }

  lemma NoReplies()
    ensures R.EncodeAll([]) == []
  {
  }

  lemma RestFitsFront(limits: Limits, cursor: nat, rest: seq<Bytes>)
    requires rest != []
    ensures RestFits(limits, cursor, rest) <==>
            && ArgumentFits(limits, rest[0])
            && RestFits(limits, cursor + HeaderSize(|rest[0]|) + |rest[0]| + 2, rest[1..])
  {
    BulksFront(rest);
    assert forall a :: a in rest <==> a == rest[0] || a in rest[1..];
  }

  lemma ArgumentsBefore(before: Bytes, longer: Bytes, spans: seq<Span>)
    requires before <= longer && Inside(spans, |before|)
    ensures Arguments(longer, spans) == Arguments(before, spans)
  {
    ArgumentsStable(before, longer, spans);
  }

  /** Taking one payload extends the arguments read so far by that payload. */
  lemma SpanAdded(
    before: Bytes, header: Bytes, arguments: seq<Bytes>, spans: seq<Span>, value: Bytes, others: seq<Bytes>)
    requires Inside(spans, |before|) && Arguments(before, spans) + ([value] + others) == arguments
    ensures var span := Span(|before + header|, |before + header| + |value|);
            var before' := before + header + value + CRLF;
            Inside(spans + [span], |before'|) && Arguments(before', spans + [span]) + others == arguments
  {
    var span := Span(|before + header|, |before + header| + |value|);
    var before' := before + header + value + CRLF;
    ArgumentsBefore(before, before', spans);
    assert before'[span.start..span.end] == value;
    assert Arguments(before', spans + [span]) == Arguments(before, spans) + [value];
  }

  /** One payload: too long for the frame, the last argument, or one more step. */
  lemma PayloadReadsBack(
    limits: Limits, before: Bytes, arguments: seq<Bytes>, spans: seq<Span>, value: Bytes, tail: Bytes)
    requires limits.Valid()
    requires Inside(spans, |before|) && |spans| < |arguments|
    ensures var input := before + value + CRLF + tail;
            var end := |before| + |value| + 2;
            var span := Span(|before|, |before| + |value|);
            var outcome := ParsePayload(limits, input, |before|, |arguments|, spans, |value|);
            && end <= |input|
            && (end > limits.maxFrame ==> outcome.Malformed?)
            && (end <= limits.maxFrame ==>
                  outcome == if |spans| + 1 == |arguments| then Frame(Request(Arguments(input, spans + [span]), end))
                             else ParseArguments(limits, input, end, |arguments|, spans + [span]))
  {
    hide ParseArguments;
    var input := before + value + CRLF + tail;
    var end := |before| + |value| + 2;
    assert input[end - 2..end] == CRLF;
    if end <= limits.maxFrame {
      PayloadStep(limits, input, |before|, |arguments|, spans, |value|);
    }
  }

  /**
   * A request followed by any bytes decodes to its own arguments and its exact wire length when
   * it is nonempty and within the limits; otherwise it is malformed, never incomplete.
   */
  lemma RequestReadsBack(limits: Limits, arguments: seq<Bytes>, tail: Bytes)
    requires limits.Valid()
    ensures ReadsBack(RequestFits(limits, arguments), arguments, |Wire(arguments)|,
                      ParseFrame(limits, Wire(arguments) + tail))
  {
    hide R.EncodeAll;
    hide FindLine;
    hide ReadLength;
    hide ParseArguments;
    hide Digits;
    var body := R.EncodeAll(Bulks(arguments));
    var header := [R.STAR] + Digits(|arguments|) + CRLF;
    var input := Wire(arguments) + tail;
    assert input == [] + [R.STAR] + Digits(|arguments|) + CRLF + (body + tail);
    HeaderReadsBack(limits, [], R.STAR, |arguments|, body + tail);
    assert |Wire(arguments)| == |header| + |body|;
    if HeaderSize(|arguments|) <= limits.maxHeader && |header| <= limits.maxFrame
       && 0 < |arguments| <= limits.maxArguments {
      ArgumentsReadBack(limits, header, arguments, [], arguments, tail);
      assert input == header + body + tail;
    }
  }

  /** Whatever bytes follow, the whole stream decodes to this request and then to what follows. */
  lemma StreamReadsBack(limits: Limits, arguments: seq<Bytes>, tail: Bytes)
    requires limits.Valid()
    ensures DecodeAll(limits, Wire(arguments) + tail) ==
            if RequestFits(limits, arguments) then
              Prepend([Request(arguments, |Wire(arguments)|)], DecodeAll(limits, tail))
            else Closed([])
  {
    RequestReadsBack(limits, arguments, tail);
    assert (Wire(arguments) + tail)[|Wire(arguments)|..] == tail;
  }

  // ---------- pipelines ----------

  /** Requests sent back to back. */
  function WireAll(requests: seq<seq<Bytes>>): Bytes {
    if requests == [] then [] else Wire(requests[0]) + WireAll(requests[1..])
  }

  function RequestsOf(requests: seq<seq<Bytes>>): (decoded: seq<Request>)
    ensures |decoded| == |requests|
  {
    seq(|requests|, i requires 0 <= i < |requests| => Request(requests[i], |Wire(requests[i])|))
  }

  /** How many requests are decoded before the first that exceeds a limit. */
  function FittingPrefix(limits: Limits, requests: seq<seq<Bytes>>): (n: nat)
    ensures n <= |requests|
    ensures forall i :: 0 <= i < n ==> RequestFits(limits, requests[i])
    ensures n < |requests| ==> !RequestFits(limits, requests[n])
  {
    if requests == [] || !RequestFits(limits, requests[0]) then 0 else 1 + FittingPrefix(limits, requests[1..])
  }

  /**
   * A pipeline decodes to the same list of requests, followed by whatever comes after it; a request
   * that exceeds a limit closes the stream after the requests before it.
   */
  lemma {:induction false} PipelineReadsBack(limits: Limits, requests: seq<seq<Bytes>>, tail: Bytes)
    requires limits.Valid()
    ensures var n := FittingPrefix(limits, requests);
            DecodeAll(limits, WireAll(requests) + tail) ==
            if n == |requests| then Prepend(RequestsOf(requests), DecodeAll(limits, tail))
            else Closed(RequestsOf(requests[..n]))
    decreases |requests|
  {
    hide DecodeAll;
    hide RequestFits;
    hide Wire;
    if requests == [] {
      assert WireAll(requests) + tail == tail;
      assert RequestsOf(requests) == [];
      PrependNothing(DecodeAll(limits, tail));
    } else {
      var first, others := requests[0], requests[1..];
      var after := WireAll(others) + tail;
      assert WireAll(requests) + tail == Wire(first) + after;
      StreamReadsBack(limits, first, after);
      PipelineReadsBack(limits, others, tail);
      if RequestFits(limits, first) {
        var head, m := Request(first, |Wire(first)|), FittingPrefix(limits, others);
        assert RequestsOf(requests) == [head] + RequestsOf(others);
        assert requests[..1 + m] == [first] + others[..m];
        assert RequestsOf(requests[..1 + m]) == [head] + RequestsOf(others[..m]);
        PrependTwice([head], RequestsOf(others), DecodeAll(limits, tail));
      } else {
        assert RequestsOf(requests[..0]) == [];
      }
    }
  }
}
