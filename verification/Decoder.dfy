/**
 * Request framing: what one frame means on a complete input, the resumable decoder that reaches
 * the same answer over any fragmentation, and its agreement with the reply encoder.
 */
module Framing {
  import opened Bytes
  import opened Decimal
  import R = Replies

  datatype Limits = Limits(maxFrame: nat, maxBulk: nat, maxArguments: nat, maxHeader: nat) {
    /** What construction checks, with every field a 64-bit size. */
    predicate Valid() {
      && 16 <= maxFrame <= USIZE_MAX
      && maxBulk <= maxFrame
      && 1 <= maxArguments <= USIZE_MAX
      && 4 <= maxHeader <= maxFrame
    }
  }

  datatype ProtocolError =
    | HeaderTooLong
    | BadLineEnding
    | UnterminatedHeader
    | ExpectedLength
    | InvalidLength
    | LengthOverflow
    | BadArgumentCount
    | BulkTooLong
    | FrameOverflow
    | FrameTooLong
    | BulkNotTerminated

  datatype Request = Request(arguments: seq<Bytes>, wireBytes: nat)

  datatype Span = Span(start: nat, end: nat)

  // ---------- one frame of a complete input ----------

  datatype Line = NeedMore | Found(end: nat) | Bad(error: ProtocolError)

  /** Searches from `scan` for the CR LF that ends the header starting at `cursor`. */
  function FindLine(limits: Limits, input: Bytes, cursor: nat, scan: nat): (r: Line)
    requires cursor <= scan && cursor <= |input|
    ensures r.Found? ==> scan <= r.end && r.end + 2 <= |input| && r.end + 2 <= limits.maxFrame
    ensures r.NeedMore? ==> |input| < limits.maxFrame
    decreases |input| - scan
  {
    if scan + 1 < |input| then
      if scan - cursor + 2 > limits.maxHeader || scan + 2 > limits.maxFrame then Bad(HeaderTooLong)
      else if input[scan] == CR && input[scan + 1] == LF then Found(scan)
      else if input[scan] == LF then Bad(BadLineEnding)
      else FindLine(limits, input, cursor, scan + 1)
    else if |input| - cursor >= limits.maxHeader || |input| >= limits.maxFrame then Bad(UnterminatedHeader)
    else NeedMore
  }

  /** A nonnegative decimal length, read left to right with 64-bit overflow checks. */
  function ReadLength(digits: Bytes): (r: Result<nat, ProtocolError>)
    ensures r.Ok? ==> AllDigits(digits) && r.value == Value(digits) <= USIZE_MAX
    ensures AllDigits(digits) && Value(digits) <= USIZE_MAX ==> r.Ok?
  {
    if digits == [] then Ok(0)
    else
      var front := digits[..|digits| - 1];
      var last := digits[|digits| - 1];
      match ReadLength(front)
      case Err(error) =>
        assert AllDigits(digits) ==> AllDigits(front);
        Err(error)
      case Ok(length) =>
        if !IsDigit(last) then Err(InvalidLength)
        else
          var next := 10 * length + (last as int - 48);
          if next > USIZE_MAX then Err(LengthOverflow) else Ok(next)
  }

  function HeaderLength(input: Bytes, cursor: nat, end: nat, prefix: byte): Result<nat, ProtocolError>
    requires cursor <= end < |input|
  {
    if end <= cursor + 1 || input[cursor] != prefix then Err(ExpectedLength)
    else ReadLength(input[cursor + 1..end])
  }

  datatype Outcome =
    | Incomplete
    | Frame(request: Request)
    | Malformed(error: ProtocolError)

  function Arguments(input: Bytes, spans: seq<Span>): (arguments: seq<Bytes>)
    requires Inside(spans, |input|)
    ensures |arguments| == |spans|
  {
    seq(|spans|, i requires 0 <= i < |spans| => input[spans[i].start..spans[i].end])
  }

  /** Spans lie in order, without overlap, below `bound`. */
  predicate Inside(spans: seq<Span>, bound: nat) {
    && (forall i :: 0 <= i < |spans| ==> spans[i].start <= spans[i].end <= bound)
    && (forall i, j :: 0 <= i < j < |spans| ==> spans[i].end <= spans[j].start)
  }

  predicate Bounded(spans: seq<Span>, size: nat) {
    forall i :: 0 <= i < |spans| ==> spans[i].end - spans[i].start <= size
  }

  /** The meaning of the bytes received so far for one request. */
  function ParseFrame(limits: Limits, input: Bytes): (r: Outcome)
    ensures r.Frame? ==> 0 < r.request.wireBytes <= |input|
  {
    match FindLine(limits, input, 0, 0)
    case NeedMore => Incomplete
    case Bad(error) => Malformed(error)
    case Found(end) =>
      match HeaderLength(input, 0, end, R.STAR)
      case Err(error) => Malformed(error)
      case Ok(count) =>
        if count == 0 || count > limits.maxArguments then Malformed(BadArgumentCount)
        else ParseArguments(limits, input, end + 2, count, [])
  }

  function ParseArguments(limits: Limits, input: Bytes, cursor: nat, count: nat, spans: seq<Span>): (r: Outcome)
    requires cursor <= |input| && |spans| < count && Inside(spans, cursor)
    ensures r.Frame? ==> cursor < r.request.wireBytes <= |input|
    decreases count - |spans|, 1
  {
    match FindLine(limits, input, cursor, cursor)
    case NeedMore => Incomplete
    case Bad(error) => Malformed(error)
    case Found(end) =>
      match HeaderLength(input, cursor, end, R.DOLLAR)
      case Err(error) => Malformed(error)
      case Ok(length) =>
        if length > limits.maxBulk then Malformed(BulkTooLong)
        else ParsePayload(limits, input, end + 2, count, spans, length)
  }

  function ParsePayload(
    limits: Limits, input: Bytes, cursor: nat, count: nat, spans: seq<Span>, length: nat): (r: Outcome)
    requires cursor <= |input| && |spans| < count && Inside(spans, cursor)
    ensures r.Frame? ==> cursor < r.request.wireBytes <= |input|
    decreases count - |spans|, 0
  {
    var end := cursor + length + 2;
    if end > USIZE_MAX then Malformed(FrameOverflow)
    else if end > limits.maxFrame then Malformed(FrameTooLong)
    else if |input| < end then Incomplete
    else if input[end - 2..end] != CRLF then Malformed(BulkNotTerminated)
    else
      var spans' := spans + [Span(cursor, end - 2)];
      if |spans'| == count then Frame(Request(Arguments(input, spans'), end))
      else ParseArguments(limits, input, end, count, spans')
  }

  // ---------- answers are stable under more input ----------

  predicate Agrees(before: Outcome, after: Outcome) {
    && (before.Frame? ==> after == before)
    && (before.Malformed? ==> after.Malformed?)
  }

  lemma {:induction false} FindLineStable(limits: Limits, input: Bytes, longer: Bytes, cursor: nat, scan: nat)
    requires limits.Valid() && input <= longer && cursor <= scan && cursor <= |input|
    requires scan <= |input|
    ensures var r := FindLine(limits, input, cursor, scan);
            && (r.Found? ==> FindLine(limits, longer, cursor, scan) == r)
            && (r.Bad? ==> FindLine(limits, longer, cursor, scan).Bad?)
    decreases |input| - scan
  {
    if scan + 1 < |input| {
      FindLineStable(limits, input, longer, cursor, scan + 1);
    }
  }

  lemma HeaderLengthStable(input: Bytes, longer: Bytes, cursor: nat, end: nat, prefix: byte)
    requires input <= longer && cursor <= end < |input|
    ensures HeaderLength(longer, cursor, end, prefix) == HeaderLength(input, cursor, end, prefix)
  {
    if cursor + 1 < end {
      assert longer[cursor + 1..end] == input[cursor + 1..end];
    }
  }

  lemma ArgumentsStable(input: Bytes, longer: Bytes, spans: seq<Span>)
    requires input <= longer && Inside(spans, |input|)
    ensures Arguments(longer, spans) == Arguments(input, spans)
  {
    forall i | 0 <= i < |spans|
      ensures longer[spans[i].start..spans[i].end] == input[spans[i].start..spans[i].end]
    {
    }
  }

  lemma {:induction false} ParseArgumentsStable(
    limits: Limits, input: Bytes, longer: Bytes, cursor: nat, count: nat, spans: seq<Span>)
    requires limits.Valid() && input <= longer
    requires cursor <= |input| && |spans| < count && Inside(spans, cursor)
    ensures Agrees(ParseArguments(limits, input, cursor, count, spans),
                   ParseArguments(limits, longer, cursor, count, spans))
    decreases count - |spans|, 1
  {
    FindLineStable(limits, input, longer, cursor, cursor);
    match FindLine(limits, input, cursor, cursor)
    case NeedMore =>
    case Bad(error) =>
    case Found(end) =>
      HeaderLengthStable(input, longer, cursor, end, R.DOLLAR);
      match HeaderLength(input, cursor, end, R.DOLLAR)
      case Err(error) =>
      case Ok(length) => ParsePayloadStable(limits, input, longer, end + 2, count, spans, length);
  }

  lemma {:induction false} ParsePayloadStable(
    limits: Limits, input: Bytes, longer: Bytes, cursor: nat, count: nat, spans: seq<Span>, length: nat)
    requires limits.Valid() && input <= longer
    requires cursor <= |input| && |spans| < count && Inside(spans, cursor)
    ensures Agrees(ParsePayload(limits, input, cursor, count, spans, length),
                   ParsePayload(limits, longer, cursor, count, spans, length))
    decreases count - |spans|, 0
  {
    var end := cursor + length + 2;
    if end <= limits.maxFrame && end <= |input| {
      assert longer[end - 2..end] == input[end - 2..end];
      var spans' := spans + [Span(cursor, end - 2)];
      if |spans'| == count {
        ArgumentsStable(input, longer, spans');
      } else {
        ParseArgumentsStable(limits, input, longer, end, count, spans');
      }
    }
  }

  /** A decided frame stays decided, and a malformed one stays malformed, whatever arrives next. */
  lemma ParseFrameStable(limits: Limits, input: Bytes, longer: Bytes)
    requires limits.Valid() && input <= longer
    ensures Agrees(ParseFrame(limits, input), ParseFrame(limits, longer))
  {
    FindLineStable(limits, input, longer, 0, 0);
    match FindLine(limits, input, 0, 0)
    case NeedMore =>
    case Bad(error) =>
    case Found(end) =>
      HeaderLengthStable(input, longer, 0, end, R.STAR);
      match HeaderLength(input, 0, end, R.STAR)
      case Err(error) =>
      case Ok(count) =>
        if 0 < count <= limits.maxArguments {
          ParseArgumentsStable(limits, input, longer, end + 2, count, []);
        }
  }

  // ---------- whole streams ----------

  /** What a stream of bytes decodes to: requests and unread bytes, or requests before a failure. */
  datatype Stream = Open(requests: seq<Request>, leftover: Bytes) | Closed(requests: seq<Request>)

  function Prepend(requests: seq<Request>, s: Stream): Stream {
    match s
    case Open(others, leftover) => Open(requests + others, leftover)
    case Closed(others) => Closed(requests + others)
  }

  lemma PrependTwice(a: seq<Request>, b: seq<Request>, s: Stream)
    ensures Prepend(a, Prepend(b, s)) == Prepend(a + b, s)
  {
    assert a + (b + s.requests) == a + b + s.requests;
  }

  lemma PrependNothing(s: Stream)
    ensures Prepend([], s) == s
  {
    assert [] + s.requests == s.requests;
  }

  function DecodeAll(limits: Limits, input: Bytes): Stream
    decreases |input|
  {
    match ParseFrame(limits, input)
    case Incomplete => Open([], input)
    case Malformed(_) => Closed([])
    case Frame(request) => Prepend([request], DecodeAll(limits, input[request.wireBytes..]))
  }

  /** `whole` is what `first` decodes to, continued by what follows its unread bytes. */
  predicate Continues(limits: Limits, first: Stream, second: Bytes, whole: Stream) {
    match first
    case Open(requests, leftover) => whole == Prepend(requests, DecodeAll(limits, leftover + second))
    case Closed(requests) => whole == Closed(requests)
  }

  lemma ContinuesPrepend(limits: Limits, request: Request, first: Stream, second: Bytes, whole: Stream)
    requires Continues(limits, first, second, whole)
    ensures Continues(limits, Prepend([request], first), second, Prepend([request], whole))
  {
    if first.Open? {
      PrependTwice([request], first.requests, DecodeAll(limits, first.leftover + second));
    }
  }

  /** Decoding what came first, then the rest behind its leftover, is decoding everything at once. */
  lemma {:induction false} DecodeAllSplit(limits: Limits, first: Bytes, second: Bytes)
    requires limits.Valid()
    ensures Continues(limits, DecodeAll(limits, first), second, DecodeAll(limits, first + second))
    decreases |first|
  {
    hide ParseFrame;
    hide Continues;
    SplitDecided(limits, first, second);
    var outcome := ParseFrame(limits, first);
    if outcome.Frame? {
      var n := outcome.request.wireBytes;
      DecodeAllSplit(limits, first[n..], second);
      assert (first + second)[n..] == first[n..] + second;
      ContinuesPrepend(limits, outcome.request, DecodeAll(limits, first[n..]), second,
                       DecodeAll(limits, first[n..] + second));
    }
  }

  lemma SplitDecided(limits: Limits, first: Bytes, second: Bytes)
    requires limits.Valid()
    ensures Agrees(ParseFrame(limits, first), ParseFrame(limits, first + second))
    ensures !ParseFrame(limits, first).Frame? ==>
              Continues(limits, DecodeAll(limits, first), second, DecodeAll(limits, first + second))
  {
    ParseFrameStable(limits, first, first + second);
    hide ParseFrame;
    PrependNothing(DecodeAll(limits, first + second));
  }

  function Flatten(chunks: seq<Bytes>): Bytes {
    if chunks == [] then [] else Flatten(chunks[..|chunks| - 1]) + chunks[|chunks| - 1]
  }

  // ---------- the resumable decoder ----------

  /** Every position already scanned is free of line endings and within the header limits. */
  predicate Clean(limits: Limits, input: Bytes, cursor: nat, scan: nat) {
    && cursor <= scan <= |input|
    && forall i :: cursor <= i < scan ==> Plain(limits, input, cursor, i)
  }

  predicate Plain(limits: Limits, input: Bytes, cursor: nat, i: nat)
    requires cursor <= i
  {
    && i + 1 < |input|
    && i - cursor + 2 <= limits.maxHeader && i + 2 <= limits.maxFrame
    && input[i] != LF
    && !(input[i] == CR && input[i + 1] == LF)
  }

  lemma {:induction false} FindLineSkipsClean(limits: Limits, input: Bytes, cursor: nat, from: nat, scan: nat)
    requires Clean(limits, input, cursor, scan) && cursor <= from <= scan
    ensures FindLine(limits, input, cursor, from) == FindLine(limits, input, cursor, scan)
    decreases scan - from
  {
    if from < scan {
      assert Plain(limits, input, cursor, from);
      FindLineSkipsClean(limits, input, cursor, from + 1, scan);
    }
  }

  /** What remains to be parsed from the decoder's saved position. */
  function Continue(
    limits: Limits, input: Bytes, cursor: nat, argumentCount: Option<nat>, bulkLength: Option<nat>, spans: seq<Span>)
    : Outcome
    requires Positioned(cursor, argumentCount, bulkLength, spans) && cursor <= |input|
  {
    if argumentCount == None then ParseFrame(limits, input)
    else if bulkLength == None then ParseArguments(limits, input, cursor, argumentCount.value, spans)
    else ParsePayload(limits, input, cursor, argumentCount.value, spans, bulkLength.value)
  }

  predicate Positioned(cursor: nat, argumentCount: Option<nat>, bulkLength: Option<nat>, spans: seq<Span>) {
    && Inside(spans, cursor)
    && (argumentCount == None ==> cursor == 0 && bulkLength == None && spans == [])
    && (argumentCount.Some? ==> |spans| < argumentCount.value)
  }

  /** For this input and everything it may grow into, resuming is parsing from the start. */
  ghost predicate ResumesAt(
    limits: Limits, input: Bytes, cursor: nat, argumentCount: Option<nat>, bulkLength: Option<nat>, spans: seq<Span>)
    requires Positioned(cursor, argumentCount, bulkLength, spans) && cursor <= |input|
  {
    forall longer: Bytes | input <= longer ::
      Continue(limits, longer, cursor, argumentCount, bulkLength, spans) == ParseFrame(limits, longer)
  }

  lemma ResumesNow(
    limits: Limits, input: Bytes, cursor: nat, argumentCount: Option<nat>, bulkLength: Option<nat>, spans: seq<Span>)
    requires Positioned(cursor, argumentCount, bulkLength, spans) && cursor <= |input|
    requires ResumesAt(limits, input, cursor, argumentCount, bulkLength, spans)
    ensures Continue(limits, input, cursor, argumentCount, bulkLength, spans) == ParseFrame(limits, input)
  {
    assert input <= input;
  }

  lemma FreshResumes(limits: Limits, input: Bytes)
    ensures ResumesAt(limits, input, 0, None, None, [])
  {
  }

  lemma CountResumes(limits: Limits, input: Bytes, end: nat, count: nat)
    requires limits.Valid()
    requires FindLine(limits, input, 0, 0) == Found(end)
    requires HeaderLength(input, 0, end, R.STAR) == Ok(count) && 0 < count <= limits.maxArguments
    ensures ResumesAt(limits, input, end + 2, Some(count), None, [])
  {
    forall longer: Bytes | input <= longer
      ensures Continue(limits, longer, end + 2, Some(count), None, []) == ParseFrame(limits, longer)
    {
      FindLineStable(limits, input, longer, 0, 0);
      HeaderLengthStable(input, longer, 0, end, R.STAR);
    }
  }

  lemma LengthResumes(
    limits: Limits, input: Bytes, cursor: nat, count: nat, spans: seq<Span>, end: nat, length: nat)
    requires limits.Valid()
    requires cursor <= |input| && Positioned(cursor, Some(count), None, spans)
    requires ResumesAt(limits, input, cursor, Some(count), None, spans)
    requires FindLine(limits, input, cursor, cursor) == Found(end)
    requires HeaderLength(input, cursor, end, R.DOLLAR) == Ok(length) && length <= limits.maxBulk
    ensures ResumesAt(limits, input, end + 2, Some(count), Some(length), spans)
  {
    hide FindLine;
    hide HeaderLength;
    hide ParsePayload;
    hide ParseFrame;
    forall longer: Bytes | input <= longer
      ensures Continue(limits, longer, end + 2, Some(count), Some(length), spans) == ParseFrame(limits, longer)
    {
      assert Continue(limits, longer, cursor, Some(count), None, spans) == ParseFrame(limits, longer);
      FindLineStable(limits, input, longer, cursor, cursor);
      HeaderLengthStable(input, longer, cursor, end, R.DOLLAR);
    }
  }

  /** One complete payload: the next position, or the whole request. */
  lemma PayloadStep(
    limits: Limits, input: Bytes, cursor: nat, count: nat, spans: seq<Span>, length: nat)
    requires cursor <= |input| && Positioned(cursor, Some(count), Some(length), spans)
    requires var end := cursor + length + 2;
             end <= USIZE_MAX && end <= limits.maxFrame && end <= |input| && input[end - 2..end] == CRLF
    ensures var end := cursor + length + 2;
            var spans' := spans + [Span(cursor, end - 2)];
            ParsePayload(limits, input, cursor, count, spans, length) ==
            if |spans'| == count then Frame(Request(Arguments(input, spans'), end))
            else ParseArguments(limits, input, end, count, spans')
  {
  }

  lemma InsideGrows(spans: seq<Span>, cursor: nat, length: nat, bound: nat, size: nat)
    requires Inside(spans, cursor) && Bounded(spans, size) && length <= size
    ensures Bounded(spans + [Span(cursor, cursor + length)], size)
    ensures Inside(spans + [Span(cursor, cursor + length)], cursor + length + 2)
    ensures cursor + length + 2 <= bound ==> Inside(spans + [Span(cursor, cursor + length)], bound)
  {
  }

  /** The payloads that decide the frame early. */
  lemma PayloadRefused(
    limits: Limits, input: Bytes, cursor: nat, count: nat, spans: seq<Span>, length: nat)
    requires limits.Valid()
    requires cursor <= |input| && Positioned(cursor, Some(count), Some(length), spans)
    ensures var end := cursor + length + 2;
            var outcome := ParsePayload(limits, input, cursor, count, spans, length);
            && (end > USIZE_MAX ==> outcome == Malformed(FrameOverflow))
            && (limits.maxFrame < end <= USIZE_MAX ==> outcome == Malformed(FrameTooLong))
            && (end <= limits.maxFrame && |input| < end ==> outcome == Incomplete)
            && (end <= limits.maxFrame && end <= |input| && input[end - 2..end] != CRLF ==>
                  outcome == Malformed(BulkNotTerminated))
  {
  }

  lemma PayloadResumes(
    limits: Limits, input: Bytes, cursor: nat, count: nat, spans: seq<Span>, length: nat)
    requires cursor <= |input| && Positioned(cursor, Some(count), Some(length), spans)
    requires ResumesAt(limits, input, cursor, Some(count), Some(length), spans)
    requires var end := cursor + length + 2;
             end <= USIZE_MAX && end <= limits.maxFrame && end <= |input| && input[end - 2..end] == CRLF
    requires |spans| + 1 < count
    ensures var end := cursor + length + 2;
            ResumesAt(limits, input, end, Some(count), None, spans + [Span(cursor, end - 2)])
  {
    var end := cursor + length + 2;
    var spans' := spans + [Span(cursor, end - 2)];
    forall longer: Bytes | input <= longer
      ensures Continue(limits, longer, end, Some(count), None, spans') == ParseFrame(limits, longer)
    {
      assert Continue(limits, longer, cursor, Some(count), Some(length), spans) == ParseFrame(limits, longer);
      assert longer[end - 2..end] == input[end - 2..end];
      PayloadStep(limits, longer, cursor, count, spans, length);
    }
  }

  /** Where a pending payload decides the frame without being taken. */
  lemma PayloadDecides(
    limits: Limits, input: Bytes, cursor: nat, count: nat, spans: seq<Span>, length: nat)
    requires limits.Valid() && cursor <= |input| && Positioned(cursor, Some(count), Some(length), spans)
    requires ResumesAt(limits, input, cursor, Some(count), Some(length), spans)
    ensures var end := cursor + length + 2;
            var outcome := ParseFrame(limits, input);
            && (end > USIZE_MAX ==> outcome == Malformed(FrameOverflow))
            && (limits.maxFrame < end <= USIZE_MAX ==> outcome == Malformed(FrameTooLong))
            && (end <= limits.maxFrame && |input| < end ==> outcome == Incomplete)
            && (end <= limits.maxFrame && end <= |input| && input[end - 2..end] != CRLF ==>
                  outcome == Malformed(BulkNotTerminated))
  {
    ResumesNow(limits, input, cursor, Some(count), Some(length), spans);
    PayloadRefused(limits, input, cursor, count, spans, length);
    hide ParseArguments;
    hide ParsePayload;
    hide ParseFrame;
    hide ResumesAt;
    hide Inside;
  }

  /** Taking a complete payload leads to the next argument, or completes the request. */
  lemma PayloadTaken(
    limits: Limits, input: Bytes, cursor: nat, count: nat, spans: seq<Span>, length: nat)
    requires limits.Valid() && cursor <= |input| && Positioned(cursor, Some(count), Some(length), spans)
    requires ResumesAt(limits, input, cursor, Some(count), Some(length), spans)
    requires Bounded(spans, limits.maxBulk) && length <= limits.maxBulk
    ensures var end := cursor + length + 2;
            var spans' := spans + [Span(cursor, end - 2)];
            end <= USIZE_MAX && end <= limits.maxFrame && end <= |input| && input[end - 2..end] == CRLF ==>
              && Bounded(spans', limits.maxBulk) && Inside(spans', end) && Inside(spans', |input|)
              && (|spans'| < count ==> ResumesAt(limits, input, end, Some(count), None, spans'))
              && (|spans'| == count ==> ParseFrame(limits, input) == Frame(Request(Arguments(input, spans'), end)))
  {
    var end := cursor + length + 2;
    InsideGrows(spans, cursor, length, |input|, limits.maxBulk);
    ResumesNow(limits, input, cursor, Some(count), Some(length), spans);
    hide ParseArguments;
    hide ParsePayload;
    hide ParseFrame;
    hide ResumesAt;
    hide Arguments;
    hide Inside;
    hide Bounded;
    if end <= USIZE_MAX && end <= limits.maxFrame && end <= |input| && input[end - 2..end] == CRLF {
      PayloadStep(limits, input, cursor, count, spans, length);
      if |spans| + 1 < count {
        PayloadResumes(limits, input, cursor, count, spans, length);
      }
    }
  }

  lemma NoLength(digits: Bytes)
    ensures ReadLength(digits[..0]) == Ok(0)
  {
  }

  /** One more digit extends the length read so far, or decides the error of the whole header. */
  lemma LengthStep(digits: Bytes, k: nat, length: nat)
    requires k < |digits| && ReadLength(digits[..k]) == Ok(length)
    ensures var next := 10 * length + (digits[k] as int - 48);
            if !IsDigit(digits[k]) then ReadLength(digits) == Err(InvalidLength)
            else if next > USIZE_MAX then ReadLength(digits) == Err(LengthOverflow)
            else ReadLength(digits[..k + 1]) == Ok(next)
  {
    assert digits[..k + 1][..k] == digits[..k];
    if !IsDigit(digits[k]) || 10 * length + (digits[k] as int - 48) > USIZE_MAX {
      LengthErrorPersists(digits, k + 1);
    }
  }

  class Decoder {
    const limits: Limits
    var cursor: nat
    var scan: nat
    var argumentCount: Option<nat>
    var bulkLength: Option<nat>
    var spans: seq<Span>
    /** Header bytes examined for the current frame, over all calls. */
    ghost var steps: nat

    /** The saved position is consistent with `input`, and resuming there is parsing from the start. */
    ghost predicate Valid(input: Bytes)
      reads this
    {
      && limits.Valid()
      && Positioned(cursor, argumentCount, bulkLength, spans)
      && Clean(limits, input, cursor, scan)
      && (bulkLength.Some? ==> bulkLength.value <= limits.maxBulk && scan == cursor)
      && (argumentCount.Some? ==> argumentCount.value <= limits.maxArguments)
      && cursor <= limits.maxFrame
      && Bounded(spans, limits.maxBulk)
      && steps <= scan
      && Resumes(input)
    }

    ghost predicate Resumes(input: Bytes)
      requires Positioned(cursor, argumentCount, bulkLength, spans)
      requires cursor <= |input|
      reads this
    {
      ResumesAt(limits, input, cursor, argumentCount, bulkLength, spans)
    }

    ghost predicate Fresh()
      reads this
    {
      cursor == 0 && scan == 0 && argumentCount == None && bulkLength == None && spans == [] && steps == 0
    }

    constructor (limits: Limits)
      requires limits.Valid()
      ensures this.limits == limits && Fresh() && Valid([])
    {
      this.limits := limits;
      cursor, scan, argumentCount, bulkLength, spans := 0, 0, None, None, [];
      steps := 0;
    }

    /** Received bytes never invalidate the saved position. */
    lemma MoreInput(input: Bytes, more: Bytes)
      requires Valid(input)
      ensures Valid(input + more)
    {
      forall i | cursor <= i < scan
        ensures Plain(limits, input + more, cursor, i)
      {
        assert Plain(limits, input, cursor, i);
      }
      forall longer: Bytes | input + more <= longer
        ensures Continue(limits, longer, cursor, argumentCount, bulkLength, spans) == ParseFrame(limits, longer)
      {
        assert input <= longer;
      }
    }

    /** Resumes the search for the end of the current header. */
    method HeaderEnd(input: Bytes) returns (line: Line)
      requires Valid(input) && bulkLength == None
      modifies this`scan, this`steps
      ensures Valid(input)
      ensures line == FindLine(limits, input, cursor, cursor)
      ensures line.Found? ==> scan == line.end
    {
      FindLineSkipsClean(limits, input, cursor, cursor, scan);
      ghost var start := scan;
      while scan + 1 < |input|
        invariant Clean(limits, input, cursor, scan)
        invariant FindLine(limits, input, cursor, scan) == FindLine(limits, input, cursor, start)
        invariant steps - old(steps) == scan - start
        invariant start <= scan
        invariant Resumes(input)
      {
        if scan - cursor + 2 > limits.maxHeader || scan + 2 > limits.maxFrame {
          return Bad(HeaderTooLong);
        }
        if input[scan] == CR && input[scan + 1] == LF {
          return Found(scan);
        }
        if input[scan] == LF {
          return Bad(BadLineEnding);
        }
        scan := scan + 1;
        steps := steps + 1;
      }
      if |input| - cursor >= limits.maxHeader || |input| >= limits.maxFrame {
        return Bad(UnterminatedHeader);
      }
      return NeedMore;
    }

    /** Reads a length header digit by digit. */
    method LengthHeader(input: Bytes, end: nat, prefix: byte) returns (r: Result<nat, ProtocolError>)
      requires cursor <= end < |input|
      ensures r == HeaderLength(input, cursor, end, prefix)
    {
      if end <= cursor + 1 || input[cursor] != prefix {
        return Err(ExpectedLength);
      }
      hide ReadLength;
      var length := 0;
      ghost var digits := input[cursor + 1..end];
      NoLength(digits);
      for i := cursor + 1 to end
        invariant ReadLength(digits[..i - cursor - 1]) == Ok(length)
      {
        LengthStep(digits, i - cursor - 1, length);
        if !IsDigit(input[i]) {
          return Err(InvalidLength);
        }
        if 10 * length + (input[i] as int - 48) > USIZE_MAX {
          return Err(LengthOverflow);
        }
        length := 10 * length + (input[i] as int - 48);
      }
      assert digits[..|digits|] == digits;
      return Ok(length);
    }

    /** A length header was accepted: move past it with the state that follows. */
    method AdvanceHeader(end: nat)
      modifies this`cursor, this`scan
      ensures cursor == end + 2 && scan == cursor
    {
      cursor := end + 2;
      scan := cursor;
    }

    /** Decodes the array header; `false` leaves the answer in `early`. */
    method DecodeCount(input: Bytes) returns (go: bool, early: Outcome)
      requires Valid(input) && argumentCount == None
      modifies this
      ensures go ==> Valid(input) && argumentCount.Some? && bulkLength == None
      ensures !go ==> early == ParseFrame(limits, input) && !early.Frame?
      ensures !go && early == Incomplete ==> Valid(input)
    {
      hide FindLine;
      hide HeaderLength;
      hide ParseArguments;
      hide ResumesAt;
      var line := HeaderEnd(input);
      if line == NeedMore {
        return false, Incomplete;
      }
      if line.Bad? {
        return false, Malformed(line.error);
      }
      var count := LengthHeader(input, line.end, R.STAR);
      if count.Err? {
        return false, Malformed(count.error);
      }
      if count.value == 0 || count.value > limits.maxArguments {
        return false, Malformed(BadArgumentCount);
      }
      CountResumes(limits, input, line.end, count.value);
      argumentCount := Some(count.value);
      AdvanceHeader(line.end);
      return true, Incomplete;
    }

    /** Decodes one bulk header; `false` leaves the answer in `early`. */
    method DecodeLength(input: Bytes) returns (go: bool, early: Outcome)
      requires Valid(input) && argumentCount.Some? && bulkLength == None
      modifies this
      ensures argumentCount == old(argumentCount)
      ensures go ==> Valid(input) && bulkLength.Some?
      ensures !go ==> early == ParseFrame(limits, input) && !early.Frame?
      ensures !go && early == Incomplete ==> Valid(input)
      ensures spans == old(spans)
    {
      hide FindLine;
      hide HeaderLength;
      hide ParseFrame;
      hide ParsePayload;
      hide ResumesAt;
      ResumesNow(limits, input, cursor, argumentCount, bulkLength, spans);
      var line := HeaderEnd(input);
      if line == NeedMore {
        return false, Incomplete;
      }
      if line.Bad? {
        return false, Malformed(line.error);
      }
      var length := LengthHeader(input, line.end, R.DOLLAR);
      if length.Err? {
        return false, Malformed(length.error);
      }
      if length.value > limits.maxBulk {
        return false, Malformed(BulkTooLong);
      }
      LengthResumes(limits, input, cursor, argumentCount.value, spans, line.end, length.value);
      AdvanceHeader(line.end);
      bulkLength := Some(length.value);
      return true, Incomplete;
    }

    /**
     * Takes one bulk payload; `false` leaves the answer in `early`. After the last argument the
     * spans are those of the whole request.
     */
    method DecodePayload(input: Bytes) returns (go: bool, early: Outcome)
      requires Valid(input) && bulkLength.Some?
      modifies this
      ensures argumentCount == old(argumentCount)
      ensures !go ==> early == ParseFrame(limits, input) && !early.Frame?
      ensures !go && early == Incomplete ==> Valid(input) && |input| < limits.maxFrame
      ensures go ==> |spans| == |old(spans)| + 1 <= argumentCount.value
      ensures go && |spans| < argumentCount.value ==> Valid(input) && bulkLength == None
      ensures go && |spans| == argumentCount.value ==>
                && bulkLength == None && 0 < cursor <= |input| && cursor <= limits.maxFrame
                && Inside(spans, |input|)
                && Bounded(spans, limits.maxBulk)
                && ParseFrame(limits, input) == Frame(Request(Arguments(input, spans), cursor))
    {
      PayloadDecides(limits, input, cursor, argumentCount.value, spans, bulkLength.value);
      PayloadTaken(limits, input, cursor, argumentCount.value, spans, bulkLength.value);
      hide ParseFrame;
      hide ResumesAt;
      hide Arguments;
      hide Inside;
      hide Bounded;
      hide Plain;
      var end := cursor + bulkLength.value + 2;
      if end > USIZE_MAX {
        return false, Malformed(FrameOverflow);
      }
      if end > limits.maxFrame {
        return false, Malformed(FrameTooLong);
      }
      if |input| < end {
        return false, Incomplete;
      }
      if input[end - 2..end] != CRLF {
        return false, Malformed(BulkNotTerminated);
      }
      spans := spans + [Span(cursor, end - 2)];
      cursor := end;
      scan := end;
      bulkLength := None;
      return true, Incomplete;
    }

    /**
     * Decodes at most one request from the front of `input`, which may have grown since the last
     * call. The answer is that of the whole input parsed from its start.
     */
    method Decode(input: Buffer) returns (outcome: Outcome)
      requires Valid(input.data)
      modifies this, input
      ensures outcome == ParseFrame(limits, old(input.data))
      ensures outcome == Incomplete ==>
                input.data == old(input.data) && Valid(input.data) && |input.data| < limits.maxFrame
      ensures outcome.Frame? ==>
                && input.data == old(input.data)[outcome.request.wireBytes..]
                && Fresh() && Valid(input.data)
                && 0 < |outcome.request.arguments| <= limits.maxArguments
                && outcome.request.wireBytes <= limits.maxFrame
                && forall a :: a in outcome.request.arguments ==> |a| <= limits.maxBulk
      ensures outcome.Malformed? ==> input.data == old(input.data)
    {
      hide ParseFrame;
      hide ResumesAt;
      hide Continue;
      ghost var whole := input.data;
      while true
        invariant Valid(input.data) && input.data == whole
        decreases if argumentCount == None then 1 else 0,
                  if argumentCount == None then 0 else argumentCount.value - |spans|
      {
        if argumentCount == None {
          var go, early := DecodeCount(input.data);
          if !go {
            if early == Incomplete {
              IncompleteIsShort(limits, input.data);
            }
            return early;
          }
        }
        if bulkLength == None {
          var go, early := DecodeLength(input.data);
          if !go {
            if early == Incomplete {
              IncompleteIsShort(limits, input.data);
            }
            return early;
          }
        }
        var go, early := DecodePayload(input.data);
        if !go {
          return early;
        }
        if Some(|spans|) == argumentCount {
          var arguments := Arguments(input.data, spans);
          var wireBytes := cursor;
          input.Advance(wireBytes);
          cursor := 0;
          scan := 0;
          steps := 0;
          argumentCount := None;
          spans := [];
          FreshResumes(limits, input.data);
          return Frame(Request(arguments, wireBytes));
        }
      }
    }
  }

  lemma {:induction false} LengthErrorPersists(digits: Bytes, k: nat)
    requires k <= |digits| && ReadLength(digits[..k]).Err?
    ensures ReadLength(digits) == ReadLength(digits[..k])
    decreases |digits| - k
  {
    if k == |digits| {
      assert digits[..k] == digits;
    } else {
      assert digits[..k + 1][..k] == digits[..k];
      LengthErrorPersists(digits, k + 1);
    }
  }

  /** Waiting for more input leaves room in the frame for at least one more byte. */
  lemma IncompleteIsShort(limits: Limits, input: Bytes)
    requires ParseFrame(limits, input) == Incomplete
    ensures |input| < limits.maxFrame
  {
    match FindLine(limits, input, 0, 0)
    case NeedMore =>
    case Found(end) =>
      ArgumentsIncompleteIsShort(limits, input, end + 2, HeaderLength(input, 0, end, R.STAR).value, []);
  }

  lemma {:induction false} ArgumentsIncompleteIsShort(
    limits: Limits, input: Bytes, cursor: nat, count: nat, spans: seq<Span>)
    requires cursor <= |input| && |spans| < count && Inside(spans, cursor)
    requires ParseArguments(limits, input, cursor, count, spans) == Incomplete
    ensures |input| < limits.maxFrame
    decreases count - |spans|
  {
    match FindLine(limits, input, cursor, cursor)
    case NeedMore =>
    case Found(end) =>
      var length := HeaderLength(input, cursor, end, R.DOLLAR).value;
      var next := end + 2 + length + 2;
      if next <= |input| {
        ArgumentsIncompleteIsShort(limits, input, next, count, spans + [Span(end + 2, next - 2)]);
      }
  }

  /** Takes every complete request off the front of the input. */
  method Drain(decoder: Decoder, input: Buffer) returns (stream: Stream)
    requires decoder.Valid(input.data)
    modifies decoder, input
    ensures stream == DecodeAll(decoder.limits, old(input.data))
    ensures stream.Open? ==> stream.leftover == input.data && decoder.Valid(input.data)
  {
    ghost var whole := DecodeAll(decoder.limits, input.data);
    var requests: seq<Request> := [];
    PrependNothing(whole);
    while true
      invariant decoder.Valid(input.data)
      invariant whole == Prepend(requests, DecodeAll(decoder.limits, input.data))
      decreases |input.data|
    {
      ghost var before := input.data;
      var outcome := decoder.Decode(input);
      match outcome {
        case Incomplete =>
          assert requests + [] == requests;
          return Open(requests, input.data);
        case Malformed(_) =>
          assert requests + [] == requests;
          return Closed(requests);
        case Frame(request) =>
          PrependTwice(requests, [request], DecodeAll(decoder.limits, input.data));
          requests := requests + [request];
      }
    }
  }

  /**
   * The connection's read loop over an arbitrary fragmentation: the requests, the unread bytes and
   * the failure are those of the whole stream decoded at once.
   */
  method DecodeChunks(limits: Limits, chunks: seq<Bytes>) returns (stream: Stream)
    requires limits.Valid()
    ensures stream == DecodeAll(limits, Flatten(chunks))
  {
    var decoder := new Decoder(limits);
    var input := new Buffer();
    var requests: seq<Request> := [];
    assert DecodeAll(limits, []) == Open([], []);
    hide ParseFrame;
    hide DecodeAll;
    for i := 0 to |chunks|
      invariant fresh(decoder) && fresh(input) && decoder.limits == limits
      invariant decoder.Valid(input.data)
      invariant DecodeAll(limits, Flatten(chunks[..i])) == Open(requests, input.data)
    {
      DecodeAllSplit(limits, Flatten(chunks[..i]), chunks[i]);
      assert chunks[..i + 1][..i] == chunks[..i];
      decoder.MoreInput(input.data, chunks[i]);
      input.Extend(chunks[i]);
      var more := Drain(decoder, input);
      requests := requests + more.requests;
      if more.Closed? {
        ClosedForGood(limits, chunks, i + 1);
        return Closed(requests);
      }
    }
    assert chunks[..|chunks|] == chunks;
    return Open(requests, input.data);
  }

  lemma {:induction false} ClosedForGood(limits: Limits, chunks: seq<Bytes>, k: nat)
    requires limits.Valid() && k <= |chunks|
    requires DecodeAll(limits, Flatten(chunks[..k])).Closed?
    ensures DecodeAll(limits, Flatten(chunks)) == DecodeAll(limits, Flatten(chunks[..k]))
    decreases |chunks| - k
  {
    if k == |chunks| {
      assert chunks[..k] == chunks;
    } else {
      assert chunks[..k + 1][..k] == chunks[..k];
      DecodeAllSplit(limits, Flatten(chunks[..k]), chunks[k]);
      ClosedForGood(limits, chunks, k + 1);
    }
  }
}
