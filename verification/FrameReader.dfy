/**
 `FrameFramedReader` and `FrameFramedWriter`, and the independent read loop of
 `RawFramingSession`. A transport is the list of results its coming `read`
 calls give: any non-empty chunks, with I/O errors anywhere between them, and
 end of stream once the list is used up.
 */
module FrameReader {
  import opened Prelude
  import opened Frame

  type Packet = p: seq<byte> | 0 < |p| witness [0]

  datatype ReadEvent = Chunk(data: Packet) | IoError

  datatype ReaderState = ReaderState(buf: seq<byte>, inbox: seq<ReadEvent>)

  datatype FrameOutcome = Envelope(e: EventEnvelope) | InvalidData | EndOfStream | ReadFailed

  /**
   What one write meets: how many more bytes the transport takes, if it stops
   taking them, and whether the flush that follows succeeds.
   */
  datatype Sink = Sink(room: Option<nat>, flushes: bool) {
    function Accepts(n: nat): (taken: nat)
      ensures taken <= n
    {
      if room.None? || n <= room.value then n else room.value
    }
  }

  function Unread(inbox: seq<ReadEvent>): seq<byte> {
    if inbox == [] then []
    else if inbox[0].Chunk? then inbox[0].data + Unread(inbox[1..])
    else Unread(inbox[1..])
  }

  /** Everything not yet handed out: the buffered bytes, then the unread ones. */
  function Ahead(r: ReaderState): seq<byte> {
    r.buf + Unread(r.inbox)
  }

  predicate NoIoError(inbox: seq<ReadEvent>) {
    forall i :: 0 <= i < |inbox| ==> inbox[i].Chunk?
  }

  function OutcomeOf(item: Item): FrameOutcome {
    match item
    case Good(e) => Envelope(e)
    case Malformed => InvalidData
  }

  /** One `read_frame` call of `FrameFramedReader`: a malformed frame is drained too. */
  function NextFrame(c: Codec, r: ReaderState): (FrameOutcome, ReaderState)
    decreases |r.inbox|
  {
    if HasFrame(r.buf) then
      (OutcomeOf(HeadItem(c, r.buf)), r.(buf := r.buf[FrameLength(r.buf)..]))
    else if r.inbox == [] then
      (EndOfStream, r)
    else
      match r.inbox[0]
      case Chunk(data) => NextFrame(c, ReaderState(r.buf + data, r.inbox[1..]))
      case IoError => (ReadFailed, r.(inbox := r.inbox[1..]))
  }

  /** A `read_frame` call dropped after at most `polls` of its reads: their chunks stay buffered. */
  function Abandoned(r: ReaderState, polls: nat): ReaderState
    decreases polls
  {
    if polls == 0 || HasFrame(r.buf) || r.inbox == [] || r.inbox[0].IoError? then r
    else Abandoned(ReaderState(r.buf + r.inbox[0].data, r.inbox[1..]), polls - 1)
  }

  /** One `read_frame` call of `RawFramingSession`: a malformed frame stays in the buffer. */
  function RawNext(c: Codec, r: ReaderState): (FrameOutcome, ReaderState)
    decreases |r.inbox|
  {
    match DecodeWithRemainder(c, r.buf)
    case Ok(pair) =>
      DecodersAgree(c, r.buf);
      (Envelope(pair.0), r.(buf := r.buf[pair.1..]))
    case Err(BadJson) => (InvalidData, r)
    case Err(_) =>
      if r.inbox == [] then
        (EndOfStream, r)
      else
        match r.inbox[0]
        case Chunk(data) => RawNext(c, ReaderState(r.buf + data, r.inbox[1..]))
        case IoError => (ReadFailed, r.(inbox := r.inbox[1..]))
  }

  class FrameFramedReader {
    const codec: Codec
    var stream: seq<ReadEvent>
    var buf: seq<byte>

    constructor (codec: Codec, stream: seq<ReadEvent>)
      ensures this.codec == codec && State() == ReaderState([], stream)
    {
      this.codec := codec;
      this.stream := stream;
      this.buf := [];
    }

    function State(): ReaderState
      reads this
    {
      ReaderState(buf, stream)
    }

    method ReadFrame() returns (out: FrameOutcome)
      modifies this
      ensures (out, State()) == NextFrame(codec, old(State()))
    {
      while true
        invariant NextFrame(codec, State()) == NextFrame(codec, old(State()))
        decreases |stream|
      {
        if |buf| >= 4 {
          var len := U32FromBe(buf[..4]);
          var total := 4 + len;
          if |buf| >= total {
            var body := buf[4..total];
            var parsed := codec.parse(body);
            buf := buf[total..];
            return match parsed case Some(e) => Envelope(e) case None => InvalidData;
          }
        }
        if stream == [] {
          return EndOfStream;
        }
        var event := stream[0];
        stream := stream[1..];
        match event {
          case Chunk(data) => buf := buf + data;
          case IoError => return ReadFailed;
        }
      }
    }

    method AbandonRead(polls: nat)
      modifies this
      ensures State() == Abandoned(old(State()), polls)
    {
      var left := polls;
      while left > 0 && !HasFrame(buf) && stream != [] && stream[0].Chunk?
        invariant Abandoned(State(), left) == Abandoned(old(State()), polls)
      {
        buf := buf + stream[0].data;
        stream := stream[1..];
        left := left - 1;
      }
    }
  }

  class FrameFramedWriter {
    const codec: Codec
    var written: seq<byte>

    constructor (codec: Codec)
      ensures this.codec == codec && written == []
    {
      this.codec := codec;
      this.written := [];
    }

    /** Fails when the transport does not take the whole frame, and also when only the flush fails. */
    method WriteFrame(e: EventEnvelope, sink: Sink) returns (ok: bool)
      modifies this
      ensures var frame := Encode(codec, e);
              && written == old(written) + frame[..sink.Accepts(|frame|)]
              && (ok <==> sink.Accepts(|frame|) == |frame| && sink.flushes)
    {
      var frame := Encode(codec, e);
      var taken := sink.Accepts(|frame|);
      written := written + frame[..taken];
      if taken < |frame| {
        return false;
      }
      return sink.flushes;
    }
  }

  // ---- One call ----

  lemma AheadAfterChunk(r: ReaderState)
    requires r.inbox != [] && r.inbox[0].Chunk?
    ensures Ahead(ReaderState(r.buf + r.inbox[0].data, r.inbox[1..])) == Ahead(r)
  {
  }

  /** Dropping a read half-way and starting another is the same as never having dropped it. */
  lemma {:induction false} AbandonedReadIsHarmless(c: Codec, r: ReaderState, polls: nat)
    ensures NextFrame(c, Abandoned(r, polls)) == NextFrame(c, r)
    ensures Ahead(Abandoned(r, polls)) == Ahead(r)
    decreases polls
  {
    if polls > 0 && !HasFrame(r.buf) && r.inbox != [] && r.inbox[0].Chunk? {
      AheadAfterChunk(r);
      AbandonedReadIsHarmless(c, ReaderState(r.buf + r.inbox[0].data, r.inbox[1..]), polls - 1);
    }
  }

  /**
   A call hands out the first frame of the bytes ahead, whatever the chunking,
   and removes exactly that frame; otherwise it loses nothing.
   */
  lemma {:induction false} NextFrameMeaning(c: Codec, r: ReaderState)
    ensures var (out, r') := NextFrame(c, r);
            match out
            case EndOfStream => !HasFrame(Ahead(r)) && Ahead(r') == Ahead(r) == r'.buf && r'.inbox == []
            case ReadFailed => Ahead(r') == Ahead(r) && |r'.inbox| < |r.inbox| && !NoIoError(r.inbox)
            case _ => && HasFrame(Ahead(r)) && out == OutcomeOf(HeadItem(c, Ahead(r)))
                      && Ahead(r') == Ahead(r)[FrameLength(Ahead(r))..]
    ensures NoIoError(r.inbox) ==> NoIoError(NextFrame(c, r).1.inbox)
    decreases |r.inbox|
  {
    if HasFrame(r.buf) {
      HeadStable(c, r.buf, Unread(r.inbox));
    } else if r.inbox != [] && r.inbox[0].Chunk? {
      AheadAfterChunk(r);
      NextFrameMeaning(c, ReaderState(r.buf + r.inbox[0].data, r.inbox[1..]));
    }
  }

  /** The same for the raw session, except that a malformed frame is kept. */
  lemma {:induction false} RawNextMeaning(c: Codec, r: ReaderState)
    ensures var (out, r') := RawNext(c, r);
            match out
            case EndOfStream => !HasFrame(Ahead(r)) && Ahead(r') == Ahead(r) == r'.buf && r'.inbox == []
            case ReadFailed => Ahead(r') == Ahead(r) && |r'.inbox| < |r.inbox| && !NoIoError(r.inbox)
            case InvalidData => && HasFrame(Ahead(r)) && HeadItem(c, Ahead(r)) == Malformed
                                && Ahead(r') == Ahead(r) && RawNext(c, r') == (out, r')
            case Envelope(e) => && HasFrame(Ahead(r)) && HeadItem(c, Ahead(r)) == Good(e)
                                && Ahead(r') == Ahead(r)[FrameLength(Ahead(r))..]
    ensures NoIoError(r.inbox) ==> NoIoError(RawNext(c, r).1.inbox)
    decreases |r.inbox|
  {
    DecodersAgree(c, r.buf);
    if HasFrame(r.buf) {
      HeadStable(c, r.buf, Unread(r.inbox));
    } else if r.inbox != [] && r.inbox[0].Chunk? {
      AheadAfterChunk(r);
      RawNextMeaning(c, ReaderState(r.buf + r.inbox[0].data, r.inbox[1..]));
    }
  }

  /** Where the first read error is, or the number of reads when there is none. */
  function FirstError(inbox: seq<ReadEvent>): (k: nat)
    ensures k <= |inbox|
    ensures forall i :: 0 <= i < k ==> inbox[i].Chunk?
    ensures k < |inbox| ==> inbox[k].IoError?
  {
    if inbox == [] || inbox[0].IoError? then 0 else 1 + FirstError(inbox[1..])
  }

  /** The bytes a reader gets to see before the first read error. */
  function BeforeError(r: ReaderState): seq<byte> {
    r.buf + Unread(r.inbox[..FirstError(r.inbox)])
  }

  /** What one call returns, told from its input alone. */
  function CallOutcome(c: Codec, r: ReaderState): FrameOutcome {
    if HasFrame(BeforeError(r)) then OutcomeOf(HeadItem(c, BeforeError(r)))
    else if FirstError(r.inbox) < |r.inbox| then ReadFailed
    else EndOfStream
  }

  lemma BeforeErrorAfterChunk(r: ReaderState)
    requires r.inbox != [] && r.inbox[0].Chunk?
    ensures var r' := ReaderState(r.buf + r.inbox[0].data, r.inbox[1..]);
            BeforeError(r') == BeforeError(r) && FirstError(r.inbox) == 1 + FirstError(r'.inbox)
  {
    var k := FirstError(r.inbox);
    assert r.inbox[..k][1..] == r.inbox[1..][..k - 1];
  }

  lemma BeforeErrorIsAhead(r: ReaderState)
    ensures BeforeError(r) <= Ahead(r)
    decreases |r.inbox|
  {
    if r.inbox != [] && r.inbox[0].Chunk? {
      AheadAfterChunk(r);
      BeforeErrorAfterChunk(r);
      BeforeErrorIsAhead(ReaderState(r.buf + r.inbox[0].data, r.inbox[1..]));
    }
  }

  /**
   Either reader returns the first frame if it is there before the first read
   error, that error if it comes first, and end of stream otherwise.
   */
  lemma {:induction false} CallOutcomeIs(c: Codec, r: ReaderState)
    ensures NextFrame(c, r).0 == RawNext(c, r).0 == CallOutcome(c, r)
    decreases |r.inbox|
  {
    DecodersAgree(c, r.buf);
    if HasFrame(r.buf) {
      HeadStable(c, r.buf, Unread(r.inbox[..FirstError(r.inbox)]));
    } else if r.inbox != [] && r.inbox[0].Chunk? {
      BeforeErrorAfterChunk(r);
      CallOutcomeIs(c, ReaderState(r.buf + r.inbox[0].data, r.inbox[1..]));
    }
  }

  /** Handing out a frame takes exactly it off the bytes before the first read error. */
  lemma {:induction false} FrameOffFront(c: Codec, r: ReaderState)
    requires HasFrame(BeforeError(r))
    ensures BeforeError(NextFrame(c, r).1) == BeforeError(r)[FrameLength(BeforeError(r))..]
    decreases |r.inbox|
  {
    if HasFrame(r.buf) {
      HeadStable(c, r.buf, Unread(r.inbox[..FirstError(r.inbox)]));
    } else {
      assert r.inbox != [] && r.inbox[0].Chunk?;
      BeforeErrorAfterChunk(r);
      FrameOffFront(c, ReaderState(r.buf + r.inbox[0].data, r.inbox[1..]));
    }
  }

  lemma {:induction false} AbandonedBeforeError(r: ReaderState, polls: nat)
    ensures BeforeError(Abandoned(r, polls)) == BeforeError(r)
    decreases polls
  {
    if polls > 0 && !HasFrame(r.buf) && r.inbox != [] && r.inbox[0].Chunk? {
      BeforeErrorAfterChunk(r);
      AbandonedBeforeError(ReaderState(r.buf + r.inbox[0].data, r.inbox[1..]), polls - 1);
    }
  }

  // ---- Any number of calls ----

  function ReadFrames(c: Codec, r: ReaderState, n: nat): (outs: seq<FrameOutcome>)
    ensures |outs| == n
    decreases n
  {
    if n == 0 then [] else
      var (out, r') := NextFrame(c, r);
      [out] + ReadFrames(c, r', n - 1)
  }

  function AfterFrames(c: Codec, r: ReaderState, n: nat): ReaderState
    decreases n
  {
    if n == 0 then r else AfterFrames(c, NextFrame(c, r).1, n - 1)
  }

  function RawFrames(c: Codec, r: ReaderState, n: nat): (outs: seq<FrameOutcome>)
    ensures |outs| == n
    decreases n
  {
    if n == 0 then [] else
      var (out, r') := RawNext(c, r);
      [out] + RawFrames(c, r', n - 1)
  }

  /** The frames among the outcomes, good or malformed. */
  function Delivered(outs: seq<FrameOutcome>): seq<Item> {
    if outs == [] then [] else
      (match outs[0]
       case Envelope(e) => [Good(e)]
       case InvalidData => [Malformed]
       case _ => []) + Delivered(outs[1..])
  }

  /**
   Over any run, with I/O errors anywhere: the bytes consumed so far followed by
   the buffered and the unread ones are the stream, and the frames handed out
   are exactly the frames of the consumed bytes, of which nothing is left over.
   */
  lemma {:induction false} Conservation(c: Codec, r: ReaderState, n: nat) returns (consumed: seq<byte>)
    ensures consumed + Ahead(AfterFrames(c, r, n)) == Ahead(r)
    ensures Items(c, consumed) == Delivered(ReadFrames(c, r, n))
    ensures Leftover(consumed) == []
    decreases n
  {
    if n == 0 {
      return [];
    }
    var (out, r') := NextFrame(c, r);
    NextFrameMeaning(c, r);
    var later := Conservation(c, r', n - 1);
    if out.EndOfStream? || out.ReadFailed? {
      return later;
    }
    consumed := PrependFrame(c, Ahead(r), later, Ahead(AfterFrames(c, r', n - 1)));
  }

  lemma PrependFrame(c: Codec, s: seq<byte>, later: seq<byte>, rest: seq<byte>) returns (consumed: seq<byte>)
    requires HasFrame(s) && s[FrameLength(s)..] == later + rest
    ensures consumed + rest == s
    ensures Items(c, consumed) == [HeadItem(c, s)] + Items(c, later)
    ensures Leftover(consumed) == Leftover(later)
  {
    consumed := s[..FrameLength(s)] + later;
    assert consumed + rest == s[..FrameLength(s)] + (later + rest);
    FrameThen(c, s, later);
  }

  lemma FrameThen(c: Codec, s: seq<byte>, later: seq<byte>)
    requires HasFrame(s)
    ensures Items(c, s[..FrameLength(s)] + later) == [HeadItem(c, s)] + Items(c, later)
    ensures Leftover(s[..FrameLength(s)] + later) == Leftover(later)
  {
    WholeFrame(c, s);
    ItemsSplit(c, s[..FrameLength(s)], later);
    assert [] + later == later;
  }

  lemma WholeFrame(c: Codec, s: seq<byte>)
    requires HasFrame(s)
    ensures Items(c, s[..FrameLength(s)]) == [HeadItem(c, s)] && Leftover(s[..FrameLength(s)]) == []
  {
    var frame := s[..FrameLength(s)];
    assert frame[..4] == s[..4];
    assert frame[4..FrameLength(frame)] == s[4..FrameLength(s)];
    assert frame[FrameLength(frame)..] == [];
    assert Items(c, []) == [];
  }

  /** What the i-th call of a framed reader returns on a stream of these frames. */
  function FramedAt(items: seq<Item>, i: nat): FrameOutcome {
    if i < |items| then OutcomeOf(items[i]) else EndOfStream
  }

  /**
   Without I/O errors the i-th call returns the i-th frame of the stream, and
   end of stream after the last: the chunking cannot be seen.
   */
  lemma {:induction false} ReadFramesClosedForm(c: Codec, r: ReaderState, n: nat)
    requires NoIoError(r.inbox)
    ensures forall i :: 0 <= i < n ==> ReadFrames(c, r, n)[i] == FramedAt(Items(c, Ahead(r)), i)
    ensures n > |Items(c, Ahead(r))| ==> AfterFrames(c, r, n) == ReaderState(Leftover(Ahead(r)), [])
    decreases n
  {
    if n > 0 {
      NextFrameMeaning(c, r);
      ReadFramesClosedForm(c, NextFrame(c, r).1, n - 1);
    }
  }

  /**
   Any split of concatenated encodings into non-empty chunks gives back exactly
   the envelopes, then end of stream with an empty buffer.
   */
  lemma WrittenFramesAreRead(c: Codec, es: seq<EventEnvelope>, inbox: seq<ReadEvent>)
    requires c.Lawful()
    requires forall i :: 0 <= i < |es| ==> Fits(c, es[i])
    requires NoIoError(inbox) && Unread(inbox) == EncodeAll(c, es)
    ensures var outs := ReadFrames(c, ReaderState([], inbox), |es| + 1);
            && (forall i :: 0 <= i < |es| ==> outs[i] == Envelope(es[i]))
            && outs[|es|] == EndOfStream
    ensures AfterFrames(c, ReaderState([], inbox), |es| + 1) == ReaderState([], [])
  {
    var r := ReaderState([], inbox);
    assert Ahead(r) == EncodeAll(c, es) + [];
    ItemsOfEncodeAll(c, es, []);
    LeftoverOfEncodeAll(c, es, []);
    ReadFramesClosedForm(c, r, |es| + 1);
  }

  /** Where the first malformed body is, or the number of frames when there is none. */
  function FirstMalformed(items: seq<Item>): (k: nat)
    ensures k <= |items|
    ensures forall i :: 0 <= i < k ==> items[i].Good?
    ensures k < |items| ==> items[k].Malformed?
  {
    if items == [] || items[0].Malformed? then 0 else 1 + FirstMalformed(items[1..])
  }

  /** What the i-th call of a raw session's reader returns on a stream of these frames. */
  function RawAt(items: seq<Item>, i: nat): FrameOutcome {
    var k := FirstMalformed(items);
    if i < k then OutcomeOf(items[i]) else if k < |items| then InvalidData else EndOfStream
  }

  /** The raw session reads the same frames up to the first malformed body and then repeats its failure. */
  lemma {:induction false} RawFramesClosedForm(c: Codec, r: ReaderState, n: nat)
    requires NoIoError(r.inbox)
    ensures forall i :: 0 <= i < n ==> RawFrames(c, r, n)[i] == RawAt(Items(c, Ahead(r)), i)
    decreases n
  {
    if n > 0 {
      RawNextMeaning(c, r);
      RawFramesClosedForm(c, RawNext(c, r).1, n - 1);
    }
  }

  /**
   On the same bytes, chunked differently, the two readers return the same
   outcomes up to and including the first malformed body. There the framed
   reader drops that frame and goes on with the next one; the raw session
   returns the same failure for ever.
   */
  lemma ReadersAgreeUntilMalformed(c: Codec, framed: ReaderState, raw: ReaderState, n: nat, i: nat)
    requires NoIoError(framed.inbox) && NoIoError(raw.inbox)
    requires Ahead(framed) == Ahead(raw)
    requires i < n
    ensures var items := Items(c, Ahead(framed));
            var k := FirstMalformed(items);
            && (i <= k || k == |items| ==> ReadFrames(c, framed, n)[i] == RawFrames(c, raw, n)[i])
            && (k < i < |items| ==> ReadFrames(c, framed, n)[i] == OutcomeOf(items[i]))
            && (k <= i && k < |items| ==> RawFrames(c, raw, n)[i] == InvalidData)
  {
    ReadFramesClosedForm(c, framed, n);
    RawFramesClosedForm(c, raw, n);
  }
}
