/**
 `RawFramingSession`: the first frame of a raw connection carries a token, and
 nothing is delivered unless the identity provider resolves it.
 */
module RawFraming {
  import opened Prelude
  import opened Auth
  import opened Events
  import opened Frame
  import opened FrameReader

  datatype AuthState = Pending | Authenticated(identity: Identity) | Failed

  /** `asked` counts the questions put to the identity provider. */
  datatype Session = Session(
    auth: AuthState, reader: ReaderState, written: seq<byte>, buffered: seq<byte>, asked: nat)

  function NewSession(inbox: seq<ReadEvent>): Session {
    Session(Pending, ReaderState([], inbox), [], [], 0)
  }

  /** The string payload, or nothing: what the provider is asked about. */
  function TokenText(e: EventEnvelope): string {
    if e.payload.Str? then e.payload.s else ""
  }

  /** The provider's answers may change from one moment to the next, so each call brings its own. */
  function Recv(c: Codec, s: Session, resolve: string -> Option<Identity>): (Option<InterfaceEvent>, Session) {
    if s.auth.Failed? then (None, s) else
      var (out, reader) := RawNext(c, s.reader);
      var s' := s.(reader := reader);
      match s.auth
      case Authenticated(identity) =>
        (if out.Envelope? then Some(InterfaceEvent(out.e, Some(identity))) else None, s')
      case Pending =>
        if !out.Envelope? then (None, s'.(auth := Failed)) else
          match resolve(TokenText(out.e))
          case Some(identity) =>
            (Some(InterfaceEvent(out.e, Some(identity))), s'.(auth := Authenticated(identity), asked := s.asked + 1))
          case None => (None, s'.(auth := Failed, asked := s.asked + 1))
  }

  /**
   The writer is buffered: a write that fails half-way has `taken` only part of
   the frame, and what the transport does not take stays buffered and goes out
   ahead of the next frame.
   */
  function Send(c: Codec, s: Session, e: EventEnvelope, taken: nat, sink: Sink): (bool, Session) {
    if s.auth.Failed? then (false, s) else
      var waiting := s.buffered + TakenPart(Encode(c, e), taken);
      var out := sink.Accepts(|waiting|);
      (taken >= |Encode(c, e)| && out == |waiting| && sink.flushes,
       s.(written := s.written + waiting[..out], buffered := waiting[out..]))
  }

  function TakenPart(frame: seq<byte>, taken: nat): seq<byte> {
    if taken < |frame| then frame[..taken] else frame
  }

  class RawFramingSession {
    const codec: Codec
    var auth: AuthState
    var readBuf: seq<byte>
    var stream: seq<ReadEvent>
    var written: seq<byte>
    var buffered: seq<byte>
    ghost var asked: nat

    constructor (codec: Codec, stream: seq<ReadEvent>)
      ensures this.codec == codec && State() == NewSession(stream)
    {
      this.codec := codec;
      this.auth := Pending;
      this.readBuf := [];
      this.stream := stream;
      this.written := [];
      this.buffered := [];
      this.asked := 0;
    }

    ghost function State(): Session
      reads this
    {
      Session(auth, ReaderState(readBuf, stream), written, buffered, asked)
    }

    method ReadFrame() returns (out: FrameOutcome)
      modifies this`readBuf, this`stream
      ensures (out, ReaderState(readBuf, stream)) == RawNext(codec, old(ReaderState(readBuf, stream)))
    {
      while true
        invariant RawNext(codec, ReaderState(readBuf, stream)) == RawNext(codec, old(ReaderState(readBuf, stream)))
        decreases |stream|
      {
        match DecodeWithRemainder(codec, readBuf) {
          case Ok((e, consumed)) =>
            DecodersAgree(codec, readBuf);
            readBuf := readBuf[consumed..];
            return Envelope(e);
          case Err(BadJson) =>
            return InvalidData;
          case Err(_) =>
            if stream == [] {
              return EndOfStream;
            }
            var event := stream[0];
            stream := stream[1..];
            match event {
              case Chunk(data) => readBuf := readBuf + data;
              case IoError => return ReadFailed;
            }
        }
      }
    }

    method RecvEvent(resolve: string -> Option<Identity>) returns (event: Option<InterfaceEvent>)
      modifies this
      ensures (event, State()) == Recv(codec, old(State()), resolve)
    {
      match auth {
        case Failed => return None;
        case Authenticated(identity) =>
          var out := ReadFrame();
          return if out.Envelope? then Some(InterfaceEvent(out.e, Some(identity))) else None;
        case Pending =>
      }
      var out := ReadFrame();
      if !out.Envelope? {
        auth := Failed;
        return None;
      }
      var answer := resolve(TokenText(out.e));
      asked := asked + 1;
      match answer {
        case Some(identity) =>
          auth := Authenticated(identity);
          return Some(InterfaceEvent(out.e, Some(identity)));
        case None =>
          auth := Failed;
          return None;
      }
    }

    method SendEnvelope(e: EventEnvelope, taken: nat, sink: Sink) returns (ok: bool)
      modifies this
      ensures (ok, State()) == Send(codec, old(State()), e, taken, sink)
    {
      if auth.Failed? {
        return false;
      }
      var frame := Encode(codec, e);
      buffered := buffered + TakenPart(frame, taken);
      var size := |buffered|;
      var out := sink.Accepts(size);
      written := written + buffered[..out];
      buffered := buffered[out..];
      return taken >= |frame| && out == size && sink.flushes;
    }
  }

  // ---- Whole sessions ----

  datatype Op = DoRecv(resolve: string -> Option<Identity>) | DoSend(e: EventEnvelope, taken: nat, sink: Sink)

  /** A session so far: its state, the events it gave out and what its sends returned. */
  datatype Trace = Trace(s: Session, events: seq<InterfaceEvent>, sends: seq<bool>)

  function Perform(c: Codec, t: Trace, op: Op): Trace {
    match op
    case DoRecv(resolve) =>
      var (event, s) := Recv(c, t.s, resolve);
      Trace(s, if event.Some? then t.events + [event.value] else t.events, t.sends)
    case DoSend(e, taken, sink) =>
      var (ok, s) := Send(c, t.s, e, taken, sink);
      Trace(s, t.events, t.sends + [ok])
  }

  function PerformAll(c: Codec, t: Trace, ops: seq<Op>): Trace
    decreases |ops|
  {
    if ops == [] then t else PerformAll(c, Perform(c, t, ops[0]), ops[1..])
  }

  /**
   What holds throughout: the provider has been asked at most once, and before
   any event; all events carry the identity it answered with; and they are the
   first frames of the stream, in order.
   */
  ghost predicate SessionInv(c: Codec, items: seq<Item>, t: Trace) {
    && t.s.asked <= 1
    && (t.s.auth.Pending? ==> t.s.asked == 0)
    && (t.s.auth.Authenticated? ==> t.s.asked == 1)
    && (t.events != [] ==> t.s.auth.Authenticated?)
    && (t.s.auth.Authenticated? ==> t.events != [] && EventsMatch(items, Some(t.s.auth.identity), t.events))
    && (!t.s.auth.Failed? ==> |t.events| <= |items| && items[|t.events|..] == Items(c, Ahead(t.s.reader)))
  }

  lemma RecvPreserves(c: Codec, items: seq<Item>, t: Trace, resolve: string -> Option<Identity>)
    requires SessionInv(c, items, t)
    ensures SessionInv(c, items, Perform(c, t, DoRecv(resolve)))
  {
    if !t.s.auth.Failed? {
      NextItem(c, items, |t.events|, t.s.reader);
    }
  }

  /** With `n` frames handed out, the reader hands out frame `n`, or nothing. */
  lemma NextItem(c: Codec, items: seq<Item>, n: nat, r: ReaderState)
    requires n <= |items| && items[n..] == Items(c, Ahead(r))
    ensures var (out, r') := RawNext(c, r);
            if out.Envelope? then n < |items| && items[n] == Good(out.e) && items[n + 1..] == Items(c, Ahead(r'))
            else items[n..] == Items(c, Ahead(r'))
  {
    RawNextMeaning(c, r);
    if n < |items| {
      assert items[n..][0] == items[n] && items[n..][1..] == items[n + 1..];
    }
  }

  lemma {:induction false} SessionSafety(c: Codec, items: seq<Item>, t: Trace, ops: seq<Op>)
    requires SessionInv(c, items, t)
    ensures SessionInv(c, items, PerformAll(c, t, ops))
    decreases |ops|
  {
    if ops != [] {
      if ops[0].DoRecv? {
        RecvPreserves(c, items, t, ops[0].resolve);
      }
      SessionSafety(c, items, Perform(c, t, ops[0]), ops[1..]);
    }
  }

  // ---- Authentication ----

  /** The first receive among the operations, or their number when there is none. */
  function FirstRecv(ops: seq<Op>): (k: nat)
    ensures k <= |ops|
    ensures forall i :: 0 <= i < k ==> ops[i].DoSend?
    ensures k < |ops| ==> ops[k].DoRecv?
  {
    if ops == [] || ops[0].DoRecv? then 0 else 1 + FirstRecv(ops[1..])
  }

  /** What a connection deserves: the identity its first frame's token resolves to, if all of that is there. */
  function Verdict(c: Codec, r: ReaderState, resolve: string -> Option<Identity>): AuthState {
    if HasFrame(BeforeError(r)) && HeadItem(c, BeforeError(r)).Good? then
      match (match HeadItem(c, BeforeError(r)).e.payload case Str(token) => resolve(token) case _ => resolve(""))
      case Some(identity) => Authenticated(identity)
      case None => Failed
    else Failed
  }

  lemma {:induction false} AuthenticatedStays(c: Codec, t: Trace, ops: seq<Op>)
    requires t.s.auth.Authenticated?
    ensures PerformAll(c, t, ops).s.auth == t.s.auth
    decreases |ops|
  {
    if ops != [] {
      AuthenticatedStays(c, Perform(c, t, ops[0]), ops[1..]);
    }
  }

  /**
   The first receive settles authentication for good: the session ends up with
   exactly the identity that receive's provider gave for the first frame's
   token, or has failed. Until then it is pending.
   */
  lemma {:induction false} FirstReceiveDecides(c: Codec, t: Trace, ops: seq<Op>)
    requires t.s.auth.Pending?
    ensures var k := FirstRecv(ops);
            PerformAll(c, t, ops).s.auth ==
            if k == |ops| then Pending else Verdict(c, t.s.reader, ops[k].resolve)
    decreases |ops|
  {
    if ops != [] {
      var t' := Perform(c, t, ops[0]);
      if ops[0].DoSend? {
        FirstReceiveDecides(c, t', ops[1..]);
      } else {
        CallOutcomeIs(c, t.s.reader);
        assert t'.s.auth == Verdict(c, t.s.reader, ops[0].resolve);
        if t'.s.auth.Failed? {
          FailedIsAbsorbing(c, t', ops[1..]);
        } else {
          AuthenticatedStays(c, t', ops[1..]);
        }
      }
    }
  }

  /** A frame seen before the first read error is the first frame of the whole stream. */
  lemma FirstFrame(c: Codec, r: ReaderState)
    requires HasFrame(BeforeError(r))
    ensures Items(c, Ahead(r)) != [] && Items(c, Ahead(r))[0] == HeadItem(c, BeforeError(r))
  {
    BeforeErrorIsAhead(r);
    var clean, all := BeforeError(r), Ahead(r);
    assert all == clean + all[|clean|..];
    HeadStable(c, clean, all[|clean|..]);
  }

  /**
   Over every run of receives and sends on a new connection: no event before
   the provider resolved the first frame's token; the provider asked at most
   once; every event in frame order with the one identity it answered.
   */
  lemma NothingBeforeAuthentication(c: Codec, inbox: seq<ReadEvent>, ops: seq<Op>)
    ensures var t := PerformAll(c, Trace(NewSession(inbox), [], []), ops);
            var items := Items(c, Unread(inbox));
            && t.s.asked <= 1
            && (t.events != [] <==> t.s.auth.Authenticated?)
            && (t.s.auth.Authenticated? ==>
                  && t.s.asked == 1 && EventsMatch(items, Some(t.s.auth.identity), t.events)
                  && FirstRecv(ops) < |ops| && items != [] && items[0].Good?
                  && var payload := items[0].e.payload;
                     ops[FirstRecv(ops)].resolve(if payload.Str? then payload.s else "") == Some(t.s.auth.identity))
  {
    var t := Trace(NewSession(inbox), [], []);
    assert Ahead(t.s.reader) == Unread(inbox);
    SessionSafety(c, Items(c, Unread(inbox)), t, ops);
    FirstReceiveDecides(c, t, ops);
    if HasFrame(BeforeError(t.s.reader)) {
      FirstFrame(c, t.s.reader);
    }
  }

  function Refusals(ops: seq<Op>): (refused: seq<bool>)
    ensures forall i :: 0 <= i < |refused| ==> !refused[i]
  {
    if ops == [] then [] else (if ops[0].DoSend? then [false] else []) + Refusals(ops[1..])
  }

  /** `Failed` is absorbing: nothing is read, written, asked or delivered any more, and every send is refused. */
  lemma {:induction false} FailedIsAbsorbing(c: Codec, t: Trace, ops: seq<Op>)
    requires t.s.auth.Failed?
    ensures PerformAll(c, t, ops) == t.(sends := t.sends + Refusals(ops))
    decreases |ops|
  {
    if ops != [] {
      FailedIsAbsorbing(c, Perform(c, t, ops[0]), ops[1..]);
    }
  }

  /** An authenticated session that meets a malformed frame never delivers again, though it does not fail. */
  lemma {:induction false} MalformedFrameIsFinal(c: Codec, t: Trace, ops: seq<Op>)
    requires t.s.auth.Authenticated?
    requires HasFrame(Ahead(t.s.reader)) && HeadItem(c, Ahead(t.s.reader)).Malformed?
    ensures var t' := PerformAll(c, t, ops);
            t'.events == t.events && t'.s.auth == t.s.auth && Ahead(t'.s.reader) == Ahead(t.s.reader)
    decreases |ops|
  {
    if ops != [] {
      RawNextMeaning(c, t.s.reader);
      MalformedFrameIsFinal(c, Perform(c, t, ops[0]), ops[1..]);
    }
  }

  // ---- Delivery ----

  /** An authenticated receive delivers exactly when a good frame is complete before any read error, and that frame. */
  lemma AuthenticatedReceives(c: Codec, s: Session, resolve: string -> Option<Identity>)
    requires s.auth.Authenticated?
    ensures Recv(c, s, resolve).0 ==
            match CallOutcome(c, s.reader)
            case Envelope(e) => Some(InterfaceEvent(e, Some(s.auth.identity)))
            case _ => None
  {
    CallOutcomeIs(c, s.reader);
  }

  function Receives(ops: seq<Op>): nat {
    if ops == [] then 0 else (if ops[0].DoRecv? then 1 else 0) + Receives(ops[1..])
  }

  function Min(a: nat, b: nat): nat {
    if a < b then a else b
  }

  /** The event of one read, if it returned an envelope. */
  function EventOf(out: FrameOutcome, identity: Identity): seq<InterfaceEvent> {
    if out.Envelope? then [InterfaceEvent(out.e, Some(identity))] else []
  }

  function EventsOf(outs: seq<FrameOutcome>, identity: Identity): seq<InterfaceEvent> {
    if outs == [] then [] else EventOf(outs[0], identity) + EventsOf(outs[1..], identity)
  }

  lemma ReadsOneMore(c: Codec, r: ReaderState, n: nat, identity: Identity)
    ensures var (out, r') := RawNext(c, r);
            EventsOf(RawFrames(c, r, n + 1), identity) ==
            EventOf(out, identity) + EventsOf(RawFrames(c, r', n), identity)
  {
    var (out, r') := RawNext(c, r);
    assert RawFrames(c, r, n + 1)[1..] == RawFrames(c, r', n);
  }

  lemma AuthenticatedStep(c: Codec, t: Trace, op: Op)
    requires t.s.auth.Authenticated?
    ensures var t' := Perform(c, t, op);
            && t'.s.auth == t.s.auth
            && (op.DoSend? ==> t'.s.reader == t.s.reader && t'.events == t.events)
            && (op.DoRecv? ==>
                  && t'.s.reader == RawNext(c, t.s.reader).1
                  && t'.events == t.events + EventOf(RawNext(c, t.s.reader).0, t.s.auth.identity))
  {
  }

  /** Once authenticated, a session's further events are exactly the envelopes of as many reads as it is asked to receive. */
  lemma {:induction false} AuthenticatedDelivers(c: Codec, t: Trace, ops: seq<Op>)
    requires t.s.auth.Authenticated?
    ensures PerformAll(c, t, ops).events ==
            t.events + EventsOf(RawFrames(c, t.s.reader, Receives(ops)), t.s.auth.identity)
    decreases |ops|
  {
    if ops == [] {
      assert t.events + [] == t.events;
    } else {
      var t', n, identity := Perform(c, t, ops[0]), Receives(ops[1..]), t.s.auth.identity;
      AuthenticatedStep(c, t, ops[0]);
      AuthenticatedDelivers(c, t', ops[1..]);
      if ops[0].DoRecv? {
        ReadsOneMore(c, t.s.reader, n, identity);
        Assoc(t.events, EventOf(RawNext(c, t.s.reader).0, identity), EventsOf(RawFrames(c, t'.s.reader, n), identity));
      }
    }
  }

  /**
   Over every run, read errors included: a session that ends up authenticated
   has delivered exactly the envelopes of as many reads as it was asked to
   receive, with its identity; any other session nothing.
   */
  lemma {:induction false} DeliversItsReads(c: Codec, t: Trace, ops: seq<Op>)
    requires t.s.auth.Pending? && t.events == []
    ensures var t' := PerformAll(c, t, ops);
            t'.events ==
            if t'.s.auth.Authenticated? then EventsOf(RawFrames(c, t.s.reader, Receives(ops)), t'.s.auth.identity)
            else []
    decreases |ops|
  {
    if ops != [] {
      var t' := Perform(c, t, ops[0]);
      if ops[0].DoSend? {
        DeliversItsReads(c, t', ops[1..]);
      } else if t'.s.auth.Failed? {
        FailedIsAbsorbing(c, t', ops[1..]);
      } else {
        AuthenticatedStays(c, t', ops[1..]);
        AuthenticatedDelivers(c, t', ops[1..]);
        ReadsOneMore(c, t.s.reader, Receives(ops[1..]), t'.s.auth.identity);
      }
    }
  }

  lemma {:induction false} EventsOfPrefix(outs: seq<FrameOutcome>, identity: Identity, k: nat)
    requires k <= |outs| && forall i :: 0 <= i < |outs| ==> (outs[i].Envelope? <==> i < k)
    ensures |EventsOf(outs, identity)| == k
    decreases |outs|
  {
    if outs != [] {
      assert forall i :: 0 <= i < |outs| - 1 ==> outs[1..][i] == outs[i + 1];
      EventsOfPrefix(outs[1..], identity, if k == 0 then 0 else k - 1);
    }
  }

  /**
   On a stream without read errors, after any run: an authenticated session has
   delivered as many events as it was asked to receive, up to the first
   malformed frame or the end; any other session none. With
   `NothingBeforeAuthentication`, which ones they are.
   */
  lemma DeliversWhatIsAsked(c: Codec, inbox: seq<ReadEvent>, ops: seq<Op>)
    requires NoIoError(inbox)
    ensures var t := PerformAll(c, Trace(NewSession(inbox), [], []), ops);
            |t.events| ==
            if t.s.auth.Authenticated? then Min(Receives(ops), FirstMalformed(Items(c, Unread(inbox)))) else 0
  {
    var t, n := Trace(NewSession(inbox), [], []), Receives(ops);
    DeliversItsReads(c, t, ops);
    var t' := PerformAll(c, t, ops);
    if t'.s.auth.Authenticated? {
      assert Ahead(t.s.reader) == Unread(inbox);
      RawFramesClosedForm(c, t.s.reader, n);
      EventsOfPrefix(RawFrames(c, t.s.reader, n), t'.s.auth.identity, Min(n, FirstMalformed(Items(c, Unread(inbox)))));
    }
  }

  // ---- What goes out ----

  /** A send reports success precisely when its frame and all before it are out, nothing is left, and the flush succeeded. */
  lemma SendSucceedsIff(c: Codec, s: Session, e: EventEnvelope, taken: nat, sink: Sink)
    ensures var (ok, s') := Send(c, s, e, taken, sink);
            ok <==> sink.flushes && s'.buffered == [] && s'.written == Output(s) + Encode(c, e)
  {
    var (ok, s') := Send(c, s, e, taken, sink);
    PerformOutput(c, Trace(s, [], []), DoSend(e, taken, sink));
    if ok || (s'.buffered == [] && s'.written == Output(s) + Encode(c, e)) {
      assert |Encode(c, e)| >= 4;
      assert Output(s') == s'.written + s'.buffered;
    }
  }

  /** The envelopes sent while the session had not failed. */
  function Sent(c: Codec, t: Trace, ops: seq<Op>): seq<EventEnvelope>
    decreases |ops|
  {
    if ops == [] then [] else
      (if ops[0].DoSend? && !t.s.auth.Failed? then [ops[0].e] else []) + Sent(c, Perform(c, t, ops[0]), ops[1..])
  }

  /** The parts of their frames that the writer took. */
  function Taken(c: Codec, t: Trace, ops: seq<Op>): seq<byte>
    decreases |ops|
  {
    if ops == [] then [] else
      (if ops[0].DoSend? && !t.s.auth.Failed? then TakenPart(Encode(c, ops[0].e), ops[0].taken) else []) +
      Taken(c, Perform(c, t, ops[0]), ops[1..])
  }

  /** The writer took every frame whole, whether or not the transport then did. */
  predicate TakenWhole(c: Codec, ops: seq<Op>) {
    forall i :: 0 <= i < |ops| && ops[i].DoSend? ==> ops[i].taken >= |Encode(c, ops[i].e)|
  }

  function Output(s: Session): seq<byte> {
    s.written + s.buffered
  }

  lemma PerformOutput(c: Codec, t: Trace, op: Op)
    ensures Output(Perform(c, t, op).s) ==
            Output(t.s) +
            if op.DoSend? && !t.s.auth.Failed? then TakenPart(Encode(c, op.e), op.taken) else []
  {
    if op.DoSend? && !t.s.auth.Failed? {
      var part := TakenPart(Encode(c, op.e), op.taken);
      var waiting := t.s.buffered + part;
      MoveAlong(t.s.written, waiting, op.sink.Accepts(|waiting|));
      assert t.s.written + waiting == Output(t.s) + part;
    } else {
      assert Output(t.s) + [] == Output(t.s);
    }
  }

  lemma MoveAlong(written: seq<byte>, waiting: seq<byte>, out: nat)
    requires out <= |waiting|
    ensures (written + waiting[..out]) + waiting[out..] == written + waiting
  {
  }

  /**
   On every transport, failing or not, nothing the writer took is lost, doubled
   or reordered: the bytes out and those still buffered are exactly it.
   */
  lemma {:induction false} OutputIsWhatWasTaken(c: Codec, t: Trace, ops: seq<Op>)
    ensures Output(PerformAll(c, t, ops).s) == Output(t.s) + Taken(c, t, ops)
    decreases |ops|
  {
    if ops != [] {
      PerformOutput(c, t, ops[0]);
      OutputIsWhatWasTaken(c, Perform(c, t, ops[0]), ops[1..]);
    }
  }

  lemma EncodeAllFirst(c: Codec, e: EventEnvelope, es: seq<EventEnvelope>)
    ensures EncodeAll(c, [e] + es) == Encode(c, e) + EncodeAll(c, es)
  {
    assert ([e] + es)[1..] == es;
  }

  lemma {:induction false} TakenIsEncoded(c: Codec, t: Trace, ops: seq<Op>)
    requires TakenWhole(c, ops)
    ensures Taken(c, t, ops) == EncodeAll(c, Sent(c, t, ops))
    decreases |ops|
  {
    if ops != [] {
      var later := Sent(c, Perform(c, t, ops[0]), ops[1..]);
      TakenIsEncoded(c, Perform(c, t, ops[0]), ops[1..]);
      if ops[0].DoSend? && !t.s.auth.Failed? {
        EncodeAllFirst(c, ops[0].e, later);
      } else {
        assert [] + later == later;
      }
    }
  }

  /**
   So as long as the writer takes frames whole, what is out or buffered is
   exactly the frames sent, in order, even across failed flushes.
   */
  lemma WrittenIsWhatWasSent(c: Codec, t: Trace, ops: seq<Op>)
    requires TakenWhole(c, ops)
    ensures Output(PerformAll(c, t, ops).s) == Output(t.s) + EncodeAll(c, Sent(c, t, ops))
  {
    OutputIsWhatWasTaken(c, t, ops);
    TakenIsEncoded(c, t, ops);
  }

  /**
   A send that succeeds leaves nothing buffered; in particular it carries out
   the frames of earlier sends that reported failure, ahead of its own.
   */
  lemma SuccessCarriesEarlierFailures(c: Codec, t: Trace, ops: seq<Op>, last: Op)
    requires TakenWhole(c, ops) && last.DoSend?
    requires var s := PerformAll(c, t, ops).s; Send(c, s, last.e, last.taken, last.sink).0
    ensures var s := PerformAll(c, t, ops).s;
            Send(c, s, last.e, last.taken, last.sink).1.written ==
            Output(t.s) + EncodeAll(c, Sent(c, t, ops)) + Encode(c, last.e)
  {
    WrittenIsWhatWasSent(c, t, ops);
    PerformOutput(c, PerformAll(c, t, ops), last);
  }
}
