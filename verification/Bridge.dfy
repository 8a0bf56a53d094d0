/**
 The SSH control channel bridge: a `select!` loop that pumps frames both ways
 and may abandon a read half-way through a frame.
 */
module Bridge {
  import opened Prelude
  import opened Auth
  import opened Events
  import opened Frame
  import opened FrameReader

  datatype Ending =
    | Running
    | PeerClosed      // end of the inbound stream
    | BadFrame        // malformed inbound body
    | ReadError
    | ReceiverGone    // nobody takes events any more: the one in hand is lost
    | QueueClosed     // the sending side is gone and its queue drained
    | WriteError

  datatype BridgeState = BridgeState(
    reader: ReaderState,
    queue: seq<EventEnvelope>,
    events: seq<InterfaceEvent>,
    outbound: seq<byte>,
    ending: Ending)

  /**
   One turn of the `select!` loop. Either the read branch completes, and
   `accepted` says whether the event's receiver still exists; or the queue
   branch completes, after the read branch was polled through up to `polls`
   reads and dropped, and `sink` is what the write meets.
   */
  datatype Turn = ReadWins(accepted: bool) | QueueWins(polls: nat, sink: Sink)

  function Initial(inbox: seq<ReadEvent>, queue: seq<EventEnvelope>): BridgeState {
    BridgeState(ReaderState([], inbox), queue, [], [], Running)
  }

  function Next(c: Codec, identity: Option<Identity>, b: BridgeState, turn: Turn): BridgeState {
    if !b.ending.Running? then b else
      match turn
      case ReadWins(accepted) => Receive(c, identity, b, accepted)
      case QueueWins(polls, sink) => Send(c, b.(reader := Abandoned(b.reader, polls)), sink)
  }

  function Receive(c: Codec, identity: Option<Identity>, b: BridgeState, accepted: bool): BridgeState {
    var (out, reader) := NextFrame(c, b.reader);
    var b' := b.(reader := reader);
    match out
    case Envelope(e) =>
      if accepted then b'.(events := b.events + [InterfaceEvent(e, identity)]) else b'.(ending := ReceiverGone)
    case EndOfStream => b'.(ending := PeerClosed)
    case InvalidData => b'.(ending := BadFrame)
    case ReadFailed => b'.(ending := ReadError)
  }

  function Send(c: Codec, b: BridgeState, sink: Sink): BridgeState {
    if b.queue == [] then b.(ending := QueueClosed) else
      var frame := Encode(c, b.queue[0]);
      var out := sink.Accepts(|frame|);
      b.(queue := b.queue[1..], outbound := b.outbound + frame[..out],
         ending := if out == |frame| && sink.flushes then Running else WriteError)
  }

  function Run(c: Codec, identity: Option<Identity>, b: BridgeState, turns: seq<Turn>): BridgeState
    decreases |turns|
  {
    if turns == [] then b else Run(c, identity, Next(c, identity, b, turns[0]), turns[1..])
  }

  /** The loop itself, its `select!` choices made by `turns`. */
  method RunControlChannelBridge(
    reader: FrameFramedReader, writer: FrameFramedWriter, identity: Option<Identity>,
    envelopes: seq<EventEnvelope>, turns: seq<Turn>)
    returns (queue: seq<EventEnvelope>, events: seq<InterfaceEvent>, ending: Ending)
    requires reader.codec == writer.codec
    modifies reader, writer
    ensures BridgeState(reader.State(), queue, events, writer.written, ending) ==
            Run(reader.codec, identity, BridgeState(old(reader.State()), envelopes, [], old(writer.written), Running), turns)
  {
    queue, events, ending := envelopes, [], Running;
    ghost var c, b0 := reader.codec, BridgeState(reader.State(), envelopes, [], writer.written, Running);
    for i := 0 to |turns|
      invariant Run(c, identity, b0, turns) ==
                Run(c, identity, BridgeState(reader.State(), queue, events, writer.written, ending), turns[i..])
    {
      assert turns[i..][0] == turns[i] && turns[i..][1..] == turns[i + 1..];
      if ending.Running? {
        match turns[i] {
          case ReadWins(accepted) =>
            var out := reader.ReadFrame();
            match out {
              case Envelope(e) =>
                if accepted { events := events + [InterfaceEvent(e, identity)]; } else { ending := ReceiverGone; }
              case EndOfStream => ending := PeerClosed;
              case InvalidData => ending := BadFrame;
              case ReadFailed => ending := ReadError;
            }
          case QueueWins(polls, sink) =>
            reader.AbandonRead(polls);
            if queue == [] {
              ending := QueueClosed;
            } else {
              var e := queue[0];
              queue := queue[1..];
              var ok := writer.WriteFrame(e, sink);
              if !ok { ending := WriteError; }
            }
        }
      }
    }
    assert turns[|turns|..] == [];
  }

  // ---- Inbound ----

  /** Why the loop stopped says what was left undelivered. */
  predicate InboundEnding(items: seq<Item>, b: BridgeState) {
    match b.ending
    case PeerClosed => |b.events| == |items|
    case BadFrame => |b.events| < |items| && items[|b.events|].Malformed?
    case ReceiverGone => |b.events| < |items| && items[|b.events|].Good?
    case _ => true
  }

  ghost predicate InboundInv(c: Codec, identity: Option<Identity>, items: seq<Item>, b: BridgeState) {
    && EventsMatch(items, identity, b.events)
    && InboundEnding(items, b)
    && (b.ending.Running? ==> items[|b.events|..] == Items(c, Ahead(b.reader)))
  }

  lemma ReceivePreservesInbound(
    c: Codec, identity: Option<Identity>, items: seq<Item>, b: BridgeState, accepted: bool)
    requires InboundInv(c, identity, items, b) && b.ending.Running?
    ensures InboundInv(c, identity, items, Receive(c, identity, b, accepted))
  {
    var n := |b.events|;
    NextFrameMeaning(c, b.reader);
    if n < |items| {
      assert items[n..][0] == items[n] && items[n..][1..] == items[n + 1..];
    }
  }

  lemma NextPreservesInbound(c: Codec, identity: Option<Identity>, items: seq<Item>, b: BridgeState, turn: Turn)
    requires InboundInv(c, identity, items, b)
    ensures InboundInv(c, identity, items, Next(c, identity, b, turn))
  {
    if b.ending.Running? {
      match turn {
        case ReadWins(accepted) => ReceivePreservesInbound(c, identity, items, b, accepted);
        case QueueWins(polls, _) => AbandonedReadIsHarmless(c, b.reader, polls);
      }
    }
  }

  lemma {:induction false} RunPreservesInbound(
    c: Codec, identity: Option<Identity>, items: seq<Item>, b: BridgeState, turns: seq<Turn>)
    requires InboundInv(c, identity, items, b)
    ensures InboundInv(c, identity, items, Run(c, identity, b, turns))
    decreases |turns|
  {
    if turns != [] {
      NextPreservesInbound(c, identity, items, b, turns[0]);
      RunPreservesInbound(c, identity, items, Next(c, identity, b, turns[0]), turns[1..]);
    }
  }

  // ---- Outbound ----

  /** Exactly the first `sent` envelopes left the queue and went out whole. */
  predicate WholeFramesOut(c: Codec, queued: seq<EventEnvelope>, b: BridgeState, sent: nat)
    requires sent <= |queued|
  {
    b.queue == queued[sent..] && b.outbound == EncodeAll(c, queued[..sent])
  }

  /** One more envelope left the queue, and only part of its frame went out. */
  ghost predicate PartialFrameOut(c: Codec, queued: seq<EventEnvelope>, b: BridgeState, sent: nat)
    requires sent <= |queued|
  {
    && sent < |queued| && b.queue == queued[sent + 1..]
    && exists k :: 0 <= k < |Encode(c, queued[sent])| &&
         b.outbound == EncodeAll(c, queued[..sent]) + Encode(c, queued[sent])[..k]
  }

  /**
   Of `queued`, `sent` went out whole. Only a write error leaves part of one
   more frame, unless it was the flush after the last whole frame that failed.
   */
  ghost predicate OutboundInv(c: Codec, queued: seq<EventEnvelope>, b: BridgeState, sent: nat) {
    && sent <= |queued|
    && (WholeFramesOut(c, queued, b, sent) || (b.ending.WriteError? && PartialFrameOut(c, queued, b, sent)))
    && (b.ending.WriteError? && WholeFramesOut(c, queued, b, sent) ==> sent > 0)
    && (b.ending.QueueClosed? ==> sent == |queued|)
  }

  lemma NextPreservesOutbound(
    c: Codec, identity: Option<Identity>, queued: seq<EventEnvelope>, b: BridgeState, sent: nat, turn: Turn)
    returns (sent': nat)
    requires OutboundInv(c, queued, b, sent)
    ensures OutboundInv(c, queued, Next(c, identity, b, turn), sent')
  {
    sent' := sent;
    if b.ending.Running? && turn.QueueWins? && b.queue != [] {
      var frame := Encode(c, queued[sent]);
      assert b.queue[0] == queued[sent] && b.queue[1..] == queued[sent + 1..];
      if turn.sink.Accepts(|frame|) == |frame| {
        assert frame[..|frame|] == frame;
        assert queued[..sent + 1] == queued[..sent] + [queued[sent]];
        EncodeAllAppend(c, queued[..sent], queued[sent]);
        sent' := sent + 1;
      }
    }
  }

  lemma {:induction false} RunPreservesOutbound(
    c: Codec, identity: Option<Identity>, queued: seq<EventEnvelope>, b: BridgeState, sent: nat, turns: seq<Turn>)
    returns (sent': nat)
    requires OutboundInv(c, queued, b, sent)
    ensures OutboundInv(c, queued, Run(c, identity, b, turns), sent')
    decreases |turns|
  {
    sent' := sent;
    if turns != [] {
      sent' := NextPreservesOutbound(c, identity, queued, b, sent, turns[0]);
      sent' := RunPreservesOutbound(c, identity, queued, Next(c, identity, b, turns[0]), sent', turns[1..]);
    }
  }

  // ---- Whole runs ----

  /**
   In every interleaving of the two branches, with reads abandoned anywhere and
   any chunking: events are a prefix of the inbound frames, and the bytes sent
   are the encodings of a prefix of the queue, plus at most part of one frame
   when a write failed before its flush.
   */
  lemma BridgeSafety(
    c: Codec, identity: Option<Identity>, inbox: seq<ReadEvent>, queued: seq<EventEnvelope>, turns: seq<Turn>)
    returns (sent: nat)
    ensures var b := Run(c, identity, Initial(inbox, queued), turns);
            && EventsMatch(Items(c, Unread(inbox)), identity, b.events)
            && InboundEnding(Items(c, Unread(inbox)), b)
            && OutboundInv(c, queued, b, sent)
  {
    var b0 := Initial(inbox, queued);
    assert Ahead(b0.reader) == Unread(inbox);
    RunPreservesInbound(c, identity, Items(c, Unread(inbox)), b0, turns);
    sent := RunPreservesOutbound(c, identity, queued, b0, 0, turns);
  }

  lemma NoFrameInStrictPrefix(c: Codec, e: EventEnvelope, k: nat)
    requires Fits(c, e) && k < |Encode(c, e)|
    ensures !HasFrame(Encode(c, e)[..k])
  {
    EncodingShape(c, e, []);
    if k >= 4 {
      assert Encode(c, e)[..k][..4] == (Encode(c, e) + [])[..4];
    }
  }

  /**
   End to end: what the peer wrote as frames comes out as events in order, all
   of it once the peer has closed; and a framed reader on the other end of the
   outbound bytes sees exactly the envelopes that went out whole.
   */
  lemma BridgeEndToEnd(
    c: Codec, identity: Option<Identity>, inbox: seq<ReadEvent>, written: seq<EventEnvelope>,
    queued: seq<EventEnvelope>, turns: seq<Turn>)
    returns (sent: nat)
    requires c.Lawful()
    requires forall i :: 0 <= i < |written| ==> Fits(c, written[i])
    requires forall i :: 0 <= i < |queued| ==> Fits(c, queued[i])
    requires Unread(inbox) == EncodeAll(c, written)
    ensures var b := Run(c, identity, Initial(inbox, queued), turns);
            && |b.events| <= |written|
            && (forall i :: 0 <= i < |b.events| ==> b.events[i] == InterfaceEvent(written[i], identity))
            && (b.ending.PeerClosed? ==> |b.events| == |written|)
            && !b.ending.BadFrame?
            && sent <= |queued| && Items(c, b.outbound) == Goods(queued[..sent])
            && (b.ending.QueueClosed? ==> sent == |queued|)
  {
    var b := Run(c, identity, Initial(inbox, queued), turns);
    assert EncodeAll(c, written) == EncodeAll(c, written) + [];
    ItemsOfEncodeAll(c, written, []);
    assert Items(c, Unread(inbox)) == Goods(written);
    sent := BridgeSafety(c, identity, inbox, queued, turns);
    PeerReadsWholeFrames(c, queued, b, sent);
  }

  lemma PeerReadsWholeFrames(c: Codec, queued: seq<EventEnvelope>, b: BridgeState, sent: nat)
    requires c.Lawful() && OutboundInv(c, queued, b, sent)
    requires forall i :: 0 <= i < |queued| ==> Fits(c, queued[i])
    ensures Items(c, b.outbound) == Goods(queued[..sent])
  {
    var partial := [];
    if !WholeFramesOut(c, queued, b, sent) {
      var k :| 0 <= k < |Encode(c, queued[sent])| &&
               b.outbound == EncodeAll(c, queued[..sent]) + Encode(c, queued[sent])[..k];
      partial := Encode(c, queued[sent])[..k];
      NoFrameInStrictPrefix(c, queued[sent], k);
    }
    assert b.outbound == EncodeAll(c, queued[..sent]) + partial;
    ItemsOfEncodeAll(c, queued[..sent], partial);
  }

  // ---- When it goes on, and why it stops ----

  /** What a read turn does, told from the bytes before the first read error. */
  lemma ReceiveMeaning(c: Codec, identity: Option<Identity>, b: BridgeState, accepted: bool)
    requires b.ending.Running?
    ensures var b' := Next(c, identity, b, ReadWins(accepted));
            && b'.queue == b.queue && b'.outbound == b.outbound
            && (CallOutcome(c, b.reader).Envelope? && accepted ==>
                  && b'.ending.Running?
                  && b'.events == b.events + [InterfaceEvent(CallOutcome(c, b.reader).e, identity)])
            && (!(CallOutcome(c, b.reader).Envelope? && accepted) ==>
                  && b'.events == b.events
                  && b'.ending == match CallOutcome(c, b.reader)
                                  case Envelope(_) => ReceiverGone
                                  case EndOfStream => PeerClosed
                                  case InvalidData => BadFrame
                                  case ReadFailed => ReadError)
  {
    CallOutcomeIs(c, b.reader);
  }

  /** The transport takes the whole frame and flushes it. */
  predicate Takes(c: Codec, sink: Sink, e: EventEnvelope) {
    sink.Accepts(|Encode(c, e)|) == |Encode(c, e)| && sink.flushes
  }

  /** Every turn finds something to do: a good frame and a receiver for it, or an envelope and a transport that takes it. */
  predicate Smooth(c: Codec, items: seq<Item>, queue: seq<EventEnvelope>, turns: seq<Turn>)
    decreases |turns|
  {
    turns == [] ||
    match turns[0]
    case ReadWins(accepted) =>
      accepted && items != [] && items[0].Good? && Smooth(c, items[1..], queue, turns[1..])
    case QueueWins(_, sink) =>
      queue != [] && Takes(c, sink, queue[0]) && Smooth(c, items, queue[1..], turns[1..])
  }

  function Reads(turns: seq<Turn>): nat {
    if turns == [] then 0 else (if turns[0].ReadWins? then 1 else 0) + Reads(turns[1..])
  }

  function Writes(turns: seq<Turn>): nat {
    if turns == [] then 0 else (if turns[0].QueueWins? then 1 else 0) + Writes(turns[1..])
  }

  lemma {:induction false} StoppedStays(c: Codec, identity: Option<Identity>, b: BridgeState, turns: seq<Turn>)
    requires !b.ending.Running?
    ensures Run(c, identity, b, turns) == b
    decreases |turns|
  {
    if turns != [] {
      StoppedStays(c, identity, b, turns[1..]);
    }
  }

  /** The good frames ahead of any read error. */
  function FramesAhead(c: Codec, b: BridgeState): seq<Item> {
    Items(c, BeforeError(b.reader))
  }

  lemma ReadTurn(c: Codec, identity: Option<Identity>, b: BridgeState, accepted: bool)
    requires b.ending.Running?
    ensures var b' := Next(c, identity, b, ReadWins(accepted));
            var items := FramesAhead(c, b);
            && (b'.ending.Running? <==> accepted && items != [] && items[0].Good?)
            && (b'.ending.Running? ==>
                  && FramesAhead(c, b') == items[1..] && b'.queue == b.queue && b'.outbound == b.outbound
                  && b'.events == b.events + [InterfaceEvent(items[0].e, identity)])
  {
    ReceiveMeaning(c, identity, b, accepted);
    if HasFrame(BeforeError(b.reader)) {
      FrameOffFront(c, b.reader);
    }
  }

  lemma WriteTurn(c: Codec, identity: Option<Identity>, b: BridgeState, polls: nat, sink: Sink)
    requires b.ending.Running?
    ensures var b' := Next(c, identity, b, QueueWins(polls, sink));
            && (b'.ending.Running? <==> b.queue != [] && Takes(c, sink, b.queue[0]))
            && FramesAhead(c, b') == FramesAhead(c, b) && b'.events == b.events
            && (b'.ending.Running? ==>
                  b'.queue == b.queue[1..] && b'.outbound == b.outbound + Encode(c, b.queue[0]))
  {
    AbandonedBeforeError(b.reader, polls);
  }

  /** What a running bridge has done after these turns. */
  predicate DidAll(
    c: Codec, identity: Option<Identity>, b: BridgeState, items: seq<Item>, received: nat, sent: nat, b': BridgeState)
    requires received <= |items| && sent <= |b.queue|
    requires forall i :: 0 <= i < received ==> items[i].Good?
  {
    && |b'.events| == |b.events| + received && b'.events[..|b.events|] == b.events
    && (forall i :: 0 <= i < received ==> b'.events[|b.events| + i] == InterfaceEvent(items[i].e, identity))
    && b'.queue == b.queue[sent..]
    && b'.outbound == b.outbound + EncodeAll(c, b.queue[..sent])
  }

  lemma {:induction false} SmoothSizes(c: Codec, items: seq<Item>, queue: seq<EventEnvelope>, turns: seq<Turn>)
    requires Smooth(c, items, queue, turns)
    ensures Reads(turns) <= |items| && Writes(turns) <= |queue|
    ensures forall i :: 0 <= i < Reads(turns) ==> items[i].Good?
    decreases |turns|
  {
    if turns != [] {
      if turns[0].ReadWins? {
        SmoothSizes(c, items[1..], queue, turns[1..]);
        assert forall i :: 0 < i < Reads(turns) ==> items[i] == items[1..][i - 1];
      } else {
        SmoothSizes(c, items, queue[1..], turns[1..]);
      }
    }
  }

  lemma DidOneRead(
    c: Codec, identity: Option<Identity>, b: BridgeState, b1: BridgeState, items: seq<Item>, received: nat, sent: nat,
    b': BridgeState)
    requires items != [] && received <= |items[1..]| && sent <= |b.queue| && b1.queue == b.queue
    requires forall i :: 0 <= i < 1 + received ==> items[i].Good?
    requires b1.events == b.events + [InterfaceEvent(items[0].e, identity)] && b1.outbound == b.outbound
    requires DidAll(c, identity, b1, items[1..], received, sent, b')
    ensures DidAll(c, identity, b, items, 1 + received, sent, b')
  {
    var n := |b.events|;
    assert b'.events[..n] == b'.events[..n + 1][..n] == b.events;
    assert b'.events[n] == b'.events[..n + 1][n];
    forall i | 0 <= i < 1 + received
      ensures b'.events[n + i] == InterfaceEvent(items[i].e, identity)
    {
      if i > 0 {
        assert items[1..][i - 1] == items[i];
        assert b'.events[(n + 1) + (i - 1)] == InterfaceEvent(items[1..][i - 1].e, identity);
      }
    }
  }

  lemma DidOneWrite(
    c: Codec, identity: Option<Identity>, b: BridgeState, b1: BridgeState, items: seq<Item>, received: nat, sent: nat,
    b': BridgeState)
    requires received <= |items| && b.queue != [] && b1.queue == b.queue[1..] && sent <= |b1.queue|
    requires forall i :: 0 <= i < received ==> items[i].Good?
    requires b1.events == b.events && b1.outbound == b.outbound + Encode(c, b.queue[0])
    requires DidAll(c, identity, b1, items, received, sent, b')
    ensures DidAll(c, identity, b, items, received, 1 + sent, b')
  {
    assert b.queue[1..][sent..] == b.queue[1 + sent..];
    assert b.queue[..1 + sent][1..] == b.queue[1..][..sent];
    assert EncodeAll(c, b.queue[..1 + sent]) == Encode(c, b.queue[0]) + EncodeAll(c, b1.queue[..sent]);
  }

  /** The bridge has come from `b` to `b'` over these turns as `Smooth` says. */
  predicate WentOn(c: Codec, identity: Option<Identity>, b: BridgeState, turns: seq<Turn>, b': BridgeState) {
    var items := FramesAhead(c, b);
    && (b'.ending.Running? <==> Smooth(c, items, b.queue, turns))
    && (b'.ending.Running? ==>
          && Reads(turns) <= |items| && Writes(turns) <= |b.queue|
          && (forall i :: 0 <= i < Reads(turns) ==> items[i].Good?)
          && DidAll(c, identity, b, items, Reads(turns), Writes(turns), b'))
  }

  lemma ReadThenOn(c: Codec, identity: Option<Identity>, b: BridgeState, turns: seq<Turn>, b': BridgeState)
    requires b.ending.Running? && turns != [] && turns[0].ReadWins?
    requires var b1 := Next(c, identity, b, turns[0]);
             if b1.ending.Running? then WentOn(c, identity, b1, turns[1..], b') else b' == b1
    ensures WentOn(c, identity, b, turns, b')
  {
    var items, b1 := FramesAhead(c, b), Next(c, identity, b, turns[0]);
    ReadTurn(c, identity, b, turns[0].accepted);
    if b1.ending.Running? && b'.ending.Running? {
      SmoothSizes(c, items, b.queue, turns);
      DidOneRead(c, identity, b, b1, items, Reads(turns[1..]), Writes(turns[1..]), b');
    }
  }

  lemma WriteThenOn(c: Codec, identity: Option<Identity>, b: BridgeState, turns: seq<Turn>, b': BridgeState)
    requires b.ending.Running? && turns != [] && turns[0].QueueWins?
    requires var b1 := Next(c, identity, b, turns[0]);
             if b1.ending.Running? then WentOn(c, identity, b1, turns[1..], b') else b' == b1
    ensures WentOn(c, identity, b, turns, b')
  {
    var items, b1 := FramesAhead(c, b), Next(c, identity, b, turns[0]);
    WriteTurn(c, identity, b, turns[0].polls, turns[0].sink);
    if b1.ending.Running? && b'.ending.Running? {
      SmoothSizes(c, items, b.queue, turns);
      DidOneWrite(c, identity, b, b1, items, Reads(turns[1..]), Writes(turns[1..]), b');
    }
  }

  lemma NoTurns(c: Codec, identity: Option<Identity>, b: BridgeState)
    requires b.ending.Running?
    ensures WentOn(c, identity, b, [], b)
  {
    assert b.queue[0..] == b.queue && EncodeAll(c, b.queue[..0]) == [] && b.outbound + [] == b.outbound;
  }

  lemma {:induction false} RunsOn(c: Codec, identity: Option<Identity>, b: BridgeState, turns: seq<Turn>)
    requires b.ending.Running?
    ensures WentOn(c, identity, b, turns, Run(c, identity, b, turns))
    decreases |turns|
  {
    var b' := Run(c, identity, b, turns);
    if turns == [] {
      NoTurns(c, identity, b);
    } else {
      var b1 := Next(c, identity, b, turns[0]);
      if b1.ending.Running? {
        RunsOn(c, identity, b1, turns[1..]);
      } else {
        StoppedStays(c, identity, b1, turns[1..]);
      }
      if turns[0].ReadWins? {
        ReadThenOn(c, identity, b, turns, b');
      } else {
        WriteThenOn(c, identity, b, turns, b');
      }
    }
  }

  /**
   A bridge is still running precisely when every turn so far found a good frame
   ahead of any read error and a receiver, or an envelope and a transport that
   takes it; it has then delivered one event per read turn, and written one
   whole frame per queue turn, in order.
   */
  lemma BridgeRunsOnIff(
    c: Codec, identity: Option<Identity>, inbox: seq<ReadEvent>, queued: seq<EventEnvelope>, turns: seq<Turn>)
    ensures var items := Items(c, Unread(inbox[..FirstError(inbox)]));
            var b := Run(c, identity, Initial(inbox, queued), turns);
            && (b.ending.Running? <==> Smooth(c, items, queued, turns))
            && (b.ending.Running? ==>
                  && |b.events| == Reads(turns) <= |items|
                  && (forall i :: 0 <= i < Reads(turns) ==>
                        items[i].Good? && b.events[i] == InterfaceEvent(items[i].e, identity))
                  && Writes(turns) <= |queued| && b.queue == queued[Writes(turns)..]
                  && b.outbound == EncodeAll(c, queued[..Writes(turns)]))
  {
    var b0 := Initial(inbox, queued);
    assert BeforeError(b0.reader) == Unread(inbox[..FirstError(inbox)]);
    RunsOn(c, identity, b0, turns);
  }

  /** With enough good frames, enough envelopes, a receiver and a willing transport, every schedule is smooth. */
  lemma {:induction false} EnoughIsSmooth(c: Codec, items: seq<Item>, queue: seq<EventEnvelope>, turns: seq<Turn>)
    requires Reads(turns) <= FirstMalformed(items) && Writes(turns) <= |queue|
    requires forall i :: 0 <= i < |turns| ==>
               if turns[i].ReadWins? then turns[i].accepted
               else forall e :: e in queue ==> Takes(c, turns[i].sink, e)
    ensures Smooth(c, items, queue, turns)
    decreases |turns|
  {
    if turns != [] {
      if turns[0].ReadWins? {
        assert FirstMalformed(items) == 1 + FirstMalformed(items[1..]);
        EnoughIsSmooth(c, items[1..], queue, turns[1..]);
      } else {
        assert queue[0] in queue && forall e :: e in queue[1..] ==> e in queue;
        EnoughIsSmooth(c, items, queue[1..], turns[1..]);
      }
    }
  }

  /** This turn is to blame for the ending, by what it was given. */
  predicate Causes(c: Codec, queued: seq<EventEnvelope>, turn: Turn, ending: Ending) {
    match ending
    case ReceiverGone => turn.ReadWins? && !turn.accepted
    case WriteError => turn.QueueWins? && exists e :: e in queued && !Takes(c, turn.sink, e)
    case ReadError => turn.ReadWins?
    case PeerClosed => turn.ReadWins?
    case BadFrame => turn.ReadWins?
    case QueueClosed => turn.QueueWins?
    case Running => false
  }

  /**
   No ending without its cause: a read error only if one is in the stream, a
   missing receiver only after a refused event, a write error only after a
   transport that stopped short of a frame or failed to flush.
   */
  lemma {:induction false} EndingHasCause(
    c: Codec, identity: Option<Identity>, queued: seq<EventEnvelope>, b: BridgeState, turns: seq<Turn>)
    returns (i: nat)
    requires b.ending.Running? && (forall e :: e in b.queue ==> e in queued)
    requires !Run(c, identity, b, turns).ending.Running?
    ensures i < |turns| && Causes(c, queued, turns[i], Run(c, identity, b, turns).ending)
    ensures Run(c, identity, b, turns).ending.ReadError? ==> !NoIoError(b.reader.inbox)
    decreases |turns|
  {
    var b1 := Next(c, identity, b, turns[0]);
    i := 0;
    match turns[0] {
      case ReadWins(accepted) =>
        ReceiveMeaning(c, identity, b, accepted);
        NextFrameMeaning(c, b.reader);
      case QueueWins(polls, sink) =>
        WriteTurn(c, identity, b, polls, sink);
        if NoIoError(b.reader.inbox) {
          AbandonedKeepsErrors(b.reader, polls);
        }
    }
    if b1.ending.Running? {
      i := EndingHasCause(c, identity, queued, b1, turns[1..]);
      i := i + 1;
    } else {
      StoppedStays(c, identity, b1, turns[1..]);
      CallOutcomeIs(c, b.reader);
    }
  }

  lemma {:induction false} AbandonedKeepsErrors(r: ReaderState, polls: nat)
    requires NoIoError(r.inbox)
    ensures NoIoError(Abandoned(r, polls).inbox)
    decreases polls
  {
    if polls > 0 && !HasFrame(r.buf) && r.inbox != [] {
      AbandonedKeepsErrors(ReaderState(r.buf + r.inbox[0].data, r.inbox[1..]), polls - 1);
    }
  }
}
