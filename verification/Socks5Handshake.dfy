/**
 The repository's SOCKS5 client talking to its SOCKS5 server, in every
 interleaving and byte by byte: what one end writes is under way until any
 number of its bytes are delivered, so each end may face part of a message. As
 soon as an end allows it, tunnel data follows the handshake.
 */
module Socks5Handshake {
  import opened Prelude
  import opened Socks5

  datatype ClientPc = Hello | AwaitMethod | AwaitReply | Done(result: ClientResult)

  datatype ServerPc = AwaitGreeting | AwaitRequest | Tunnelling | Stopped(result: ServerResult)

  /** `input` has arrived and is not yet read; `output` is written and not yet delivered. */
  datatype Client = Client(pc: ClientPc, input: seq<byte>, output: seq<byte>)

  datatype Server = Server(pc: ServerPc, input: seq<byte>, output: seq<byte>, dialled: seq<(string, u16)>)

  const CLIENT_START: Client := Client(Hello, [], [])
  const SERVER_START: Server := Server(AwaitGreeting, [], [], [])

  // ---- The client on its own ----

  /** A client that would block, or is finished, does nothing. */
  function ClientMove(tx: Texts, text: string, port: u16, c: Client): Client {
    match c.pc
    case Hello => c.(pc := AwaitMethod, output := c.output + GREETING)
    case AwaitMethod =>
      if |c.input| < 2 then c
      else if c.input[..2] != METHOD_ACCEPTED then c.(pc := Done(HandshakeFailed), input := c.input[2..])
      else Client(AwaitReply, c.input[2..], c.output + ConnectRequest(tx, text, port))
    case AwaitReply =>
      var reply := ReadReply(tx, c.input);
      if reply.Got? then c.(pc := Done(reply.value), input := reply.rest) else c
    case Done(_) => c
  }

  predicate ClientBlocked(tx: Texts, c: Client) {
    (c.pc.AwaitMethod? && |c.input| < 2) || (c.pc.AwaitReply? && !ReadReply(tx, c.input).Got?)
  }

  /** The stream ends: a client waiting for more gives up. */
  function ClientAtEnd(tx: Texts, c: Client): Client {
    if ClientBlocked(tx, c) then c.(pc := Done(ClientIo), input := []) else c
  }

  /** What happens to one end by itself: bytes arrive, or it moves. */
  datatype Happening = Arrive(data: seq<byte>) | Move

  function Arrived(hs: seq<Happening>): seq<byte> {
    if hs == [] then [] else (if hs[0].Arrive? then hs[0].data else []) + Arrived(hs[1..])
  }

  function ClientAlone(tx: Texts, text: string, port: u16, c: Client, hs: seq<Happening>): Client
    decreases |hs|
  {
    if hs == [] then c else
      var c' := if hs[0].Arrive? then c.(input := c.input + hs[0].data) else ClientMove(tx, text, port, c);
      ClientAlone(tx, text, port, c', hs[1..])
  }

  /** How the client stands once `fed` has arrived. */
  predicate ClientSoFar(tx: Texts, text: string, port: u16, fed: seq<byte>, c: Client) {
    match c.pc
    case Hello => c.input == fed && c.output == []
    case AwaitMethod => c.input == fed && c.output == GREETING
    case AwaitReply =>
      && MethodAccepted(fed) && c.input == fed[2..]
      && c.output == GREETING + ConnectRequest(tx, text, port)
    case Done(result) => result != ClientIo && Connect(tx, text, port, fed) == ClientRun(result, c.output, c.input)
  }

  /** A client that has made up its mind is not swayed by more bytes. */
  lemma ConnectPrefix(tx: Texts, text: string, port: u16, fed: seq<byte>, extra: seq<byte>)
    requires Connect(tx, text, port, fed).result != ClientIo
    ensures var run := Connect(tx, text, port, fed);
            Connect(tx, text, port, fed + extra) == run.(rest := run.rest + extra)
  {
    assert (fed + extra)[..2] == fed[..2];
    assert (fed + extra)[2..] == fed[2..] + extra;
    if fed[..2] == METHOD_ACCEPTED {
      assert ReadReply(tx, fed[2..]).Got?;
      ClientDoesNotReadAhead(tx, fed[2..], extra);
    }
  }

  lemma ClientArrives(tx: Texts, text: string, port: u16, fed: seq<byte>, c: Client, data: seq<byte>)
    requires ClientSoFar(tx, text, port, fed, c)
    ensures ClientSoFar(tx, text, port, fed + data, c.(input := c.input + data))
  {
    match c.pc {
      case AwaitReply =>
        assert (fed + data)[..2] == fed[..2];
        assert (fed + data)[2..] == fed[2..] + data;
      case Done(_) => ConnectPrefix(tx, text, port, fed, data);
      case _ =>
    }
  }

  lemma ClientMoves(tx: Texts, text: string, port: u16, fed: seq<byte>, c: Client)
    requires ClientSoFar(tx, text, port, fed, c)
    ensures ClientSoFar(tx, text, port, fed, ClientMove(tx, text, port, c))
  {
    match c.pc {
      case Hello => assert [] + GREETING == GREETING;
      case AwaitReply =>
        var reply := ReadReply(tx, c.input);
        if reply.Got? {
          assert Connect(tx, text, port, fed) == ClientRun(reply.value, c.output, reply.rest);
        }
      case _ =>
    }
  }

  lemma {:induction false} ClientAloneSoFar(
    tx: Texts, text: string, port: u16, fed: seq<byte>, c: Client, hs: seq<Happening>)
    requires ClientSoFar(tx, text, port, fed, c)
    ensures ClientSoFar(tx, text, port, fed + Arrived(hs), ClientAlone(tx, text, port, c, hs))
    decreases |hs|
  {
    if hs == [] {
      assert fed + [] == fed;
    } else if hs[0].Arrive? {
      ClientArrives(tx, text, port, fed, c, hs[0].data);
      ClientAloneSoFar(tx, text, port, fed + hs[0].data, c.(input := c.input + hs[0].data), hs[1..]);
      assert (fed + hs[0].data) + Arrived(hs[1..]) == fed + Arrived(hs);
    } else {
      ClientMoves(tx, text, port, fed, c);
      ClientAloneSoFar(tx, text, port, fed, ClientMove(tx, text, port, c), hs[1..]);
      assert Arrived(hs) == Arrived(hs[1..]);
    }
  }

  /**
   However its bytes arrive, the client that takes one move at a time does what
   `ConnectSocks5` does on the whole stream: a finished one has its result,
   output and unread rest, and one that cannot move has them once the stream
   ends.
   */
  lemma ClientIsConnect(tx: Texts, text: string, port: u16, hs: seq<Happening>)
    ensures var c := ClientAlone(tx, text, port, CLIENT_START, hs);
            var run := Connect(tx, text, port, Arrived(hs));
            && c.output <= run.output
            && (c.pc.Done? ==> c == Client(Done(run.result), run.rest, run.output))
            && (ClientMove(tx, text, port, c) == c ==>
                  ClientAtEnd(tx, c) == Client(Done(run.result), run.rest, run.output))
  {
    ClientAloneSoFar(tx, text, port, [], CLIENT_START, hs);
    assert [] + Arrived(hs) == Arrived(hs);
    ClientSettles(tx, text, port, Arrived(hs), ClientAlone(tx, text, port, CLIENT_START, hs));
  }

  lemma ClientSettles(tx: Texts, text: string, port: u16, fed: seq<byte>, c: Client)
    requires ClientSoFar(tx, text, port, fed, c)
    ensures var run := Connect(tx, text, port, fed);
            && c.output <= run.output
            && (c.pc.Done? ==> c == Client(Done(run.result), run.rest, run.output))
            && (ClientMove(tx, text, port, c) == c ==>
                  ClientAtEnd(tx, c) == Client(Done(run.result), run.rest, run.output))
  {
    ClientConnectsIff(tx, text, port, fed);
    if c.pc.AwaitReply? {
      assert !ReadReply(tx, c.input).BadData?;
    }
  }

  // ---- The server on its own ----

  function ServerMove(tx: Texts, s: Server, opener: (string, u16) -> bool): Server {
    match s.pc
    case AwaitGreeting =>
      if ReadGreeting(s.input).TooFew? then s else
        var refusal := Refusal(s.input);
        if refusal.Some? then
          s.(pc := Stopped(refusal.value),
             output := s.output + if refusal.value.NoAcceptableAuth? then NO_METHOD else [])
        else
          s.(pc := AwaitRequest, input := ReadGreeting(s.input).rest, output := s.output + METHOD_ACCEPTED)
    case AwaitRequest =>
      if ReadRequest(tx, s.input).TooFew? then s else
        var run := ServeRequest(tx, s.input, opener);
        Server(if run.result.Tunnel? then Tunnelling else Stopped(run.result),
               run.rest, s.output + run.output, s.dialled + run.dialled)
    case _ => s
  }

  predicate ServerBlocked(tx: Texts, s: Server) {
    || (s.pc.AwaitGreeting? && ReadGreeting(s.input).TooFew?)
    || (s.pc.AwaitRequest? && ReadRequest(tx, s.input).TooFew?)
  }

  function ServerAtEnd(tx: Texts, s: Server): Server {
    if ServerBlocked(tx, s) then s.(pc := Stopped(ServerIo), input := []) else s
  }

  function ServerAlone(tx: Texts, s: Server, opener: (string, u16) -> bool, hs: seq<Happening>): Server
    decreases |hs|
  {
    if hs == [] then s else
      var s' := if hs[0].Arrive? then s.(input := s.input + hs[0].data) else ServerMove(tx, s, opener);
      ServerAlone(tx, s', opener, hs[1..])
  }

  /** The server has come to what `run` says, with `run.rest` left for the tunnel if there is one. */
  predicate CameTo(s: Server, run: ServerRun) {
    && s.output == run.output && s.dialled == run.dialled
    && s.pc == (if run.result.Tunnel? then Tunnelling else Stopped(run.result))
    && (run.result.Tunnel? ==> s.input == run.rest)
  }

  predicate ServerSoFar(tx: Texts, fed: seq<byte>, s: Server, opener: (string, u16) -> bool) {
    match s.pc
    case AwaitGreeting => s == Server(AwaitGreeting, fed, [], [])
    case AwaitRequest => Refusal(fed).None? && s == Server(AwaitRequest, ReadGreeting(fed).rest, METHOD_ACCEPTED, [])
    case _ => Decided(tx, fed) && CameTo(s, Serve(tx, fed, opener))
  }

  /** The server has read enough to know what to do. */
  predicate Decided(tx: Texts, fed: seq<byte>) {
    && ReadGreeting(fed).Got?
    && (Refusal(fed).Some? || !ReadRequest(tx, ReadGreeting(fed).rest).TooFew?)
  }

  lemma ServePrefix(tx: Texts, fed: seq<byte>, extra: seq<byte>, opener: (string, u16) -> bool)
    requires Decided(tx, fed)
    ensures Decided(tx, fed + extra)
    ensures var (run, more) := (Serve(tx, fed, opener), Serve(tx, fed + extra, opener));
            && more.result == run.result && more.output == run.output && more.dialled == run.dialled
            && (run.result.Tunnel? ==> more.rest == run.rest + extra)
  {
    GreetingPrefix(fed, extra);
    assert Refusal(fed + extra) == Refusal(fed);
    if Refusal(fed).None? {
      ServeRequestPrefix(tx, ReadGreeting(fed).rest, extra, opener);
    }
  }

  lemma ServeRequestPrefix(tx: Texts, s: seq<byte>, extra: seq<byte>, opener: (string, u16) -> bool)
    requires !ReadRequest(tx, s).TooFew?
    ensures !ReadRequest(tx, s + extra).TooFew?
    ensures var (run, more) := (ServeRequest(tx, s, opener), ServeRequest(tx, s + extra, opener));
            && more.result == run.result && more.output == run.output && more.dialled == run.dialled
            && (run.result.Tunnel? ==> more.rest == run.rest + extra)
  {
    if ReadRequest(tx, s).Got? {
      RequestPrefix(tx, s, extra);
    } else {
      BadRequestStays(tx, s, extra);
    }
  }

  lemma ServerArrives(tx: Texts, fed: seq<byte>, s: Server, data: seq<byte>, opener: (string, u16) -> bool)
    requires ServerSoFar(tx, fed, s, opener)
    ensures ServerSoFar(tx, fed + data, s.(input := s.input + data), opener)
  {
    match s.pc {
      case AwaitGreeting =>
      case AwaitRequest => GreetingPrefix(fed, data);
      case _ => ServePrefix(tx, fed, data, opener);
    }
  }

  lemma ServerMoves(tx: Texts, fed: seq<byte>, s: Server, opener: (string, u16) -> bool)
    requires ServerSoFar(tx, fed, s, opener)
    ensures ServerSoFar(tx, fed, ServerMove(tx, s, opener), opener)
  {
    match s.pc {
      case AwaitGreeting =>
        assert [] + METHOD_ACCEPTED == METHOD_ACCEPTED && [] + NO_METHOD == NO_METHOD;
      case AwaitRequest =>
        var run := ServeRequest(tx, s.input, opener);
        assert [] + run.dialled == run.dialled;
      case _ =>
    }
  }

  lemma {:induction false} ServerAloneSoFar(
    tx: Texts, fed: seq<byte>, s: Server, opener: (string, u16) -> bool, hs: seq<Happening>)
    requires ServerSoFar(tx, fed, s, opener)
    ensures ServerSoFar(tx, fed + Arrived(hs), ServerAlone(tx, s, opener, hs), opener)
    decreases |hs|
  {
    if hs == [] {
      assert fed + [] == fed;
    } else if hs[0].Arrive? {
      ServerArrives(tx, fed, s, hs[0].data, opener);
      ServerAloneSoFar(tx, fed + hs[0].data, s.(input := s.input + hs[0].data), opener, hs[1..]);
      assert (fed + hs[0].data) + Arrived(hs[1..]) == fed + Arrived(hs);
    } else {
      ServerMoves(tx, fed, s, opener);
      ServerAloneSoFar(tx, fed, ServerMove(tx, s, opener), opener, hs[1..]);
      assert Arrived(hs) == Arrived(hs[1..]);
    }
  }

  /** Likewise the server that takes one move at a time does what `HandleConnection` does on the whole stream. */
  lemma ServerIsServe(tx: Texts, opener: (string, u16) -> bool, hs: seq<Happening>)
    ensures var s := ServerAlone(tx, SERVER_START, opener, hs);
            var run := Serve(tx, Arrived(hs), opener);
            && (s.pc.Tunnelling? || s.pc.Stopped? ==> CameTo(s, run))
            && (ServerMove(tx, s, opener) == s ==> CameTo(ServerAtEnd(tx, s), run))
  {
    ServerAloneSoFar(tx, [], SERVER_START, opener, hs);
    assert [] + Arrived(hs) == Arrived(hs);
  }

  // ---- Both together ----

  /** `sent` and `got` are the tunnel bytes written and read at each end once its handshake is over. */
  datatype World = World(
    client: Client,
    server: Server,
    clientSent: seq<byte>,
    serverGot: seq<byte>,
    serverSent: seq<byte>,
    clientGot: seq<byte>)

  datatype Step =
    | ClientStep
    | ServerStep(openerOk: bool)
    | DeliverUp(n: nat)
    | DeliverDown(n: nat)
    | ClientSeesEnd
    | ServerSeesEnd
    | ClientWrites(data: seq<byte>)
    | ServerWrites(data: seq<byte>)
    | ClientReads(n: nat)
    | ServerReads(n: nat)

  const START: World := World(CLIENT_START, SERVER_START, [], [], [], [])

  /** All that is on its way to the server and not yet read there. */
  function Up(w: World): seq<byte> {
    w.server.input + w.client.output
  }

  function Down(w: World): seq<byte> {
    w.client.input + w.server.output
  }

  /** An end that fails closes its stream; the other sees that after the last byte. */
  function Next(tx: Texts, text: string, port: u16, w: World, step: Step): World {
    match step
    case ClientStep => w.(client := ClientMove(tx, text, port, w.client))
    case ServerStep(openerOk) => w.(server := ServerMove(tx, w.server, (_, _) => openerOk))
    case DeliverUp(n) =>
      if n <= |w.client.output| then
        w.(server := w.server.(input := w.server.input + w.client.output[..n]),
           client := w.client.(output := w.client.output[n..])) else w
    case DeliverDown(n) =>
      if n <= |w.server.output| then
        w.(client := w.client.(input := w.client.input + w.server.output[..n]),
           server := w.server.(output := w.server.output[n..])) else w
    case ClientSeesEnd =>
      if w.server.pc.Stopped? && w.server.output == [] then w.(client := ClientAtEnd(tx, w.client)) else w
    case ServerSeesEnd =>
      if w.client.pc.Done? && w.client.pc.result != Connected && w.client.output == [] then
        w.(server := ServerAtEnd(tx, w.server)) else w
    case ClientWrites(data) =>
      if w.client.pc == Done(Connected) then
        w.(client := w.client.(output := w.client.output + data), clientSent := w.clientSent + data) else w
    case ServerWrites(data) =>
      if w.server.pc.Tunnelling? then
        w.(server := w.server.(output := w.server.output + data), serverSent := w.serverSent + data) else w
    case ClientReads(n) =>
      if w.client.pc == Done(Connected) && n <= |w.client.input| then
        w.(client := w.client.(input := w.client.input[n..]), clientGot := w.clientGot + w.client.input[..n]) else w
    case ServerReads(n) =>
      if w.server.pc.Tunnelling? && n <= |w.server.input| then
        w.(server := w.server.(input := w.server.input[n..]), serverGot := w.serverGot + w.server.input[..n]) else w
  }

  function Run(tx: Texts, text: string, port: u16, w: World, steps: seq<Step>): World
    decreases |steps|
  {
    if steps == [] then w else Run(tx, text, port, Next(tx, text, port, w, steps[0]), steps[1..])
  }

  // ---- What the messages do to each other ----

  lemma GreetingIsAccepted()
    ensures ReadGreeting(GREETING) == Got(VersionMethod(5, [0]), [])
    ensures Refusal(GREETING).None?
  {
    var methods: seq<byte> := GREETING[2..3];
    assert methods == [0];
    assert 0 in methods;
  }

  lemma RequestIsUnderstood(tx: Texts, text: string, port: u16)
    requires tx.Lawful() && |tx.utf8(text)| < 256
    ensures ReadRequest(tx, ConnectRequest(tx, text, port)) == Got(Request(5, 1, Domain(text), port), [])
  {
    var r := Reply(5, 1, Domain(text), port);
    ReplyRoundTripIffFits(tx, r, []);
    assert WriteReply(tx, r) + [] == ConnectRequest(tx, text, port);
  }

  lemma SuccessIsUnderstood(tx: Texts, data: seq<byte>)
    ensures ReadReply(tx, WriteReply(tx, SUCCESS) + data) == Got(Connected, data)
  {
    var reply := WriteReply(tx, SUCCESS);
    assert reply == [5, 0, 0, 1, 0, 0, 0, 0, 0, 0];
    var s := reply + data;
    assert s[4..][4..] == s[8..];
    assert s[8..][2..] == data;
  }

  lemma RefusalIsUnderstood(tx: Texts)
    ensures ReadReply(tx, WriteReply(tx, CONNECTION_REFUSED)).Got?
    ensures ReadReply(tx, WriteReply(tx, CONNECTION_REFUSED)).value == ProxyRejected
  {
  }

  /**
   Part of a message is never mistaken for anything: its reader waits. Only a
   refusal is already told from its first four bytes.
   */
  lemma PartsOfMessages(tx: Texts, text: string, port: u16, k: nat)
    requires tx.Lawful() && |tx.utf8(text)| < 256
    ensures k < |GREETING| ==> ReadGreeting(GREETING[..k]).TooFew?
    ensures k < |ConnectRequest(tx, text, port)| ==> ReadRequest(tx, ConnectRequest(tx, text, port)[..k]).TooFew?
    ensures k < |WriteReply(tx, SUCCESS)| ==> ReadReply(tx, WriteReply(tx, SUCCESS)[..k]).TooFew?
    ensures var refusal := WriteReply(tx, CONNECTION_REFUSED);
            k <= |refusal| ==>
              if k < 4 then ReadReply(tx, refusal[..k]).TooFew?
              else ReadReply(tx, refusal[..k]) == Got(ProxyRejected, refusal[4..k])
  {
    RequestIsUnderstood(tx, text, port);
    if k < |ConnectRequest(tx, text, port)| {
      PartOfRequest(tx, ConnectRequest(tx, text, port), k);
    }
    PartOfSuccess(tx, k);
  }

  lemma PartOfSuccess(tx: Texts, k: nat)
    ensures k < |WriteReply(tx, SUCCESS)| ==> ReadReply(tx, WriteReply(tx, SUCCESS)[..k]).TooFew?
  {
    var reply := WriteReply(tx, SUCCESS);
    if k < |reply| && ReadReply(tx, reply[..k]).Got? {
      assert reply[..k] + reply[k..] == reply == reply + [];
      ClientDoesNotReadAhead(tx, reply[..k], reply[k..]);
      SuccessIsUnderstood(tx, []);
    }
  }

  // ---- The invariant, phase by phase ----

  /** No end has any tunnel bytes yet, except that the server may already be writing. */
  predicate NoClientTunnel(w: World) {
    w.clientSent == [] && w.serverGot == [] && w.clientGot == []
  }

  predicate NoTunnel(w: World) {
    NoClientTunnel(w) && w.serverSent == []
  }

  /** Where the bytes are does not matter, only which ones are not yet read in each direction. */
  predicate Inv(tx: Texts, text: string, port: u16, w: World) {
    match (w.client.pc, w.server.pc)
    case (Hello, AwaitGreeting) => NoTunnel(w) && Up(w) == [] && Down(w) == [] && w.server.dialled == []
    case (AwaitMethod, AwaitGreeting) => NoTunnel(w) && Up(w) == GREETING && Down(w) == [] && w.server.dialled == []
    case (AwaitMethod, AwaitRequest) =>
      NoTunnel(w) && Up(w) == [] && Down(w) == METHOD_ACCEPTED && w.server.dialled == []
    case (AwaitReply, AwaitRequest) =>
      NoTunnel(w) && Up(w) == ConnectRequest(tx, text, port) && Down(w) == [] && w.server.dialled == []
    case (AwaitReply, Tunnelling) =>
      && NoClientTunnel(w) && w.server.dialled == [(text, port)]
      && Up(w) == [] && Down(w) == WriteReply(tx, SUCCESS) + w.serverSent
    case (AwaitReply, Stopped(result)) =>
      && NoTunnel(w) && w.server.dialled == [(text, port)] && result == ChannelOpenFailed
      && Down(w) == WriteReply(tx, CONNECTION_REFUSED)
    case (Done(Connected), Tunnelling) =>
      && w.server.dialled == [(text, port)]
      && w.serverGot + Up(w) == w.clientSent && w.clientGot + Down(w) == w.serverSent
    case (Done(ProxyRejected), Stopped(result)) =>
      NoTunnel(w) && w.server.dialled == [(text, port)] && result == ChannelOpenFailed
    case _ => false
  }

  lemma HelloKeepsInv(tx: Texts, text: string, port: u16, w: World)
    requires Inv(tx, text, port, w) && w.client.pc.Hello?
    ensures Inv(tx, text, port, Next(tx, text, port, w, ClientStep))
  {
    var w' := Next(tx, text, port, w, ClientStep);
    assert w.server.input == [] && w.client.output == [];
    assert Up(w') == GREETING;
    assert Down(w') == Down(w);
  }

  lemma MethodKeepsInv(tx: Texts, text: string, port: u16, w: World)
    requires Inv(tx, text, port, w) && w.client.pc.AwaitMethod?
    ensures Inv(tx, text, port, Next(tx, text, port, w, ClientStep))
  {
    var w' := Next(tx, text, port, w, ClientStep);
    if |w.client.input| >= 2 {
      assert w.client.input == Down(w)[..|w.client.input|];
      assert w.server.pc.AwaitRequest? && w.client.input == METHOD_ACCEPTED && w.server.output == [];
      assert w.server.input == [] && w.client.output == [];
      assert Up(w') == ConnectRequest(tx, text, port);
      assert Down(w') == [];
    } else {
      assert w' == w;
    }
  }

  /** Reading a reply off what has arrived is reading it off all that is coming. */
  lemma ReplyKeepsInv(tx: Texts, text: string, port: u16, w: World)
    requires Inv(tx, text, port, w) && w.client.pc.AwaitReply?
    ensures Inv(tx, text, port, Next(tx, text, port, w, ClientStep))
  {
    var w' := Next(tx, text, port, w, ClientStep);
    var reply := ReadReply(tx, w.client.input);
    if reply.Got? {
      ClientDoesNotReadAhead(tx, w.client.input, w.server.output);
      assert ReadReply(tx, Down(w)) == Got(reply.value, Down(w'));
      SuccessIsUnderstood(tx, w.serverSent);
      RefusalIsUnderstood(tx);
      assert [] + Up(w') == Up(w') && [] + Down(w') == Down(w');
    } else {
      assert w' == w;
    }
  }

  lemma GreetingKeepsInv(tx: Texts, text: string, port: u16, w: World, openerOk: bool)
    requires Inv(tx, text, port, w) && w.server.pc.AwaitGreeting?
    ensures Inv(tx, text, port, Next(tx, text, port, w, ServerStep(openerOk)))
  {
    var w' := Next(tx, text, port, w, ServerStep(openerOk));
    if ReadGreeting(w.server.input).Got? {
      GreetingPrefix(w.server.input, w.client.output);
      GreetingIsAccepted();
      assert Got(ReadGreeting(w.server.input).value, Up(w')) == ReadGreeting(Up(w));
      assert w.client.input == [] && w.server.output == [];
      assert Down(w') == METHOD_ACCEPTED;
    } else {
      assert w' == w;
    }
  }

  lemma RequestKeepsInv(tx: Texts, text: string, port: u16, w: World, openerOk: bool)
    requires tx.Lawful() && |tx.utf8(text)| < 256 && Inv(tx, text, port, w) && w.server.pc.AwaitRequest?
    ensures Inv(tx, text, port, Next(tx, text, port, w, ServerStep(openerOk)))
  {
    var w' := Next(tx, text, port, w, ServerStep(openerOk));
    if ReadRequest(tx, w.server.input).TooFew? {
      assert w' == w;
    } else {
      RequestIsUnderstood(tx, text, port);
      assert w.client.pc.AwaitReply?;
      RequestArrived(tx, text, port, w);
      assert w.client.input == [] && w.server.output == [];
      assert Down(w') == w'.server.output;
      assert WriteReply(tx, SUCCESS) + [] == WriteReply(tx, SUCCESS);
      assert [] + [(text, port)] == [(text, port)];
    }
  }

  lemma RequestArrived(tx: Texts, text: string, port: u16, w: World)
    requires tx.Lawful() && |tx.utf8(text)| < 256
    requires Up(w) == ConnectRequest(tx, text, port) && !ReadRequest(tx, w.server.input).TooFew?
    ensures ReadRequest(tx, w.server.input) == Got(Request(5, 1, Domain(text), port), []) && w.client.output == []
  {
    RequestIsUnderstood(tx, text, port);
    if ReadRequest(tx, w.server.input).BadData? {
      BadRequestStays(tx, w.server.input, w.client.output);
    } else {
      RequestPrefix(tx, w.server.input, w.client.output);
    }
  }

  /** Moving bytes along changes where they are and nothing else. */
  lemma DeliveryKeepsInv(tx: Texts, text: string, port: u16, w: World, step: Step)
    requires Inv(tx, text, port, w) && (step.DeliverUp? || step.DeliverDown?)
    ensures Inv(tx, text, port, Next(tx, text, port, w, step))
  {
    var w' := Next(tx, text, port, w, step);
    assert Up(w') == Up(w);
    assert Down(w') == Down(w);
  }

  /** Nobody is ever left waiting on a closed stream. */
  lemma EndIsHarmless(tx: Texts, text: string, port: u16, w: World, step: Step)
    requires Inv(tx, text, port, w) && (step.ClientSeesEnd? || step.ServerSeesEnd?)
    ensures Next(tx, text, port, w, step) == w
  {
    if step.ClientSeesEnd? && w.server.pc.Stopped? && w.server.output == [] && w.client.pc.AwaitReply? {
      assert w.client.input == Down(w);
      RefusalIsUnderstood(tx);
    }
  }

  lemma ClientWritesKeepInv(tx: Texts, text: string, port: u16, w: World, data: seq<byte>)
    requires Inv(tx, text, port, w) && w.client.pc == Done(Connected)
    ensures Inv(tx, text, port, Next(tx, text, port, w, ClientWrites(data)))
  {
    var w' := Next(tx, text, port, w, ClientWrites(data));
    assert w.serverGot + Up(w') == (w.serverGot + Up(w)) + data;
    assert Down(w') == Down(w);
  }

  lemma ServerWritesKeepInv(tx: Texts, text: string, port: u16, w: World, data: seq<byte>)
    requires Inv(tx, text, port, w) && w.server.pc.Tunnelling?
    ensures Inv(tx, text, port, Next(tx, text, port, w, ServerWrites(data)))
  {
    var w' := Next(tx, text, port, w, ServerWrites(data));
    assert Up(w') == Up(w);
    assert Down(w') == Down(w) + data;
    if w.client.pc.AwaitReply? {
      assert (WriteReply(tx, SUCCESS) + w.serverSent) + data == WriteReply(tx, SUCCESS) + w'.serverSent;
    } else {
      assert (w.clientGot + Down(w)) + data == w.clientGot + Down(w');
    }
  }

  lemma ClientReadsKeepInv(tx: Texts, text: string, port: u16, w: World, n: nat)
    requires Inv(tx, text, port, w) && w.client.pc == Done(Connected) && n <= |w.client.input|
    ensures Inv(tx, text, port, Next(tx, text, port, w, ClientReads(n)))
  {
    var w' := Next(tx, text, port, w, ClientReads(n));
    assert w'.clientGot + Down(w') == w.clientGot + Down(w);
    assert Up(w') == Up(w);
  }

  lemma ServerReadsKeepInv(tx: Texts, text: string, port: u16, w: World, n: nat)
    requires Inv(tx, text, port, w) && w.server.pc.Tunnelling? && n <= |w.server.input|
    ensures Inv(tx, text, port, Next(tx, text, port, w, ServerReads(n)))
  {
    var w' := Next(tx, text, port, w, ServerReads(n));
    assert w'.serverGot + Up(w') == w.serverGot + Up(w);
    assert Down(w') == Down(w);
    if w.client.pc.AwaitReply? {
      assert w.server.input == [] && w.client.output == [];
    }
  }

  lemma TunnelKeepsInv(tx: Texts, text: string, port: u16, w: World, step: Step)
    requires Inv(tx, text, port, w)
    requires step.ClientWrites? || step.ServerWrites? || step.ClientReads? || step.ServerReads?
    ensures Inv(tx, text, port, Next(tx, text, port, w, step))
  {
    if Next(tx, text, port, w, step) != w {
      match step {
        case ClientWrites(data) => ClientWritesKeepInv(tx, text, port, w, data);
        case ServerWrites(data) => ServerWritesKeepInv(tx, text, port, w, data);
        case ClientReads(n) => ClientReadsKeepInv(tx, text, port, w, n);
        case ServerReads(n) => ServerReadsKeepInv(tx, text, port, w, n);
      }
    }
  }

  lemma NextKeepsInv(tx: Texts, text: string, port: u16, w: World, step: Step)
    requires tx.Lawful() && |tx.utf8(text)| < 256 && Inv(tx, text, port, w)
    ensures Inv(tx, text, port, Next(tx, text, port, w, step))
  {
    match step {
      case ClientStep =>
        match w.client.pc {
          case Hello => HelloKeepsInv(tx, text, port, w);
          case AwaitMethod => MethodKeepsInv(tx, text, port, w);
          case AwaitReply => ReplyKeepsInv(tx, text, port, w);
          case Done(_) => assert Next(tx, text, port, w, step) == w;
        }
      case ServerStep(openerOk) =>
        match w.server.pc {
          case AwaitGreeting => GreetingKeepsInv(tx, text, port, w, openerOk);
          case AwaitRequest => RequestKeepsInv(tx, text, port, w, openerOk);
          case _ => assert Next(tx, text, port, w, step) == w;
        }
      case DeliverUp(_) => DeliveryKeepsInv(tx, text, port, w, step);
      case DeliverDown(_) => DeliveryKeepsInv(tx, text, port, w, step);
      case ClientSeesEnd => EndIsHarmless(tx, text, port, w, step);
      case ServerSeesEnd => EndIsHarmless(tx, text, port, w, step);
      case _ => TunnelKeepsInv(tx, text, port, w, step);
    }
  }

  lemma {:induction false} RunKeepsInv(tx: Texts, text: string, port: u16, w: World, steps: seq<Step>)
    requires tx.Lawful() && |tx.utf8(text)| < 256 && Inv(tx, text, port, w)
    ensures Inv(tx, text, port, Run(tx, text, port, w, steps))
    decreases |steps|
  {
    if steps != [] {
      NextKeepsInv(tx, text, port, w, steps[0]);
      RunKeepsInv(tx, text, port, Next(tx, text, port, w, steps[0]), steps[1..]);
    }
  }

  /**
   In every interleaving and every fragmentation: the opener is called at most
   once, with exactly the client's address text and port; a finished client is
   connected precisely when the opener succeeded, and was refused otherwise;
   and the tunnel bytes each end gets are exactly those the other sent, in
   order, from the first on.
   */
  lemma HandshakeSafety(tx: Texts, text: string, port: u16, steps: seq<Step>)
    requires tx.Lawful() && |tx.utf8(text)| < 256
    ensures var w := Run(tx, text, port, START, steps);
            && (w.server.dialled == [] || w.server.dialled == [(text, port)])
            && (w.client.pc.Done? ==>
                  && w.server.dialled == [(text, port)] && w.client.pc.result in {Connected, ProxyRejected}
                  && (w.client.pc.result == Connected <==> w.server.pc.Tunnelling?))
            && (w.server.pc.Stopped? ==> w.server.pc.result == ChannelOpenFailed)
            && (w.client.pc == Done(Connected) ==>
                  w.serverGot + Up(w) == w.clientSent && w.clientGot + Down(w) == w.serverSent)
            && w.serverGot <= w.clientSent && w.clientGot <= w.serverSent
  {
    RunKeepsInv(tx, text, port, START, steps);
  }

  // ---- Progress ----

  /** How many handshake moves are left. */
  function Remaining(w: World): nat {
    (match w.client.pc case Hello => 3 case AwaitMethod => 2 case AwaitReply => 1 case Done(_) => 0) +
    (match w.server.pc case AwaitGreeting => 2 case AwaitRequest => 1 case _ => 0)
  }

  function UnderWay(w: World): nat {
    |w.client.output| + |w.server.output|
  }

  /**
   The handshake never gets stuck: until the client is finished, either bytes
   are under way and can be delivered, or one of the two ends can move on.
   */
  lemma HandshakeProgress(tx: Texts, text: string, port: u16, w: World, openerOk: bool) returns (step: Step)
    requires tx.Lawful() && |tx.utf8(text)| < 256 && Inv(tx, text, port, w) && !w.client.pc.Done?
    ensures step in {ClientStep, ServerStep(openerOk), DeliverUp(|w.client.output|), DeliverDown(|w.server.output|)}
    ensures var w' := Next(tx, text, port, w, step);
            Remaining(w') < Remaining(w) || (Remaining(w') == Remaining(w) && UnderWay(w') < UnderWay(w))
  {
    if w.client.output != [] {
      step := DeliverUp(|w.client.output|);
    } else if w.server.output != [] {
      step := DeliverDown(|w.server.output|);
    } else {
      step := QuietProgress(tx, text, port, w, openerOk);
    }
  }

  /** With nothing under way, whoever's turn it is has a whole message to read. */
  lemma QuietProgress(tx: Texts, text: string, port: u16, w: World, openerOk: bool) returns (step: Step)
    requires tx.Lawful() && |tx.utf8(text)| < 256 && Inv(tx, text, port, w) && !w.client.pc.Done?
    requires UnderWay(w) == 0
    ensures step in {ClientStep, ServerStep(openerOk)}
    ensures Remaining(Next(tx, text, port, w, step)) < Remaining(w)
  {
    if w.server.pc == (if w.client.pc.AwaitMethod? then AwaitGreeting else AwaitRequest) {
      step := ServerStep(openerOk);
      ServerCanMove(tx, text, port, w, openerOk);
    } else {
      step := ClientStep;
      ClientCanMove(tx, text, port, w);
    }
  }

  lemma ServerCanMove(tx: Texts, text: string, port: u16, w: World, openerOk: bool)
    requires tx.Lawful() && |tx.utf8(text)| < 256 && Inv(tx, text, port, w) && UnderWay(w) == 0
    requires (w.client.pc, w.server.pc) in {(AwaitMethod, AwaitGreeting), (AwaitReply, AwaitRequest)}
    ensures Remaining(Next(tx, text, port, w, ServerStep(openerOk))) < Remaining(w)
  {
    assert w.server.input == Up(w);
    if w.client.pc.AwaitMethod? {
      GreetingIsAccepted();
    } else {
      RequestIsUnderstood(tx, text, port);
    }
  }

  lemma ClientCanMove(tx: Texts, text: string, port: u16, w: World)
    requires Inv(tx, text, port, w) && UnderWay(w) == 0
    requires w.client.pc.Hello? || (w.client.pc.AwaitMethod? && w.server.pc.AwaitRequest?) ||
             (w.client.pc.AwaitReply? && !w.server.pc.AwaitRequest?)
    ensures Remaining(Next(tx, text, port, w, ClientStep)) < Remaining(w)
  {
    assert w.client.input == Down(w);
    if w.client.pc.AwaitReply? {
      SuccessIsUnderstood(tx, w.serverSent);
      RefusalIsUnderstood(tx);
    }
  }

  /** And no other kind of step undoes any of it. */
  lemma StepsNeverGoBack(tx: Texts, text: string, port: u16, w: World, step: Step)
    ensures Remaining(Next(tx, text, port, w, step)) <= Remaining(w)
  {
  }

  /** So from every reachable state the handshake can be completed, with the opener's answer deciding the outcome. */
  lemma {:induction false} HandshakeCompletes(tx: Texts, text: string, port: u16, w: World, openerOk: bool)
    returns (steps: seq<Step>)
    requires tx.Lawful() && |tx.utf8(text)| < 256 && Inv(tx, text, port, w)
    ensures var w' := Run(tx, text, port, w, steps);
            && w'.client.pc.Done?
            && (w.server.pc in {AwaitGreeting, AwaitRequest} ==>
                  w'.client.pc == Done(if openerOk then Connected else ProxyRejected))
    decreases Remaining(w), UnderWay(w)
  {
    if w.client.pc.Done? {
      return [];
    }
    var step := HandshakeProgress(tx, text, port, w, openerOk);
    var w' := Next(tx, text, port, w, step);
    NextKeepsInv(tx, text, port, w, step);
    var rest := HandshakeCompletes(tx, text, port, w', openerOk);
    steps := [step] + rest;
    assert steps[1..] == rest;
    if w.server.pc.AwaitRequest? && step.ServerStep? && w'.server.pc != w.server.pc {
      OpenerAnswers(tx, text, port, w, openerOk);
      OutcomeIsSettled(tx, text, port, w', rest);
    }
  }

  lemma OpenerAnswers(tx: Texts, text: string, port: u16, w: World, openerOk: bool)
    requires tx.Lawful() && |tx.utf8(text)| < 256 && Inv(tx, text, port, w) && w.server.pc.AwaitRequest?
    ensures var w' := Next(tx, text, port, w, ServerStep(openerOk));
            w'.server.pc == w.server.pc || w'.server.pc == (if openerOk then Tunnelling else Stopped(ChannelOpenFailed))
  {
    if !ReadRequest(tx, w.server.input).TooFew? && w.client.pc.AwaitReply? {
      RequestArrived(tx, text, port, w);
    }
  }

  /** Once the opener has answered, the client's outcome is fixed. */
  lemma {:induction false} OutcomeIsSettled(tx: Texts, text: string, port: u16, w: World, steps: seq<Step>)
    requires tx.Lawful() && |tx.utf8(text)| < 256 && Inv(tx, text, port, w)
    requires w.server.pc.Tunnelling? || w.server.pc.Stopped?
    ensures var w' := Run(tx, text, port, w, steps);
            && w'.server.pc == w.server.pc
            && (w'.client.pc.Done? ==>
                  w'.client.pc == Done(if w.server.pc.Tunnelling? then Connected else ProxyRejected))
    decreases |steps|
  {
    if steps == [] {
      if w.client.pc.Done? {
        OutcomeMatches(tx, text, port, w);
      }
    } else {
      NextKeepsInv(tx, text, port, w, steps[0]);
      ServerStaysSettled(tx, text, port, w, steps[0]);
      OutcomeIsSettled(tx, text, port, Next(tx, text, port, w, steps[0]), steps[1..]);
    }
  }

  lemma ServerStaysSettled(tx: Texts, text: string, port: u16, w: World, step: Step)
    requires w.server.pc.Tunnelling? || w.server.pc.Stopped?
    ensures Next(tx, text, port, w, step).server.pc == w.server.pc
  {
  }

  lemma OutcomeMatches(tx: Texts, text: string, port: u16, w: World)
    requires Inv(tx, text, port, w) && w.client.pc.Done?
    ensures w.client.pc == Done(if w.server.pc.Tunnelling? then Connected else ProxyRejected)
  {
  }
}
