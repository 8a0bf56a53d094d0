/**
 SOCKS5 (RFC 1928), both ends: the server of `socks5/` and the client half in
 `connect_socks5`, each as a method over a byte stream.
 */
module Socks5 {
  import opened Prelude

  type Octets4 = s: seq<byte> | |s| == 4 witness [0, 0, 0, 0]
  type Octets16 = s: seq<byte> | |s| == 16 witness [0, 0, 0, 0, 0, 0, 0, 0, 0, 0, 0, 0, 0, 0, 0, 0]

  datatype Address = Ipv4(v4: Octets4) | Ipv6(v6: Octets16) | Domain(name: string)

  /** UTF-8 in both directions, the second replacing what is malformed, and how an IP address is displayed. */
  datatype Texts = Texts(utf8: string -> seq<byte>, lossy: seq<byte> -> string, ipText: Address -> string) {
    ghost predicate Lawful() {
      forall s :: lossy(utf8(s)) == s
    }
  }

  datatype VersionMethod = VersionMethod(version: byte, methods: seq<byte>)

  datatype Request = Request(version: byte, command: byte, address: Address, port: u16)

  datatype Reply = Reply(version: byte, code: byte, address: Address, port: u16)

  const UNSPECIFIED: Address := Ipv4([0, 0, 0, 0])
  const SUCCESS: Reply := Reply(5, 0, UNSPECIFIED, 0)
  const CONNECTION_REFUSED: Reply := Reply(5, 5, UNSPECIFIED, 0)
  const COMMAND_NOT_SUPPORTED: Reply := Reply(5, 7, UNSPECIFIED, 0)

  /** A read off the front of a stream: the value and what follows it, too few bytes, or bad data. */
  datatype Parse<+T> = Got(value: T, rest: seq<byte>) | TooFew | BadData

  // ---- Reading and writing messages ----

  function ReadGreeting(s: seq<byte>): Parse<VersionMethod> {
    if |s| < 2 then TooFew else
      var n: nat := s[1];
      if |s| < 2 + n then TooFew else Got(VersionMethod(s[0], s[2..2 + n]), s[2 + n..])
  }

  function ReadAddress(tx: Texts, atyp: byte, s: seq<byte>): Parse<Address> {
    if atyp == 1 then
      if |s| < 4 then TooFew else Got(Ipv4(s[..4]), s[4..])
    else if atyp == 4 then
      if |s| < 16 then TooFew else Got(Ipv6(s[..16]), s[16..])
    else if atyp == 3 then
      if |s| < 1 then TooFew else
        var n: nat := s[0];
        if |s| < 1 + n then TooFew else Got(Domain(tx.lossy(s[1..1 + n])), s[1 + n..])
    else BadData
  }

  function ReadRequest(tx: Texts, s: seq<byte>): Parse<Request> {
    if |s| < 4 then TooFew else
      match ReadAddress(tx, s[3], s[4..])
      case TooFew => TooFew
      case BadData => BadData
      case Got(address, rest) =>
        if |rest| < 2 then TooFew else Got(Request(s[0], s[1], address, U16FromBe(rest[..2])), rest[2..])
  }

  /** The length byte goes through `as u8`, which truncates. */
  function WriteAddress(tx: Texts, a: Address): seq<byte> {
    match a
    case Ipv4(v4) => [1] + v4
    case Ipv6(v6) => [4] + v6
    case Domain(name) => [3, |tx.utf8(name)| % 256] + tx.utf8(name)
  }

  function WriteReply(tx: Texts, r: Reply): seq<byte> {
    [r.version, r.code, 0] + WriteAddress(tx, r.address) + U16ToBe(r.port)
  }

  predicate DomainFits(tx: Texts, a: Address) {
    a.Domain? ==> |tx.utf8(a.name)| < 256
  }

  lemma ReadWrittenAddress(tx: Texts, a: Address, rest: seq<byte>)
    requires tx.Lawful() && DomainFits(tx, a)
    ensures var s := WriteAddress(tx, a) + rest;
            ReadAddress(tx, s[0], s[1..]) == Got(a, rest)
  {
    var s := WriteAddress(tx, a) + rest;
    match a {
      case Ipv4(v4) => assert s[1..] == v4 + rest;
      case Ipv6(v6) => assert s[1..] == v6 + rest;
      case Domain(name) =>
        var bytes := tx.utf8(name);
        assert s[1..] == [|bytes|] + bytes + rest;
        ReadPrefixed(tx, bytes, rest);
    }
  }

  lemma ReadPrefixed(tx: Texts, bytes: seq<byte>, rest: seq<byte>)
    requires |bytes| < 256
    ensures ReadAddress(tx, 3, [|bytes|] + bytes + rest) == Got(Domain(tx.lossy(bytes)), rest)
  {
    var s := [|bytes|] + bytes + rest;
    assert s[1..1 + |bytes|] == bytes;
    assert s[1 + |bytes|..] == rest;
  }

  /**
   The request reader takes a written reply apart into the same version, code,
   address and port and touches nothing behind it, precisely when a domain has
   at most 255 bytes.
   */
  lemma ReplyRoundTripIffFits(tx: Texts, r: Reply, rest: seq<byte>)
    requires tx.Lawful()
    ensures ReadRequest(tx, WriteReply(tx, r) + rest) == Got(Request(r.version, r.code, r.address, r.port), rest) <==>
            DomainFits(tx, r.address)
  {
    var s := WriteReply(tx, r) + rest;
    var tail := U16ToBe(r.port) + rest;
    assert s[3..] == WriteAddress(tx, r.address) + tail;
    assert s[4..] == s[3..][1..];
    if DomainFits(tx, r.address) {
      ReadWrittenAddress(tx, r.address, tail);
      assert tail[..2] == U16ToBe(r.port) && tail[2..] == rest;
    } else {
      var bytes := tx.utf8(r.address.name);
      assert s[4..] == [|bytes| % 256] + bytes + tail;
    }
  }

  // ---- Reading does not look ahead ----

  lemma GreetingPrefix(s: seq<byte>, extra: seq<byte>)
    requires ReadGreeting(s).Got?
    ensures ReadGreeting(s + extra) == Got(ReadGreeting(s).value, ReadGreeting(s).rest + extra)
  {
    var n: nat := s[1];
    assert (s + extra)[2..2 + n] == s[2..2 + n];
    assert (s + extra)[2 + n..] == s[2 + n..] + extra;
  }

  lemma AddressPrefix(tx: Texts, atyp: byte, s: seq<byte>, extra: seq<byte>)
    requires ReadAddress(tx, atyp, s).Got?
    ensures ReadAddress(tx, atyp, s + extra) == Got(ReadAddress(tx, atyp, s).value, ReadAddress(tx, atyp, s).rest + extra)
  {
    var len: nat := if atyp == 3 then s[0] else 0;
    var n := if atyp == 1 then 4 else if atyp == 4 then 16 else 1 + len;
    assert (s + extra)[..n] == s[..n];
    assert (s + extra)[n..] == s[n..] + extra;
    assert atyp == 3 ==> (s + extra)[1..n] == s[1..n];
  }

  lemma RequestPrefix(tx: Texts, s: seq<byte>, extra: seq<byte>)
    requires ReadRequest(tx, s).Got?
    ensures ReadRequest(tx, s + extra) == Got(ReadRequest(tx, s).value, ReadRequest(tx, s).rest + extra)
  {
    assert (s + extra)[4..] == s[4..] + extra;
    AddressPrefix(tx, s[3], s[4..], extra);
    PortPrefix(ReadAddress(tx, s[3], s[4..]).rest, extra);
  }

  lemma PortPrefix(rest: seq<byte>, extra: seq<byte>)
    requires |rest| >= 2
    ensures (rest + extra)[..2] == rest[..2] && (rest + extra)[2..] == rest[2..] + extra
  {
  }

  /** More bytes never mend a request that is already malformed. */
  lemma BadRequestStays(tx: Texts, s: seq<byte>, extra: seq<byte>)
    requires ReadRequest(tx, s).BadData?
    ensures ReadRequest(tx, s + extra).BadData?
  {
    assert (s + extra)[4..] == s[4..] + extra;
  }

  /** A request of which the last byte is missing, or more, reads as too short and as nothing else. */
  lemma PartOfRequest(tx: Texts, s: seq<byte>, k: nat)
    requires ReadRequest(tx, s).Got? && ReadRequest(tx, s).rest == [] && k < |s|
    ensures ReadRequest(tx, s[..k]).TooFew?
  {
    assert s == s[..k] + s[k..];
    match ReadRequest(tx, s[..k]) {
      case Got(_, _) => RequestPrefix(tx, s[..k], s[k..]);
      case BadData => BadRequestStays(tx, s[..k], s[k..]);
      case TooFew =>
    }
  }

  // ---- The client ----

  const GREETING: seq<byte> := [5, 1, 0]
  const METHOD_ACCEPTED: seq<byte> := [5, 0]
  const NO_METHOD: seq<byte> := [5, 255]

  /** The CONNECT request: the address always goes out as a domain holding the displayed IP. */
  function ConnectRequest(tx: Texts, text: string, port: u16): seq<byte> {
    [5, 1, 0] + WriteAddress(tx, Domain(text)) + U16ToBe(port)
  }

  datatype ClientResult = Connected | HandshakeFailed | ProxyRejected | ClientIo

  /** How the client takes the server's reply; a refusal is recognised from its first four bytes. */
  function ReadReply(tx: Texts, s: seq<byte>): Parse<ClientResult> {
    if |s| < 4 then TooFew
    else if s[0] != 5 then Got(HandshakeFailed, s[4..])
    else if s[1] != 0 then Got(ProxyRejected, s[4..])
    else
      match ReadAddress(tx, s[3], s[4..])
      case TooFew => TooFew
      case BadData => Got(HandshakeFailed, s[4..])
      case Got(_, rest) => if |rest| < 2 then TooFew else Got(Connected, rest[2..])
  }

  datatype ClientRun = ClientRun(result: ClientResult, output: seq<byte>, rest: seq<byte>)

  /** The whole client against everything the proxy will ever send; a short stream is an I/O error. */
  function Connect(tx: Texts, text: string, port: u16, input: seq<byte>): ClientRun {
    if |input| < 2 then ClientRun(ClientIo, GREETING, [])
    else if input[..2] != METHOD_ACCEPTED then ClientRun(HandshakeFailed, GREETING, input[2..])
    else
      var output := GREETING + ConnectRequest(tx, text, port);
      match ReadReply(tx, input[2..])
      case Got(result, rest) => ClientRun(result, output, rest)
      case _ => ClientRun(ClientIo, output, [])
  }

  // ---- The server ----

  datatype ServerResult =
    | Tunnel
    | InvalidVersion(version: byte)
    | NoAcceptableAuth
    | UnsupportedCommand(command: byte)
    | ChannelOpenFailed
    | ServerIo

  datatype ServerRun = ServerRun(
    result: ServerResult, output: seq<byte>, rest: seq<byte>, dialled: seq<(string, u16)>)

  function HostOf(tx: Texts, a: Address): string {
    if a.Domain? then a.name else tx.ipText(a)
  }

  /** The whole server against everything the client will ever send; `rest` is what the tunnel begins with. */
  function Serve(tx: Texts, input: seq<byte>, opener: (string, u16) -> bool): ServerRun {
    var refusal := Refusal(input);
    if refusal.Some? then
      ServerRun(refusal.value, if refusal.value.NoAcceptableAuth? then NO_METHOD else [], [], [])
    else
      var run := ServeRequest(tx, ReadGreeting(input).rest, opener);
      run.(output := METHOD_ACCEPTED + run.output)
  }

  /** Why the greeting is not good enough, if it is not. */
  function Refusal(input: seq<byte>): (r: Option<ServerResult>)
    ensures r.None? ==> ReadGreeting(input).Got?
  {
    match ReadGreeting(input)
    case Got(vm, _) =>
      if vm.version != 5 then Some(InvalidVersion(vm.version))
      else if 0 !in vm.methods then Some(NoAcceptableAuth)
      else None
    case _ => Some(ServerIo)
  }

  function ServeRequest(tx: Texts, input: seq<byte>, opener: (string, u16) -> bool): ServerRun {
    match ReadRequest(tx, input)
    case Got(request, rest) =>
      if request.version != 5 then ServerRun(InvalidVersion(request.version), [], rest, [])
      else if request.command != 1 then
        ServerRun(UnsupportedCommand(request.command), WriteReply(tx, COMMAND_NOT_SUPPORTED), rest, [])
      else
        var host := HostOf(tx, request.address);
        if opener(host, request.port) then
          ServerRun(Tunnel, WriteReply(tx, SUCCESS), rest, [(host, request.port)])
        else
          ServerRun(ChannelOpenFailed, WriteReply(tx, CONNECTION_REFUSED), rest, [(host, request.port)])
    case _ => ServerRun(ServerIo, [], [], [])
  }

  // ---- The two ends as methods on a socket ----

  class Socket {
    var input: seq<byte>
    var output: seq<byte>

    constructor (input: seq<byte>)
      ensures this.input == input && output == []
    {
      this.input := input;
      this.output := [];
    }

    /** Running out of bytes uses up those that were there. */
    method ReadExact(n: nat) returns (r: Option<seq<byte>>)
      modifies this`input
      ensures |old(input)| >= n ==> r == Some(old(input)[..n]) && input == old(input)[n..]
      ensures |old(input)| < n ==> r == None && input == []
    {
      if |input| < n {
        input := [];
        return None;
      }
      r := Some(input[..n]);
      input := input[n..];
    }

    method WriteAll(bytes: seq<byte>)
      modifies this`output
      ensures output == old(output) + bytes
    {
      output := output + bytes;
    }
  }

  /** Reading `a` bytes and then `b` more is reading at offset `a`. */
  lemma TwoReads(after: seq<byte>, s: seq<byte>, a: nat, b: nat)
    requires a <= |s| && after == s[a..]
    ensures |after| == |s| - a
    ensures b <= |after| ==> after[..b] == s[a..a + b] && after[b..] == s[a + b..]
  {
  }

  method ReadAddressFrom(socket: Socket, tx: Texts, atyp: byte) returns (r: Parse<Address>)
    modifies socket`input
    ensures match ReadAddress(tx, atyp, old(socket.input))
            case Got(a, rest) => r.Got? && r.value == a && socket.input == rest
            case TooFew => r.TooFew? && socket.input == []
            case BadData => r.BadData? && socket.input == old(socket.input)
  {
    if atyp == 1 {
      var octets := socket.ReadExact(4);
      return if octets.None? then TooFew else Got(Ipv4(octets.value), []);
    } else if atyp == 4 {
      var octets := socket.ReadExact(16);
      return if octets.None? then TooFew else Got(Ipv6(octets.value), []);
    } else if atyp == 3 {
      var len := socket.ReadExact(1);
      if len.None? {
        return TooFew;
      }
      var n: nat := len.value[0];
      TwoReads(socket.input, old(socket.input), 1, n);
      var domain := socket.ReadExact(n);
      return if domain.None? then TooFew else Got(Domain(tx.lossy(domain.value)), []);
    }
    return BadData;
  }

  method ConnectSocks5(socket: Socket, tx: Texts, text: string, port: u16) returns (r: ClientResult)
    modifies socket
    ensures var run := Connect(tx, text, port, old(socket.input));
            r == run.result && socket.output == old(socket.output) + run.output && socket.input == run.rest
  {
    socket.WriteAll([5, 1, 0]);
    var resp := socket.ReadExact(2);
    if resp.None? {
      return ClientIo;
    }
    assert resp.value == METHOD_ACCEPTED <==> resp.value[0] == 5 && resp.value[1] == 0;
    if resp.value[0] != 5 || resp.value[1] != 0 {
      return HandshakeFailed;
    }
    var request := BuildRequest(tx, text, port);
    socket.WriteAll(request);
    assert (old(socket.output) + GREETING) + request == old(socket.output) + (GREETING + request);
    r := AwaitReply(socket, tx);
  }

  method BuildRequest(tx: Texts, text: string, port: u16) returns (request: seq<byte>)
    ensures request == ConnectRequest(tx, text, port)
  {
    var ipBytes := tx.utf8(text);
    request := [5, 1, 0, 3];
    request := request + [|ipBytes| % 256];
    request := request + ipBytes;
    request := request + U16ToBe(port);
  }

  method AwaitReply(socket: Socket, tx: Texts) returns (r: ClientResult)
    modifies socket`input
    ensures match ReadReply(tx, old(socket.input))
            case Got(result, rest) => r == result && socket.input == rest
            case _ => r == ClientIo && socket.input == []
  {
    var header := socket.ReadExact(4);
    if header.None? {
      return ClientIo;
    }
    if header.value[0] != 5 {
      return HandshakeFailed;
    }
    if header.value[1] != 0 {
      return ProxyRejected;
    }
    var address := ReadAddressFrom(socket, tx, header.value[3]);
    match address {
      case BadData => return HandshakeFailed;
      case TooFew => return ClientIo;
      case Got(_, _) =>
    }
    var bindPort := socket.ReadExact(2);
    return if bindPort.None? then ClientIo else Connected;
  }

  method ReadGreetingFrom(socket: Socket) returns (r: Option<VersionMethod>)
    modifies socket`input
    ensures match ReadGreeting(old(socket.input))
            case Got(vm, rest) => r == Some(vm) && socket.input == rest
            case _ => r == None
  {
    var header := socket.ReadExact(2);
    if header.None? {
      return None;
    }
    var n: nat := header.value[1];
    TwoReads(socket.input, old(socket.input), 2, n);
    var methods := socket.ReadExact(n);
    if methods.None? {
      return None;
    }
    r := Some(VersionMethod(header.value[0], methods.value));
  }

  method Negotiate(socket: Socket) returns (refusal: Option<ServerResult>)
    modifies socket
    ensures refusal == Refusal(old(socket.input))
    ensures refusal.None? ==>
              && socket.input == ReadGreeting(old(socket.input)).rest
              && socket.output == old(socket.output) + METHOD_ACCEPTED
    ensures refusal.Some? ==>
              socket.output == old(socket.output) + if refusal.value.NoAcceptableAuth? then NO_METHOD else []
  {
    var vm := ReadGreetingFrom(socket);
    if vm.None? {
      return Some(ServerIo);
    }
    if vm.value.version != 5 {
      return Some(InvalidVersion(vm.value.version));
    }
    if 0 !in vm.value.methods {
      socket.WriteAll([5, 255]);
      return Some(NoAcceptableAuth);
    }
    socket.WriteAll([5, 0]);
    return None;
  }

  lemma ServeAccepted(tx: Texts, input: seq<byte>, opener: (string, u16) -> bool, sent: seq<byte>)
    requires Refusal(input).None?
    ensures var (run, all) := (ServeRequest(tx, ReadGreeting(input).rest, opener), Serve(tx, input, opener));
            && all.result == run.result && all.rest == run.rest && all.dialled == run.dialled
            && (sent + METHOD_ACCEPTED) + run.output == sent + all.output
  {
  }

  method HandleConnection(socket: Socket, tx: Texts, opener: (string, u16) -> bool)
    returns (r: ServerResult, dialled: seq<(string, u16)>)
    modifies socket
    ensures var run := Serve(tx, old(socket.input), opener);
            && r == run.result && dialled == run.dialled
            && socket.output == old(socket.output) + run.output
            && (r.Tunnel? ==> socket.input == run.rest)
  {
    var refusal := Negotiate(socket);
    if refusal.Some? {
      return refusal.value, [];
    }
    ServeAccepted(tx, old(socket.input), opener, old(socket.output));
    r, dialled := HandleRequest(socket, tx, opener);
  }

  method HandleRequest(socket: Socket, tx: Texts, opener: (string, u16) -> bool)
    returns (r: ServerResult, dialled: seq<(string, u16)>)
    modifies socket
    ensures var run := ServeRequest(tx, old(socket.input), opener);
            && r == run.result && dialled == run.dialled
            && socket.output == old(socket.output) + run.output
            && (r.Tunnel? ==> socket.input == run.rest)
  {
    dialled := [];
    var header := socket.ReadExact(4);
    if header.None? {
      return ServerIo, [];
    }
    var version, command := header.value[0], header.value[1];
    var address := ReadAddressFrom(socket, tx, header.value[3]);
    if !address.Got? {
      return ServerIo, [];
    }
    var portBytes := socket.ReadExact(2);
    if portBytes.None? {
      return ServerIo, [];
    }
    var port := U16FromBe(portBytes.value);
    if version != 5 {
      return InvalidVersion(version), [];
    }
    if command != 1 {
      socket.WriteAll(WriteReply(tx, COMMAND_NOT_SUPPORTED));
      return UnsupportedCommand(command), [];
    }
    var host := HostOf(tx, address.value);
    dialled := [(host, port)];
    if opener(host, port) {
      socket.WriteAll(WriteReply(tx, SUCCESS));
      return Tunnel, dialled;
    }
    socket.WriteAll(WriteReply(tx, CONNECTION_REFUSED));
    return ChannelOpenFailed, dialled;
  }

  // ---- What each end promises against any peer ----

  /**
   Against any client: the opener is called at most once, only for a version-5
   CONNECT after a greeting that offers no authentication, and with the host and
   port of that request; the success reply goes out precisely when it succeeds.
   */
  lemma ServerOpensOnlyForConnect(tx: Texts, input: seq<byte>, opener: (string, u16) -> bool)
    ensures var run := Serve(tx, input, opener);
            && |run.dialled| <= 1
            && (run.dialled != [] <==>
                  && ReadGreeting(input).Got?
                  && ReadGreeting(input).value.version == 5 && 0 in ReadGreeting(input).value.methods
                  && ReadRequest(tx, ReadGreeting(input).rest).Got?
                  && ReadRequest(tx, ReadGreeting(input).rest).value.version == 5
                  && ReadRequest(tx, ReadGreeting(input).rest).value.command == 1)
            && (run.dialled != [] ==>
                  var request := ReadRequest(tx, ReadGreeting(input).rest).value;
                  match request.address
                  case Domain(name) => run.dialled == [(name, request.port)]
                  case ip => run.dialled == [(tx.ipText(ip), request.port)])
            && (run.output == METHOD_ACCEPTED + WriteReply(tx, SUCCESS) <==> run.result.Tunnel?)
            && (run.result.Tunnel? <==> run.dialled != [] && opener(run.dialled[0].0, run.dialled[0].1))
  {
    ServerAnswers(tx, input, opener);
    ReplyBytes(tx);
    SuccessMeansTunnel(Serve(tx, input, opener).result, Negotiated(input));
  }

  lemma ReplyBytes(tx: Texts)
    ensures WriteReply(tx, SUCCESS) == [5, 0, 0, 1, 0, 0, 0, 0, 0, 0]
    ensures WriteReply(tx, CONNECTION_REFUSED) == [5, 5, 0, 1, 0, 0, 0, 0, 0, 0]
    ensures WriteReply(tx, COMMAND_NOT_SUPPORTED) == [5, 7, 0, 1, 0, 0, 0, 0, 0, 0]
  {
  }

  /** Everything the server writes, for each of its results. */
  function AnswerBytes(result: ServerResult, negotiated: bool): seq<byte> {
    if !negotiated then (if result.NoAcceptableAuth? then [5, 255] else [])
    else
      match result
      case Tunnel => [5, 0] + [5, 0, 0, 1, 0, 0, 0, 0, 0, 0]
      case UnsupportedCommand(_) => [5, 0] + [5, 7, 0, 1, 0, 0, 0, 0, 0, 0]
      case ChannelOpenFailed => [5, 0] + [5, 5, 0, 1, 0, 0, 0, 0, 0, 0]
      case _ => [5, 0]
  }

  lemma SuccessMeansTunnel(result: ServerResult, negotiated: bool)
    ensures AnswerBytes(result, negotiated) == [5, 0] + [5, 0, 0, 1, 0, 0, 0, 0, 0, 0] <==>
            negotiated && result.Tunnel?
  {
    var success: seq<byte> := [5, 0] + [5, 0, 0, 1, 0, 0, 0, 0, 0, 0];
    assert |success| == 12 && success[3] == 0;
    if negotiated && result.UnsupportedCommand? {
      assert AnswerBytes(result, negotiated)[3] == 7;
    } else if negotiated && result.ChannelOpenFailed? {
      assert AnswerBytes(result, negotiated)[3] == 5;
    }
  }

  /** A version-5 greeting that offers to go without authentication. */
  predicate Negotiated(input: seq<byte>) {
    ReadGreeting(input).Got? && ReadGreeting(input).value.version == 5 && 0 in ReadGreeting(input).value.methods
  }

  /**
   The server against every input, result and bytes together: which inputs come
   to which result, and what goes out for it. Only an established tunnel is ever
   answered with success.
   */
  lemma ServerAnswers(tx: Texts, input: seq<byte>, opener: (string, u16) -> bool)
    ensures var run := Serve(tx, input, opener);
            var greeting := ReadGreeting(input);
            var request := if greeting.Got? then ReadRequest(tx, greeting.rest) else TooFew;
            && run.output == AnswerBytes(run.result, Negotiated(input))
            && (run.result.NoAcceptableAuth? <==>
                  greeting.Got? && greeting.value.version == 5 && 0 !in greeting.value.methods)
            && (run.result.InvalidVersion? <==>
                  || (greeting.Got? && greeting.value.version != 5)
                  || (Negotiated(input) && request.Got? && request.value.version != 5))
            && (run.result.UnsupportedCommand? <==>
                  Negotiated(input) && request.Got? && request.value.version == 5 && request.value.command != 1)
            && (run.result.Tunnel? || run.result.ChannelOpenFailed? <==>
                  Negotiated(input) && request.Got? && request.value.version == 5 && request.value.command == 1)
            && (run.result.ServerIo? <==> !greeting.Got? || (Negotiated(input) && !request.Got?))
            && (run.result.InvalidVersion? ==>
                  run.result.version == if Negotiated(input) then request.value.version else greeting.value.version)
            && (run.result.UnsupportedCommand? ==> run.result.command == request.value.command)
  {
    ReplyBytes(tx);
  }

  /** Once the tunnel starts, every byte sent after the request is still there for it. */
  lemma ServerDoesNotReadAhead(tx: Texts, input: seq<byte>, extra: seq<byte>, opener: (string, u16) -> bool)
    requires Serve(tx, input, opener).result.Tunnel?
    ensures Serve(tx, input + extra, opener) ==
            Serve(tx, input, opener).(rest := Serve(tx, input, opener).rest + extra)
  {
    GreetingPrefix(input, extra);
    RequestPrefix(tx, ReadGreeting(input).rest, extra);
  }

  predicate MethodAccepted(input: seq<byte>) {
    |input| >= 2 && input[0] == 5 && input[1] == 0
  }

  /** Version 5, CONNECT, reserved, domain; the text's length in one byte, the text, the port. */
  function RequestBytes(tx: Texts, text: string, port: u16): seq<byte> {
    [5, 1, 0, 3, |tx.utf8(text)| % 256] + tx.utf8(text) + [port / 256, port % 256]
  }

  /**
   Against any proxy: the request goes out precisely when the proxy accepts the
   method; the client is connected precisely when a whole version-5 reply with
   code zero follows, and then leaves the rest unread; it is rejected precisely
   on another code, and sees a broken handshake on anything else it can tell.
   */
  lemma ClientConnectsIff(tx: Texts, text: string, port: u16, input: seq<byte>)
    ensures var run := Connect(tx, text, port, input);
            var reply := if MethodAccepted(input) then input[2..] else [];
            && run.output == [5, 1, 0] + (if MethodAccepted(input) then RequestBytes(tx, text, port) else [])
            && (run.result == Connected <==>
                  && ReadRequest(tx, reply).Got?
                  && ReadRequest(tx, reply).value.version == 5 && ReadRequest(tx, reply).value.command == 0)
            && (run.result == Connected ==> run.rest == ReadRequest(tx, reply).rest)
            && (run.result == ProxyRejected <==> |reply| >= 4 && reply[0] == 5 && reply[1] != 0)
            && (run.result == HandshakeFailed <==>
                  || (|input| >= 2 && !MethodAccepted(input))
                  || (|reply| >= 4 && (reply[0] != 5 || (reply[1] == 0 && reply[3] !in {1, 3, 4}))))
  {
    assert GREETING + [] == GREETING == [5, 1, 0];
    assert ConnectRequest(tx, text, port) == RequestBytes(tx, text, port);
    if |input| >= 2 {
      assert input[..2] == [input[0], input[1]];
    }
  }

  /** Likewise the client leaves everything behind a success reply unread. */
  lemma ClientDoesNotReadAhead(tx: Texts, s: seq<byte>, extra: seq<byte>)
    requires ReadReply(tx, s).Got?
    ensures ReadReply(tx, s + extra) == Got(ReadReply(tx, s).value, ReadReply(tx, s).rest + extra)
  {
    assert (s + extra)[4..] == s[4..] + extra;
    if s[0] == 5 && s[1] == 0 && ReadAddress(tx, s[3], s[4..]).Got? {
      AddressPrefix(tx, s[3], s[4..], extra);
      var rest := ReadAddress(tx, s[3], s[4..]).rest;
      assert (rest + extra)[2..] == rest[2..] + extra;
    }
  }
}
