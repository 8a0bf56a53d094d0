/** Direct-tcpip opens on one SSH connection: the reserved names and the take-once hand-off to a bridge. */
module ControlChannel {
  import opened Prelude
  import opened Auth

  const ALKNET_PREFIX: string := "alknet-"
  const CONTROL_DESTINATION: string := "alknet-control"

  /** The two bridge channels are named by numbers; `hasHandler` is the router's handler being present. */
  datatype Handoff = Handoff(eventTx: Option<nat>, envelopeRx: Option<nat>, hasHandler: bool)

  datatype Decision =
    | StartBridge(eventTx: nat, envelopeRx: nat, identity: Option<Identity>)
    | StartHandler
    | Proxy
    | Refuse

  /** One open request: the host asked for, what the forwarding policy says, who is authenticated. */
  datatype Open = Open(host: string, allowed: bool, identity: Option<Identity>)

  predicate Reserved(host: string) {
    ALKNET_PREFIX <= host
  }

  predicate HasBridge(h: Handoff) {
    h.eventTx.Some? && h.envelopeRx.Some?
  }

  function OpenDirect(h: Handoff, o: Open): (Decision, Handoff) {
    if Reserved(o.host) then
      if o.host == CONTROL_DESTINATION && HasBridge(h) then
        (StartBridge(h.eventTx.value, h.envelopeRx.value, o.identity), h.(eventTx := None, envelopeRx := None))
      else if h.hasHandler then (StartHandler, h.(hasHandler := false))
      else (Refuse, h)
    else
      (if o.allowed then Proxy else Refuse, h)
  }

  class SshHandler {
    var eventTx: Option<nat>
    var envelopeRx: Option<nat>
    var hasHandler: bool
    var authenticatedIdentity: Option<Identity>

    constructor (eventTx: nat, envelopeRx: nat)
      ensures State() == Handoff(Some(eventTx), Some(envelopeRx), false) && authenticatedIdentity == None
    {
      this.eventTx := Some(eventTx);
      this.envelopeRx := Some(envelopeRx);
      this.hasHandler := false;
      this.authenticatedIdentity := None;
    }

    function State(): Handoff
      reads this
    {
      Handoff(eventTx, envelopeRx, hasHandler)
    }

    method ChannelOpenDirectTcpip(host: string, allowed: bool) returns (d: Decision)
      modifies this
      ensures (d, State()) == OpenDirect(old(State()), Open(host, allowed, old(authenticatedIdentity)))
      ensures authenticatedIdentity == old(authenticatedIdentity)
    {
      if ALKNET_PREFIX <= host {
        if host == CONTROL_DESTINATION && eventTx.Some? && envelopeRx.Some? {
          d := StartBridge(eventTx.value, envelopeRx.value, authenticatedIdentity);
          eventTx, envelopeRx := None, None;
          return;
        }
        if hasHandler {
          hasHandler := false;
          return StartHandler;
        }
        return Refuse;
      }
      d := if allowed then Proxy else Refuse;
    }
  }

  function Decisions(h: Handoff, opens: seq<Open>): (ds: seq<Decision>)
    ensures |ds| == |opens|
    decreases |opens|
  {
    if opens == [] then [] else
      var (d, h') := OpenDirect(h, opens[0]);
      [d] + Decisions(h', opens[1..])
  }

  lemma PrefixLacks(opens: seq<Open>, i: nat)
    requires 0 < i < |opens|
    ensures (forall j :: 0 <= j < i ==> opens[j].host != CONTROL_DESTINATION) <==>
            opens[0].host != CONTROL_DESTINATION &&
            (forall j :: 0 <= j < i - 1 ==> opens[1..][j].host != CONTROL_DESTINATION)
  {
    if opens[0].host != CONTROL_DESTINATION &&
       (forall j :: 0 <= j < i - 1 ==> opens[1..][j].host != CONTROL_DESTINATION) {
      forall j | 0 <= j < i ensures opens[j].host != CONTROL_DESTINATION {
        assert j == 0 || opens[j] == opens[1..][j - 1];
      }
    }
  }

  /**
   A connection starts a bridge on the first open of the control destination
   and on no other, so at most one, with its own two channels and the identity
   authenticated at that moment.
   */
  lemma {:induction false} BridgeStartsOnFirstControlOpen(h: Handoff, opens: seq<Open>, i: nat)
    requires i < |opens|
    ensures Decisions(h, opens)[i].StartBridge? <==>
            && HasBridge(h) && opens[i].host == CONTROL_DESTINATION
            && forall j :: 0 <= j < i ==> opens[j].host != CONTROL_DESTINATION
    ensures Decisions(h, opens)[i].StartBridge? ==>
            Decisions(h, opens)[i] == StartBridge(h.eventTx.value, h.envelopeRx.value, opens[i].identity)
    decreases |opens|
  {
    if i > 0 {
      PrefixLacks(opens, i);
      BridgeStartsOnFirstControlOpen(OpenDirect(h, opens[0]).1, opens[1..], i - 1);
    }
  }

  /** Reserved names never reach a proxied target; other names always follow the policy. */
  lemma {:induction false} ReservedNamesStayInside(h: Handoff, opens: seq<Open>, i: nat)
    requires i < |opens|
    ensures Decisions(h, opens)[i].Proxy? <==> !Reserved(opens[i].host) && opens[i].allowed
    decreases |opens|
  {
    if i > 0 {
      ReservedNamesStayInside(OpenDirect(h, opens[0]).1, opens[1..], i - 1);
    }
  }

  /** A reserved name that does not start the bridge on this connection. */
  predicate LeftToHandler(h: Handoff, opens: seq<Open>, i: nat)
    requires i < |opens|
  {
    Reserved(opens[i].host) && !Decisions(h, opens)[i].StartBridge?
  }

  lemma LeftToHandlerLater(h: Handoff, opens: seq<Open>, i: nat)
    requires 0 < i < |opens|
    ensures LeftToHandler(h, opens, i) <==> LeftToHandler(OpenDirect(h, opens[0]).1, opens[1..], i - 1)
  {
  }

  /** The router's handler, if there is one, takes the first reserved open that the bridge does not; later ones are refused. */
  lemma {:induction false} HandlerTakesFirstOther(h: Handoff, opens: seq<Open>, i: nat)
    requires i < |opens|
    ensures Decisions(h, opens)[i].StartHandler? <==>
            && h.hasHandler && LeftToHandler(h, opens, i)
            && forall j :: 0 <= j < i ==> !LeftToHandler(h, opens, j)
    decreases |opens|
  {
    if i > 0 {
      var h' := OpenDirect(h, opens[0]).1;
      HandlerTakesFirstOther(h', opens[1..], i - 1);
      forall j | 0 < j <= i
        ensures LeftToHandler(h, opens, j) <==> LeftToHandler(h', opens[1..], j - 1)
      {
        LeftToHandlerLater(h, opens, j);
      }
      if (forall j :: 0 <= j < i - 1 ==> !LeftToHandler(h', opens[1..], j)) && !LeftToHandler(h, opens, 0) {
        forall j | 0 <= j < i ensures !LeftToHandler(h, opens, j) {
          assert j > 0 ==> !LeftToHandler(h', opens[1..], j - 1);
        }
      }
      if forall j :: 0 <= j < i ==> !LeftToHandler(h, opens, j) {
        assert !LeftToHandler(h, opens, 0);
        forall j | 0 <= j < i - 1 ensures !LeftToHandler(h', opens[1..], j) {
          assert !LeftToHandler(h, opens, j + 1);
        }
      }
    }
  }

  /** The control destination is one of the reserved names, so no connection ever proxies it. */
  lemma ControlIsNeverProxied(h: Handoff, o: Open)
    requires o.host == "alknet-control"
    ensures Reserved(o.host) && !OpenDirect(h, o).0.Proxy?
    ensures HasBridge(h) ==> OpenDirect(h, o).0 == StartBridge(h.eventTx.value, h.envelopeRx.value, o.identity)
  {
    assert o.host[..7] == "alknet-";
  }
}
