/** Events handed to the application, and how they must relate to the frames of a stream. */
module Events {
  import opened Prelude
  import opened Auth
  import opened Frame

  datatype InterfaceEvent = InterfaceEvent(envelope: EventEnvelope, identity: Option<Identity>)

  /** The events are the first frames of the stream, each once, in order, with the one identity. */
  predicate EventsMatch(items: seq<Item>, identity: Option<Identity>, events: seq<InterfaceEvent>) {
    && |events| <= |items|
    && forall i :: 0 <= i < |events| ==> items[i].Good? && events[i] == InterfaceEvent(items[i].e, identity)
  }
}
