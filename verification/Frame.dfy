/**
 The framed call transport: an event envelope travels as a four-byte
 big-endian length followed by its JSON text. The JSON text format itself is a
 parameter: a pair of total functions of which only `parse(ser(e)) == Some(e)`
 is assumed, and only where a lemma says so.
 */
module Frame {
  import opened Prelude

  datatype Json =
    | Null
    | Bool(b: bool)
    | Number(text: string)
    | Str(s: string)
    | Array(items: seq<Json>)
    | Object(fields: seq<(string, Json)>)

  datatype EventEnvelope = EventEnvelope(kind: string, id: string, payload: Json)

  datatype CallError = CallError(code: string, message: string, retryable: bool)

  datatype Codec = Codec(ser: EventEnvelope -> seq<byte>, parse: seq<byte> -> Option<EventEnvelope>) {
    ghost predicate Lawful() {
      forall e :: parse(ser(e)) == Some(e)
    }
  }

  datatype FrameDecodeError =
    | TooShort(expected: nat, actual: nat)
    | Incomplete(expected: nat, actual: nat)
    | BadJson

  /** The length goes through `as u32`, which truncates. */
  function Encode(c: Codec, e: EventEnvelope): seq<byte> {
    var json := c.ser(e);
    U32ToBe(|json| % TWO_32) + json
  }

  function DecodeWithRemainder(c: Codec, data: seq<byte>): Result<(EventEnvelope, nat), FrameDecodeError> {
    if |data| < 4 then
      Err(TooShort(4, |data|))
    else
      var total := 4 + U32FromBe(data[..4]);
      if |data| < total then
        Err(Incomplete(total, |data|))
      else
        match c.parse(data[4..total])
        case Some(e) => Ok((e, total))
        case None => Err(BadJson)
  }

  function Decode(c: Codec, data: seq<byte>): Result<EventEnvelope, FrameDecodeError> {
    if |data| < 4 then
      Err(TooShort(4, |data|))
    else
      var len := U32FromBe(data[..4]);
      if |data| < 4 + len then
        Err(Incomplete(4 + len, |data|))
      else
        match c.parse(data[4..4 + len])
        case Some(e) => Ok(e)
        case None => Err(BadJson)
  }

  /** The body length survives the truncation to 32 bits. */
  predicate Fits(c: Codec, e: EventEnvelope) {
    |c.ser(e)| < TWO_32
  }

  // ---- What a byte stream means, independently of how it is read ----

  datatype Item = Good(e: EventEnvelope) | Malformed

  predicate HasFrame(s: seq<byte>) {
    |s| >= 4 && |s| >= 4 + U32FromBe(s[..4])
  }

  function FrameLength(s: seq<byte>): (n: nat)
    requires HasFrame(s)
    ensures 4 <= n <= |s|
  {
    4 + U32FromBe(s[..4])
  }

  function HeadItem(c: Codec, s: seq<byte>): Item
    requires HasFrame(s)
  {
    match c.parse(s[4..FrameLength(s)])
    case Some(e) => Good(e)
    case None => Malformed
  }

  /** All whole frames of a stream, in order. */
  function Items(c: Codec, s: seq<byte>): seq<Item>
    decreases |s|
  {
    if HasFrame(s) then [HeadItem(c, s)] + Items(c, s[FrameLength(s)..]) else []
  }

  /** The bytes after the last whole frame. */
  function Leftover(s: seq<byte>): seq<byte>
    decreases |s|
  {
    if HasFrame(s) then Leftover(s[FrameLength(s)..]) else s
  }

  function EncodeAll(c: Codec, es: seq<EventEnvelope>): seq<byte> {
    if es == [] then [] else Encode(c, es[0]) + EncodeAll(c, es[1..])
  }

  function Goods(es: seq<EventEnvelope>): (items: seq<Item>)
    ensures |items| == |es|
    ensures forall i :: 0 <= i < |es| ==> items[i] == Good(es[i])
  {
    if es == [] then [] else [Good(es[0])] + Goods(es[1..])
  }

  lemma EncodingShape(c: Codec, e: EventEnvelope, rest: seq<byte>)
    ensures var s := Encode(c, e) + rest;
            s[..4] == U32ToBe(|c.ser(e)| % TWO_32) && s[4..] == c.ser(e) + rest
  {
  }

  /**
   Decoding a frame followed by anything gives back the envelope and exactly
   the frame's length precisely when the body length fits in 32 bits.
   */
  lemma RoundTripIffFits(c: Codec, e: EventEnvelope, rest: seq<byte>)
    requires c.Lawful()
    ensures DecodeWithRemainder(c, Encode(c, e) + rest) == Ok((e, |Encode(c, e)|)) <==> Fits(c, e)
    ensures Fits(c, e) ==> Decode(c, Encode(c, e) + rest) == Ok(e)
  {
    var s := Encode(c, e) + rest;
    EncodingShape(c, e, rest);
    if Fits(c, e) {
      assert s[4..4 + |c.ser(e)|] == c.ser(e);
    }
  }

  /** The two decoders accept the same inputs and return the same envelope. */
  lemma DecodersAgree(c: Codec, data: seq<byte>)
    ensures Decode(c, data) ==
            match DecodeWithRemainder(c, data)
            case Ok(pair) => Ok(pair.0)
            case Err(x) => Err(x)
    ensures HasFrame(data) <==> (DecodeWithRemainder(c, data).Ok? || DecodeWithRemainder(c, data) == Err(BadJson))
    ensures HasFrame(data) ==>
              DecodeWithRemainder(c, data) ==
              match HeadItem(c, data)
              case Good(e) => Ok((e, FrameLength(data)))
              case Malformed => Err(BadJson)
  {
  }

  /** A whole frame at the front stays the same frame when more bytes arrive. */
  lemma HeadStable(c: Codec, a: seq<byte>, b: seq<byte>)
    requires HasFrame(a)
    ensures HasFrame(a + b) && FrameLength(a + b) == FrameLength(a)
    ensures HeadItem(c, a + b) == HeadItem(c, a)
    ensures (a + b)[FrameLength(a)..] == a[FrameLength(a)..] + b
  {
    assert (a + b)[..4] == a[..4];
    assert (a + b)[4..FrameLength(a)] == a[4..FrameLength(a)];
  }

  /** A stream may be cut anywhere: decode the first part, carry its leftover, go on. */
  lemma {:induction false} ItemsSplit(c: Codec, a: seq<byte>, b: seq<byte>)
    ensures Items(c, a + b) == Items(c, a) + Items(c, Leftover(a) + b)
    ensures Leftover(a + b) == Leftover(Leftover(a) + b)
    decreases |a|
  {
    if HasFrame(a) {
      HeadStable(c, a, b);
      ItemsSplit(c, a[FrameLength(a)..], b);
    }
  }

  lemma HeadOfEncoding(c: Codec, e: EventEnvelope, rest: seq<byte>)
    requires c.Lawful() && Fits(c, e)
    ensures var s := Encode(c, e) + rest;
            && HasFrame(s) && HeadItem(c, s) == Good(e)
            && FrameLength(s) == |Encode(c, e)| && s[FrameLength(s)..] == rest
  {
    EncodingShape(c, e, rest);
    assert (Encode(c, e) + rest)[4..4 + |c.ser(e)|] == c.ser(e);
  }

  lemma ItemsOfEncoding(c: Codec, e: EventEnvelope, rest: seq<byte>)
    requires c.Lawful() && Fits(c, e)
    ensures Items(c, Encode(c, e) + rest) == [Good(e)] + Items(c, rest)
    ensures Leftover(Encode(c, e) + rest) == Leftover(rest)
  {
    HeadOfEncoding(c, e, rest);
  }

  lemma EncodeAllCons(c: Codec, es: seq<EventEnvelope>, rest: seq<byte>)
    requires es != []
    ensures EncodeAll(c, es) + rest == Encode(c, es[0]) + (EncodeAll(c, es[1..]) + rest)
  {
  }

  /** Concatenated encodings decode to exactly the envelopes... */
  lemma {:induction false} ItemsOfEncodeAll(c: Codec, es: seq<EventEnvelope>, rest: seq<byte>)
    requires c.Lawful()
    requires forall i :: 0 <= i < |es| ==> Fits(c, es[i])
    ensures Items(c, EncodeAll(c, es) + rest) == Goods(es) + Items(c, rest)
    decreases |es|
  {
    if es == [] {
      assert EncodeAll(c, es) + rest == rest;
    } else {
      EncodeAllCons(c, es, rest);
      ItemsOfEncoding(c, es[0], EncodeAll(c, es[1..]) + rest);
      ItemsOfEncodeAll(c, es[1..], rest);
    }
  }

  /** ... and nothing of them is left over. */
  lemma {:induction false} LeftoverOfEncodeAll(c: Codec, es: seq<EventEnvelope>, rest: seq<byte>)
    requires c.Lawful()
    requires forall i :: 0 <= i < |es| ==> Fits(c, es[i])
    ensures Leftover(EncodeAll(c, es) + rest) == Leftover(rest)
    decreases |es|
  {
    if es == [] {
      assert EncodeAll(c, es) + rest == rest;
    } else {
      EncodeAllCons(c, es, rest);
      ItemsOfEncoding(c, es[0], EncodeAll(c, es[1..]) + rest);
      LeftoverOfEncodeAll(c, es[1..], rest);
    }
  }

  lemma {:induction false} EncodeAllAppend(c: Codec, es: seq<EventEnvelope>, e: EventEnvelope)
    ensures EncodeAll(c, es + [e]) == EncodeAll(c, es) + Encode(c, e)
    decreases |es|
  {
    if es == [] {
    } else {
      EncodeAllAppend(c, es[1..], e);
      assert (es + [e])[1..] == es[1..] + [e];
    }
  }
}
