/**
 * The wire format of the session engine. Outbound (`send`): a frame is
 * `topic[:json]`, deflated behind a `#` marker when compression applies, and
 * replaced by a raw, version-dependent payload for handshake topics.
 * Inbound (the message handler): a `#` frame is inflated if compression is on,
 * the frame is split at its first `:`, the rest is JSON, and a `v` frame
 * `[topic, vowId, payload]` is unwrapped into a correlated request.
 */
module MessageCodec {
  import opened Wrappers
  import opened Strings
  import opened Values

  /** What `socket.send` is handed: text, or, for a version-1 handshake, the payload itself. */
  datatype Wire = Text(s: string) | Raw(v: Value)

  /**
   * `/^core|auth$/.test(topic)`. The alternation binds loosest, so this holds
   * for every topic that starts with `core` or ends with `auth`, not only for
   * the two handshake topics.
   */
  predicate IsHandshakeTopic(topic: string) {
    StartsWith(topic, "core") || EndsWith(topic, "auth")
  }

  /** The frame before compression: the topic, then `:` and the JSON text unless JSON.stringify gives `undefined`. */
  function Framed(rt: Runtime, topic: string, data: Value): (r: string)
    ensures StartsWith(r, topic)
    ensures r == topic <==> rt.stringify(data).None?
  {
    match rt.stringify(data)
    case None => topic
    case Some(json) => topic + ":" + json
  }

  /** Compression applies when it is on globally, the session is not a debug one, and the topic is not a handshake one. */
  predicate Compresses(compression: bool, debug: bool, topic: string) {
    compression && !debug && !IsHandshakeTopic(topic)
  }

  /** What `send(topic, data)` hands to the socket. */
  function Transport(rt: Runtime, topic: string, data: Value, compression: bool, debug: bool, version: real): (r: Wire)
    ensures !IsHandshakeTopic(topic) ==> r.Text? && (StartsWith(r.s, "#") <== Compresses(compression, debug, topic))
    ensures !IsHandshakeTopic(topic) && !Compresses(compression, debug, topic) ==> StartsWith(r.s, topic)
  {
    if IsHandshakeTopic(topic) then
      if version == 0.0 then
        // version 0 wraps the payload as `{d: data}`; JSON.stringify of an object is never `undefined`
        match rt.stringify(Obj([("d", data)]))
        case Some(json) => Text(json)
        case None => Raw(Undefined)
      else Raw(data)
    else if Compresses(compression, debug, topic) then Text("#" + rt.deflate(Framed(rt, topic, data)))
    else Text(Framed(rt, topic, data))
  }

  /** A decoded inbound message: its topic, its data (`undefined` when absent) and the vow id it answers to. */
  datatype Inbound = Inbound(topic: string, data: Value, vow: Option<string>)

  /** A `v` frame whose data is an array starting with two strings is a correlated request. */
  predicate IsVowFrame(topic: string, data: Value) {
    topic == "v" && data.Arr? && |data.items| >= 2 && data.items[0].Str? && data.items[1].Str?
  }

  /** The vow proxy: `[topic, vowId, payload]` becomes the request `topic` with `payload`, answered under `vowId`. */
  function Unwrap(topic: string, data: Value): (r: Inbound)
    ensures r.vow.Some? <==> IsVowFrame(topic, data)
    ensures r.vow.None? ==> r.topic == topic && r.data == data
    ensures r.vow.Some? ==> r.topic == data.items[0].s && r.vow.value == data.items[1].s
    ensures r.vow.Some? ==> r.data == Element(data.items, 2)
  {
    if IsVowFrame(topic, data) then Inbound(data.items[0].s, Element(data.items, 2), Some(data.items[1].s))
    else Inbound(topic, data, None)
  }

  /** The topic parser: split at the first `:`, JSON-parse the rest; a parse failure drops the message. */
  function ReadFrame(rt: Runtime, frame: string): (r: Option<Inbound>)
    ensures ':' !in frame ==> r == Some(Unwrap(frame, Undefined))
    ensures r.None? ==> exists i :: 0 <= i < |frame| && frame[i] == ':' && rt.parse(frame[i + 1..]).None?
  {
    match IndexOf(frame, ':')
    case None => Some(Unwrap(frame, Undefined))
    case Some(i) =>
      match rt.parse(frame[i + 1..])
      case None => None
      case Some(data) => Some(Unwrap(frame[..i], data))
  }

  /** An inbound frame: a `#` frame is inflated when compression is on and dropped otherwise or when inflating fails. */
  function Decode(rt: Runtime, compression: bool, raw: string): (r: Option<Inbound>)
    ensures !StartsWith(raw, "#") ==> r == ReadFrame(rt, raw)
    ensures StartsWith(raw, "#") && !compression ==> r.None?
  {
    if |raw| > 0 && raw[0] == '#' then
      if !compression then None
      else
        match rt.inflate(raw[1..])
        case None => None
        case Some(frame) => ReadFrame(rt, frame)
    else ReadFrame(rt, raw)
  }

  /**
   * The decoding steps of the `message` handler, reassigning the frame, the
   * topic, the data and the vow as it goes; None where it logs and returns.
   */
  method ReceiveFrame(rt: Runtime, compression: bool, raw: string) returns (msg: Option<Inbound>)
    ensures msg == Decode(rt, compression, raw)
  {
    var frame := raw;
    if |frame| > 0 && frame[0] == '#' {
      if !compression {
        return None;
      }
      var inflated := rt.inflate(frame[1..]);
      if inflated.None? {
        return None;
      }
      frame := inflated.value;
    }
    var topic: string;
    var data := Undefined;
    var vow: Option<string> := None;
    var separator := IndexOf(frame, ':');
    if separator.Some? {
      topic := frame[..separator.value];
      var parsed := rt.parse(frame[separator.value + 1..]);
      if parsed.None? {
        return None;
      }
      data := parsed.value;
    } else {
      topic := frame;
    }
    if topic == "v" && data.Arr? && |data.items| >= 2 && data.items[0].Str? && data.items[1].Str? {
      vow := Some(data.items[1].s);
      topic := data.items[0].s;
      data := Element(data.items, 2);
    }
    msg := Some(Inbound(topic, data, vow));
  }

  /** A frame whose topic has no `:` splits right after the topic: the rest is all data. */
  lemma ReadFrameSplitsAfterTopic(rt: Runtime, topic: string, json: string)
    requires ':' !in topic
    ensures ReadFrame(rt, topic + ":" + json) ==
      match rt.parse(json)
      case None => None
      case Some(data) => Some(Unwrap(topic, data))
  {
    var frame := topic + ":" + json;
    IndexOfAfter(topic, ':', json);
    assert frame[..|topic|] == topic;
    assert frame[|topic| + 1..] == json;
  }

  /** The frame is the topic alone when the data has no JSON text, and `topic:json` otherwise. */
  lemma FramedShape(rt: Runtime, topic: string, data: Value)
    requires JsonLaws(rt)
    ensures data == Undefined ==> Framed(rt, topic, data) == topic
    ensures data != Undefined ==>
      rt.stringify(data).Some? && Framed(rt, topic, data) == topic + ":" + rt.stringify(data).value
  {
  }

  /**
   * How `send` chooses the transport: handshake topics get the raw
   * version-dependent payload and are never deflated; other topics are
   * deflated behind `#` exactly when compression is on and the session is
   * not a debug one, and are sent as the plain frame otherwise.
   */
  lemma TransportCases(rt: Runtime, topic: string, data: Value, compression: bool, debug: bool, version: real)
    requires JsonLaws(rt)
    ensures IsHandshakeTopic(topic) && version == 0.0 ==>
      rt.stringify(Obj([("d", data)])).Some? &&
      Transport(rt, topic, data, compression, debug, version) == Text(rt.stringify(Obj([("d", data)])).value)
    ensures IsHandshakeTopic(topic) && version != 0.0 ==>
      Transport(rt, topic, data, compression, debug, version) == Raw(data)
    ensures !IsHandshakeTopic(topic) && compression && !debug ==>
      Transport(rt, topic, data, compression, debug, version) == Text("#" + rt.deflate(Framed(rt, topic, data)))
    ensures !IsHandshakeTopic(topic) && !(compression && !debug) ==>
      Transport(rt, topic, data, compression, debug, version) == Text(Framed(rt, topic, data))
  {
  }

  /**
   * Decoding what `send` produced gives back the topic and the data, for
   * every topic that is not a handshake one, has no `:`, is not the vow
   * topic `v`, and does not start with `#` when it travels uncompressed.
   */
  lemma {:induction false} DecodeTransport(rt: Runtime, topic: string, data: Value,
                                          compression: bool, debug: bool, version: real)
    requires JsonLaws(rt) && ZipLaws(rt)
    requires !IsHandshakeTopic(topic) && ':' !in topic && topic != "v"
    requires Compresses(compression, debug, topic) || !StartsWith(topic, "#")
    requires data == Undefined || JsonClean(data)
    ensures Transport(rt, topic, data, compression, debug, version).Text?
    ensures Decode(rt, compression, Transport(rt, topic, data, compression, debug, version).s)
         == Some(Inbound(topic, data, None))
  {
    var frame := Framed(rt, topic, data);
    assert ReadFrame(rt, frame) == Some(Inbound(topic, data, None)) by {
      if data == Undefined {
        assert IndexOf(topic, ':').None?;
      } else {
        ReadFrameSplitsAfterTopic(rt, topic, rt.stringify(data).value);
      }
    }
    if !Compresses(compression, debug, topic) {
      assert |frame| > 0 && frame[0] == '#' ==> StartsWith(topic, "#") by {
        if |topic| == 0 && data != Undefined {
          assert frame[0] == ':';
        }
      }
    } else {
      assert ("#" + rt.deflate(frame))[1..] == rt.deflate(frame);
    }
  }

  /**
   * A correlated request `v:[topic, vowId, payload]` decodes to `topic` with
   * `payload`, to be answered under `vowId`, whether or not it was deflated.
   */
  lemma {:induction false} DecodeVowRequest(rt: Runtime, topic: string, vow: string, payload: Value,
                                           compression: bool, debug: bool, version: real)
    requires JsonLaws(rt) && ZipLaws(rt)
    requires JsonClean(payload)
    ensures var w := Transport(rt, "v", Arr([Str(topic), Str(vow), payload]), compression, debug, version);
      w.Text? && Decode(rt, compression, w.s) == Some(Inbound(topic, payload, Some(vow)))
  {
    var data := Arr([Str(topic), Str(vow), payload]);
    assert JsonClean(data) by {
      assert forall i :: 0 <= i < 3 ==> JsonClean(data.items[i]);
    }
    assert !IsHandshakeTopic("v") by {
      assert !StartsWith("v", "core") && !EndsWith("v", "auth");
    }
    var json := rt.stringify(data).value;
    assert rt.parse(json) == Some(data);
    var frame := Framed(rt, "v", data);
    assert frame == "v" + ":" + json;
    assert Unwrap("v", data) == Inbound(topic, payload, Some(vow));
    ReadFrameSplitsAfterTopic(rt, "v", json);
    assert ReadFrame(rt, frame) == Some(Inbound(topic, payload, Some(vow)));
    assert frame[0] == 'v';
    if Compresses(compression, debug, "v") {
      assert ("#" + rt.deflate(frame))[1..] == rt.deflate(frame);
    }
  }

  /** Inbound `#` frames are dropped when compression is off and when they do not inflate. */
  lemma CompressedFrameGate(rt: Runtime, compression: bool, body: string)
    ensures !compression ==> Decode(rt, compression, "#" + body) == None
    ensures compression && rt.inflate(body).None? ==> Decode(rt, compression, "#" + body) == None
    ensures compression && rt.inflate(body).Some? ==>
      Decode(rt, compression, "#" + body) == ReadFrame(rt, rt.inflate(body).value)
  {
    assert ("#" + body)[1..] == body;
  }

  /** The loose alternation: `core-update` and `oauth` travel like handshakes, `authority` does not. */
  lemma HandshakeTopicQuirk()
    ensures IsHandshakeTopic("core") && IsHandshakeTopic("auth")
    ensures IsHandshakeTopic("core-update") && IsHandshakeTopic("oauth")
    ensures !IsHandshakeTopic("authority") && !IsHandshakeTopic("v")
  {
    assert "core-update"[..4] == "core";
    assert "oauth"[1..] == "auth";
    assert "authority"[..4][0] == 'a' && "authority"[5..][0] == 'r';
    assert !StartsWith("v", "core") && !EndsWith("v", "auth");
  }
}
