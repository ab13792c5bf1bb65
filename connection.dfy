/**
 * One authorized connection (the source's `Session` class): sending frames,
 * handling an inbound frame through decode and admission, answering a vow,
 * and reacting to a socket error. The socket is reduced to the state these
 * operations read and write.
 */
module SessionConnection {
  import opened Wrappers
  import opened Values
  import opened ConnectionValidator
  import opened MessageCodec
  import opened Admission

  datatype ReadyState = Connecting | Open | Closing | Closed

  /** The socket as the engine sees it: its state, the frames handed to it, and whether `close()` was called. */
  datatype Socket = Socket(readyState: ReadyState, sent: seq<Wire>, closeRequested: bool)

  /**
   * Handing `w` to `socket.send`: it is sent, or the call throws and the
   * socket is closed unless it is open. `throws` stands for the socket
   * library's own decision.
   */
  function AfterSend(sock: Socket, w: Wire, throws: bool): (r: Socket)
    ensures r.readyState == sock.readyState
    ensures !throws ==> r.sent == sock.sent + [w] && r.closeRequested == sock.closeRequested
    ensures throws ==> r.sent == sock.sent && (r.closeRequested <==> sock.closeRequested || sock.readyState != Open)
  {
    if !throws then sock.(sent := sock.sent + [w])
    else if sock.readyState != Open then sock.(closeRequested := true)
    else sock
  }

  /** How a handler settles a correlated request. */
  datatype Settlement = Resolve | Reject

  function SettlementTopic(k: Settlement): string {
    match k
    case Resolve => "resolve"
    case Reject => "reject"
  }

  /** The answer to a vow: `["resolve" | "reject", vowId, x]` on topic `v`. */
  function ReplyData(k: Settlement, vow: string, x: Value): Value {
    Arr([Str(SettlementTopic(k)), Str(vow), x])
  }

  /** `!vow` is false only for a captured, non-empty vow id. */
  predicate HasVow(vow: Option<string>) {
    vow.Some? && vow.value != ""
  }

  /** The limiter of throttle notices: 50 tokens per 15 seconds. */
  const NoticeCapacity: real := 50.0

  class Connection {
    const session: SessionInfo
    var socket: Socket
    var limiter: real          // tokens left in the session's limiter
    var noticeLimiter: real    // tokens left in the limiter of throttle notices
    var handled: seq<Inbound>  // the handler calls made, in order

    /** The state `authorized` sets up: both limiters full, nothing sent or handled yet. */
    constructor (session: SessionInfo, socket: Socket, max: real)
      ensures this.session == session && this.socket == socket
      ensures limiter == max && noticeLimiter == NoticeCapacity && handled == []
    {
      this.session := session;
      this.socket := socket;
      limiter := max;
      noticeLimiter := NoticeCapacity;
      handled := [];
    }

    /** `send(topic, data)`: builds the transport step by step and hands it to the socket. */
    method Send(rt: Runtime, topic: string, data: Value, compression: bool, sendThrows: bool)
      modifies this`socket
      ensures socket == AfterSend(old(socket),
                                  Transport(rt, topic, data, compression, session.debug, session.version),
                                  sendThrows)
    {
      var json := rt.stringify(data);
      var transport := if json.Some? then Text(topic + ":" + json.value) else Text(topic);
      if compression && !session.debug && !IsHandshakeTopic(topic) {
        transport := Text("#" + rt.deflate(transport.s));
      }
      if IsHandshakeTopic(topic) {
        if session.version == 0.0 {
          var wrapped := rt.stringify(Obj([("d", data)]));
          transport := if wrapped.Some? then Text(wrapped.value) else Raw(Undefined);
        } else {
          transport := Raw(data);
        }
      }
      if sendThrows {
        if socket.readyState != Open {
          socket := socket.(closeRequested := true);
        }
      } else {
        socket := socket.(sent := socket.sent + [transport]);
      }
    }

    /**
     * The `message` handler: decompress, split, parse and unwrap the frame,
     * price it, and dispatch it, drop it, or send a throttled notice.
     */
    method OnMessage(rt: Runtime, raw: string, compression: bool, tokens: Value,
                     handlers: set<string>, sendThrows: bool) returns (verdict: Verdict)
      modifies this`socket, this`limiter, this`noticeLimiter, this`handled
      ensures var st := Handle(Decode(rt, compression, raw), tokens, handlers, old(limiter), old(noticeLimiter));
        && verdict == st.verdict
        && limiter == st.limiter && noticeLimiter == st.noticeLimiter
        && handled == old(handled) + (if st.dispatch.Some? then [st.dispatch.value] else [])
        && socket == if st.notice.Some? then
                       AfterSend(old(socket),
                                 Transport(rt, "rate-limiter", st.notice.value, compression,
                                           session.debug, session.version),
                                 sendThrows)
                     else old(socket)
    {
      var decoded := ReceiveFrame(rt, compression, raw);
      if decoded.None? {
        return Dropped;
      }
      var msg := decoded.value;
      var topic := msg.topic;
      var taken := Take(limiter, TokenCost(tokens, topic));
      limiter := taken.0;
      if taken.1 {
        if topic in handlers {
          handled := handled + [msg];
          verdict := Dispatched;
        } else {
          verdict := Unhandled;
        }
      } else if IsQuietTopic(topic) {
        verdict := Silenced;
      } else {
        var gate := Take(noticeLimiter, 1.0);
        noticeLimiter := gate.0;
        if gate.1 {
          Send(rt, "rate-limiter", RateLimitNotice(msg), compression, sendThrows);
          verdict := Notified;
        } else {
          verdict := NoticeSuppressed;
        }
      }
    }

    /** The `resolve` / `reject` callbacks handed to a handler: they answer only a non-empty vow id. */
    method Reply(rt: Runtime, vow: Option<string>, k: Settlement, x: Value, compression: bool, sendThrows: bool)
      modifies this`socket
      ensures !HasVow(vow) ==> socket == old(socket)
      ensures HasVow(vow) ==>
        socket == AfterSend(old(socket),
                            Transport(rt, "v", ReplyData(k, vow.value, x), compression,
                                      session.debug, session.version),
                            sendThrows)
    {
      if vow.None? || vow.value == "" {
        return;
      }
      Send(rt, "v", ReplyData(k, vow.value, x), compression, sendThrows);
    }

    /** The `error` handler: close the socket unless it is open. */
    method OnError()
      modifies this`socket
      ensures socket.readyState == old(socket).readyState && socket.sent == old(socket).sent
      ensures socket.closeRequested <==> old(socket).closeRequested || old(socket).readyState != Open
    {
      if socket.readyState != Open {
        socket := socket.(closeRequested := true);
      }
    }
  }

  /**
   * A vow answer reaches the client as a correlated message on the
   * settlement's topic, carrying `x` under the same vow id.
   */
  lemma ReplyDecodes(rt: Runtime, s: SessionInfo, k: Settlement, vow: string, x: Value, compression: bool)
    requires JsonLaws(rt) && ZipLaws(rt) && JsonClean(x)
    ensures var w := Transport(rt, "v", ReplyData(k, vow, x), compression, s.debug, s.version);
      w.Text? && Decode(rt, compression, w.s) == Some(Inbound(SettlementTopic(k), x, Some(vow)))
  {
    DecodeVowRequest(rt, SettlementTopic(k), vow, x, compression, s.debug, s.version);
  }

  /**
   * A request sent as `v:[topic, vowId, payload]` and admitted is handed to
   * its handler with the vow id, so the handler's answer goes back under that
   * id; a plain request carries none, and no answer is ever sent for it.
   */
  lemma {:induction false} DispatchCarriesVow(rt: Runtime, s: SessionInfo, topic: string, vow: string, payload: Value,
                                             compression: bool, tokens: Value, handlers: set<string>,
                                             limiter: real, noticeLimiter: real)
    requires JsonLaws(rt) && ZipLaws(rt) && JsonClean(payload)
    requires topic in handlers && limiter - TokenCost(tokens, topic) >= 1.0
    ensures var w := Transport(rt, "v", Arr([Str(topic), Str(vow), payload]), compression, s.debug, s.version);
      w.Text? &&
      Handle(Decode(rt, compression, w.s), tokens, handlers, limiter, noticeLimiter).dispatch
        == Some(Inbound(topic, payload, Some(vow)))
  {
    DecodeVowRequest(rt, topic, vow, payload, compression, s.debug, s.version);
  }

  /** The `__server` flags delivered with the core: compression as a non-debug session sees it, and the cache hit. */
  datatype ServerFlags = ServerFlags(compression: bool, cached: bool)

  /** `compression: debug ? false : !!config.compression`, `cached: query.t === '1'`. */
  function Flags(s: SessionInfo, compression: bool, t: Option<string>): (r: ServerFlags)
    ensures r.compression <==> compression && !s.debug
    ensures r.cached <==> t == Some("1")
  {
    ServerFlags(if s.debug then false else compression, t == Some("1"))
  }

  /**
   * The compression flag the client is told agrees with what `send` does:
   * when it says on, every non-handshake frame is deflated behind `#`; when
   * it says off, every one is the plain frame.
   */
  lemma FlagsAgreeWithSend(rt: Runtime, s: SessionInfo, compression: bool, t: Option<string>,
                           topic: string, data: Value)
    requires !IsHandshakeTopic(topic)
    ensures Flags(s, compression, t).compression ==>
      Transport(rt, topic, data, compression, s.debug, s.version) == Text("#" + rt.deflate(Framed(rt, topic, data)))
    ensures !Flags(s, compression, t).compression ==>
      Transport(rt, topic, data, compression, s.debug, s.version) == Text(Framed(rt, topic, data))
    ensures s.debug ==> !Flags(s, compression, t).compression
  {
  }
}
