/**
 * Rate-limited admission of a decoded message: its token cost from the
 * configuration table, the per-session limiter, and, when the limiter
 * refuses, either a silent drop or a `rate-limiter` notice gated by a second
 * limiter so that notices cannot flood the connection.
 */
module Admission {
  import opened Wrappers
  import opened Strings
  import opened Values
  import opened MessageCodec

  /** A configured cost counts only when it is a number (`typeof … === 'number'`). */
  function NumberOr(v: Value, default: real): real {
    if v.Num? then v.n else default
  }

  /**
   * The token cost of a message on `topic`, given the configuration's
   * `tokens` table: 1 unless the table is truthy and names a number for the
   * topic. The source's `case 'l' || 'e'` has the label `'l' || 'e'`, which
   * is `'l'`, so topic `e` takes the default.
   */
  function TokenCost(tokens: Value, topic: string): (r: real)
    ensures r != 1.0 ==> Truthy(tokens) && (topic == "p" || topic == "l" || topic == "module" || topic == "i")
  {
    if !Truthy(tokens) then 1.0
    else if topic == "p" then NumberOr(Field(tokens, "pageGhost"), 1.0)
    else if topic == "l" then NumberOr(Field(tokens, "logger"), 1.0)
    else if topic == "module" then NumberOr(Field(tokens, "modules"), 1.0)
    else if topic == "i" then NumberOr(Field(tokens, "clientInfo"), 1.0)
    else 1.0
  }

  /** The topics whose cost the configuration may set, with the key each is read from. */
  const CostKeys: seq<(string, string)> :=
    [("p", "pageGhost"), ("l", "logger"), ("module", "modules"), ("i", "clientInfo")]

  /**
   * The cost table read as a table: a topic costs the number configured under
   * its key when there is one, and 1 otherwise; `e` always costs 1.
   */
  lemma TokenCostTable(tokens: Value, topic: string)
    ensures forall j :: 0 <= j < |CostKeys| && CostKeys[j].0 == topic ==>
      TokenCost(tokens, topic) ==
        (if Truthy(tokens) && Field(tokens, CostKeys[j].1).Num? then Field(tokens, CostKeys[j].1).n else 1.0)
    ensures (forall j :: 0 <= j < |CostKeys| ==> CostKeys[j].0 != topic) ==> TokenCost(tokens, topic) == 1.0
    ensures TokenCost(tokens, "e") == 1.0
  {
    if (forall j :: 0 <= j < |CostKeys| ==> CostKeys[j].0 != topic) {
      assert CostKeys[0].0 != topic && CostKeys[1].0 != topic && CostKeys[2].0 != topic && CostKeys[3].0 != topic;
    }
  }

  /**
   * `removeTokens(n)` on a bucket holding `remaining` tokens: the tokens are
   * taken when there are enough, and the request is admitted only when at
   * least one token is left (the handler treats `remainingRequests < 1` as a
   * refusal). Returns the new content and whether the request was admitted.
   */
  function Take(remaining: real, n: real): (r: (real, bool))
    ensures r.1 <==> remaining - n >= 1.0
    ensures r.1 ==> r.0 == remaining - n
    ensures r.0 == remaining || r.0 == remaining - n
  {
    if n <= remaining then (remaining - n, remaining - n >= 1.0) else (remaining, false)
  }

  /** `k` unit-cost requests in a row on a bucket holding `remaining`: how many were admitted, and what is left. */
  function Burst(remaining: real, k: nat): (real, nat) {
    if k == 0 then (remaining, 0)
    else
      var first := Take(remaining, 1.0);
      var rest := Burst(first.0, k - 1);
      (rest.0, rest.1 + if first.1 then 1 else 0)
  }

  function Min(a: nat, b: nat): nat {
    if a <= b then a else b
  }

  /**
   * A full bucket of `m` tokens admits `m - 1` unit-cost requests before it
   * refuses, not `m`: the request that takes the last token is refused.
   */
  lemma {:induction false} BurstAdmitsAllButOne(m: nat, k: nat)
    ensures Burst(m as real, k).1 == Min(k, if m == 0 then 0 else m - 1)
  {
    if k > 0 {
      if m <= 1 {
        BurstAdmitsAllButOne(0, k - 1);
      } else {
        BurstAdmitsAllButOne(m - 1, k - 1);
        assert (m - 1) as real == m as real - 1.0;
      }
    }
  }

  /** `/^p|heartbeat$/.test(topic)`: topics starting with `p` or ending with `heartbeat` are refused without notice. */
  predicate IsQuietTopic(topic: string) {
    StartsWith(topic, "p") || EndsWith(topic, "heartbeat")
  }

  /** What the handler did with one frame. */
  datatype Verdict =
    | Dropped            // not decodable: dropped before admission
    | Dispatched         // admitted and handed to the topic's handler
    | Unhandled          // admitted, but no handler is bound to the topic
    | Silenced           // refused, and the topic is one refused without notice
    | Notified           // refused, and a `rate-limiter` notice was sent
    | NoticeSuppressed   // refused, and the notice limiter refused the notice too

  /** The verdict, the two limiters afterwards, the handler call made and the notice to send. */
  datatype Step = Step(verdict: Verdict, limiter: real, noticeLimiter: real,
                       dispatch: Option<Inbound>, notice: Option<Value>)

  /** The `rate-limiter` notice: `{topic, data}`. */
  function RateLimitNotice(msg: Inbound): Value {
    Obj([("topic", Str(msg.topic)), ("data", msg.data)])
  }

  /** Admission of a decoded message with `handlers` the topics the handler table answers. */
  function Admit(msg: Inbound, tokens: Value, handlers: set<string>, limiter: real, noticeLimiter: real): (r: Step)
    ensures r.verdict != Dropped
    ensures r.dispatch.Some? <==> r.verdict == Dispatched
    ensures r.dispatch.Some? ==> r.dispatch.value == msg && msg.topic in handlers
    ensures r.notice.Some? <==> r.verdict == Notified
    ensures r.notice.Some? ==> r.notice.value == Obj([("topic", Str(msg.topic)), ("data", msg.data)])
  {
    var taken := Take(limiter, TokenCost(tokens, msg.topic));
    if taken.1 then
      if msg.topic in handlers then Step(Dispatched, taken.0, noticeLimiter, Some(msg), None)
      else Step(Unhandled, taken.0, noticeLimiter, None, None)
    else if IsQuietTopic(msg.topic) then Step(Silenced, taken.0, noticeLimiter, None, None)
    else
      var gate := Take(noticeLimiter, 1.0);
      if gate.1 then Step(Notified, taken.0, gate.0, None, Some(RateLimitNotice(msg)))
      else Step(NoticeSuppressed, taken.0, gate.0, None, None)
  }

  /** The whole handler on one frame: a frame that does not decode changes nothing. */
  function Handle(decoded: Option<Inbound>, tokens: Value, handlers: set<string>,
                  limiter: real, noticeLimiter: real): (r: Step)
    ensures r.verdict == Dropped <==> decoded.None?
    ensures r.dispatch.Some? ==> decoded == Some(r.dispatch.value)
    ensures decoded.None? ==> r.limiter == limiter && r.noticeLimiter == noticeLimiter && r.notice.None?
  {
    match decoded
    case None => Step(Dropped, limiter, noticeLimiter, None, None)
    case Some(msg) => Admit(msg, tokens, handlers, limiter, noticeLimiter)
  }

  /**
   * The admission rule, both ways: a message reaches its handler exactly when
   * the limiter admits its cost and a handler is bound; a refused quiet topic
   * is dropped without notice; any other refused topic gets the notice
   * `{topic, data}` exactly when the notice limiter admits one token; and the
   * notice limiter is touched only on that last path.
   */
  lemma AdmitOutcomes(msg: Inbound, tokens: Value, handlers: set<string>, limiter: real, noticeLimiter: real)
    ensures var st := Admit(msg, tokens, handlers, limiter, noticeLimiter);
      var admitted := limiter - TokenCost(tokens, msg.topic) >= 1.0;
      && (st.dispatch.Some? <==> admitted && msg.topic in handlers)
      && (st.dispatch.Some? ==> st.dispatch.value == msg)
      && (st.verdict == Silenced <==> !admitted && IsQuietTopic(msg.topic))
      && (st.notice.Some? <==> !admitted && !IsQuietTopic(msg.topic) && noticeLimiter - 1.0 >= 1.0)
      && (st.notice.Some? ==> st.notice.value == Obj([("topic", Str(msg.topic)), ("data", msg.data)]))
      && (admitted || IsQuietTopic(msg.topic) ==> st.noticeLimiter == noticeLimiter)
      && (admitted ==> st.limiter == limiter - TokenCost(tokens, msg.topic))
  {
  }

  /** The loose alternation: `ping`, `page` and `x-heartbeat` are quiet; `l` and `heartbeats` are not. */
  lemma QuietTopicQuirk()
    ensures IsQuietTopic("p") && IsQuietTopic("ping") && IsQuietTopic("page") && IsQuietTopic("x-heartbeat")
    ensures !IsQuietTopic("l") && !IsQuietTopic("heartbeats")
  {
    assert "ping"[..1] == "p" && "page"[..1] == "p";
    assert "x-heartbeat"[2..] == "heartbeat";
    assert "l"[..1][0] == 'l';
    assert "heartbeats"[..1][0] == 'h' && "heartbeats"[1..][8] == 's' && "heartbeat"[8] == 't';
  }
}
