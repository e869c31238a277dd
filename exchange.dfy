/**
 * The node's side of the MQTT conversation, as pure functions over the
 * part of the node it changes: inbound dispatch (RLNode.cpp:512-526), the
 * identification-poll reply (RLNode.cpp:559-579), the busy-wait for a
 * response with its 30 s deadline (RLNode.cpp:310-321), and one whole
 * request with its "Processing" second wait (RLNode.cpp:291-341). The three
 * request phases, nodeConfigChanged and the publish round of loop are built
 * from these in module Phases.
 *
 * The methods of Node.RLNode are proved to compute exactly these functions.
 *
 * The clock, the random draws and the messages the MQTT client delivers
 * are inputs. One pass of a busy-wait loop is a `Tick`: what
 * `mqttClient.loop()` delivered, if anything, and the `millis()` reading
 * taken after it.
 */
module Exchange {
  import opened Clock
  import opened Protocol
  import opened CString
  import opened Topics
  import opened Correlation
  import opened Channel

  /** MAX_RES_TIME_OUT (RLNode.h:34): milliseconds a wait lasts. */
  const MAX_RES_TIME_OUT: nat := 30000
  const PROCESSING: string := "Processing"
  const DONE: string := "Done"

  /** One pass of a wait loop. */
  datatype Tick = Tick(delivered: Option<Inbound>, now: U32)

  /** A wait: the millis() reading that starts its timer, then its passes. */
  datatype Wait = Wait(start: U32, ticks: seq<Tick>)

  /** What the environment supplies to one request: the draws of
      random(0, 62) for the correlation token, the first wait, the second
      wait (used only after a "Processing" reply), and the millis() reading
      updateConfig takes if the reply is applied to a channel. */
  datatype Attempt = Attempt(draws: seq<nat>, first: Wait, second: Wait, applyTime: U32)

  /** The node's identity and the two topics the callback tests by name;
      begin sets them and nothing changes them afterwards. */
  datatype Names = Names(
    mac: string,        // MAC
    lowerMac: string,   // LowerCaseMAC
    nodeName: string,   // NodeName
    nodeType: string,   // NodeType
    pollTopic: string,  // Topic_IdentificationPoll
    nccTopic: string)   // Topic_NodeConfigChanged

  /** The fields of the node that the callback and the exchanges change. */
  datatype Link = Link(
    received: bool,               // ResponseReceived
    doc: Document,                // jsonDoc
    transport: seq<TransportOp>,  // the calls made on the MQTT client
    correlationData: string,      // CorrelationData
    replyTopic: string,           // ResponseTopic
    topicResponse: string)        // Topic_Response

  // ---------------------------------------------------------------------
  // Dispatch (mqttCallback)

  datatype Route = ToIdentificationPoll | ToNodeConfigChanged | ToResponse | Unhandled

  /** The if-chain of mqttCallback, with C's `!` and `+` as written. The
      third test is `!strncmp(...) + 1`, which is 1 or 2 and so never false:
      the fallback branch is dead for every input. */
  function RouteAsWritten(topic: string, n: Names, topicResponse: string): (r: Route)
    ensures r != Unhandled
  {
    if Not(StrNCmp(topic, n.pollTopic, |n.pollTopic| + 1)) != 0 then ToIdentificationPoll
    else if Not(StrNCmp(topic, n.nccTopic, |n.nccTopic| + 1)) != 0 then ToNodeConfigChanged
    else if Not(StrNCmp(topic, topicResponse, |topicResponse|)) + 1 != 0 then ToResponse
    else Unhandled
  }

  /** Where the callback sends a message: a poll on exactly the poll topic,
      a notification on exactly the configuration-changed topic, and every
      other topic, whatever Topic_Response is, counts as a response. */
  function RouteOf(topic: string, n: Names): Route {
    if topic == n.pollTopic then ToIdentificationPoll
    else if topic == n.nccTopic then ToNodeConfigChanged
    else ToResponse
  }

  /** The callback sends `topic` to nodeConfigChanged. */
  predicate Notifies(topic: string, n: Names) {
    RouteOf(topic, n) == ToNodeConfigChanged
  }

  /** The two topics the callback tests are C strings. */
  predicate Terminated(n: Names) {
    NoNul(n.pollTopic) && NoNul(n.nccTopic)
  }

  /** On C strings the if-chain as written routes exactly as RouteOf: the
      compared length includes the NUL, so the first two tests are string
      equality, and Topic_Response plays no part. */
  lemma RouteExact(topic: string, n: Names, topicResponse: string)
    requires NoNul(topic) && Terminated(n)
    ensures RouteAsWritten(topic, n, topicResponse) == RouteOf(topic, n)
    ensures Not(StrNCmp(topic, n.pollTopic, |n.pollTopic| + 1)) != 0 <==> topic == n.pollTopic
    ensures Not(StrNCmp(topic, n.nccTopic, |n.nccTopic| + 1)) != 0 <==> topic == n.nccTopic
  {
    StrNCmpIncludingNul(topic, n.pollTopic);
    StrNCmpIncludingNul(topic, n.nccTopic);
  }

  /** responseIdentificationPoll: remember the poll's ResponseTopic and
      CorrelationData and publish two replies on that topic. */
  function IdentificationReply(l: Link, n: Names): (r: Link)
    ensures r.transport == l.transport + [
              PublishJson(l.doc.responseTopic, Reply(l.doc.correlationData, PROCESSING, "", None)),
              PublishJson(l.doc.responseTopic, Reply(l.doc.correlationData, DONE, "", Some(Identity(n.nodeName, n.mac))))]
    ensures r == l.(replyTopic := l.doc.responseTopic, correlationData := l.doc.correlationData,
                    transport := r.transport)
  {
    var d := l.doc;
    var processing := Reply(d.correlationData, PROCESSING, "", None);
    var done := Reply(d.correlationData, DONE, "", Some(Identity(n.nodeName, n.mac)));
    l.(replyTopic := d.responseTopic, correlationData := d.correlationData,
       transport := l.transport + [PublishJson(d.responseTopic, processing), PublishJson(d.responseTopic, done)])
  }

  /** mqttCallback for a message that is not a configuration-changed
      notification: store the document, then answer a poll or flag a
      response. */
  function Deliver(l: Link, n: Names, m: Inbound): (r: Link)
    requires !Notifies(m.topic, n)
    ensures r.doc == m.doc && r.topicResponse == l.topicResponse
    ensures r.received == (l.received || RouteOf(m.topic, n) == ToResponse)
    ensures RouteOf(m.topic, n) == ToResponse ==> r == l.(doc := m.doc, received := true)
    ensures RouteOf(m.topic, n) == ToIdentificationPoll ==>
              |r.transport| == |l.transport| + 2 && r.transport[..|l.transport|] == l.transport
  {
    var stored := l.(doc := m.doc);
    match RouteOf(m.topic, n)
    case ToIdentificationPoll => IdentificationReply(stored, n)
    case ToResponse => stored.(received := true)
    case Unhandled => stored
  }

  // ---------------------------------------------------------------------
  // Waiting for a response

  /** No pass of the wait delivers a configuration-changed notification
      (the model leaves re-entrant reconfiguration out), and every topic
      delivered is a C string. */
  predicate Quiet(n: Names, ticks: seq<Tick>) {
    forall i :: 0 <= i < |ticks| && ticks[i].delivered.Some? ==>
      NoNul(ticks[i].delivered.value.topic) && !Notifies(ticks[i].delivered.value.topic, n)
  }

  lemma QuietSuffix(n: Names, ticks: seq<Tick>, k: nat)
    requires Quiet(n, ticks) && k <= |ticks|
    ensures Quiet(n, ticks[k..])
  {
    forall i | 0 <= i < |ticks[k..]| && ticks[k..][i].delivered.Some?
      ensures NoNul(ticks[k..][i].delivered.value.topic) && !Notifies(ticks[k..][i].delivered.value.topic, n)
    {
      assert ticks[k..][i] == ticks[k + i];
    }
  }

  /** The clock passes the deadline by the last pass of the wait. */
  predicate Decisive(w: Wait) {
    w.ticks != [] && Elapsed(w.ticks[|w.ticks| - 1].now, w.start) > MAX_RES_TIME_OUT
  }

  /** mqttClient.loop(): deliver the message of the pass, if any. */
  function Poll(l: Link, n: Names, t: Tick): (r: Link)
    requires t.delivered.Some? ==> !Notifies(t.delivered.value.topic, n)
    ensures r.topicResponse == l.topicResponse && |r.transport| >= |l.transport|
    ensures r.transport[..|l.transport|] == l.transport
  {
    if t.delivered.Some? then Deliver(l, n, t.delivered.value) else l
  }

  /** A pass that delivers a message the callback treats as a response. */
  predicate Responds(t: Tick, n: Names) {
    t.delivered.Some? && RouteOf(t.delivered.value.topic, n) == ToResponse
  }

  datatype WaitEnd = Replied | TimedOut

  /** Index of the first pass whose reading is more than MAX_RES_TIME_OUT
      after `start`: the strict test `millis() - timeout > MAX_RES_TIME_OUT`. */
  function FirstLate(start: U32, ticks: seq<Tick>): (k: nat)
    requires ticks != [] && Elapsed(ticks[|ticks| - 1].now, start) > MAX_RES_TIME_OUT
    ensures k < |ticks| && Elapsed(ticks[k].now, start) > MAX_RES_TIME_OUT
    ensures forall j :: 0 <= j < k ==> Elapsed(ticks[j].now, start) <= MAX_RES_TIME_OUT
    decreases |ticks|
  {
    if Elapsed(ticks[0].now, start) > MAX_RES_TIME_OUT then 0
    else 1 + FirstLate(start, ticks[1..])
  }

  /** `while (!ResponseReceived) { mqttClient.loop(); if (millis() - timeout
      > MAX_RES_TIME_OUT) { unsubscribe(Topic_Response); leave } }`, from
      the passes `ticks` onwards. The flag is tested before each pass; a
      timed-out wait leaves ResponseReceived as it is. */
  function AwaitFrom(l: Link, n: Names, start: U32, ticks: seq<Tick>): (r: (Link, WaitEnd))
    requires Quiet(n, ticks)
    requires ticks != [] && Elapsed(ticks[|ticks| - 1].now, start) > MAX_RES_TIME_OUT
    ensures r.0.topicResponse == l.topicResponse
    ensures r.1 == Replied ==> r.0.received
    ensures r.1 == TimedOut ==> |r.0.transport| > |l.transport| &&
                                r.0.transport[|r.0.transport| - 1] == Unsubscribe(l.topicResponse)
    ensures |r.0.transport| >= |l.transport| && r.0.transport[..|l.transport|] == l.transport
    decreases |ticks|
  {
    if l.received then (l, Replied)
    else
      var l1 := Poll(l, n, ticks[0]);
      if Elapsed(ticks[0].now, start) > MAX_RES_TIME_OUT then
        (l1.(transport := l1.transport + [Unsubscribe(l1.topicResponse)]), TimedOut)
      else
        assert Quiet(n, ticks[1..]) by {
          forall i | 0 <= i < |ticks[1..]| && ticks[1..][i].delivered.Some?
            ensures NoNul(ticks[1..][i].delivered.value.topic) && !Notifies(ticks[1..][i].delivered.value.topic, n)
          {
            assert ticks[1..][i] == ticks[i + 1];
          }
        }
        AwaitFrom(l1, n, start, ticks[1..])
  }

  /** One pass of the wait, from pass k on, while the flag is clear. */
  lemma AwaitStep(l: Link, n: Names, start: U32, ticks: seq<Tick>, k: nat)
    requires k < |ticks| && Quiet(n, ticks[k..]) && !l.received
    requires Elapsed(ticks[|ticks| - 1].now, start) > MAX_RES_TIME_OUT
    ensures ticks[k].delivered.Some? ==>
              NoNul(ticks[k].delivered.value.topic) && !Notifies(ticks[k].delivered.value.topic, n)
    ensures var l1 := Poll(l, n, ticks[k]);
            AwaitFrom(l, n, start, ticks[k..]) ==
              if Elapsed(ticks[k].now, start) > MAX_RES_TIME_OUT
              then (l1.(transport := l1.transport + [Unsubscribe(l.topicResponse)]), TimedOut)
              else AwaitFrom(l1, n, start, ticks[k + 1..])
  {
    assert ticks[k..][0] == ticks[k];
    if Elapsed(ticks[k].now, start) <= MAX_RES_TIME_OUT {
      assert ticks[k..][1..] == ticks[k + 1..];
    }
  }

  function Await(l: Link, n: Names, w: Wait): (Link, WaitEnd)
    requires Quiet(n, w.ticks) && Decisive(w)
  {
    AwaitFrom(l, n, w.start, w.ticks)
  }

  /** When a wait ends: it gets its response exactly when the flag was
      already set or a response is delivered on a pass BEFORE the first
      pass more than MAX_RES_TIME_OUT late. A response delivered on that
      late pass comes too late, and 30000 ms exactly is not late. */
  lemma {:induction false} AwaitOutcome(l: Link, n: Names, start: U32, ticks: seq<Tick>)
    requires Quiet(n, ticks)
    requires ticks != [] && Elapsed(ticks[|ticks| - 1].now, start) > MAX_RES_TIME_OUT
    ensures AwaitFrom(l, n, start, ticks).1 == Replied <==>
              l.received || exists j :: 0 <= j < FirstLate(start, ticks) && Responds(ticks[j], n)
    decreases |ticks|
  {
    if !l.received && Elapsed(ticks[0].now, start) <= MAX_RES_TIME_OUT {
      var l1 := Poll(l, n, ticks[0]);
      var rest := ticks[1..];
      assert Quiet(n, rest) by {
        forall i | 0 <= i < |rest| && rest[i].delivered.Some?
          ensures NoNul(rest[i].delivered.value.topic) && !Notifies(rest[i].delivered.value.topic, n)
        {
          assert rest[i] == ticks[i + 1];
        }
      }
      AwaitOutcome(l1, n, start, rest);
      assert FirstLate(start, ticks) == 1 + FirstLate(start, rest);
      assert l1.received <==> Responds(ticks[0], n);
      if exists j :: 0 <= j < FirstLate(start, ticks) && Responds(ticks[j], n) {
        var j :| 0 <= j < FirstLate(start, ticks) && Responds(ticks[j], n);
        if j > 0 {
          assert rest[j - 1] == ticks[j];
        }
      }
      if exists j :: 0 <= j < FirstLate(start, rest) && Responds(rest[j], n) {
        var j :| 0 <= j < FirstLate(start, rest) && Responds(rest[j], n);
        assert rest[j] == ticks[j + 1];
      }
    }
  }

  // ---------------------------------------------------------------------
  // One request: build the response topic, subscribe, publish, wait

  datatype Outcome = Answered | Unanswered

  /** What one attempt needs from its environment: 19 draws in range, two
      waits that each reach their deadline, and no notification during
      either. */
  predicate Usable(n: Names, a: Attempt) {
    ValidDraws(a.draws) && Decisive(a.first) && Decisive(a.second) &&
    Quiet(n, a.first.ticks) && Quiet(n, a.second.ticks)
  }

  predicate AllUsable(n: Names, script: seq<Attempt>) {
    forall k :: 0 <= k < |script| ==> Usable(n, script[k])
  }

  /** The request of operation `op`: set Topic_Response and a fresh
      CorrelationData, subscribe to the response topic and publish the
      request on the data-access topic. */
  function Send(l: Link, n: Names, op: string, payload: RequestPayload, draws: seq<nat>): (r: Link)
    requires ValidDraws(draws)
    ensures r.topicResponse == ResponseTopic(n.lowerMac, op) && r.correlationData == Token(draws)
    ensures r.transport == l.transport + [Subscribe(ResponseTopic(n.lowerMac, op)),
                                          PublishJson(RequestTopic(op), Request(ResponseTopic(n.lowerMac, op), Token(draws), payload))]
    ensures r.received == l.received && r.doc == l.doc && r.replyTopic == l.replyTopic
  {
    var topic := ResponseTopic(n.lowerMac, op);
    var token := Token(draws);
    l.(topicResponse := topic, correlationData := token,
       transport := l.transport + [Subscribe(topic), PublishJson(RequestTopic(op), Request(topic, token, payload))])
  }

  /** `!strncmp(jsonDoc["CmdStatus"], "Processing", 11)`; 11 is the length
      of "Processing" with its NUL. */
  predicate IsProcessing(doc: Document) {
    Not(StrNCmp(doc.cmdStatus, PROCESSING, |PROCESSING| + 1)) != 0
  }

  /** The compared length 11 includes the NUL of "Processing", so only the
      exact status "Processing" starts a second wait. */
  lemma ProcessingExact(doc: Document)
    requires NoNul(doc.cmdStatus)
    ensures IsProcessing(doc) <==> doc.cmdStatus == PROCESSING
  {
    StrNCmpIncludingNul(doc.cmdStatus, PROCESSING);
  }

  /** After the first wait got its reply: clear ResponseReceived, and after
      a "Processing" reply wait again on `second`, with the timer
      restarted. */
  function AfterReply(l: Link, n: Names, second: Wait): (r: (Link, Outcome))
    requires Quiet(n, second.ticks) && Decisive(second)
    ensures r.0.topicResponse == l.topicResponse
    ensures r.1 == Answered ==> !r.0.received
    ensures r.1 == Unanswered ==>
              r.0.transport != [] && r.0.transport[|r.0.transport| - 1] == Unsubscribe(l.topicResponse)
  {
    var l2 := l.(received := false);
    if !IsProcessing(l2.doc) then (l2, Answered)
    else
      var (l3, e2) := Await(l2, n, second);
      if e2 == TimedOut then (l3, Unanswered) else (l3.(received := false), Answered)
  }

  /** The shared body of the three request phases, up to the point where
      they differ: send, wait, and on a reply go on as AfterReply says. */
  function Transact(l: Link, n: Names, op: string, payload: RequestPayload, a: Attempt): (r: (Link, Outcome))
    requires Usable(n, a)
    ensures r.0.topicResponse == ResponseTopic(n.lowerMac, op)
    ensures r.1 == Answered ==> !r.0.received
    ensures r.1 == Unanswered ==>
              r.0.transport != [] && r.0.transport[|r.0.transport| - 1] == Unsubscribe(ResponseTopic(n.lowerMac, op))
  {
    var sent := Send(l, n, op, payload, a.draws);
    var (l1, e1) := Await(sent, n, a.first);
    if e1 == TimedOut then (l1, Unanswered) else AfterReply(l1, n, a.second)
  }

  /** A first reply that is not "Processing" answers the request; the
      second wait is not used. */
  lemma ExchangeDoneAtFirstReply(l: Link, n: Names, op: string, payload: RequestPayload, a: Attempt, second: Wait)
    requires Usable(n, a) && Usable(n, a.(second := second))
    requires Await(Send(l, n, op, payload, a.draws), n, a.first).1 == Replied
    requires !IsProcessing(Await(Send(l, n, op, payload, a.draws), n, a.first).0.doc)
    ensures Transact(l, n, op, payload, a).1 == Answered
    ensures Transact(l, n, op, payload, a) == Transact(l, n, op, payload, a.(second := second))
  {
  }

  /** After a "Processing" reply, the request is answered exactly when a
      response arrives on the second wait before ITS deadline, counted from
      the second wait's own start: the timer is restarted. */
  lemma ExchangeAfterProcessing(l: Link, n: Names, op: string, payload: RequestPayload, a: Attempt)
    requires Usable(n, a)
    requires Await(Send(l, n, op, payload, a.draws), n, a.first).1 == Replied
    requires IsProcessing(Await(Send(l, n, op, payload, a.draws), n, a.first).0.doc)
    ensures Transact(l, n, op, payload, a).1 == Answered <==>
              exists j :: 0 <= j < FirstLate(a.second.start, a.second.ticks) &&
                          Responds(a.second.ticks[j], n)
  {
    var l1 := Await(Send(l, n, op, payload, a.draws), n, a.first).0;
    AwaitOutcome(l1.(received := false), n, a.second.start, a.second.ticks);
  }

  /** Without a response before the first deadline, and with no stale
      ResponseReceived, the request times out (and unsubscribes). It
      leaves ResponseReceived set exactly when a response came on the late
      pass itself, and the next request then takes that flag for its reply. */
  lemma ExchangeTimesOut(l: Link, n: Names, op: string, payload: RequestPayload, a: Attempt)
    requires Usable(n, a) && !l.received
    requires forall j :: 0 <= j < FirstLate(a.first.start, a.first.ticks) ==>
               !Responds(a.first.ticks[j], n)
    ensures Transact(l, n, op, payload, a).1 == Unanswered
    ensures Transact(l, n, op, payload, a).0.received <==>
              Responds(a.first.ticks[FirstLate(a.first.start, a.first.ticks)], n)
  {
    var sent := Send(l, n, op, payload, a.draws);
    AwaitOutcome(sent, n, a.first.start, a.first.ticks);
    AwaitKeepsFlagOff(sent, n, a.first.start, a.first.ticks);
  }

  /** A wait that starts with ResponseReceived clear and sees no response
      before its first late pass: if it times out, the flag ends set
      exactly when that late pass delivered a response. */
  lemma {:induction false} AwaitKeepsFlagOff(l: Link, n: Names, start: U32, ticks: seq<Tick>)
    requires Quiet(n, ticks) && !l.received
    requires ticks != [] && Elapsed(ticks[|ticks| - 1].now, start) > MAX_RES_TIME_OUT
    requires forall j :: 0 <= j < FirstLate(start, ticks) ==> !Responds(ticks[j], n)
    ensures AwaitFrom(l, n, start, ticks).1 == TimedOut ==>
              AwaitFrom(l, n, start, ticks).0.received == Responds(ticks[FirstLate(start, ticks)], n)
    decreases |ticks|
  {
    if Elapsed(ticks[0].now, start) <= MAX_RES_TIME_OUT {
      var l1 := Poll(l, n, ticks[0]);
      var rest := ticks[1..];
      assert Quiet(n, rest) by {
        forall i | 0 <= i < |rest| && rest[i].delivered.Some?
          ensures NoNul(rest[i].delivered.value.topic) && !Notifies(rest[i].delivered.value.topic, n)
        {
          assert rest[i] == ticks[i + 1];
        }
      }
      assert FirstLate(start, ticks) == 1 + FirstLate(start, rest);
      assert !Responds(ticks[0], n);
      forall j | 0 <= j < FirstLate(start, rest) ensures !Responds(rest[j], n) {
        assert rest[j] == ticks[j + 1];
      }
      AwaitKeepsFlagOff(l1, n, start, rest);
      assert rest[FirstLate(start, rest)] == ticks[FirstLate(start, ticks)];
    }
  }
}
