/**
 * The request phases of the node (RLNode.cpp:291-509), nodeConfigChanged
 * (RLNode.cpp:582-598), the whole callback (RLNode.cpp:512-526) and the
 * publish round of loop (RLNode.cpp:272-288), as pure functions of the
 * exchange state, the channels' states and the environment's script.
 *
 * A per-channel phase retries a timed-out request for the same channel,
 * without bound. Over a finite script of attempts it either finishes,
 * giving a `Progress`, or runs out of attempts first, giving None.
 */
module Phases {
  import opened Clock
  import opened Protocol
  import opened Topics
  import opened Correlation
  import opened Channel
  import opened Exchange

  lemma AllUsableSuffix(n: Names, script: seq<Attempt>, k: nat)
    requires AllUsable(n, script) && k <= |script|
    ensures AllUsable(n, script[k..])
  {
    forall i | 0 <= i < |script[k..]| ensures Usable(n, script[k..][i]) {
      assert script[k..][i] == script[k + i];
    }
  }

  /** A finished per-channel phase: the exchange state, the channels, and
      the outcome of every attempt it used, in order. */
  datatype Progress = Progress(link: Link, chans: seq<ChannelState>, outcomes: seq<Outcome>)

  function CountAnswered(os: seq<Outcome>): (c: nat)
    ensures c <= |os|
  {
    if os == [] then 0 else (if os[0] == Answered then 1 else 0) + CountAnswered(os[1..])
  }

  predicate AllCoherent(chans: seq<ChannelState>) {
    forall i :: 0 <= i < |chans| ==> Coherent(chans[i])
  }

  // ---------------------------------------------------------------------
  // SetNodeStartupInfo (RLNode.cpp:291-344)

  /** One startup exchange: 1 after a full answer (then unsubscribe), 0 after
      a timeout (whose path has unsubscribed already). */
  function StartupPhase(l: Link, n: Names, a: Attempt): (r: (Link, int))
    requires Usable(n, a)
    ensures r.1 == 1 <==> Transact(l, n, OP_STARTUP_INFO, StartupInfo(n.mac, n.nodeType), a).1 == Answered
    ensures r.1 == 0 || r.1 == 1
    ensures r.1 == 1 ==> !r.0.received
    ensures r.0.transport != [] && r.0.transport[|r.0.transport| - 1] == Unsubscribe(ResponseTopic(n.lowerMac, OP_STARTUP_INFO))
  {
    var (l1, o) := Transact(l, n, OP_STARTUP_INFO, StartupInfo(n.mac, n.nodeType), a);
    if o == Answered then (l1.(transport := l1.transport + [Unsubscribe(l1.topicResponse)]), 1)
    else (l1, 0)
  }

  // ---------------------------------------------------------------------
  // SetChannelProperties (RLNode.cpp:437-509)

  /** The properties request for a channel. */
  function PropertiesPayload(n: Names, c: ChannelState): RequestPayload {
    ChannelProperties(n.mac, c.id, c.channelType, c.maxSampleRate)
  }

  /** One attempt of SetChannelProperties for channel `c`: the exchange,
      and after an answer the unsubscribe from Topic_Response. */
  function PropertiesStep(l: Link, n: Names, c: ChannelState, a: Attempt): (r: (Link, Outcome))
    requires Usable(n, a)
    ensures r.1 == Transact(l, n, OP_CHANNEL_PROPERTIES, PropertiesPayload(n, c), a).1
    ensures r.0.transport != [] &&
            r.0.transport[|r.0.transport| - 1] == Unsubscribe(ResponseTopic(n.lowerMac, OP_CHANNEL_PROPERTIES))
    ensures r.1 == Answered ==> !r.0.received
  {
    var (l1, o) := Transact(l, n, OP_CHANNEL_PROPERTIES, PropertiesPayload(n, c), a);
    if o == Answered then (l1.(transport := l1.transport + [Unsubscribe(l1.topicResponse)]), o) else (l1, o)
  }

  /** The loop of SetChannelProperties from channel i on: an answered
      request unsubscribes and moves to the next channel; a timed-out one
      is sent again for the same channel. */
  function PropertiesPhase(l: Link, n: Names, chans: seq<ChannelState>, i: nat, script: seq<Attempt>): (r: Option<Progress>)
    requires i <= |chans| && AllUsable(n, script)
    ensures r.Some? ==> r.value.chans == chans && |r.value.outcomes| <= |script|
    ensures r.Some? ==> CountAnswered(r.value.outcomes) == |chans| - i
    ensures r.Some? && i < |chans| ==>
              r.value.link.transport != [] &&
              r.value.link.transport[|r.value.link.transport| - 1] == Unsubscribe(ResponseTopic(n.lowerMac, OP_CHANNEL_PROPERTIES))
    ensures r.Some? && i < |chans| ==> !r.value.link.received
    decreases |script|
  {
    if i == |chans| then Some(Progress(l, chans, []))
    else if script == [] then None
    else
      var (l1, o) := PropertiesStep(l, n, chans[i], script[0]);
      var rest := PropertiesPhase(l1, n, chans, if o == Answered then i + 1 else i, script[1..]);
      if rest.None? then None
      else
        assert ([o] + rest.value.outcomes)[1..] == rest.value.outcomes;
        Some(rest.value.(outcomes := [o] + rest.value.outcomes))
  }

  /** SetChannelProperties from channel i on finishes within `script`,
      with the exchange state `link`. */
  predicate PropertiesEnds(l: Link, n: Names, chans: seq<ChannelState>, i: nat, script: seq<Attempt>, link: Link)
    requires i <= |chans| && AllUsable(n, script)
  {
    var r := PropertiesPhase(l, n, chans, i, script);
    r.Some? && r.value.link == link
  }

  /** SetChannelProperties as a whole: the exchange state it ends with, or
      None when the script runs out first. */
  function PropertiesResult(l: Link, n: Names, chans: seq<ChannelState>, script: seq<Attempt>): (r: Option<Link>)
    requires AllUsable(n, script)
    ensures r.Some? ==> PropertiesEnds(l, n, chans, 0, script, r.value)
    ensures r.Some? && chans != [] ==>
              r.value.transport != [] &&
              r.value.transport[|r.value.transport| - 1] == Unsubscribe(ResponseTopic(n.lowerMac, OP_CHANNEL_PROPERTIES))
  {
    var p := PropertiesPhase(l, n, chans, 0, script);
    if p.None? then None else Some(p.value.link)
  }

  /** SetChannelProperties from channel i, one attempt at a time. */
  lemma PropertiesPhaseStep(l: Link, n: Names, chans: seq<ChannelState>, i: nat, script: seq<Attempt>,
                            l1: Link, o: Outcome, next: nat)
    requires i < |chans| && script != [] && AllUsable(n, script)
    requires (l1, o) == PropertiesStep(l, n, chans[i], script[0]) && next == if o == Answered then i + 1 else i
    ensures AllUsable(n, script[1..])
    ensures PropertiesPhase(l, n, chans, i, script).Some? == PropertiesPhase(l1, n, chans, next, script[1..]).Some?
    ensures PropertiesPhase(l1, n, chans, next, script[1..]).Some? ==>
              PropertiesPhase(l, n, chans, i, script).value.link == PropertiesPhase(l1, n, chans, next, script[1..]).value.link
  {
    AllUsableSuffix(n, script, 1);
  }

  // ---------------------------------------------------------------------
  // GetChannelConfig (RLNode.cpp:347-435)

  /** The test at RLNode.cpp:420-425: the reply names a PublishTopic that is
      present and not empty, and a ChannelId between 1 and ChannelCount. */
  predicate Addresses(doc: Document, count: nat) {
    doc.configuration.publishTopic.Some? && |doc.configuration.publishTopic.value| > 0 &&
    0 <= doc.channelId - 1 < count
  }

  /** Apply a configuration reply: the channel the reply NAMES, not the one
      that was asked about, runs updateConfig; when the reply fails the test
      no channel changes. */
  function ApplyReply(chans: seq<ChannelState>, doc: Document, now: U32): (r: seq<ChannelState>)
    ensures |r| == |chans|
    ensures forall k {:trigger r[k]} :: 0 <= k < |chans| && !(Addresses(doc, |chans|) && k == doc.channelId - 1) ==> r[k] == chans[k]
    ensures Addresses(doc, |chans|) ==>
              r[doc.channelId - 1] == Configure(chans[doc.channelId - 1], doc.configuration, now)
  {
    if Addresses(doc, |chans|) then
      var k := doc.channelId - 1;
      chans[k := Configure(chans[k], doc.configuration, now)]
    else chans
  }

  /** `after` holds the same channels as `before`, changed at most in
      their configuration: identity, capacity, type and publish history are
      kept. */
  predicate SameChannels(before: seq<ChannelState>, after: seq<ChannelState>) {
    |after| == |before| &&
    forall k :: 0 <= k < |before| ==>
      after[k].id == before[k].id && after[k].maxSampleRate == before[k].maxSampleRate &&
      after[k].channelType == before[k].channelType &&
      after[k].previousTime == before[k].previousTime && after[k].previousOutput == before[k].previousOutput
  }

  lemma SameChannelsTrans(a: seq<ChannelState>, b: seq<ChannelState>, c: seq<ChannelState>)
    requires SameChannels(a, b) && SameChannels(b, c)
    ensures SameChannels(a, c)
  {
  }

  /** A reply changes channels only in their configuration, and keeps
      them coherent. */
  lemma ApplyReplyKeeps(chans: seq<ChannelState>, doc: Document, now: U32)
    ensures SameChannels(chans, ApplyReply(chans, doc, now))
    ensures AllCoherent(chans) ==> AllCoherent(ApplyReply(chans, doc, now))
  {
  }

  /** One attempt of GetChannelConfig for channel j: the exchange, and
      after an answer the reply applied to the channels. */
  function ConfigStep(l: Link, n: Names, chans: seq<ChannelState>, j: nat, a: Attempt): (r: (Link, seq<ChannelState>, Outcome))
    requires j < |chans| && Usable(n, a)
    ensures (r.0, r.2) == Transact(l, n, OP_CHANNEL_CONFIG, ConfigRequest(n.mac, chans[j].id), a)
    ensures r.1 == if r.2 == Answered then ApplyReply(chans, r.0.doc, a.applyTime) else chans
  {
    var (l1, o) := Transact(l, n, OP_CHANNEL_CONFIG, ConfigRequest(n.mac, chans[j].id), a);
    (l1, if o == Answered then ApplyReply(chans, l1.doc, a.applyTime) else chans, o)
  }

  /** The loop of GetChannelConfig from channel j on: after an answer the
      reply is applied and j moves on, without unsubscribing; a timed-out
      request is sent again for the same channel. */
  function ConfigPhase(l: Link, n: Names, chans: seq<ChannelState>, j: nat, script: seq<Attempt>): (r: Option<Progress>)
    requires j <= |chans| && AllUsable(n, script)
    ensures r.Some? ==> |r.value.chans| == |chans| && |r.value.outcomes| <= |script|
    ensures r.Some? ==> CountAnswered(r.value.outcomes) == |chans| - j
    ensures r.Some? && AllCoherent(chans) ==> AllCoherent(r.value.chans)
    ensures r.Some? ==> SameChannels(chans, r.value.chans)
    decreases |script|
  {
    if j == |chans| then Some(Progress(l, chans, []))
    else if script == [] then None
    else
      var a := script[0];
      var (l1, chans1, o) := ConfigStep(l, n, chans, j, a);
      var rest := ConfigPhase(l1, n, chans1, if o == Answered then j + 1 else j, script[1..]);
      if rest.None? then None
      else
        ApplyReplyKeeps(chans, l1.doc, a.applyTime);
        SameChannelsTrans(chans, chans1, rest.value.chans);
        assert ([o] + rest.value.outcomes)[1..] == rest.value.outcomes;
        Some(rest.value.(outcomes := [o] + rest.value.outcomes))
  }

  /** GetChannelConfig from channel j on finishes within `script`, with
      the exchange state `link` and the channels `after`. */
  predicate ConfigEnds(l: Link, n: Names, chans: seq<ChannelState>, j: nat, script: seq<Attempt>,
                       link: Link, after: seq<ChannelState>)
    requires j <= |chans| && AllUsable(n, script)
  {
    var r := ConfigPhase(l, n, chans, j, script);
    r.Some? && r.value.link == link && r.value.chans == after
  }

  /** GetChannelConfig as a whole: the exchange state and the channels it
      ends with, or None when the script runs out first. */
  function ConfigResult(l: Link, n: Names, chans: seq<ChannelState>, script: seq<Attempt>)
    : (r: Option<(Link, seq<ChannelState>)>)
    requires AllUsable(n, script)
    ensures r.Some? ==> SameChannels(chans, r.value.1)
    ensures r.Some? && AllCoherent(chans) ==> AllCoherent(r.value.1)
    ensures r.Some? ==> ConfigEnds(l, n, chans, 0, script, r.value.0, r.value.1)
  {
    var p := ConfigPhase(l, n, chans, 0, script);
    if p.None? then None else Some((p.value.link, p.value.chans))
  }

  /** GetChannelConfig from channel j, one attempt at a time. */
  lemma ConfigPhaseStep(l: Link, n: Names, chans: seq<ChannelState>, j: nat, script: seq<Attempt>,
                        l1: Link, chans1: seq<ChannelState>, o: Outcome, next: nat)
    requires j < |chans| && script != [] && AllUsable(n, script)
    requires (l1, chans1, o) == ConfigStep(l, n, chans, j, script[0]) && next == if o == Answered then j + 1 else j
    ensures AllUsable(n, script[1..]) && |chans1| == |chans| && next <= |chans1|
    ensures ConfigPhase(l, n, chans, j, script).Some? == ConfigPhase(l1, n, chans1, next, script[1..]).Some?
    ensures ConfigPhase(l1, n, chans1, next, script[1..]).Some? ==>
              ConfigPhase(l, n, chans, j, script).value.link == ConfigPhase(l1, n, chans1, next, script[1..]).value.link &&
              ConfigPhase(l, n, chans, j, script).value.chans == ConfigPhase(l1, n, chans1, next, script[1..]).value.chans
  {
    AllUsableSuffix(n, script, 1);
  }

  /** No pass of any first wait in the script delivers a response. */
  predicate Unanswering(n: Names, script: seq<Attempt>) {
    forall k, j :: 0 <= k < |script| && 0 <= j < |script[k].first.ticks| ==>
      !Responds(script[k].first.ticks[j], n)
  }

  lemma UnansweringTail(n: Names, script: seq<Attempt>)
    requires script != [] && Unanswering(n, script)
    ensures Unanswering(n, script[1..])
  {
    forall k, j | 0 <= k < |script[1..]| && 0 <= j < |script[1..][k].first.ticks|
      ensures !Responds(script[1..][k].first.ticks[j], n)
    {
      assert script[1..][k] == script[k + 1];
    }
  }

  /** The first request of a script without responses times out and leaves
      ResponseReceived clear. */
  lemma UnansweredAttempt(l: Link, n: Names, op: string, payload: RequestPayload, script: seq<Attempt>)
    requires script != [] && AllUsable(n, script) && Unanswering(n, script) && !l.received
    ensures Transact(l, n, op, payload, script[0]).1 == Unanswered
    ensures !Transact(l, n, op, payload, script[0]).0.received
  {
    var a := script[0];
    assert Usable(n, a);
    ExchangeTimesOut(l, n, op, payload, a);
    assert FirstLate(a.first.start, a.first.ticks) < |a.first.ticks|;
  }

  /** Without responses the channel index never advances: however many
      attempts the script holds, GetChannelConfig does not finish. */
  lemma {:induction false} ConfigPhaseStallsWithoutReplies(l: Link, n: Names, chans: seq<ChannelState>, j: nat, script: seq<Attempt>)
    requires j < |chans| && AllUsable(n, script) && !l.received
    requires Unanswering(n, script)
    ensures ConfigPhase(l, n, chans, j, script).None?
    decreases |script|
  {
    if script != [] {
      UnansweredAttempt(l, n, OP_CHANNEL_CONFIG, ConfigRequest(n.mac, chans[j].id), script);
      UnansweringTail(n, script);
      var l1 := Transact(l, n, OP_CHANNEL_CONFIG, ConfigRequest(n.mac, chans[j].id), script[0]).0;
      ConfigPhaseStallsWithoutReplies(l1, n, chans, j, script[1..]);
    }
  }

  /** The same for SetChannelProperties. */
  lemma {:induction false} PropertiesPhaseStallsWithoutReplies(l: Link, n: Names, chans: seq<ChannelState>, i: nat, script: seq<Attempt>)
    requires i < |chans| && AllUsable(n, script) && !l.received
    requires Unanswering(n, script)
    ensures PropertiesPhase(l, n, chans, i, script).None?
    decreases |script|
  {
    if script != [] {
      UnansweredAttempt(l, n, OP_CHANNEL_PROPERTIES, PropertiesPayload(n, chans[i]), script);
      UnansweringTail(n, script);
      var l1 := Transact(l, n, OP_CHANNEL_PROPERTIES, PropertiesPayload(n, chans[i]), script[0]).0;
      PropertiesPhaseStallsWithoutReplies(l1, n, chans, i, script[1..]);
    }
  }

  // ---------------------------------------------------------------------
  // nodeConfigChanged (RLNode.cpp:582-598) and the callback

  /** Clear every channel's PreviousOutputString. */
  function ClearOutputs(chans: seq<ChannelState>): (r: seq<ChannelState>)
    ensures |r| == |chans|
    ensures forall k {:trigger r[k]} :: 0 <= k < |chans| ==> r[k] == chans[k].(previousOutput := "")
  {
    seq(|chans|, k requires 0 <= k < |chans| => chans[k].(previousOutput := ""))
  }

  /** nodeConfigChanged: GetChannelConfig once (it always returns 1, so the
      retry loop around it runs once), then clear the cached outputs. */
  function ConfigChanged(l: Link, n: Names, chans: seq<ChannelState>, script: seq<Attempt>): (r: Option<(Link, seq<ChannelState>)>)
    requires AllUsable(n, script)
    ensures r.Some? ==> |r.value.1| == |chans| && forall k :: 0 <= k < |chans| ==> r.value.1[k].previousOutput == ""
    ensures r.Some? && AllCoherent(chans) ==> AllCoherent(r.value.1)
  {
    var fetched := ConfigResult(l, n, chans, script);
    if fetched.None? then None else Some((fetched.value.0, ClearOutputs(fetched.value.1)))
  }

  /** The whole of mqttCallback: store the document, then route. */
  function Callback(l: Link, n: Names, chans: seq<ChannelState>, m: Inbound, script: seq<Attempt>): (r: Option<(Link, seq<ChannelState>)>)
    requires AllUsable(n, script)
    ensures r.Some? ==> |r.value.1| == |chans|
    ensures !Notifies(m.topic, n) ==> r == Some((Deliver(l, n, m), chans))
    ensures r.Some? && AllCoherent(chans) ==> AllCoherent(r.value.1)
  {
    if Notifies(m.topic, n) then ConfigChanged(l.(doc := m.doc), n, chans, script)
    else Some((Deliver(l, n, m), chans))
  }

  // ---------------------------------------------------------------------
  // The publish round of loop (RLNode.cpp:282-287)

  /** The publishes of channels 0 .. i-1 of a round, in channel order. */
  function RoundPublications(chans: seq<ChannelState>, now: U32, readings: seq<Reading>, i: nat): (r: seq<Publication>)
    requires |readings| == |chans| && AllCoherent(chans) && i <= |chans|
    ensures |r| <= i
  {
    if i == 0 then []
    else
      var step := Publish(chans[i - 1], now, readings[i - 1]);
      RoundPublications(chans, now, readings, i - 1) + if step.1.Some? then [step.1.value] else []
  }

  /** Every channel, in index order, runs publishData at the same `now`
      with its own sensor reading; the publishes come out in channel order. */
  function PublishAll(chans: seq<ChannelState>, now: U32, readings: seq<Reading>): (r: (seq<ChannelState>, seq<Publication>))
    requires |readings| == |chans| && AllCoherent(chans)
    ensures |r.0| == |chans| && AllCoherent(r.0)
    ensures forall i {:trigger r.0[i]} :: 0 <= i < |chans| ==> r.0[i] == Publish(chans[i], now, readings[i]).0
    ensures |r.1| <= |chans|
  {
    (seq(|chans|, i requires 0 <= i < |chans| => Publish(chans[i], now, readings[i]).0),
     RoundPublications(chans, now, readings, |chans|))
  }

  /** The channels part-way through a round: the first i have run
      publishData, the others not yet. */
  function PublishedUpTo(chans: seq<ChannelState>, now: U32, readings: seq<Reading>, i: nat): (r: seq<ChannelState>)
    requires |readings| == |chans| && AllCoherent(chans) && i <= |chans|
    ensures |r| == |chans|
  {
    seq(|chans|, k requires 0 <= k < |chans| => if k < i then Publish(chans[k], now, readings[k]).0 else chans[k])
  }

  /** A round starts from the channels as they are, moves on one channel at
      a time, and ends where PublishAll does. */
  lemma PublishedUpToSteps(chans: seq<ChannelState>, now: U32, readings: seq<Reading>, i: nat)
    requires |readings| == |chans| && AllCoherent(chans) && i <= |chans|
    ensures PublishedUpTo(chans, now, readings, 0) == chans
    ensures i < |chans| ==> PublishedUpTo(chans, now, readings, i)[i] == chans[i]
    ensures i < |chans| ==>
              PublishedUpTo(chans, now, readings, i)[i := Publish(chans[i], now, readings[i]).0] ==
              PublishedUpTo(chans, now, readings, i + 1)
    ensures PublishedUpTo(chans, now, readings, |chans|) == PublishAll(chans, now, readings).0
  {
  }

  /** The publishes of a round are exactly those of the due channels, in
      channel order: the i-th due channel's output on its topic. */
  function DuePublications(chans: seq<ChannelState>, now: U32, readings: seq<Reading>): seq<Publication>
    requires |readings| == |chans| && AllCoherent(chans)
    decreases |chans|
  {
    if chans == [] then []
    else
      var k := |chans| - 1;
      assert AllCoherent(chans[..k]) by {
        forall i | 0 <= i < k ensures Coherent(chans[..k][i]) {
          assert chans[..k][i] == chans[i];
        }
      }
      DuePublications(chans[..k], now, readings[..k]) +
        if PublishDue(chans[k], now, readings[k].forcePublish)
        then [Publication(chans[k].publishTopic, readings[k].output)] else []
  }

  lemma {:induction false} RoundPublishesDue(chans: seq<ChannelState>, now: U32, readings: seq<Reading>, i: nat)
    requires |readings| == |chans| && AllCoherent(chans) && i <= |chans|
    ensures RoundPublications(chans, now, readings, i) == DuePublications(chans[..i], now, readings[..i])
  {
    assert AllCoherent(chans[..i]) by {
      forall k | 0 <= k < i ensures Coherent(chans[..i][k]) {
        assert chans[..i][k] == chans[k];
      }
    }
    if i > 0 {
      RoundPublishesDue(chans, now, readings, i - 1);
      assert chans[..i][..i - 1] == chans[..i - 1] && readings[..i][..i - 1] == readings[..i - 1];
    }
  }

  lemma PublishAllPublishesDue(chans: seq<ChannelState>, now: U32, readings: seq<Reading>)
    requires |readings| == |chans| && AllCoherent(chans)
    ensures PublishAll(chans, now, readings).1 == DuePublications(chans, now, readings)
  {
    RoundPublishesDue(chans, now, readings, |chans|);
    assert chans[..|chans|] == chans && readings[..|readings|] == readings;
  }

  /** One more channel of a round adds its publish, if any, at the end. */
  lemma RoundPublicationsStep(chans: seq<ChannelState>, now: U32, readings: seq<Reading>, i: nat, sent: Option<Publication>)
    requires |readings| == |chans| && AllCoherent(chans) && i < |chans|
    requires sent == Publish(chans[i], now, readings[i]).1
    ensures RoundPublications(chans, now, readings, i + 1) ==
              RoundPublications(chans, now, readings, i) + if sent.Some? then [sent.value] else []
  {
  }

  /** The MQTT publishes of a list of publications, in order. */
  function AsTransport(pubs: seq<Publication>): (r: seq<TransportOp>)
    ensures |r| == |pubs| && forall i :: 0 <= i < |pubs| ==> r[i] == PublishData(pubs[i])
  {
    if pubs == [] then [] else AsTransport(pubs[..|pubs| - 1]) + [PublishData(pubs[|pubs| - 1])]
  }

  /** Handing one more publication to MQTT adds one publish at the end. */
  lemma AsTransportPush(pubs: seq<Publication>, sent: Option<Publication>)
    ensures AsTransport(pubs + if sent.Some? then [sent.value] else []) ==
              AsTransport(pubs) + if sent.Some? then [PublishData(sent.value)] else []
  {
    if sent.Some? {
      assert (pubs + [sent.value])[..|pubs|] == pubs;
    } else {
      assert pubs + [] == pubs;
    }
  }

  /** The message part of loop: mqttCallback on the message the client
      delivers, if any. */
  function Dispatch(l: Link, n: Names, chans: seq<ChannelState>, delivered: Option<Inbound>, script: seq<Attempt>)
    : (r: Option<(Link, seq<ChannelState>)>)
    requires AllUsable(n, script)
    ensures r.Some? ==> |r.value.1| == |chans|
    ensures r.Some? && AllCoherent(chans) ==> AllCoherent(r.value.1)
    ensures delivered.None? ==> r == Some((l, chans))
  {
    if delivered.Some? then Callback(l, n, chans, delivered.value, script) else Some((l, chans))
  }

  /** loop() after the reconnect check: the callback for the message the
      client delivers, if any, then the publish round at `now`. */
  function LoopStep(l: Link, n: Names, chans: seq<ChannelState>, delivered: Option<Inbound>, script: seq<Attempt>,
                    now: U32, readings: seq<Reading>): (r: Option<(Link, seq<ChannelState>)>)
    requires AllUsable(n, script) && |readings| == |chans| && AllCoherent(chans)
    ensures r.Some? ==> |r.value.1| == |chans| && AllCoherent(r.value.1)
  {
    var after := Dispatch(l, n, chans, delivered, script);
    if after.None? then None
    else
      var (cs, pubs) := PublishAll(after.value.1, now, readings);
      var l1 := after.value.0;
      Some((l1.(transport := l1.transport + AsTransport(pubs)), cs))
  }
}
