/**
 * The RLNode object (RLNode.h:78-133, RLNode.cpp:172-636): the node's
 * identity and topic names, the channel table, the exchange state and the
 * methods that drive them. Every method is proved to compute the pure
 * functions of modules Exchange and Phases.
 *
 * The MQTT client is a log: `Transport` records, in order, every
 * subscribe, unsubscribe and publish the node asks for. What the client
 * delivers, millis() readings and random draws come in as arguments.
 */
module Node {
  import opened Clock
  import opened Protocol
  import opened CString
  import opened Topics
  import opened Correlation
  import opened Channel
  import opened Exchange
  import opened Phases

  /** MAX_CHANNEL_COUNT (RLNode.h:31). */
  const MAX_CHANNEL_COUNT: nat := 4

  /** jsonDoc before any message arrives. */
  const EMPTY_DOCUMENT: Document := Document("", "", "", 0, Configuration(None, 0.0, 0.0, 0.0, "", "", ""))

  /** `strncpy(LowerCaseMAC, MAC, strlen(MAC) + 1); strLow(LowerCaseMAC);`
      on a buffer of MAC_BUFFER_LENGTH characters. */
  method LowerCopy(mac: string) returns (lower: string)
    requires ValidMac(mac)
    ensures lower == Lower(mac)
  {
    var buf := new char[MAC_BUFFER_LENGTH](_ => NUL);
    var k := 0;
    while k < |mac|
      invariant 0 <= k <= |mac|
      invariant buf[..k] == mac[..k]
      invariant forall i :: k <= i < buf.Length ==> buf[i] == NUL
    {
      buf[k] := mac[k];
      k := k + 1;
    }
    assert buf[..|mac|] == mac;
    CLenOf(buf[..], mac);
    StrLow(buf);
    lower := buf[..|mac|];
  }

  /** Channel i carries ID i + 1. */
  predicate Numbered(chans: seq<ChannelState>) {
    forall i :: 0 <= i < |chans| ==> chans[i].id == i + 1
  }

  /** The sensor-call log after channels 0 .. i-1 have each been called
      once more, with their calibration values. */
  function SensorCalled(calls: seq<seq<(real, real)>>, chans: seq<ChannelState>, i: nat): (r: seq<seq<(real, real)>>)
    requires |calls| == |chans| && i <= |chans|
    ensures |r| == |calls|
  {
    seq(|calls|, k requires 0 <= k < |calls| => if k < i then calls[k] + [(chans[k].k, chans[k].m)] else calls[k])
  }

  lemma SensorCalledSteps(calls: seq<seq<(real, real)>>, chans: seq<ChannelState>, i: nat)
    requires |calls| == |chans| && i <= |chans|
    ensures SensorCalled(calls, chans, 0) == calls
    ensures i < |chans| ==>
              SensorCalled(calls, chans, i)[i := calls[i] + [(chans[i].k, chans[i].m)]] == SensorCalled(calls, chans, i + 1)
    ensures i < |chans| ==> SensorCalled(calls, chans, i)[i] == calls[i]
  {
  }

  /** The log depends only on the calibration values of the channels. */
  lemma SensorCalledCalibrated(calls: seq<seq<(real, real)>>, a: seq<ChannelState>, b: seq<ChannelState>, i: nat)
    requires |calls| == |a| == |b| && i <= |a|
    requires forall k :: 0 <= k < |a| ==> a[k].k == b[k].k && a[k].m == b[k].m
    ensures SensorCalled(calls, a, i) == SensorCalled(calls, b, i)
  {
  }

  /** A publish round leaves the calibration values as they were. */
  lemma RoundKeepsCalibration(calls: seq<seq<(real, real)>>, chans: seq<ChannelState>, now: U32, readings: seq<Reading>)
    requires |calls| == |chans| == |readings| && AllCoherent(chans)
    ensures SensorCalled(calls, chans, |chans|) == SensorCalled(calls, PublishAll(chans, now, readings).0, |chans|)
  {
    SensorCalledCalibrated(calls, chans, PublishAll(chans, now, readings).0, |chans|);
  }

  class RLNode {
    var MAC: string
    var LowerCaseMAC: string
    var NodeName: string
    var NodeType: string
    var ResponseTopic: string
    var TopicResponse: string
    var TopicIdentificationPoll: string
    var TopicSetNodeConfig: string
    var TopicSetChannelConfig: string
    var TopicNodeConfigChanged: string
    var CorrelationData: string
    var ChannelCount: nat
    var Channels: array<RLChannel?>
    var Time: U32
    var ResponseReceived: bool
    var JsonDoc: Document
    var Transport: seq<TransportOp>
    /** The channels added so far, in order. */
    ghost var Registered: seq<RLChannel>
    /** The state of each registered channel, in order. */
    ghost var States: seq<ChannelState>
    /** What each registered channel's sensor function has been called
        with, in order. */
    ghost var Calls: seq<seq<(real, real)>>

    /** The channel table: Channels[0..ChannelCount) holds the registered
        channels, whose states and sensor calls States and Calls record;
        they are numbered 1, 2, ... in order (so all different), each
        coherent. */
    ghost predicate Valid()
      reads this`Channels, this`ChannelCount, this`Registered, this`States, this`Calls, Channels, Registered
    {
      Channels.Length == MAX_CHANNEL_COUNT &&
      ChannelCount == |Registered| == |States| == |Calls| && ChannelCount <= MAX_CHANNEL_COUNT &&
      (forall i {:trigger Channels[i]} {:trigger Registered[i]} :: 0 <= i < ChannelCount ==> Channels[i] == Registered[i]) &&
      (forall i {:trigger Registered[i]} :: 0 <= i < ChannelCount ==>
         Registered[i].Model == States[i] && Registered[i].Valid() && Registered[i].SensorCalls == Calls[i]) &&
      Numbered(States) && AllCoherent(States)
    }

    /** Numbered channels are different objects. */
    lemma Distinct(k: nat)
      requires Valid() && k < ChannelCount
      ensures forall i :: 0 <= i < ChannelCount && i != k ==> Registered[i] != Registered[k]
    {
      forall i | 0 <= i < ChannelCount && i != k ensures Registered[i] != Registered[k] {
        assert Registered[i].Model.id == i + 1 && Registered[k].Model.id == k + 1;
      }
    }

    /** The exchange state the request phases and the callback work on. */
    ghost function LinkState(): Link
      reads this`ResponseReceived, this`JsonDoc, this`Transport, this`CorrelationData, this`ResponseTopic, this`TopicResponse
    {
      Link(ResponseReceived, JsonDoc, Transport, CorrelationData, ResponseTopic, TopicResponse)
    }

    /** The identity and the subscription topics the callback tests. */
    ghost function NodeNames(): Names
      reads this`MAC, this`LowerCaseMAC, this`NodeName, this`NodeType, this`TopicIdentificationPoll, this`TopicNodeConfigChanged
    {
      Names(MAC, LowerCaseMAC, NodeName, NodeType, TopicIdentificationPoll, TopicNodeConfigChanged)
    }

    /** The global logNode: empty strings, no channels, ResponseReceived
        false, nothing sent. */
    constructor ()
      ensures Valid() && ChannelCount == 0 && Registered == [] && States == [] && Calls == [] && fresh(Channels)
      ensures !ResponseReceived && Transport == [] && Time == 0 && JsonDoc == EMPTY_DOCUMENT
      ensures MAC == "" && LowerCaseMAC == "" && NodeName == "" && NodeType == ""
      ensures ResponseTopic == "" && TopicResponse == "" && CorrelationData == ""
      ensures TopicIdentificationPoll == "" && TopicSetNodeConfig == "" &&
              TopicSetChannelConfig == "" && TopicNodeConfigChanged == ""
    {
      MAC := "";
      LowerCaseMAC := "";
      NodeName := "";
      NodeType := "";
      ResponseTopic := "";
      TopicResponse := "";
      TopicIdentificationPoll := "";
      TopicSetNodeConfig := "";
      TopicSetChannelConfig := "";
      TopicNodeConfigChanged := "";
      CorrelationData := "";
      ChannelCount := 0;
      Channels := new RLChannel?[MAX_CHANNEL_COUNT](_ => null);
      Time := 0;
      ResponseReceived := false;
      JsonDoc := EMPTY_DOCUMENT;
      Transport := [];
      Registered := [];
      States := [];
      Calls := [];
    }

    /** The first part of begin: store the identity and derive LowerCaseMAC
        with strLow. */
    method Begin(mac: string, nodeName: string, nodeType: string)
      requires ValidMac(mac)
      modifies this`MAC, this`LowerCaseMAC, this`NodeName, this`NodeType
      ensures MAC == mac && LowerCaseMAC == Lower(mac) && NodeName == nodeName && NodeType == nodeType
      ensures ValidMac(LowerCaseMAC)
    {
      MAC := mac;
      NodeName := nodeName;
      NodeType := nodeType;
      LowerCaseMAC := LowerCopy(mac);
      LowerKeepsNoNul(mac);
    }

    /** The part of begin after the startup exchange: build the topic names
        and subscribe to the four inbound topics. */
    method SubscribeTopics()
      requires ValidMac(MAC) && LowerCaseMAC == Lower(MAC)
      modifies this`TopicIdentificationPoll, this`TopicSetNodeConfig, this`TopicSetChannelConfig,
               this`TopicNodeConfigChanged, this`Transport
      ensures TopicIdentificationPoll == IDENTIFICATION_POLL && TopicSetNodeConfig == SetNodeConfigTopic(Lower(MAC)) &&
              TopicSetChannelConfig == SetChannelConfigTopic(Lower(MAC)) &&
              TopicNodeConfigChanged == NodeConfigChangedTopic(MAC)
      ensures Transport == old(Transport) + [Subscribe(IDENTIFICATION_POLL), Subscribe(SetNodeConfigTopic(Lower(MAC))),
                                            Subscribe(SetChannelConfigTopic(Lower(MAC))), Subscribe(NodeConfigChangedTopic(MAC))]
      ensures Terminated(NodeNames())
    {
      SetSubscriptionTopicNames();
      TopicsFit(MAC, OP_STARTUP_INFO);
      Transport := Transport + [Subscribe(TopicIdentificationPoll), Subscribe(TopicSetNodeConfig),
                                Subscribe(TopicSetChannelConfig), Subscribe(TopicNodeConfigChanged)];
    }

    /** setSubscriptionTopicNames. */
    method SetSubscriptionTopicNames()
      modifies this`TopicIdentificationPoll, this`TopicSetNodeConfig, this`TopicSetChannelConfig, this`TopicNodeConfigChanged
      ensures TopicIdentificationPoll == IDENTIFICATION_POLL
      ensures TopicSetNodeConfig == SetNodeConfigTopic(LowerCaseMAC)
      ensures TopicSetChannelConfig == SetChannelConfigTopic(LowerCaseMAC)
      ensures TopicNodeConfigChanged == NodeConfigChangedTopic(MAC)
    {
      TopicIdentificationPoll := IDENTIFICATION_POLL;
      TopicSetNodeConfig := "req/rtl/" + LowerCaseMAC + "/identificationassignment";
      TopicSetChannelConfig := "req/rtl/" + LowerCaseMAC + "/setchannelconfiguration";
      TopicNodeConfigChanged := "not/" + MAC + "/configuration";
    }

    /** addChannel: store the channel at index ChannelCount, give it ID
        ChannelCount + 1, and count it. The source has no bound check; the
        table has room for MAX_CHANNEL_COUNT. */
    method AddChannel(ch: RLChannel)
      requires Valid() && ch.Valid() && ChannelCount < MAX_CHANNEL_COUNT && ch !in Registered
      modifies this`ChannelCount, this`Registered, this`States, this`Calls, Channels, ch
      ensures Valid()
      ensures Registered == old(Registered) + [ch] && ChannelCount == old(ChannelCount) + 1
      ensures Channels[old(ChannelCount)] == ch
      ensures forall i :: 0 <= i < old(ChannelCount) ==> Channels[i] == old(Channels[i])
      ensures States == old(States) + [old(ch.Model).(id := ChannelCount)]
      ensures Calls == old(Calls) + [old(ch.SensorCalls)]
    {
      ch.ID := ChannelCount + 1;
      ch.Model := ch.Model.(id := ChannelCount + 1);
      Channels[ChannelCount] := ch;
      ChannelCount := ChannelCount + 1;
      Registered := Registered + [ch];
      States := States + [ch.Model];
      Calls := Calls + [ch.SensorCalls];
    }

    /** generateCorrelationData: fill a zeroed 20-character buffer with 19
        characters, one per draw, and copy it to CorrelationData. */
    method GenerateCorrelationData(draws: seq<nat>)
      requires ValidDraws(draws)
      modifies this`CorrelationData
      ensures CorrelationData == Token(draws)
    {
      var data := new char[MAX_GENERAL_STRING_LENGTH](_ => NUL);
      var i := 0;
      while i < MAX_GENERAL_STRING_LENGTH - 1
        invariant 0 <= i <= TOKEN_LENGTH
        invariant forall k :: 0 <= k < i ==> data[k] == CorrelationChar(draws[k])
        invariant forall k :: i <= k < data.Length ==> data[k] == NUL
        modifies data
      {
        var randomCharacter := draws[i];
        data[i] := ('a' as int + randomCharacter) as char;
        if randomCharacter > 51 {
          data[i] := ('0' as int + (randomCharacter - 52)) as char;
        } else if randomCharacter > 25 {
          data[i] := ('A' as int + (randomCharacter - 26)) as char;
        }
        i := i + 1;
      }
      CorrelationData := data[..TOKEN_LENGTH];
    }

    /** responseIdentificationPoll. */
    method ResponseIdentificationPoll()
      modifies this`ResponseTopic, this`CorrelationData, this`Transport
      ensures LinkState() == IdentificationReply(old(LinkState()), NodeNames())
    {
      ResponseTopic := JsonDoc.responseTopic;
      CorrelationData := JsonDoc.correlationData;
      var processing := Reply(CorrelationData, PROCESSING, "", None);
      Transport := Transport + [PublishJson(ResponseTopic, processing)];
      var done := Reply(CorrelationData, DONE, "", Some(Identity(NodeName, MAC)));
      Transport := Transport + [PublishJson(ResponseTopic, done)];
    }

    /** mqttCallback for a message that is not a configuration-changed
        notification, as it runs inside a wait. */
    method Receive(m: Inbound)
      requires Terminated(NodeNames()) && NoNul(m.topic) && !Notifies(m.topic, NodeNames())
      modifies this`JsonDoc, this`ResponseReceived, this`ResponseTopic, this`CorrelationData, this`Transport
      ensures LinkState() == Deliver(old(LinkState()), NodeNames(), m)
    {
      RouteExact(m.topic, NodeNames(), TopicResponse);
      JsonDoc := m.doc;
      if Not(StrNCmp(m.topic, TopicIdentificationPoll, |TopicIdentificationPoll| + 1)) != 0 {
        ResponseIdentificationPoll();
      } else if Not(StrNCmp(m.topic, TopicNodeConfigChanged, |TopicNodeConfigChanged| + 1)) != 0 {
        assert false;
      } else if Not(StrNCmp(m.topic, TopicResponse, |TopicResponse|)) + 1 != 0 {
        ResponseReceived := true;
      }
    }

    /** One pass of the busy-wait: `mqttClient.loop()` delivers the pass's
        message, if any; then, past the deadline, unsubscribe. */
    method PollOnce(t: Tick, start: U32) returns (late: bool)
      requires Terminated(NodeNames())
      requires t.delivered.Some? ==> NoNul(t.delivered.value.topic) && !Notifies(t.delivered.value.topic, NodeNames())
      modifies this`JsonDoc, this`ResponseReceived, this`ResponseTopic, this`CorrelationData, this`Transport
      ensures late == (Elapsed(t.now, start) > MAX_RES_TIME_OUT)
      ensures var l1 := Poll(old(LinkState()), NodeNames(), t);
              LinkState() == if late then l1.(transport := l1.transport + [Unsubscribe(TopicResponse)]) else l1
    {
      if t.delivered.Some? {
        Receive(t.delivered.value);
      }
      late := Elapsed(t.now, start) > MAX_RES_TIME_OUT;
      if late {
        Transport := Transport + [Unsubscribe(TopicResponse)];
      }
    }

    /** The busy-wait of the request phases: poll until ResponseReceived,
        unsubscribing and giving up on the first pass more than
        MAX_RES_TIME_OUT after `w.start`. */
    method AwaitResponse(w: Wait) returns (timedOut: bool)
      requires Terminated(NodeNames()) && Quiet(NodeNames(), w.ticks) && Decisive(w)
      modifies this`JsonDoc, this`ResponseReceived, this`ResponseTopic, this`CorrelationData, this`Transport
      ensures (LinkState(), if timedOut then TimedOut else Replied) == Await(old(LinkState()), NodeNames(), w)
    {
      ghost var n := NodeNames();
      ghost var goal := Await(LinkState(), n, w);
      var k := 0;
      while !ResponseReceived
        invariant 0 <= k < |w.ticks| && NodeNames() == n
        invariant Quiet(n, w.ticks[k..])
        invariant goal == AwaitFrom(LinkState(), n, w.start, w.ticks[k..])
        decreases |w.ticks| - k
      {
        AwaitStep(LinkState(), n, w.start, w.ticks, k);
        var late := PollOnce(w.ticks[k], w.start);
        if late {
          return true;
        }
        k := k + 1;
        QuietSuffix(n, w.ticks, k);
      }
      return false;
    }

    /** The part the three request phases share: build Topic_Response and
        CorrelationData, subscribe, publish the request, wait, and after a
        "Processing" reply wait once more. */
    method SendAndAwait(op: string, payload: RequestPayload, a: Attempt) returns (outcome: Outcome)
      requires Terminated(NodeNames()) && Usable(NodeNames(), a)
      modifies this`JsonDoc, this`ResponseReceived, this`ResponseTopic, this`CorrelationData, this`Transport,
               this`TopicResponse
      ensures (LinkState(), outcome) == Transact(old(LinkState()), NodeNames(), op, payload, a)
    {
      ghost var n := NodeNames();
      ghost var sent := Send(LinkState(), n, op, payload, a.draws);
      TopicResponse := "res/rtl/" + LowerCaseMAC + "/" + op;
      GenerateCorrelationData(a.draws);
      Transport := Transport + [Subscribe(TopicResponse),
                                PublishJson(RequestTopic(op), Request(TopicResponse, CorrelationData, payload))];
      assert LinkState() == sent;
      ghost var first := Await(sent, n, a.first);
      var timedOut := AwaitResponse(a.first);
      if timedOut {
        return Unanswered;
      }
      outcome := AfterReply(a.second);
    }

    /** The rest of the exchange once the first wait got its reply: clear
        ResponseReceived; after a "Processing" reply wait again. */
    method AfterReply(second: Wait) returns (outcome: Outcome)
      requires Terminated(NodeNames()) && Quiet(NodeNames(), second.ticks) && Decisive(second)
      modifies this`JsonDoc, this`ResponseReceived, this`ResponseTopic, this`CorrelationData, this`Transport
      ensures (LinkState(), outcome) == Exchange.AfterReply(old(LinkState()), NodeNames(), second)
    {
      ResponseReceived := false;
      if Not(StrNCmp(JsonDoc.cmdStatus, PROCESSING, |PROCESSING| + 1)) != 0 {
        var timedOut := AwaitResponse(second);
        if timedOut {
          return Unanswered;
        }
        ResponseReceived := false;
      }
      return Answered;
    }

    /** SetNodeStartupInfo: announce the node; 1 once answered, 0 on a
        timeout. */
    method SetNodeStartupInfo(a: Attempt) returns (r: int)
      requires Terminated(NodeNames()) && Usable(NodeNames(), a)
      modifies this`JsonDoc, this`ResponseReceived, this`ResponseTopic, this`CorrelationData, this`Transport,
               this`TopicResponse
      ensures (LinkState(), r) == StartupPhase(old(LinkState()), NodeNames(), a)
    {
      var outcome := SendAndAwait(OP_STARTUP_INFO, StartupInfo(MAC, NodeType), a);
      if outcome == Unanswered {
        return 0;
      }
      Transport := Transport + [Unsubscribe(TopicResponse)];
      return 1;
    }

    /** One pass of SetChannelProperties' loop for channel i: send its
        properties and, once answered, unsubscribe from Topic_Response. */
    method SendProperties(i: nat, a: Attempt) returns (outcome: Outcome)
      requires Valid() && Terminated(NodeNames()) && Usable(NodeNames(), a) && i < ChannelCount
      modifies this`JsonDoc, this`ResponseReceived, this`ResponseTopic, this`CorrelationData, this`Transport,
               this`TopicResponse
      ensures Valid()
      ensures (LinkState(), outcome) == PropertiesStep(old(LinkState()), NodeNames(), States[i], a)
    {
      var c := Channels[i];
      outcome := SendAndAwait(OP_CHANNEL_PROPERTIES, ChannelProperties(MAC, c.ID, c.Type, c.MaxSampleRate), a);
      if outcome == Answered {
        Transport := Transport + [Unsubscribe(TopicResponse)];
      }
    }

    /** A pass of SetChannelProperties' loop, seen from the phase: what is
        left of the phase after the pass still ends where it did before. */
    method PropertiesRound(i: nat, a: Attempt, ghost rest: seq<Attempt>, ghost endLink: Link) returns (next: nat)
      requires Valid() && Terminated(NodeNames()) && i < ChannelCount
      requires rest != [] && rest[0] == a && AllUsable(NodeNames(), rest)
      requires PropertiesEnds(LinkState(), NodeNames(), States, i, rest, endLink)
      modifies this`JsonDoc, this`ResponseReceived, this`ResponseTopic, this`CorrelationData, this`Transport,
               this`TopicResponse
      ensures Valid()
      ensures next == i || next == i + 1
      ensures AllUsable(NodeNames(), rest[1..])
      ensures PropertiesEnds(LinkState(), NodeNames(), States, next, rest[1..], endLink)
    {
      ghost var before := LinkState();
      var outcome := SendProperties(i, a);
      next := if outcome == Answered then i + 1 else i;
      PropertiesPhaseStep(before, NodeNames(), States, i, rest, LinkState(), outcome, next);
    }

    /** SetChannelProperties: send every channel's properties in turn,
        resending a request that timed out, taking one attempt of `script`
        per request. */
    method SetChannelProperties(script: seq<Attempt>) returns (r: int)
      requires Valid() && Terminated(NodeNames()) && AllUsable(NodeNames(), script)
      requires PropertiesResult(LinkState(), NodeNames(), States, script).Some?
      modifies this`JsonDoc, this`ResponseReceived, this`ResponseTopic, this`CorrelationData, this`Transport,
               this`TopicResponse
      ensures Valid()
      ensures r == 1
      ensures Some(LinkState()) == PropertiesResult(old(LinkState()), NodeNames(), States, script)
    {
      ghost var goal := PropertiesResult(LinkState(), NodeNames(), States, script).value;
      var i := 0;
      var used := 0;
      while i < ChannelCount
        invariant 0 <= i <= ChannelCount && 0 <= used <= |script|
        invariant Valid()
        invariant AllUsable(NodeNames(), script[used..])
        invariant PropertiesEnds(LinkState(), NodeNames(), States, i, script[used..], goal)
        decreases |script| - used
      {
        assert script[used..][0] == script[used] && script[used..][1..] == script[used + 1..];
        i := PropertiesRound(i, script[used], script[used..], goal);
        used := used + 1;
      }
      return 1;
    }

    /** One pass of GetChannelConfig's loop for channel j: request its
        configuration and, once answered, apply the reply to the channel it
        names when it passes the test of RLNode.cpp:420-425. */
    method RequestConfig(j: nat, a: Attempt) returns (outcome: Outcome)
      requires Valid() && Terminated(NodeNames()) && Usable(NodeNames(), a) && j < ChannelCount
      modifies this`JsonDoc, this`ResponseReceived, this`ResponseTopic, this`CorrelationData, this`Transport,
               this`TopicResponse, Registered, this`States
      ensures Valid()
      ensures (LinkState(), States, outcome) == ConfigStep(old(LinkState()), NodeNames(), old(States), j, a)
    {
      outcome := SendAndAwait(OP_CHANNEL_CONFIG, ConfigRequest(MAC, Channels[j].ID), a);
      if outcome == Answered {
        var channelID := JsonDoc.channelId - 1;
        if JsonDoc.configuration.publishTopic.Some? && |JsonDoc.configuration.publishTopic.value| > 0 &&
           channelID < ChannelCount && channelID >= 0
        {
          UpdateChannel(channelID, a.applyTime);
        }
      }
    }

    /** A pass of GetChannelConfig's loop, seen from the phase: what is
        left of the phase after the pass still ends where it did before. */
    method ConfigRound(j: nat, a: Attempt, ghost rest: seq<Attempt>, ghost endLink: Link, ghost endChans: seq<ChannelState>)
      returns (next: nat)
      requires Valid() && Terminated(NodeNames()) && j < ChannelCount
      requires rest != [] && rest[0] == a && AllUsable(NodeNames(), rest)
      requires ConfigEnds(LinkState(), NodeNames(), States, j, rest, endLink, endChans)
      modifies this`JsonDoc, this`ResponseReceived, this`ResponseTopic, this`CorrelationData, this`Transport,
               this`TopicResponse, Registered, this`States
      ensures Valid()
      ensures next == j || next == j + 1
      ensures AllUsable(NodeNames(), rest[1..])
      ensures ConfigEnds(LinkState(), NodeNames(), States, next, rest[1..], endLink, endChans)
    {
      ghost var l0 := LinkState();
      ghost var s0 := States;
      ghost var n := NodeNames();
      var outcome := RequestConfig(j, a);
      next := if outcome == Answered then j + 1 else j;
      ConfigPhaseStep(l0, n, s0, j, rest, LinkState(), States, outcome, next);
    }

    /** GetChannelConfig: request every channel's configuration in turn,
        resending a request that timed out. */
    method GetChannelConfig(script: seq<Attempt>) returns (r: int)
      requires Valid() && Terminated(NodeNames()) && AllUsable(NodeNames(), script)
      requires ConfigResult(LinkState(), NodeNames(), States, script).Some?
      modifies this`JsonDoc, this`ResponseReceived, this`ResponseTopic, this`CorrelationData, this`Transport,
               this`TopicResponse, Registered, this`States
      ensures Valid()
      ensures r == 1
      ensures Some((LinkState(), States)) == ConfigResult(old(LinkState()), NodeNames(), old(States), script)
    {
      ghost var goal := ConfigResult(LinkState(), NodeNames(), States, script).value;
      var j := 0;
      var used := 0;
      while j < ChannelCount
        invariant 0 <= j <= ChannelCount && 0 <= used <= |script|
        invariant Valid()
        invariant AllUsable(NodeNames(), script[used..])
        invariant ConfigEnds(LinkState(), NodeNames(), States, j, script[used..], goal.0, goal.1)
        decreases |script| - used
      {
        assert script[used..][0] == script[used] && script[used..][1..] == script[used + 1..];
        j := ConfigRound(j, script[used], script[used..], goal.0, goal.1);
        used := used + 1;
      }
      return 1;
    }

    /** `(*Channels[k]).updateConfig()` with the configuration in jsonDoc. */
    method UpdateChannel(k: nat, now: U32)
      requires Valid() && k < ChannelCount
      modifies Registered[k], this`States
      ensures Valid()
      ensures States == old(States)[k := Configure(old(States)[k], JsonDoc.configuration, now)]
    {
      Distinct(k);
      Channels[k].UpdateConfig(JsonDoc.configuration, now);
      States := States[k := Channels[k].Model];
    }

    /** `(*Channels[k]).publishData(Time)`, with what the sensor returned. */
    method PublishChannel(k: nat, now: U32, reading: Reading) returns (sent: Option<Publication>)
      requires Valid() && k < ChannelCount
      modifies Registered[k], this`States, this`Calls
      ensures Valid()
      ensures (States[k], sent) == Publish(old(States)[k], now, reading)
      ensures States == old(States)[k := States[k]]
      ensures Calls == old(Calls)[k := old(Calls)[k] + [(old(States)[k].k, old(States)[k].m)]]
    {
      Distinct(k);
      sent := Channels[k].PublishData(now, reading);
      States := States[k := Channels[k].Model];
      Calls := Calls[k := Channels[k].SensorCalls];
    }

    /** Empty channel k's cached output, as nodeConfigChanged does by
        copying "" into its PreviousOutputString (RLNode.cpp:595). */
    method ClearOutput(k: nat)
      requires Valid() && k < ChannelCount
      modifies Registered[k], this`States
      ensures Valid()
      ensures States == old(States)[k := old(States)[k].(previousOutput := "")]
    {
      Distinct(k);
      Channels[k].PreviousOutputString := "";
      Channels[k].Model := Channels[k].Model.(previousOutput := "");
      States := States[k := Channels[k].Model];
    }

    /** The second half of nodeConfigChanged: clear every channel's
        PreviousOutputString, so that each publishes its next reading. */
    method ClearOutputs()
      requires Valid()
      modifies Registered, this`States
      ensures Valid()
      ensures States == Phases.ClearOutputs(old(States))
    {
      ghost var fetched := States;
      var i := 0;
      while i < ChannelCount
        invariant 0 <= i <= ChannelCount && Valid()
        invariant |States| == |fetched|
        invariant forall k {:trigger States[k]} :: 0 <= k < i ==> States[k] == fetched[k].(previousOutput := "")
        invariant forall k {:trigger States[k]} :: i <= k < |fetched| ==> States[k] == fetched[k]
      {
        ClearOutput(i);
        i := i + 1;
      }
    }

    /** nodeConfigChanged: fetch the configuration again (GetChannelConfig
        returns 1, so its retry loop runs once), then clear every channel's
        PreviousOutputString. */
    method NodeConfigChanged(script: seq<Attempt>)
      requires Valid() && Terminated(NodeNames()) && AllUsable(NodeNames(), script)
      requires ConfigChanged(LinkState(), NodeNames(), States, script).Some?
      modifies this`JsonDoc, this`ResponseReceived, this`ResponseTopic, this`CorrelationData, this`Transport,
               this`TopicResponse, Registered, this`States
      ensures Valid()
      ensures Some((LinkState(), States)) == ConfigChanged(old(LinkState()), NodeNames(), old(States), script)
    {
      var ok := GetChannelConfig(script);
      ClearOutputs();
    }

    /** The configuration-changed branch of mqttCallback: store the
        document, then run nodeConfigChanged. */
    method Reconfigure(doc: Document, script: seq<Attempt>)
      requires Valid() && Terminated(NodeNames()) && AllUsable(NodeNames(), script)
      requires ConfigChanged(LinkState().(doc := doc), NodeNames(), States, script).Some?
      modifies this`JsonDoc, this`ResponseReceived, this`ResponseTopic, this`CorrelationData, this`Transport,
               this`TopicResponse, Registered, this`States
      ensures Valid()
      ensures Some((LinkState(), States)) == ConfigChanged(old(LinkState()).(doc := doc), NodeNames(), old(States), script)
    {
      JsonDoc := doc;
      NodeConfigChanged(script);
    }

    /** mqttCallback: a configuration-changed notification runs
        nodeConfigChanged with the script of attempts; any other message
        goes through the rest of the if-chain. */
    method MqttCallback(m: Inbound, script: seq<Attempt>)
      requires Valid() && Terminated(NodeNames()) && NoNul(m.topic) && AllUsable(NodeNames(), script)
      requires Callback(LinkState(), NodeNames(), States, m, script).Some?
      modifies this`JsonDoc, this`ResponseReceived, this`ResponseTopic, this`CorrelationData, this`Transport,
               this`TopicResponse, Registered, this`States
      ensures Valid()
      ensures Some((LinkState(), States)) == Callback(old(LinkState()), NodeNames(), old(States), m, script)
    {
      ghost var l0 := LinkState();
      ghost var n := NodeNames();
      ghost var s0 := States;
      RouteExact(m.topic, n, TopicResponse);
      if Not(StrNCmp(m.topic, TopicIdentificationPoll, |TopicIdentificationPoll| + 1)) == 0 &&
         Not(StrNCmp(m.topic, TopicNodeConfigChanged, |TopicNodeConfigChanged| + 1)) != 0
      {
        assert Notifies(m.topic, n);
        Reconfigure(m.doc, script);
      } else {
        assert !Notifies(m.topic, n);
        Receive(m);
      }
    }

    /** One publish round: take Time, then publishData on every channel in
        index order, each with its own sensor reading; a channel that is
        due hands its output to MQTT at once. */
    method PublishRound(now: U32, readings: seq<Reading>)
      requires Valid() && |readings| == ChannelCount
      modifies this`Time, this`Transport, Registered, this`States, this`Calls
      ensures Valid() && Time == now
      ensures States == PublishAll(old(States), now, readings).0
      ensures Transport == old(Transport) + AsTransport(PublishAll(old(States), now, readings).1)
      ensures Calls == SensorCalled(old(Calls), States, ChannelCount)
    {
      Time := now;
      ghost var start := States;
      ghost var calls := Calls;
      ghost var earlier := Transport;
      PublishedUpToSteps(start, now, readings, 0);
      SensorCalledSteps(calls, start, 0);
      var i := 0;
      while i < ChannelCount
        invariant 0 <= i <= ChannelCount && Valid() && |start| == |calls| == ChannelCount && AllCoherent(start)
        invariant Time == now
        invariant States == PublishedUpTo(start, now, readings, i)
        invariant Calls == SensorCalled(calls, start, i)
        invariant Transport == earlier + AsTransport(RoundPublications(start, now, readings, i))
      {
        PublishStep(i, readings, start, calls, earlier);
        i := i + 1;
      }
      PublishedUpToSteps(start, now, readings, i);
      RoundKeepsCalibration(calls, start, now, readings);
    }

    /** The publish round for channel i: its publishData at Time, and the
        publish, if any, handed to MQTT. */
    method PublishStep(i: nat, readings: seq<Reading>, ghost start: seq<ChannelState>,
                       ghost calls: seq<seq<(real, real)>>, ghost earlier: seq<TransportOp>)
      requires Valid() && i < ChannelCount && |readings| == |start| == |calls| == ChannelCount && AllCoherent(start)
      requires States == PublishedUpTo(start, Time, readings, i)
      requires Calls == SensorCalled(calls, start, i)
      requires Transport == earlier + AsTransport(RoundPublications(start, Time, readings, i))
      modifies Registered[i], this`States, this`Calls, this`Transport
      ensures Valid()
      ensures States == PublishedUpTo(start, Time, readings, i + 1)
      ensures Calls == SensorCalled(calls, start, i + 1)
      ensures Transport == earlier + AsTransport(RoundPublications(start, Time, readings, i + 1))
    {
      var now := Time;
      PublishedUpToSteps(start, now, readings, i);
      SensorCalledSteps(calls, start, i);
      ghost var pubs := RoundPublications(start, now, readings, i);
      var sent := PublishChannel(i, now, readings[i]);
      RoundPublicationsStep(start, now, readings, i, sent);
      AsTransportPush(pubs, sent);
      if sent.Some? {
        MqttPublishData(sent.value);
      }
    }

    /** mqttPublishData: hand a value to the MQTT client for its topic. */
    method MqttPublishData(p: Publication)
      modifies this`Transport
      ensures Transport == old(Transport) + [PublishData(p)]
    {
      Transport := Transport + [PublishData(p)];
    }

    /** The message part of loop: mqttCallback on the message the client
        delivers, if any. */
    method DispatchMessage(delivered: Option<Inbound>, script: seq<Attempt>)
      requires Valid() && Terminated(NodeNames()) && AllUsable(NodeNames(), script)
      requires delivered.Some? ==> NoNul(delivered.value.topic)
      requires Dispatch(LinkState(), NodeNames(), States, delivered, script).Some?
      modifies this`JsonDoc, this`ResponseReceived, this`ResponseTopic, this`CorrelationData, this`Transport,
               this`TopicResponse, Registered, this`States
      ensures Valid()
      ensures Some((LinkState(), States)) == Dispatch(old(LinkState()), NodeNames(), old(States), delivered, script)
    {
      if delivered.Some? {
        MqttCallback(delivered.value, script);
      }
    }

    /** loop, after the reconnect check: handle the message the client
        delivers (if any), take Time once, then run the publish round. */
    method Loop(delivered: Option<Inbound>, script: seq<Attempt>, now: U32, readings: seq<Reading>)
      requires Valid() && Terminated(NodeNames()) && AllUsable(NodeNames(), script) && |readings| == ChannelCount
      requires delivered.Some? ==> NoNul(delivered.value.topic)
      requires LoopStep(LinkState(), NodeNames(), States, delivered, script, now, readings).Some?
      modifies this`JsonDoc, this`ResponseReceived, this`ResponseTopic, this`CorrelationData, this`Transport,
               this`TopicResponse, this`Time, Registered, this`States, this`Calls
      ensures Valid() && Time == now
      ensures Some((LinkState(), States)) ==
                LoopStep(old(LinkState()), NodeNames(), old(States), delivered, script, now, readings)
      ensures Calls == SensorCalled(old(Calls), States, |States|)
    {
      DispatchMessage(delivered, script);
      PublishRound(now, readings);
    }
  }
}
