# RLNode in Dafny

RLNode is an Arduino library that turns a microcontroller into a sensor node
of a data-logging system that talks MQTT. A node has up to four measurement
channels (`RLChannel`), each with a sensor function. At start-up the node:

- announces itself to the backend's data access (`SetNodeStartupInfo`);
- advertises the properties of each channel (`SetChannelProperties`);
- fetches each channel's configuration (`GetChannelConfig`), which sets the
  channel's publish topic, sample rate and calibration.

Every request is a correlation exchange:

1. the node builds a response topic from its lower-cased MAC address and
   draws a random 19-character correlation token;
2. it subscribes to the response topic and publishes the request;
3. it busy-waits on `mqttClient.loop()` until the callback sets
   `ResponseReceived` or 30 s (`MAX_RES_TIME_OUT`) pass;
4. a `"Processing"` reply starts a second wait.

In `loop`:

- the node takes one `Time` reading;
- it runs every channel's `publishData`, which calls the sensor and
  publishes when the channel is active, past its 1 s settle delay, and
  either a period `1000/SampleRate` ms has passed or the sensor forces a
  publish;
- inbound messages reach `mqttCallback`: an identification poll is answered
  with two replies, a configuration-changed notification re-fetches all
  channel configurations and clears the cached outputs, and anything else
  counts as the awaited response.

The model has nine modules:

- **Clock**: `unsigned long` millis readings and their wrap-around
  differences.
- **CString**: `strncmp`, `!` on ints, `strLow` and `intTochar`. `strLow` and
  `intTochar` work in place on arrays.
- **Correlation**: the draw-to-character map and the correlation token.
- **Topics**: the topic strings.
- **Protocol**: decoded payloads and the log of MQTT client calls.
- **Channel**:
  - the channel state as a value;
  - `updateConfig` and `publishData` as pure functions (`Configure`,
    `Publish`) with their properties, including runs of many ticks;
  - the class `RLChannel`, whose methods update its fields in place and are
    proved to compute those functions.
- **Exchange**:
  - the callback's routing as written;
  - the identification reply;
  - the busy-wait against a finite sequence of loop passes;
  - one whole request (`Transact`).
- **Phases**: the three request phases, `nodeConfigChanged`, the whole
  callback and the publish round of `loop`, as functions over a script of
  attempts.
- **Node**: the class `RLNode`:
  - its fields;
  - the channel table as an `array`;
  - every method as an imperative method proved equal to the function it
    implements.

The MQTT client is a log: `Transport` records every subscribe, unsubscribe
and publish the node asks for, in order. The clock, the random draws, the
sensor outputs and the messages the client delivers are inputs.

The model follows the code as written. These places behave in ways a reader
of the code could easily misread, or that look unintended:

- **Routing.** `mqttCallback` compares the first two topics with length
  `strlen + 1`, which is exact equality (`RouteExact`). The third test,
  `!strncmp(...) + 1`, is never false (`RouteAsWritten` never yields
  `Unhandled`). So every other topic, including an unrelated one, sets
  `ResponseReceived`: an unregistered topic does change state.
- **Processing restarts the timer.** After a `"Processing"` reply the timer
  restarts (`timeout = millis()`). The second wait has its own full 30 s
  (`ExchangeAfterProcessing`).
- **Publish bookkeeping.** A publish updates `PreviousTime` and
  `PreviousOutputString` whether or not the MQTT client accepted it, because
  `mqttPublishData` returns nothing.
- **Unsubscribing.** `GetChannelConfig` does not unsubscribe after an
  answered request. `SetNodeStartupInfo` and `SetChannelProperties` do.
- **Timed-out waits.** A timed-out wait leaves `ResponseReceived` as it is.
  A response delivered on the pass that detects the deadline therefore
  stays flagged, and the next request takes it for its own reply
  (`ExchangeTimesOut`).
- **Applying a configuration reply.** `GetChannelConfig` applies the reply to
  the channel the reply names (`ChannelId`), not to the channel it asked
  about.
- **Forced publish.** A publish forced by the sensor also sets
  `PreviousTime` (src/RLNode.cpp:164), so it restarts the periodic phase.
  The comment at src/RLNode.cpp:146-150 names a forced publish only as one
  more reason to publish, not as a new start of the period (`Publish`).
- **Channel capacity.** `addChannel` has no capacity check.

## Model

| member | source | states |
|---|---|---|
| Clock.Elapsed | src/RLNode.cpp:156-158 | `now - since` on 32-bit unsigned longs: the plain difference when no rollover happened, otherwise the difference plus 2^32 |
| Clock.ElapsedAfter | src/RLNode.cpp:157-158 | a reading `d` ms after `t` shows exactly `d` ms elapsed, even across a rollover of the counter |
| Clock.ElapsedSelf | src/RLNode.cpp:158 | no time elapses between a reading and itself |
| CString.StrNCmp | src/RLNode.cpp:518-522 | the sign of C `strncmp` on NUL-terminated strings is -1, 0 or 1 |
| CString.Not | src/RLNode.cpp:518 | C `!` yields 1 exactly for 0 and 0 otherwise |
| CString.StrNCmpIncludingNul | src/RLNode.cpp:518-520 | comparing `strlen(b) + 1` characters is 0 if and only if the two C strings are equal |
| CString.StrNCmpPrefix | src/RLNode.cpp:522 | comparing `strlen(b)` characters is 0 if and only if b is a prefix of a |
| CString.ToLower | src/RLNode.cpp:57 | `tolower` adds 32 to 'A'..'Z' and leaves every other character alone |
| CString.Lower | src/RLNode.cpp:53-60 | lowercasing keeps the length and lowercases each character |
| CString.LowerIdempotent | src/RLNode.cpp:53-60 | after lowercasing no upper-case letter is left, and lowercasing twice equals lowercasing once |
| CString.LowerKeepsNoNul | src/RLNode.cpp:204-205 | a string has no NUL if and only if its lower-cased copy has none, so strLow keeps the C length |
| CString.CLen | src/RLNode.cpp:204 | `strlen` of a buffer holding a NUL is the index of its first NUL, and the characters before it hold no NUL |
| CString.CLenOf | src/RLNode.cpp:204 | a buffer holding a NUL-free string and then a NUL has that string's length as its C length |
| CString.StrLow | src/RLNode.cpp:53-60 | strLow lowercases the buffer in place up to its first NUL and leaves the NUL and everything after it unchanged |
| CString.Digits | src/RLNode.cpp:43-48 | the digit string of n has NumDigits(n) characters, all of them digits |
| CString.LastDigit | src/RLNode.cpp:46-47 | the last digit of n is n % 10, and the digits before it are those of n / 10 |
| CString.DigitStep | src/RLNode.cpp:44-48 | one pass of the backwards loop writes the next digit from the right and leaves the digits of a / 10 to write |
| CString.DigitsRoundTrip | src/RLNode.cpp:43-48 | digits are written most significant first: reading them back gives n, and a positive n has no leading zero |
| CString.Decimal | src/RLNode.cpp:26-51 | the text intTochar writes has NumDigits(abs v) digits plus one for a sign, starts with '-' if and only if v is negative, and holds no NUL |
| CString.DecimalShape | src/RLNode.cpp:26-51 | intTochar's text has digits + sign characters; it starts with '-' if and only if the value is negative; 0 is "0"; and it parses back to the value |
| CString.DecimalInjective | src/RLNode.cpp:26-51 | different values get different decimal texts |
| CString.WriteDigits | src/RLNode.cpp:43-48 | the backwards loop writes exactly the digits of n, most significant first, at buf[sign..sign+nDigits] and touches nothing else |
| CString.IntToChar | src/RLNode.cpp:26-51 | intTochar writes the decimal text of v and then a NUL at index digits + sign, and leaves the rest of the buffer unchanged |
| Correlation.CorrelationChar | src/RLNode.cpp:609-614 | a draw r in [0,62) gives a lower-case letter for r <= 25, an upper-case letter for 26..51 and a digit for 52..61, so always an alphanumeric character |
| Correlation.CorrelationIndex | src/RLNode.cpp:609-614 | each alphanumeric character comes from a draw in [0,62) |
| Correlation.CorrelationBijection | src/RLNode.cpp:609-614 | the draw-to-character map is a bijection between [0,62) and [a-zA-Z0-9] |
| Correlation.CorrelationCharInjective | src/RLNode.cpp:609-614 | two draws that give the same character are equal |
| Correlation.Token | src/RLNode.cpp:601-617 | a correlation token has exactly 19 characters, so it fits the 20-character buffer with its NUL; all are alphanumeric and none is NUL |
| Correlation.TokenInjective | src/RLNode.cpp:601-617 | different sequences of draws give different tokens |
| Topics.RequestTopic | src/RLNode.cpp:305 | builds the request topic of an operation; ensures its length is 19 + operation and the operation is the slice from index 19 |
| Topics.ResponseTopic | src/RLNode.cpp:294-296 | builds Topic_Response from the lower-cased address and the operation; ensures its length is 9 + address + operation, the address is the slice from index 8 and the operation is the slice after the address and one separator |
| Topics.SetNodeConfigTopic | src/RLNode.cpp:624-627 | builds the node-configuration topic from the lower-cased address; ensures its length is 33 + address and the address is the slice from index 8 |
| Topics.SetChannelConfigTopic | src/RLNode.cpp:628-631 | builds the channel-configuration topic from the lower-cased address; ensures its length is 32 + address and the address is the slice from index 8 |
| Topics.NodeConfigChangedTopic | src/RLNode.cpp:632-635 | builds the config-changed topic from the address as given (not lower-cased); ensures its length is 18 + address and the address is the slice from index 4 |
| Topics.TopicsIdentifyNode | src/RLNode.cpp:620-636 | two addresses give the same configuration or notification topic only if they are equal, and two response topics with addresses of one length are equal only for the same address and operation |
| Topics.TopicsFit | src/RLNode.cpp:620-636 | for a valid MAC every built topic fits a 128-character topic buffer and holds no NUL |
| Topics.ResponseTopicDistinct | src/RLNode.cpp:518-522 | a response topic is never the poll topic, the config-changed topic or empty |
| Topics.ResponseTopicsDiffer | src/RLNode.cpp:294-296 | the response topics of the three operations differ from each other |
| Channel.StatusFor | src/RLNode.cpp:122-131 | both status labels fit the 10-character Status buffer |
| Channel.Accepts | src/RLNode.cpp:102-105 | the acceptance test of updateConfig: a PublishTopic that is present and non-empty and 0 < SampleRate <= MaxSampleRate. Configure's contract makes the channel active exactly when it holds |
| Channel.Configure | src/RLNode.cpp:94-140 | updateConfig leaves the channel active if and only if the configuration is accepted (topic present and non-empty, 0 < rate <= MaxSampleRate). On acceptance it copies topic, rate, K, M, unit, description and sensor id and stamps ActivationTime. On rejection only the rate changes, to 0, plus Active and Status. Status is Online or Idle accordingly. Id, capacity, type, PreviousTime and PreviousOutput are kept |
| Channel.PublishDue | src/RLNode.cpp:156-158 | the publish guard: active, at least 1000 ms since activation, and a full period since the last publish or a forced publish, measured with wrap-around. Publish's contract makes a publish happen exactly when it holds |
| Channel.Publish | src/RLNode.cpp:144-168 | publishData publishes if and only if the channel is active, the settle delay has passed and the period has passed or the sensor forces a publish. A publish is the output on the channel's topic and sets PreviousTime and PreviousOutput. Otherwise nothing changes. Coherence is kept |
| Channel.NoPublishWhileIdleOrSettling | src/RLNode.cpp:156-157 | an inactive channel, or one within 1000 ms of its activation, does not publish |
| Channel.NoSecondPublishAtSameTime | src/RLNode.cpp:156-164 | right after a publish, a second tick at the same Time publishes nothing unless it is forced |
| Channel.PublishesWhenPeriodElapsed | src/RLNode.cpp:156-158 | a settled active channel publishes once a period has passed since its last publish, even across a clock rollover |
| Channel.Run | src/RLNode.cpp:144-168 | a run of ticks keeps the channel coherent and changes only PreviousTime and PreviousOutput |
| Channel.RunRemembersLastPublish | src/RLNode.cpp:164 | after a run, PreviousTime is the time of the run's last publish, or the old one if nothing was published |
| Channel.RunPublishesAtMostOncePerPeriod | src/RLNode.cpp:150-158 | in any run, unforced publishes are at least one period apart, counted from the starting PreviousTime |
| Channel.RunRespectsSettleDelay | src/RLNode.cpp:156-157 | in any run, only an active channel publishes, and never within 1000 ms of its activation |
| Channel.RLChannel.constructor | src/RLNode.cpp:66-72 | a new channel stores its type and maximum rate and starts inactive, with status "Idle", rate 0, an empty topic and K = M = 0 (field defaults at RLNode.h:56-70) |
| Channel.RLChannel.UpdateConfig | src/RLNode.cpp:94-140 | updating in place leaves the fields equal to Configure of the old state and keeps the channel coherent |
| Channel.RLChannel.PublishData | src/RLNode.cpp:144-168 | one tick calls the sensor once with the channel's K and M, even when the channel is inactive, and leaves state and publication equal to Publish of the old state |
| Exchange.RouteAsWritten | src/RLNode.cpp:518-525 | the callback's if-chain as written never reaches its fallback branch |
| Exchange.RouteExact | src/RLNode.cpp:518-522 | on C strings the if-chain routes exactly by string equality with the poll and config-changed topics, and sends every other topic to the response branch whatever Topic_Response is |
| Exchange.IdentificationReply | src/RLNode.cpp:559-579 | answering a poll stores its ResponseTopic and CorrelationData and publishes "Processing" and then "Done" with NodeName and MAC on that topic, echoing the token. Nothing else changes |
| Exchange.Deliver | src/RLNode.cpp:512-526 | a delivered message always replaces jsonDoc. ResponseReceived is set if and only if the topic is neither of the two named topics. A poll appends two publishes and keeps what was sent before |
| Exchange.Poll | src/RLNode.cpp:313 | one `mqttClient.loop()` only appends to what was sent and keeps Topic_Response |
| Exchange.FirstLate | src/RLNode.cpp:315 | the first pass whose reading is strictly more than 30000 ms after the start; every earlier pass is on time |
| Exchange.AwaitFrom | src/RLNode.cpp:310-321 | a wait ends replied only with ResponseReceived set. A timed-out wait ends with an unsubscribe of Topic_Response. A wait only appends to the transport log |
| Exchange.AwaitStep | src/RLNode.cpp:311-320 | one pass of the wait loop: poll, then either unsubscribe and time out, or continue with the remaining passes |
| Exchange.AwaitOutcome | src/RLNode.cpp:310-321 | a wait gets its reply if and only if the flag was already set or a response is delivered before the first late pass; exactly 30000 ms is not late |
| Exchange.Send | src/RLNode.cpp:294-305 | a request sets Topic_Response to "res/rtl/" + LowerCaseMAC + "/" + op and a fresh token, subscribes to it, and publishes the request, with that topic and token, on "req/rtl/dataaccess/" + op |
| Exchange.IsProcessing | src/RLNode.cpp:326 | the "Processing" test `!strncmp(CmdStatus, "Processing", 11)`, repeated at lines 393 and 481. ProcessingExact proves it holds exactly for the status "Processing" |
| Exchange.ProcessingExact | src/RLNode.cpp:326 | the 11-character comparison matches only the exact status "Processing" |
| Exchange.AfterReply | src/RLNode.cpp:322-341 | after a reply the flag is cleared. A "Processing" status waits again, and a timeout there ends with an unsubscribe |
| Exchange.Transact | src/RLNode.cpp:291-341 | one request leaves Topic_Response at its operation's topic. An answered request leaves ResponseReceived clear. An unanswered one ends with an unsubscribe of that topic |
| Exchange.ExchangeDoneAtFirstReply | src/RLNode.cpp:322-326 | a first reply that is not "Processing" answers the request, whatever the second wait would have held |
| Exchange.ExchangeAfterProcessing | src/RLNode.cpp:326-341 | after "Processing", the request is answered if and only if a response comes before the deadline counted from the second wait's own start |
| Exchange.ExchangeTimesOut | src/RLNode.cpp:310-320 | with no response before the deadline the request is unanswered, and ResponseReceived is left set if and only if a response came on the late pass |
| Exchange.AwaitKeepsFlagOff | src/RLNode.cpp:310-321 | a wait with no response in time leaves the flag as the late pass set it |
| Phases.StartupPhase | src/RLNode.cpp:291-345 | SetNodeStartupInfo returns 1 if and only if the exchange is answered, else 0. Either way its last MQTT call unsubscribes the response topic, and after a 1 ResponseReceived is clear |
| Phases.PropertiesPayload | src/RLNode.cpp:447-451 | the properties request carries the node's MAC and the channel's ID, Type and MaxSampleRate. SendProperties's contract states that this is what is sent |
| Phases.PropertiesStep | src/RLNode.cpp:441-506 | one properties attempt has the exchange's outcome and always ends by unsubscribing Topic_Response |
| Phases.PropertiesPhase | src/RLNode.cpp:437-509 | a finished SetChannelProperties leaves the channels alone and has exactly one answered attempt per remaining channel. It ends unsubscribed with the flag clear. That a timeout retries the same channel is stated by PropertiesPhaseStep |
| Phases.PropertiesResult | src/RLNode.cpp:437-509 | the whole phase ends where PropertiesPhase from channel 0 does, and with channels its last call unsubscribes |
| Phases.PropertiesPhaseStep | src/RLNode.cpp:441-506 | the phase from channel i equals one attempt followed by the phase from the next index, i + 1 if answered and i otherwise |
| Phases.Addresses | src/RLNode.cpp:420-424 | the test a configuration reply must pass: a present, non-empty PublishTopic and 1 <= ChannelId <= ChannelCount. ApplyReply changes a channel exactly when it holds |
| Phases.ApplyReply | src/RLNode.cpp:420-428 | a reply changes only the channel it names, and only if its topic is present and non-empty and 1 <= ChannelId <= ChannelCount; that channel gets Configure |
| Phases.ApplyReplyKeeps | src/RLNode.cpp:420-428 | applying a reply keeps every channel's id, capacity, type and publish history, and keeps channels coherent |
| Phases.ConfigStep | src/RLNode.cpp:354-430 | one configuration attempt is the exchange; the reply is applied only when answered |
| Phases.ConfigPhase | src/RLNode.cpp:348-435 | a finished GetChannelConfig has one answered attempt per remaining channel, keeps every channel's identity and history, and keeps them coherent. That a timeout retries the same channel is stated by ConfigPhaseStep |
| Phases.ConfigResult | src/RLNode.cpp:348-435 | the whole phase ends where ConfigPhase from channel 0 does, with the same channel guarantees |
| Phases.ConfigPhaseStep | src/RLNode.cpp:352-431 | the phase from channel j equals one attempt followed by the phase from the next index |
| Phases.UnansweredAttempt | src/RLNode.cpp:370-387 | without a response in the first wait, a request times out and leaves ResponseReceived clear |
| Phases.ConfigPhaseStallsWithoutReplies | src/RLNode.cpp:384-387 | without responses the channel index never advances: however many attempts, GetChannelConfig does not finish |
| Phases.PropertiesPhaseStallsWithoutReplies | src/RLNode.cpp:472-475 | the same holds for SetChannelProperties |
| Phases.ClearOutputs | src/RLNode.cpp:592-596 | every channel's PreviousOutputString becomes empty and nothing else changes |
| Phases.ConfigChanged | src/RLNode.cpp:582-598 | after nodeConfigChanged every channel's cached output is empty and all channels are still coherent |
| Phases.Callback | src/RLNode.cpp:512-526 | the callback keeps the number of channels and their coherence, and for anything but a config-changed notification equals Deliver with the channels unchanged |
| Phases.PublishAll | src/RLNode.cpp:282-287 | a round runs publishData on each channel with the same Time and keeps all channels coherent |
| Phases.PublishedUpToSteps | src/RLNode.cpp:284-287 | a round starts from the channels as they are, advances one channel at a time in index order, and ends at PublishAll |
| Phases.RoundPublishesDue | src/RLNode.cpp:284-287 | the publishes of the first i channels are exactly those of the due channels among them, in channel order |
| Phases.PublishAllPublishesDue | src/RLNode.cpp:282-287 | a round publishes exactly the due channels' outputs on their topics, in channel order |
| Phases.RoundPublicationsStep | src/RLNode.cpp:286 | one more channel adds its publish, if any, at the end |
| Phases.AsTransport | src/RLNode.cpp:162 | each publication becomes one publish call, in order |
| Phases.AsTransportPush | src/RLNode.cpp:162 | handing one more publication to MQTT appends one publish call |
| Phases.Dispatch | src/RLNode.cpp:281 | without a delivered message nothing changes; with one the channels keep their number and coherence |
| Phases.LoopStep | src/RLNode.cpp:272-288 | a tick keeps the number of channels and their coherence |
| Node.LowerCopy | src/RLNode.cpp:204-205 | copying MAC into LowerCaseMAC and running strLow gives the lower-cased MAC |
| Node.SensorCalledSteps | src/RLNode.cpp:284-286 | the log of a round starts unchanged and grows by one call per channel, in index order |
| Node.SensorCalledCalibrated | src/RLNode.cpp:155 | the sensor is called with the channels' K and M only |
| Node.RoundKeepsCalibration | src/RLNode.cpp:155 | a publish round does not change the calibration the sensors are called with |
| Node.RLNode.constructor | src/RLNode.h:95-126 | a new node has no channels, ChannelCount 0, ResponseReceived false, empty strings, and has sent nothing |
| Node.RLNode.Begin | src/RLNode.cpp:197-205 | begin stores MAC, NodeName and NodeType and sets LowerCaseMAC to the lower-cased MAC |
| Node.RLNode.SubscribeTopics | src/RLNode.cpp:241-246 | after the startup exchange begin builds the four topic names and subscribes to them in order, and the topics the callback tests are C strings |
| Node.RLNode.SetSubscriptionTopicNames | src/RLNode.cpp:620-636 | the topics use the lower-cased MAC, except the config-changed topic, which uses MAC as given |
| Node.RLNode.AddChannel | src/RLNode.cpp:262-269 | the k-th channel goes to index k-1 with ID k, and ChannelCount grows by one. Earlier entries are unchanged and the table stays valid |
| Node.RLNode.GenerateCorrelationData | src/RLNode.cpp:601-617 | the filling loop stores exactly Token(draws) in CorrelationData |
| Node.RLNode.ResponseIdentificationPoll | src/RLNode.cpp:559-579 | the fields and transport log end as IdentificationReply says |
| Node.RLNode.Receive | src/RLNode.cpp:512-526 | the callback for a message other than a notification updates the node as Deliver says |
| Node.RLNode.PollOnce | src/RLNode.cpp:313-320 | one pass polls, and is late if and only if strictly more than 30000 ms have elapsed; then it unsubscribes |
| Node.RLNode.AwaitResponse | src/RLNode.cpp:310-321 | the busy-wait loop ends with the state and outcome of Await |
| Node.RLNode.SendAndAwait | src/RLNode.cpp:294-341 | build the topic and token, subscribe, publish and wait: the state and outcome are those of Transact |
| Node.RLNode.AfterReply | src/RLNode.cpp:322-341 | clearing the flag and the possible second wait give the state and outcome of Exchange.AfterReply |
| Node.RLNode.SetNodeStartupInfo | src/RLNode.cpp:291-345 | the method returns the value and leaves the state that StartupPhase gives |
| Node.RLNode.SendProperties | src/RLNode.cpp:443-505 | one pass for channel i sends that channel's ID, Type and MaxSampleRate and ends as PropertiesStep says |
| Node.RLNode.PropertiesRound | src/RLNode.cpp:441-506 | after one pass the index stays or advances by one, and the rest of the phase still ends in the same state |
| Node.RLNode.SetChannelProperties | src/RLNode.cpp:437-509 | SetChannelProperties returns 1 and ends in the state PropertiesResult gives |
| Node.RLNode.RequestConfig | src/RLNode.cpp:354-430 | one pass for channel j ends with the state, channels and outcome ConfigStep gives |
| Node.RLNode.ConfigRound | src/RLNode.cpp:352-431 | after one pass the index stays or advances by one, and the rest of the phase still ends with the same state and channels |
| Node.RLNode.GetChannelConfig | src/RLNode.cpp:348-435 | GetChannelConfig returns 1 and ends with the state and channels ConfigResult gives |
| Node.RLNode.UpdateChannel | src/RLNode.cpp:427 | only channel k changes, to Configure with jsonDoc's configuration |
| Node.RLNode.PublishChannel | src/RLNode.cpp:286 | only channel k changes, as Publish says, and its sensor is called once more |
| Node.RLNode.ClearOutput | src/RLNode.cpp:595 | only channel k changes: its cached output becomes empty |
| Node.RLNode.ClearOutputs | src/RLNode.cpp:592-596 | the clearing loop leaves the channels as Phases.ClearOutputs of the old ones |
| Node.RLNode.NodeConfigChanged | src/RLNode.cpp:582-598 | nodeConfigChanged ends with the state and channels ConfigChanged gives |
| Node.RLNode.Reconfigure | src/RLNode.cpp:515-521 | the config-changed branch stores the document and then runs nodeConfigChanged |
| Node.RLNode.MqttCallback | src/RLNode.cpp:512-526 | the callback ends with the state and channels Callback gives |
| Node.RLNode.PublishRound | src/RLNode.cpp:282-287 | Time is read once. The channels end as PublishAll of the old ones, their publishes are appended in channel order, and each sensor is called once with its channel's calibration |
| Node.RLNode.PublishStep | src/RLNode.cpp:286 | channel i runs publishData at Time, and its publish, if any, is handed to mqttPublishData; the round so far stays equal to the first i + 1 channels of PublishAll |
| Node.RLNode.MqttPublishData | src/RLNode.cpp:529-542 | mqttPublishData appends exactly one publish of the value on its topic to what the client was asked to do |
| Node.RLNode.DispatchMessage | src/RLNode.cpp:281 | the delivered message, if any, goes through the callback as Dispatch says |
| Node.RLNode.Loop | src/RLNode.cpp:272-288 | one loop ends with Time = now, with the state and channels LoopStep gives, and with every sensor called once |

## Left out

- MQTT transport (connect, the buffer-size halt, keep-alive, `begin`'s connect loop at src/RLNode.cpp:207-231) is I/O. The client is a log of subscribe, unsubscribe and publish calls. Publish failures and their 500 ms delay are not modelled.
- `RLNodeMqttReconnect` (src/RLNode.cpp:639-660) and the reconnect check in `loop` are left out as transport I/O. Note that reconnect re-subscribes only three topics and omits the config-changed topic.
- `RLNodeMqttCallback` (src/RLNode.cpp:665-677) only logs and forwards to `mqttCallback`, which is modelled.
- ArduinoJson is a foreign library. Inbound payloads are given decoded (`Protocol.Document`), and outbound ones as records (`Protocol.Json`). `mqttPublishJson` is a `PublishJson` entry. `addChannelPropertiesByID` is the `ChannelProperties` payload.
- A missing `PublishTopic` in a configuration reply is `None`. `GetChannelConfig` calls `strlen` on it before testing for null, which is undefined behaviour in C; the model treats a missing topic as failing the test. A missing `CmdStatus` is treated as "".
- Channel.Configure, Channel.RLChannel.UpdateConfig, Exchange.IdentificationReply, Exchange.Deliver and Node.RLNode.ResponseIdentificationPoll read a missing Unit, Descriptor, Sensor_ID, ResponseTopic or CorrelationData as "". For a missing member ArduinoJson yields a null pointer, and the source passes it to `strcpy` (src/RLNode.cpp:111-113, 562-563), which is undefined behaviour in C. The model does not capture that case.
- `millis()`, `micros()`, `random()` and `randomSeed()` become parameters: clock readings in each `Tick`, `applyTime` and `now`, and draws in [0,62) per attempt.
- Floats (`SampleRate`, `MaxSampleRate`, K, M) are `real`. Rounding, NaN and the unsigned-long-to-float conversion in the period test are not modelled.
- The sensor function is foreign code. Each call is given its output and `forcePublish` flag, and the calls are logged with the K and M they receive. `setSensorFunction` only stores the pointer and is not modelled.
- Serial logging and `delay()` have no effect on the model's state.
- The unbounded retry loops of `begin` (src/RLNode.cpp:235, 248, 254) are not modelled. `SetNodeStartupInfo`, `SubscribeTopics`, `SetChannelProperties` and `GetChannelConfig` are the steps, each a method. The retry loop of `nodeConfigChanged` (src/RLNode.cpp:586) runs once, because `GetChannelConfig` always returns 1.
- Node.RLNode.SetChannelProperties: the busy-waits and retries are unbounded. The model takes a finite script of attempts, and the requires asks that the script is long enough for the phase to finish (`PropertiesResult(...).Some?`). Without responses no script is long enough (`PropertiesPhaseStallsWithoutReplies`).
- Node.RLNode.GetChannelConfig: it also requires a script on which it finishes (`ConfigResult(...).Some?`). `ConfigPhaseStallsWithoutReplies` shows the unbounded case.
- Node.RLNode.NodeConfigChanged, Node.RLNode.Reconfigure, Node.RLNode.MqttCallback, Node.RLNode.DispatchMessage and Node.RLNode.Loop inherit that requires through the configuration fetch.
- Exchange.Usable: each wait must reach its deadline by its last pass (`Decisive`) and must deliver no config-changed notification (`Quiet`). Re-entrant reconfiguration during a pending wait is therefore left out.
- Node.RLNode.Receive and the other callback methods require topics without NUL characters, as C strings are.
- CString.IntToChar requires `INT_MIN < v`, because `abs(INT_MIN)` overflows in C.
- Node.RLNode.AddChannel requires `ChannelCount < 4`. The source has no bound check and would write past `Channels`.
- Node.RLNode.AddChannel also requires that the channel object is not registered yet. The source would store the same pointer a second time and give it the new ID, so the earlier slot's channel would no longer carry its index + 1. The model does not capture re-adding a channel.
- Channel.Configure and Channel.RLChannel.UpdateConfig copy PublishTopic, Unit, Descriptor and Sensor_ID at any length. The source `strcpy`s them into arrays of 128, 10, 50 and 10 characters (src/RLNode.h:61, 68-70), and a longer value overflows them. The model does not capture that overflow.
- Exchange.IdentificationReply, Exchange.Deliver and Node.RLNode.ResponseIdentificationPoll store the inbound ResponseTopic and CorrelationData at any length. The source `strcpy`s them into arrays of 128 and 20 characters (src/RLNode.h:116, 124). A CorrelationData of 20 or more characters overwrites the memory after that array, which holds `ChannelCount` (src/RLNode.h:125). The contracts' "nothing else changes" holds only for values that fit.
- Channel.RLChannel.UpdateConfig requires `Valid()`: the channel's fields must already be coherent (active exactly when the rate is non-zero), which every constructed channel is.
- Node.RLNode.Begin does not model `strncpy` into 20-character buffers for `NodeName` and `NodeType`. Only the MAC is bounded (`ValidMac`).
- The constructor of `RLChannel` leaves `ID`, `PreviousTime`, `ActivationTime` and `PreviousOutputString` unconstrained. The C++ constructor does not set them either: they are zero for a channel with static storage and indeterminate for one on the stack or heap.
- The node's own `Status` field and `MQTTUsername`/`MQTTPassword` are never read by the modelled logic and are not fields of the model.
- `requestNodeConfig`, `responseSetNodeConfig`, `responseSetChannelConfig` and `addChannelConfig` are declared in src/RLNode.h but have no body, so they are not modelled.
