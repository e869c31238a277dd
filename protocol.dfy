/**
 * The messages the node exchanges over MQTT, as records. JSON encoding and
 * decoding (ArduinoJson) is not part of this model: an inbound payload is
 * given already decoded into the fields the node reads, an outbound one as
 * the fields the node sets.
 */
module Protocol {

  datatype Option<T> = None | Some(value: T)

  /** `Payload.Configuration` of a channel-configuration reply. A missing
      number reads as 0, as ArduinoJson returns it. A missing string is
      modelled as "", where the source would pass a null pointer to strcpy.
      PublishTopic keeps its absence, which the node tests. */
  datatype Configuration = Configuration(
    publishTopic: Option<string>,
    sampleRate: real,
    kValue: real,
    mValue: real,
    unit: string,
    descriptor: string,
    sensorId: string)

  /** The fields of the shared inbound document (jsonDoc) that the node
      reads. A missing string is modelled as "", as in Configuration. */
  datatype Document = Document(
    responseTopic: string,    // ResponseTopic
    correlationData: string,  // CorrelationData
    cmdStatus: string,        // CmdStatus
    channelId: int,           // Payload.ChannelId, 0 when missing
    configuration: Configuration)

  /** One message handed to the callback: its topic and decoded payload. */
  datatype Inbound = Inbound(topic: string, doc: Document)

  /** The Payload object of a request the node sends to the data access. */
  datatype RequestPayload =
    | StartupInfo(nodeId: string, nodeType: string)
    | ChannelProperties(nodeId: string, channelId: int, channelType: string, maxSampleRate: real)
    | ConfigRequest(nodeId: string, channelId: int)

  datatype Identity = Identity(nodeName: string, mac: string)

  /** A JSON document the node publishes. */
  datatype Json =
    | Request(responseTopic: string, correlationData: string, payload: RequestPayload)
    | Reply(correlationData: string, cmdStatus: string, cmdStatusText: string, identity: Option<Identity>)

  /** A value published on a channel's topic. */
  datatype Publication = Publication(topic: string, value: string)

  /** A call the node makes on the MQTT client, in the order it makes them. */
  datatype TransportOp =
    | Subscribe(topic: string)
    | Unsubscribe(topic: string)
    | PublishJson(topic: string, body: Json)
    | PublishData(publication: Publication)
}
