/**
 * Topic names (RLNode.cpp:294-296, 355-357, 443-445, 620-636). Every topic
 * the node builds from its address uses the lower-cased address, except the
 * configuration-changed notification, which uses the address as given.
 */
module Topics {
  import opened CString

  const MAX_TOPIC_LENGTH: nat := 128
  /** MAC and LowerCaseMAC are 13-character buffers (RLNode.h:107-108). */
  const MAC_BUFFER_LENGTH: nat := 13

  const OP_STARTUP_INFO: string := "setnodestartupinfo"
  const OP_CHANNEL_CONFIG: string := "getchannelconfiguration"
  const OP_CHANNEL_PROPERTIES: string := "setchannelproperties"

  const IDENTIFICATION_POLL: string := "req/rtl/logger/identificationpoll"

  /** A node address that fits its buffer as a C string. */
  predicate ValidMac(mac: string) {
    |mac| < MAC_BUFFER_LENGTH && NoNul(mac)
  }

  /** The three operations the node requests from the data access. */
  predicate IsOperation(op: string) {
    op == OP_STARTUP_INFO || op == OP_CHANNEL_CONFIG || op == OP_CHANNEL_PROPERTIES
  }

  /** Where a request for `op` is published: a fixed 19-character prefix,
      then the operation. */
  function RequestTopic(op: string): (t: string)
    ensures |t| == 19 + |op| && t[19..] == op
  {
    "req/rtl/dataaccess/" + op
  }

  /** Topic_Response for an exchange of `op`: "res/rtl/", the address,
      then "/" and the operation. */
  function ResponseTopic(lowerMac: string, op: string): (t: string)
    ensures |t| == 9 + |lowerMac| + |op|
    ensures t[8..8 + |lowerMac|] == lowerMac && t[9 + |lowerMac|..] == op
  {
    "res/rtl/" + lowerMac + "/" + op
  }

  /** "req/rtl/", the address, then a fixed 25-character suffix. */
  function SetNodeConfigTopic(lowerMac: string): (t: string)
    ensures |t| == 33 + |lowerMac| && t[8..8 + |lowerMac|] == lowerMac
  {
    "req/rtl/" + lowerMac + "/identificationassignment"
  }

  /** "req/rtl/", the address, then a fixed 24-character suffix. */
  function SetChannelConfigTopic(lowerMac: string): (t: string)
    ensures |t| == 32 + |lowerMac| && t[8..8 + |lowerMac|] == lowerMac
  {
    "req/rtl/" + lowerMac + "/setchannelconfiguration"
  }

  /** "not/", the address as given (not lower-cased), then
      "/configuration". */
  function NodeConfigChangedTopic(mac: string): (t: string)
    ensures |t| == 18 + |mac| && t[4..4 + |mac|] == mac
  {
    "not/" + mac + "/configuration"
  }

  /** Each topic names its node: two nodes share one of these topics only
      when they have the same address, and two response topics of one node
      only for the same operation. */
  lemma TopicsIdentifyNode(m1: string, m2: string, op1: string, op2: string)
    ensures ResponseTopic(m1, op1) == ResponseTopic(m2, op2) && |m1| == |m2| ==> m1 == m2 && op1 == op2
    ensures SetNodeConfigTopic(m1) == SetNodeConfigTopic(m2) ==> m1 == m2
    ensures SetChannelConfigTopic(m1) == SetChannelConfigTopic(m2) ==> m1 == m2
    ensures NodeConfigChangedTopic(m1) == NodeConfigChangedTopic(m2) ==> m1 == m2
  {
  }

  /** Every topic built from a valid address fits a topic buffer with its
      NUL, and is a C string. */
  lemma TopicsFit(mac: string, op: string)
    requires ValidMac(mac) && IsOperation(op)
    ensures |ResponseTopic(Lower(mac), op)| < MAX_TOPIC_LENGTH && NoNul(ResponseTopic(Lower(mac), op))
    ensures |SetNodeConfigTopic(Lower(mac))| < MAX_TOPIC_LENGTH && NoNul(SetNodeConfigTopic(Lower(mac)))
    ensures |SetChannelConfigTopic(Lower(mac))| < MAX_TOPIC_LENGTH && NoNul(SetChannelConfigTopic(Lower(mac)))
    ensures |NodeConfigChangedTopic(mac)| < MAX_TOPIC_LENGTH && NoNul(NodeConfigChangedTopic(mac))
    ensures NoNul(IDENTIFICATION_POLL) && NoNul(RequestTopic(op))
  {
    LowerKeepsNoNul(mac);
    var l := Lower(mac);
    NoNulJoin3("res/rtl/", l, "/" + op);
    NoNulJoin3("req/rtl/", l, "/identificationassignment");
    NoNulJoin3("req/rtl/", l, "/setchannelconfiguration");
    NoNulJoin3("not/", mac, "/configuration");
    NoNulJoin3("req/rtl/dataaccess/", op, "");
  }

  /** Three pieces without NUL join into a C string. */
  lemma NoNulJoin3(a: string, b: string, c: string)
    requires NoNul(a) && NoNul(b) && NoNul(c)
    ensures NoNul(a + b + c)
  {
  }

  /** A response topic is never one of the two topics the callback tests
      first, so a reply on it reaches the response branch. */
  lemma ResponseTopicDistinct(lowerMac: string, mac: string, op: string)
    ensures ResponseTopic(lowerMac, op) != IDENTIFICATION_POLL
    ensures ResponseTopic(lowerMac, op) != NodeConfigChangedTopic(mac)
    ensures ResponseTopic(lowerMac, op) != ""
  {
    assert ResponseTopic(lowerMac, op)[2] == 's';
    assert IDENTIFICATION_POLL[2] == 'q';
    assert ResponseTopic(lowerMac, op)[0] == 'r';
    assert NodeConfigChangedTopic(mac)[0] == 'n';
  }

  /** The three response topics of one node are pairwise different. */
  lemma ResponseTopicsDiffer(lowerMac: string, op1: string, op2: string)
    requires IsOperation(op1) && IsOperation(op2) && op1 != op2
    ensures ResponseTopic(lowerMac, op1) != ResponseTopic(lowerMac, op2)
  {
    var p := "res/rtl/" + lowerMac + "/";
    assert ResponseTopic(lowerMac, op1) == p + op1;
    assert ResponseTopic(lowerMac, op2) == p + op2;
    assert (p + op1)[|p|..] == op1;
    assert (p + op2)[|p|..] == op2;
  }
}
