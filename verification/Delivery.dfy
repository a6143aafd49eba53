/** A message from one client's publish to another client's callback, for the four pairs of backends. */
module Delivery {
  import opened Messages
  import opened PropertyCodec
  import opened CodecLaws
  import opened PahoClients
  import opened MosquittoClients

  /** A packet whose topic, payload and properties arrive as they were handed over delivers the message,
      up to the message id, exactly when the topic holds no NUL and arrives with its full length, the payload
      size fits an int and so do the sizes of the optional fields. */
  lemma PahoToPahoDelivers(m: Message, defaultId: int, topicLen: nat, id: int)
    requires topicLen <= |Cut(m.topic)|
    ensures PahoReceived(PahoPacket(m, defaultId), topicLen, id) == m.(messageId := id) <==>
            '\0' !in m.topic && topicLen == |m.topic| && |m.payload| < INT_LIMIT && FitsInt(m.extras)
  {
    CutFacts(m.topic);
    SpanFacts(m.payload);
    PahoRoundTrip(m.extras);
  }

  lemma MosquittoToMosquittoDelivers(m: Message, id: int)
    ensures MosquittoReceived(MosquittoPacket(m), id) == m.(messageId := id) <==>
            && '\0' !in m.topic && |m.payload| < 0x1_0000
            && UserPropsNulFree(m.extras.userProps) && |m.extras.correlationData| < 0x1_0000
            && m.extras.responseTopic == "" && m.extras.contentType == ""
  {
    CutFacts(m.topic);
    Prefix16Facts(m.payload);
    MosquittoRoundTrip(m.extras);
  }

  lemma MosquittoToPahoDelivers(m: Message, topicLen: nat, id: int)
    requires topicLen <= |Cut(m.topic)|
    ensures PahoReceived(MosquittoPacket(m), topicLen, id) == m.(messageId := id) <==>
            && '\0' !in m.topic && topicLen == |m.topic| && |m.payload| < 0x1_0000
            && NulFree(m.extras) && |m.extras.correlationData| < 0x1_0000
  {
    CutFacts(m.topic);
    Prefix16Facts(m.payload);
    MosquittoToPaho(m.extras);
  }

  lemma PahoToMosquittoDelivers(m: Message, defaultId: int, id: int)
    ensures MosquittoReceived(PahoPacket(m, defaultId), id) == m.(messageId := id) <==>
            && '\0' !in m.topic && |m.payload| < INT_LIMIT
            && UserPropsNulFree(m.extras.userProps) && FitsInt(m.extras)
            && m.extras.responseTopic == "" && m.extras.contentType == ""
  {
    CutFacts(m.topic);
    SpanFacts(m.payload);
    PahoToMosquitto(m.extras);
  }
}
