/** The Paho backend: receiving and publishing messages. */
module PahoClients {
  import opened KeyOrder
  import opened Messages
  import opened Options
  import opened PropertyCodec
  import opened MqttLibrary

  datatype PahoRc = MQTTASYNC_SUCCESS | MQTTASYNC_DISCONNECTED | OtherPahoRc(code: int)

  function PahoRcToReasonCode(rc: PahoRc): (status: ReasonCode)
    ensures status == OKAY <==> rc == MQTTASYNC_SUCCESS
    ensures status == ERROR_NO_CONNECTION <==> rc == MQTTASYNC_DISCONNECTED
    ensures status in {OKAY, ERROR_NO_CONNECTION, ERROR_GENERAL}
  {
    match rc
    case MQTTASYNC_SUCCESS => OKAY
    case MQTTASYNC_DISCONNECTED => ERROR_NO_CONNECTION
    case OtherPahoRc(_) => ERROR_GENERAL
  }

  /** What publishing a message hands to the library; defaultId is what a message without id carries. */
  function PahoPacket(m: Message, defaultId: int): Packet {
    Packet(Cut(m.topic), Span(m.payload), m.qos, m.retain,
           Some(if m.messageId > 0 then m.messageId else defaultId), PahoEncode(m.extras))
  }

  /** A packet carries the quality of service and the flag of a message, an indicator of 1 or 0, and the id
      of the message if that is positive, otherwise the library's, whatever the message's own field holds. */
  ghost predicate Says(packet: Packet, m: Message, defaultId: int) {
    && packet.qos == m.qos && packet.retain == m.retain
    && packet.messageId == Some(if m.messageId > 0 then m.messageId else defaultId)
    && ValuesOf(packet.properties).formats == if m.extras.formatIndicator == UTF8 then [1] else [0]
  }

  lemma PahoPacketSays(m: Message, defaultId: int)
    ensures Says(PahoPacket(m, defaultId), m, defaultId)
  {
    IndicatorSent(m.extras);
  }

  /** So messages with different ids are sent under different ids, and two messages are sent under the same id
      for every choice of the library exactly when they have the same id or have none. */
  lemma SameIdSentIff(a: Message, b: Message)
    ensures (forall d :: PahoPacket(a, d).messageId == PahoPacket(b, d).messageId) <==>
            a.messageId == b.messageId || (a.messageId <= 0 && b.messageId <= 0)
    ensures a.messageId > 0 && b.messageId > 0 && a.messageId != b.messageId ==>
              forall d, e :: PahoPacket(a, d).messageId != PahoPacket(b, e).messageId
  {
    var other := if a.messageId == 1 || b.messageId == 1 then
                   if a.messageId == 2 || b.messageId == 2 then 3 else 2
                 else 1;
    assert PahoPacket(a, other).messageId == PahoPacket(b, other).messageId ==>
             a.messageId == b.messageId || (a.messageId <= 0 && b.messageId <= 0);
  }

  /** The message received out of a packet, of whose topic the library says it has topicLen characters. */
  function PahoReceived(p: Packet, topicLen: nat, messageId: int): Message
    requires topicLen <= |p.topic|
  {
    Message(p.topic[..topicLen], p.payload, p.qos, p.retain, messageId, PahoDecode(p.properties))
  }

  class PahoClient {
    const defaultMessageId: int

    constructor (defaultMessageId: int)
      ensures this.defaultMessageId == defaultMessageId
    {
      this.defaultMessageId := defaultMessageId;
    }

    /** Takes one property into the message. */
    method ReadProperty(internalMessage: MqttMessage, property: Property)
      modifies internalMessage
      ensures internalMessage.messageId == old(internalMessage.messageId)
      ensures internalMessage.View().extras == PahoStep(old(internalMessage.View().extras), property)
    {
      match property {
        case UserProperty(key, value) =>
          var added := internalMessage.InsertUserProp(key, value);
        case CorrelationData(data) =>
          internalMessage.correlationDataProps := data;
        case ResponseTopic(topic) =>
          internalMessage.responseTopic := topic;
        case PayloadFormatIndicator(indicator) =>
          if indicator == 1 {
            internalMessage.payloadFormatIndicator := UTF8;
          }
        case ContentType(contentType) =>
          internalMessage.payloadContentType := contentType;
        case OtherProperty(_) =>
      }
    }

    /** Builds the message that goes to the user's callback. */
    method OnMessageCb(pTopic: string, topicLen: nat, payload: seq<byte>, qos: int, retained: int, msgid: int,
                       properties: seq<Property>)
      returns (internalMessage: MqttMessage)
      requires topicLen <= |pTopic|
      ensures fresh(internalMessage)
      ensures internalMessage.View() ==
              PahoReceived(Packet(pTopic, payload, qos, retained != 0, None, properties), topicLen, msgid)
    {
      internalMessage := new MqttMessage(pTopic[..topicLen], payload, qos, retained != 0);
      internalMessage.messageId := msgid;
      assert properties[..0] == [];
      for prop := 0 to |properties|
        invariant fresh(internalMessage)
        invariant internalMessage.View() ==
                  Message(pTopic[..topicLen], payload, qos, retained != 0, msgid, PahoDecode(properties[..prop]))
      {
        assert properties[..prop + 1] == properties[..prop] + [properties[prop]];
        Extend(properties[..prop], properties[prop]);
        PahoReadsOn(ValuesOf(properties[..prop]), properties[prop]);
        ReadProperty(internalMessage, properties[prop]);
      }
      assert properties[..|properties|] == properties;
    }

    /** Adds the user properties in key order, going on after a failure. */
    method AddUserProps(userProps: seq<Entry>, lib: Library<PahoRc>)
      returns (propertiesOkay: bool, properties: seq<Property>)
      modifies lib`adds
      ensures lib.adds == old(lib.adds) + |userProps|
      ensures propertiesOkay <==> AllAdded(lib.addOk, old(lib.adds), lib.adds)
      ensures propertiesOkay ==> properties == UserProperties(userProps, SpanText)
    {
      propertiesOkay, properties := true, [];
      for i := 0 to |userProps|
        invariant lib.adds == old(lib.adds) + i
        invariant propertiesOkay <==> AllAdded(lib.addOk, old(lib.adds), lib.adds)
        invariant propertiesOkay ==> properties == UserProperties(userProps[..i], SpanText)
      {
        var prop := UserProperty(SpanText(userProps[i].0), SpanText(userProps[i].1));
        UserPropertiesGrow(userProps, i, SpanText);
        var ok;
        ok, properties := lib.Add(properties, prop);
        if !ok {
          propertiesOkay := false;
        }
      }
      assert userProps[..|userProps|] == userProps;
    }

    /** Adds the properties that occur once, going on after a failure. */
    method AddSingleProps(x: Extras, list: seq<Property>, lib: Library<PahoRc>)
      returns (propertiesOkay: bool, properties: seq<Property>)
      modifies lib`adds
      ensures lib.adds == old(lib.adds) + 4
      ensures propertiesOkay <==> AllAdded(lib.addOk, old(lib.adds), old(lib.adds) + 4)
      ensures propertiesOkay ==>
                properties == list + [ResponseTopic(SpanText(x.responseTopic))] +
                              [CorrelationData(Span(x.correlationData))] +
                              [PayloadFormatIndicator(FormatByte(x.formatIndicator))] +
                              [ContentType(SpanText(x.contentType))]
    {
      var ok;
      propertiesOkay, properties := true, list;
      ok, properties := lib.Add(properties, ResponseTopic(SpanText(x.responseTopic)));
      if !ok {
        propertiesOkay := false;
      }
      ok, properties := lib.Add(properties, CorrelationData(Span(x.correlationData)));
      if !ok {
        propertiesOkay := false;
      }
      var indicator: byte := if x.formatIndicator == UTF8 then 1 else 0;
      ok, properties := lib.Add(properties, PayloadFormatIndicator(indicator));
      if !ok {
        propertiesOkay := false;
      }
      ok, properties := lib.Add(properties, ContentType(SpanText(x.contentType)));
      if !ok {
        propertiesOkay := false;
      }
    }

    method BuildProperties(x: Extras, lib: Library<PahoRc>)
      returns (propertiesOkay: bool, properties: seq<Property>)
      modifies lib`adds
      ensures lib.adds == old(lib.adds) + |Entries(x.userProps)| + 4
      ensures propertiesOkay <==> AllAdded(lib.addOk, old(lib.adds), lib.adds)
      ensures propertiesOkay ==> properties == PahoEncode(x)
    {
      propertiesOkay, properties := AddUserProps(Entries(x.userProps), lib);
      var singlesOkay;
      singlesOkay, properties := AddSingleProps(x, properties, lib);
      ghost var singles := old(lib.adds) + |Entries(x.userProps)|;
      AllAddedJoin(lib.addOk, old(lib.adds), singles, singles + 4);
      propertiesOkay := propertiesOkay && singlesOkay;
    }

    /** Publishes all or nothing: the packet with the complete property list goes out exactly when every
        property was added, and the list is freed once either way. */
    method PublishAsync(mqttMsg: MqttMessage, lib: Library<PahoRc>, wantsToken: bool)
      returns (status: ReasonCode, token: Option<int>)
      modifies lib
      ensures lib.adds == old(lib.adds) + |Entries(mqttMsg.userProps)| + 4
      ensures lib.freedLists == old(lib.freedLists) + 1
      ensures AllAdded(lib.addOk, old(lib.adds), lib.adds) ==>
                && lib.sent == old(lib.sent) + [PahoPacket(mqttMsg.View(), defaultMessageId)]
                && status == PahoRcToReasonCode(lib.sendRc(|old(lib.sent)|))
                && token == (if status.OKAY? && wantsToken then Some(lib.sendToken(|old(lib.sent)|)) else None)
                && Says(lib.sent[|old(lib.sent)|], mqttMsg.View(), defaultMessageId)
      ensures !AllAdded(lib.addOk, old(lib.adds), lib.adds) ==>
                lib.sent == old(lib.sent) && status == ERROR_GENERAL && token == None
    {
      var messageId := if mqttMsg.messageId > 0 then mqttMsg.messageId else defaultMessageId;
      var propertiesOkay, properties := BuildProperties(mqttMsg.View().extras, lib);
      PahoPacketSays(mqttMsg.View(), defaultMessageId);
      status, token := ERROR_GENERAL, None;
      if propertiesOkay {
        var rc, newToken := lib.Send(Packet(Cut(mqttMsg.topic), Span(mqttMsg.payload), mqttMsg.qos, mqttMsg.retain,
                                            Some(messageId), properties));
        status := PahoRcToReasonCode(rc);
        if status == OKAY && wantsToken {
          token := Some(newToken);
        }
      }
      lib.FreeList();
    }
  }
}
