/** The Mosquitto backend: receiving and publishing messages. */
module MosquittoClients {
  import opened KeyOrder
  import opened Messages
  import opened Options
  import opened PropertyCodec
  import opened MqttLibrary

  datatype MosquittoRc =
    | MOSQ_ERR_SUCCESS | MOSQ_ERR_TLS | MOSQ_ERR_TLS_HANDSHAKE | MOSQ_ERR_CONN_LOST | MOSQ_ERR_NO_CONN
    | MOSQ_ERR_AUTH | OtherMosquittoRc(code: int)

  function MosqRcToReasonCode(rc: MosquittoRc): (status: ReasonCode)
    ensures status == OKAY <==> rc == MOSQ_ERR_SUCCESS
    ensures status == ERROR_TLS <==> rc in {MOSQ_ERR_TLS, MOSQ_ERR_TLS_HANDSHAKE}
    ensures status == ERROR_NO_CONNECTION <==> rc in {MOSQ_ERR_CONN_LOST, MOSQ_ERR_NO_CONN}
    ensures status == NOT_ALLOWED <==> rc == MOSQ_ERR_AUTH
  {
    match rc
    case MOSQ_ERR_SUCCESS => OKAY
    case MOSQ_ERR_TLS => ERROR_TLS
    case MOSQ_ERR_TLS_HANDSHAKE => ERROR_TLS
    case MOSQ_ERR_CONN_LOST => ERROR_NO_CONNECTION
    case MOSQ_ERR_NO_CONN => ERROR_NO_CONNECTION
    case MOSQ_ERR_AUTH => NOT_ALLOWED
    case OtherMosquittoRc(_) => ERROR_GENERAL
  }

  /** What publishing a message hands to the library: of the payload, its size modulo 65536. */
  function MosquittoPacket(m: Message): Packet {
    Packet(Cut(m.topic), Prefix16(m.payload), m.qos, m.retain, None, MosquittoEncode(m.extras))
  }

  /** A packet carries the quality of service and the flag of a message, no id, its payload up to the size
      modulo 65536, and an indicator of 1 or 0. */
  ghost predicate Says(packet: Packet, m: Message) {
    && packet.qos == m.qos && packet.retain == m.retain && packet.messageId == None
    && packet.payload <= m.payload && |packet.payload| == |m.payload| % 0x1_0000
    && ValuesOf(packet.properties).formats == if m.extras.formatIndicator == UTF8 then [1] else [0]
  }

  lemma MosquittoPacketSays(m: Message)
    ensures Says(MosquittoPacket(m), m)
  {
    IndicatorSent(m.extras);
    Prefix16IsWrapped(m.payload);
  }

  /** The message received out of a packet. */
  function MosquittoReceived(p: Packet, messageId: int): Message {
    Message(Cut(p.topic), p.payload, p.qos, p.retain, messageId, MosquittoDecode(p.properties))
  }

  /** The user properties read from a list. */
  function UsersRead(pProps: seq<Property>): map<string, string> {
    InsertAll(MapEntries(ValuesOf(pProps).users, Cut))
  }

  /** Reading on from position seen to the next user property at position i. */
  lemma NextUser(pProps: seq<Property>, seen: nat, i: nat)
    requires seen <= i < |pProps| && pProps[i].UserProperty? && forall j :: seen <= j < i ==> !IsUser(pProps[j])
    ensures UsersRead(pProps[..i + 1]) ==
            var before, key := UsersRead(pProps[..seen]), Cut(pProps[i].key);
            if key in before then before else before[key := Cut(pProps[i].value)]
  {
    var before := ValuesOf(pProps[..seen]).users;
    UsersSkip(pProps, seen, i);
    assert pProps[..i + 1] == pProps[..i] + [pProps[i]];
    Extend(pProps[..i], pProps[i]);
    var e := (Cut(pProps[i].key), Cut(pProps[i].value));
    assert MapEntries(before + [(pProps[i].key, pProps[i].value)], Cut) == MapEntries(before, Cut) + [e];
    InsertOne(MapEntries(before, Cut), e);
  }

  /** The cursor with which everything up to position seen has been read: the head of the list before the
      first read, afterwards the user property read last. */
  ghost predicate CursorAt(pProps: seq<Property>, cursor: Option<nat>, skipFirst: bool, seen: nat) {
    if skipFirst then 0 < seen <= |pProps| && cursor == Some(seen - 1) && IsUser(pProps[seen - 1])
    else seen == 0 && cursor == if pProps == [] then None else Some(0)
  }

  lemma CursorReadsOn(pProps: seq<Property>, cursor: Option<nat>, skipFirst: bool, seen: nat)
    requires CursorAt(pProps, cursor, skipFirst, seen)
    ensures IsNextUser(pProps, seen, ReadStringPair(pProps, cursor, skipFirst))
  {
  }

  class MosquittoClient {
    constructor () {
    }

    /** Inserts the user property at one position, the first at or after those seen. */
    method ReadUserProp(pProps: seq<Property>, ghost seen: nat, at: nat, mqttMessage: MqttMessage)
      requires seen <= |pProps| && IsNextUser(pProps, seen, Some(at))
      requires mqttMessage.userProps == UsersRead(pProps[..seen])
      modifies mqttMessage`userProps
      ensures mqttMessage.userProps == UsersRead(pProps[..at + 1])
    {
      NextUser(pProps, seen, at);
      var keyStr := Cut(pProps[at].key);
      var added := mqttMessage.InsertUserProp(keyStr, Cut(pProps[at].value));
    }

    /** The cursor loop over the user properties: it ends, and reads what a plain pass over the list
        would insert. */
    method ReadUserProps(pProps: seq<Property>, mqttMessage: MqttMessage)
      requires mqttMessage.userProps == map[]
      modifies mqttMessage`userProps
      ensures mqttMessage.userProps == MosquittoDecode(pProps).userProps
    {
      var pUserProps: Option<nat> := if pProps == [] then None else Some(0);
      var skipFirst := false;
      var more := true;
      ghost var seen := 0;
      assert pProps[..0] == [];
      while more
        invariant 0 <= seen <= |pProps|
        invariant mqttMessage.userProps == UsersRead(pProps[..seen])
        invariant !more ==> IsNextUser(pProps, seen, None)
        invariant more ==> CursorAt(pProps, pUserProps, skipFirst, seen)
        decreases more, |pProps| - seen
      {
        CursorReadsOn(pProps, pUserProps, skipFirst, seen);
        var node := ReadStringPair(pProps, pUserProps, skipFirst);
        skipFirst := true;
        if node.Some? {
          ReadUserProp(pProps, seen, node.value, mqttMessage);
          seen := node.value + 1;
        }
        pUserProps := node;
        more := pUserProps.Some?;
      }
      UsersSkip(pProps, seen, |pProps|);
      assert pProps[..|pProps|] == pProps;
    }

    /** The reads of the properties that may occur once. */
    method ReadSingleProps(pProps: seq<Property>, mqttMessage: MqttMessage)
      requires mqttMessage.View().extras == NO_EXTRAS.(userProps := mqttMessage.userProps)
      modifies mqttMessage
      ensures mqttMessage.messageId == old(mqttMessage.messageId)
      ensures mqttMessage.View().extras == MosquittoDecode(pProps).(userProps := old(mqttMessage.userProps))
    {
      ghost var read := MosquittoDecode(pProps);
      var pCorrelationData := ReadCorrelationData(pProps);
      if pCorrelationData.Some? {
        mqttMessage.correlationDataProps := pCorrelationData.value;
      }
      assert mqttMessage.correlationDataProps == read.correlationData;
      ReadTopics(pProps, mqttMessage);
      var formatIndicator: byte := 0;
      var pFormatIndicator := ReadFormatIndicator(pProps);
      if pFormatIndicator.Some? {
        formatIndicator := pFormatIndicator.value;
      }
      mqttMessage.payloadFormatIndicator := if formatIndicator == 1 then UTF8 else UNSPECIFIED;
    }

    /** The reads of response topic and content type, both of which end up in the response topic. */
    method ReadTopics(pProps: seq<Property>, mqttMessage: MqttMessage)
      requires mqttMessage.responseTopic == ""
      modifies mqttMessage`responseTopic
      ensures mqttMessage.responseTopic == MosquittoDecode(pProps).responseTopic
    {
      var pResponseTopic := ReadResponseTopic(pProps);
      if pResponseTopic.Some? {
        mqttMessage.responseTopic := Cut(pResponseTopic.value);
      }
      var pContentType := ReadContentType(pProps);
      if pContentType.Some? {
        mqttMessage.responseTopic := Cut(pContentType.value);
      }
    }

    /** Builds the message that goes to the user's callback. */
    method OnMessageCb(topic: string, payload: seq<byte>, qos: int, retain: bool, mid: int, pProps: seq<Property>)
      returns (mqttMessage: MqttMessage)
      ensures fresh(mqttMessage)
      ensures mqttMessage.View() == MosquittoReceived(Packet(topic, payload, qos, retain, None, pProps), mid)
    {
      mqttMessage := new MqttMessage(Cut(topic), payload, qos, retain);
      mqttMessage.messageId := mid;
      ReadUserProps(pProps, mqttMessage);
      ReadSingleProps(pProps, mqttMessage);
    }

    /** Adds the user properties in key order up to the first failure. */
    method AddUserProps(userProps: seq<Entry>, lib: Library<MosquittoRc>)
      returns (propertiesOkay: bool, pProps: seq<Property>)
      modifies lib`adds
      ensures old(lib.adds) <= lib.adds <= old(lib.adds) + |userProps|
      ensures propertiesOkay <==> AllAdded(lib.addOk, old(lib.adds), old(lib.adds) + |userProps|)
      ensures propertiesOkay ==> lib.adds == old(lib.adds) + |userProps|
      ensures propertiesOkay ==> pProps == UserProperties(userProps, Cut)
    {
      propertiesOkay, pProps := true, [];
      for i := 0 to |userProps|
        invariant lib.adds == old(lib.adds) + i
        invariant propertiesOkay && AllAdded(lib.addOk, old(lib.adds), lib.adds)
        invariant pProps == UserProperties(userProps[..i], Cut)
      {
        var prop := UserProperty(Cut(userProps[i].0), Cut(userProps[i].1));
        UserPropertiesGrow(userProps, i, Cut);
        var ok;
        ok, pProps := lib.Add(pProps, prop);
        if !ok {
          propertiesOkay := false;
          assert !lib.addOk(lib.adds - 1);
          break;
        }
      }
      assert userProps[..|userProps|] == userProps;
    }

    /** Adds the properties that occur once, going on after a failure. */
    method AddSingleProps(x: Extras, list: seq<Property>, lib: Library<MosquittoRc>)
      returns (propertiesOkay: bool, pProps: seq<Property>)
      modifies lib`adds
      ensures lib.adds == old(lib.adds) + 4
      ensures propertiesOkay <==> AllAdded(lib.addOk, old(lib.adds), old(lib.adds) + 4)
      ensures propertiesOkay ==>
                pProps == list + [CorrelationData(Prefix16(x.correlationData))] +
                          [ResponseTopic(Cut(x.responseTopic))] + [ContentType(Cut(x.contentType))] +
                          [PayloadFormatIndicator(FormatByte(x.formatIndicator))]
    {
      var ok;
      propertiesOkay, pProps := true, list;
      ok, pProps := lib.Add(pProps, CorrelationData(Prefix16(x.correlationData)));
      if !ok {
        propertiesOkay := false;
      }
      ok, pProps := lib.Add(pProps, ResponseTopic(Cut(x.responseTopic)));
      if !ok {
        propertiesOkay := false;
      }
      ok, pProps := lib.Add(pProps, ContentType(Cut(x.contentType)));
      if !ok {
        propertiesOkay := false;
      }
      var indicator: byte := if x.formatIndicator == UTF8 then 1 else 0;
      ok, pProps := lib.Add(pProps, PayloadFormatIndicator(indicator));
      if !ok {
        propertiesOkay := false;
      }
    }

    method BuildProperties(x: Extras, lib: Library<MosquittoRc>)
      returns (propertiesOkay: bool, pProps: seq<Property>)
      modifies lib`adds
      ensures lib.adds <= old(lib.adds) + |Entries(x.userProps)| + 4
      ensures propertiesOkay <==> AllAdded(lib.addOk, old(lib.adds), old(lib.adds) + |Entries(x.userProps)| + 4)
      ensures propertiesOkay ==> lib.adds == old(lib.adds) + |Entries(x.userProps)| + 4
      ensures propertiesOkay ==> pProps == MosquittoEncode(x)
    {
      propertiesOkay, pProps := AddUserProps(Entries(x.userProps), lib);
      var singlesOkay;
      singlesOkay, pProps := AddSingleProps(x, pProps, lib);
      ghost var singles := old(lib.adds) + |Entries(x.userProps)|;
      AllAddedJoin(lib.addOk, old(lib.adds), singles, singles + 4);
      propertiesOkay := propertiesOkay && singlesOkay;
    }

    /** Publishes all or nothing: the packet with the complete property list goes out exactly when every
        property was added, and the list is freed once either way.  The library writes the token, whether or
        not the send succeeds. */
    method PublishAsync(mqttMsg: MqttMessage, lib: Library<MosquittoRc>, wantsToken: bool)
      returns (status: ReasonCode, token: Option<int>)
      modifies lib
      ensures lib.freedLists == old(lib.freedLists) + 1
      ensures lib.adds <= old(lib.adds) + |Entries(mqttMsg.userProps)| + 4
      ensures AllAdded(lib.addOk, old(lib.adds), old(lib.adds) + |Entries(mqttMsg.userProps)| + 4) ==>
                && lib.adds == old(lib.adds) + |Entries(mqttMsg.userProps)| + 4
                && lib.sent == old(lib.sent) + [MosquittoPacket(mqttMsg.View())]
                && status == MosqRcToReasonCode(lib.sendRc(|old(lib.sent)|))
                && token == (if wantsToken then Some(lib.sendToken(|old(lib.sent)|)) else None)
                && Says(lib.sent[|old(lib.sent)|], mqttMsg.View())
      ensures !AllAdded(lib.addOk, old(lib.adds), old(lib.adds) + |Entries(mqttMsg.userProps)| + 4) ==>
                lib.sent == old(lib.sent) && status == ERROR_GENERAL && token == None
    {
      ghost var sends := |lib.sent|;
      var propertiesOkay, pProps := BuildProperties(mqttMsg.View().extras, lib);
      status, token := ERROR_GENERAL, None;
      if propertiesOkay {
        status, token := SendPacket(mqttMsg, pProps, lib, wantsToken);
        assert Says(lib.sent[sends], mqttMsg.View());
      }
      lib.FreeList();
    }

    /** mosquitto_publish_v5 with the complete list. */
    method SendPacket(mqttMsg: MqttMessage, pProps: seq<Property>, lib: Library<MosquittoRc>, wantsToken: bool)
      returns (status: ReasonCode, token: Option<int>)
      requires pProps == MosquittoEncode(mqttMsg.View().extras)
      modifies lib`sent
      ensures lib.sent == old(lib.sent) + [MosquittoPacket(mqttMsg.View())]
      ensures Says(MosquittoPacket(mqttMsg.View()), mqttMsg.View())
      ensures status == MosqRcToReasonCode(lib.sendRc(|old(lib.sent)|))
      ensures token == if wantsToken then Some(lib.sendToken(|old(lib.sent)|)) else None
    {
      MosquittoPacketSays(mqttMsg.View());
      var rc, newToken := lib.Send(Packet(Cut(mqttMsg.topic), Prefix16(mqttMsg.payload), mqttMsg.qos, mqttMsg.retain,
                                          None, pProps));
      status := MosqRcToReasonCode(rc);
      token := if wantsToken then Some(newToken) else None;
    }
  }
}
