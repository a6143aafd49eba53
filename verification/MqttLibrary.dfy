/**
 What the clients need of the MQTT libraries below them, whose source is not part of this model: adding a
 property may fail, sending yields a return code, and a received property list can be searched.
 */
module MqttLibrary {
  import opened Messages
  import opened Options
  import opened PropertyCodec

  datatype ReasonCode = OKAY | ERROR_GENERAL | ERROR_NO_CONNECTION | ERROR_TLS | NOT_ALLOWED

  /** What a send call hands over. */
  datatype Packet = Packet(
    topic: string, payload: seq<byte>, qos: int, retain: bool, messageId: Option<int>, properties: seq<Property>)

  class Library<Rc> {
    /** Outcome of the n-th attempt to add a property. */
    const addOk: nat -> bool
    /** Return code of the n-th send, and what it leaves in the token it is given. */
    const sendRc: nat -> Rc
    const sendToken: nat -> int
    var adds: nat
    var sent: seq<Packet>
    var freedLists: nat

    constructor (addOk: nat -> bool, sendRc: nat -> Rc, sendToken: nat -> int)
      ensures this.addOk == addOk && this.sendRc == sendRc && this.sendToken == sendToken
      ensures adds == 0 && sent == [] && freedLists == 0
    {
      this.addOk, this.sendRc, this.sendToken := addOk, sendRc, sendToken;
      adds, sent, freedLists := 0, [], 0;
    }

    method Add(list: seq<Property>, p: Property) returns (ok: bool, extended: seq<Property>)
      modifies this`adds
      ensures adds == old(adds) + 1 && ok == addOk(old(adds))
      ensures extended == if ok then list + [p] else list
    {
      ok := addOk(adds);
      extended := if ok then list + [p] else list;
      adds := adds + 1;
    }

    method Send(packet: Packet) returns (rc: Rc, token: int)
      modifies this`sent
      ensures sent == old(sent) + [packet]
      ensures rc == sendRc(|old(sent)|) && token == sendToken(|old(sent)|)
    {
      rc, token := sendRc(|sent|), sendToken(|sent|);
      sent := sent + [packet];
    }

    method FreeList()
      modifies this`freedLists
      ensures freedLists == old(freedLists) + 1
    {
      freedLists := freedLists + 1;
    }
  }

  /** The attempts from one number up to another all succeeded. */
  ghost predicate AllAdded(addOk: nat -> bool, lo: nat, hi: nat) {
    forall k: nat :: lo <= k < hi ==> addOk(k)
  }

  lemma AllAddedJoin(addOk: nat -> bool, lo: nat, mid: nat, hi: nat)
    requires lo <= mid <= hi
    ensures AllAdded(addOk, lo, hi) <==> AllAdded(addOk, lo, mid) && AllAdded(addOk, mid, hi)
  {
  }

  // ---- Searching a property list ----

  /** The first position at or after a given one that holds a property of the wanted kind. */
  function NextMatch(ps: seq<Property>, from: nat, wanted: Property -> bool): (at: Option<nat>)
    requires from <= |ps|
    ensures at.None? ==> forall j :: from <= j < |ps| ==> !wanted(ps[j])
    ensures at.Some? ==> from <= at.value < |ps| && wanted(ps[at.value])
    ensures at.Some? ==> forall j :: from <= j < at.value ==> !wanted(ps[j])
    decreases |ps| - from
  {
    if from == |ps| then None
    else if wanted(ps[from]) then Some(from)
    else NextMatch(ps, from + 1, wanted)
  }

  function IsUser(p: Property): bool { p.UserProperty? }
  function IsCorrelation(p: Property): bool { p.CorrelationData? }
  function IsResponseTopic(p: Property): bool { p.ResponseTopic? }
  function IsContentType(p: Property): bool { p.ContentType? }
  function IsFormat(p: Property): bool { p.PayloadFormatIndicator? }

  /** The node of the first user property at or after a position; none if there is no such property. */
  ghost predicate IsNextUser(ps: seq<Property>, from: nat, node: Option<nat>) {
    match node
    case None => forall j :: from <= j < |ps| ==> !IsUser(ps[j])
    case Some(i) => from <= i < |ps| && IsUser(ps[i]) && forall j :: from <= j < i ==> !IsUser(ps[j])
  }

  /** mosquitto_property_read_string_pair: the node of the first user property from the cursor on, or of
      the second one if the first is to be skipped. */
  function ReadStringPair(ps: seq<Property>, cursor: Option<nat>, skipFirst: bool): (node: Option<nat>)
    requires cursor.Some? ==> cursor.value < |ps|
    ensures cursor.None? ==> node.None?
    ensures cursor.Some? && !skipFirst ==> IsNextUser(ps, cursor.value, node)
    ensures cursor.Some? && skipFirst ==>
              exists first :: IsNextUser(ps, cursor.value, first) &&
                              if first.None? then node.None? else IsNextUser(ps, first.value + 1, node)
  {
    if cursor.None? then None
    else
      var first := NextMatch(ps, cursor.value, IsUser);
      if first.Some? && skipFirst then NextMatch(ps, first.value + 1, IsUser) else first
  }

  /** The first correlation data, response topic, content type and format indicator of a list are the
      first of the values it holds. */
  lemma {:induction false} FirstMatchIsFirstValue(ps: seq<Property>, i: nat)
    requires i < |ps|
    ensures IsCorrelation(ps[i]) && (forall j :: 0 <= j < i ==> !IsCorrelation(ps[j])) ==>
              ValuesOf(ps).correlations != [] && ValuesOf(ps).correlations[0] == ps[i].data
    ensures IsResponseTopic(ps[i]) && (forall j :: 0 <= j < i ==> !IsResponseTopic(ps[j])) ==>
              ValuesOf(ps).responseTopics != [] && ValuesOf(ps).responseTopics[0] == ps[i].topic
    ensures IsContentType(ps[i]) && (forall j :: 0 <= j < i ==> !IsContentType(ps[j])) ==>
              ValuesOf(ps).contentTypes != [] && ValuesOf(ps).contentTypes[0] == ps[i].contentType
    ensures IsFormat(ps[i]) && (forall j :: 0 <= j < i ==> !IsFormat(ps[j])) ==>
              ValuesOf(ps).formats != [] && ValuesOf(ps).formats[0] == ps[i].indicator
  {
    var n := |ps| - 1;
    if i < n {
      FirstMatchIsFirstValue(ps[..n], i);
    } else {
      NoMatchNoValue(ps[..n]);
    }
  }

  lemma {:induction false} NoMatchNoValue(ps: seq<Property>)
    ensures (forall j :: 0 <= j < |ps| ==> !IsCorrelation(ps[j])) ==> ValuesOf(ps).correlations == []
    ensures (forall j :: 0 <= j < |ps| ==> !IsResponseTopic(ps[j])) ==> ValuesOf(ps).responseTopics == []
    ensures (forall j :: 0 <= j < |ps| ==> !IsContentType(ps[j])) ==> ValuesOf(ps).contentTypes == []
    ensures (forall j :: 0 <= j < |ps| ==> !IsFormat(ps[j])) ==> ValuesOf(ps).formats == []
  {
    if ps != [] {
      NoMatchNoValue(ps[..|ps| - 1]);
    }
  }

  /** Positions without user property add none. */
  lemma {:induction false} UsersSkip(ps: seq<Property>, lo: nat, hi: nat)
    requires lo <= hi <= |ps| && forall j :: lo <= j < hi ==> !IsUser(ps[j])
    ensures ValuesOf(ps[..hi]).users == ValuesOf(ps[..lo]).users
    decreases hi
  {
    if lo < hi {
      UsersSkip(ps, lo, hi - 1);
      assert ps[..hi] == ps[..hi - 1] + [ps[hi - 1]];
      Extend(ps[..hi - 1], ps[hi - 1]);
    }
  }

  function FirstValue<T>(xs: seq<T>): Option<T> {
    if xs == [] then None else Some(xs[0])
  }

  /** mosquitto_property_read_binary for the correlation data. */
  function ReadCorrelationData(ps: seq<Property>): (data: Option<seq<byte>>)
    ensures data == FirstValue(ValuesOf(ps).correlations)
  {
    NoMatchNoValue(ps);
    var at := NextMatch(ps, 0, IsCorrelation);
    if at.None? then None
    else
      FirstMatchIsFirstValue(ps, at.value);
      Some(ps[at.value].data)
  }

  /** mosquitto_property_read_string for the response topic. */
  function ReadResponseTopic(ps: seq<Property>): (topic: Option<string>)
    ensures topic == FirstValue(ValuesOf(ps).responseTopics)
  {
    NoMatchNoValue(ps);
    var at := NextMatch(ps, 0, IsResponseTopic);
    if at.None? then None
    else
      FirstMatchIsFirstValue(ps, at.value);
      Some(ps[at.value].topic)
  }

  /** mosquitto_property_read_string for the content type. */
  function ReadContentType(ps: seq<Property>): (contentType: Option<string>)
    ensures contentType == FirstValue(ValuesOf(ps).contentTypes)
  {
    NoMatchNoValue(ps);
    var at := NextMatch(ps, 0, IsContentType);
    if at.None? then None
    else
      FirstMatchIsFirstValue(ps, at.value);
      Some(ps[at.value].contentType)
  }

  /** mosquitto_property_read_byte for the payload format indicator. */
  function ReadFormatIndicator(ps: seq<Property>): (indicator: Option<byte>)
    ensures indicator == FirstValue(ValuesOf(ps).formats)
  {
    NoMatchNoValue(ps);
    var at := NextMatch(ps, 0, IsFormat);
    if at.None? then None
    else
      FirstMatchIsFirstValue(ps, at.value);
      Some(ps[at.value].indicator)
  }
}
