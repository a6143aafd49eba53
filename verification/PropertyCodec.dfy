/**
 MQTT 5 PUBLISH properties (section 3.3.2.3 of MQTT Version 5.0) as the two backends write them into and
 read them out of a property list.  The functions here are what the loops of the clients compute; they
 speak of a list only through the values it holds for each identifier.
 */
module PropertyCodec {
  import opened KeyOrder
  import opened Messages

  datatype Property =
    | UserProperty(key: string, value: string)
    | CorrelationData(data: seq<byte>)
    | ResponseTopic(topic: string)
    | ContentType(contentType: string)
    | PayloadFormatIndicator(indicator: byte)
    | OtherProperty(identifier: nat)

  /** The values a list holds for each identifier, in list order. */
  datatype Values = Values(
    users: seq<Entry>,
    correlations: seq<seq<byte>>,
    responseTopics: seq<string>,
    contentTypes: seq<string>,
    formats: seq<byte>)
  {
    function Add(p: Property): Values {
      match p
      case UserProperty(key, value) => this.(users := users + [(key, value)])
      case CorrelationData(data) => this.(correlations := correlations + [data])
      case ResponseTopic(topic) => this.(responseTopics := responseTopics + [topic])
      case ContentType(contentType) => this.(contentTypes := contentTypes + [contentType])
      case PayloadFormatIndicator(indicator) => this.(formats := formats + [indicator])
      case OtherProperty(_) => this
    }
  }

  const NO_VALUES := Values([], [], [], [], [])

  function ValuesOf(ps: seq<Property>): Values {
    if ps == [] then NO_VALUES else ValuesOf(ps[..|ps| - 1]).Add(ps[|ps| - 1])
  }

  lemma Extend(ps: seq<Property>, p: Property)
    ensures ValuesOf(ps + [p]) == ValuesOf(ps).Add(p)
  {
    assert (ps + [p])[..|ps|] == ps;
  }

  function First<T>(xs: seq<T>, default: T): T {
    if xs == [] then default else xs[0]
  }

  function Last<T>(xs: seq<T>, default: T): T {
    if xs == [] then default else xs[|xs| - 1]
  }

  // ---- C strings and integer casts ----

  /** What remains of a std::string that travels as a NUL-terminated string. */
  function Cut(s: string): string {
    if s == [] || s[0] == '\0' then [] else [s[0]] + Cut(s[1..])
  }

  lemma {:induction false} CutIsPrefix(s: string)
    ensures Cut(s) <= s && '\0' !in Cut(s)
  {
    if s != [] && s[0] != '\0' {
      CutIsPrefix(s[1..]);
      var tail := Cut(s[1..]);
      assert Cut(s) == [s[0]] + tail;
      assert s == [s[0]] + s[1..];
    }
  }

  lemma {:induction false} CutEndsAtNul(s: string)
    ensures |Cut(s)| <= |s| && (|Cut(s)| < |s| ==> s[|Cut(s)|] == '\0')
  {
    if s != [] && s[0] != '\0' {
      CutEndsAtNul(s[1..]);
      assert |Cut(s)| == 1 + |Cut(s[1..])|;
      assert |Cut(s)| < |s| ==> s[|Cut(s)|] == s[1..][|Cut(s[1..])|];
    }
  }

  lemma {:induction false} CutKeepsNulFree(s: string)
    requires '\0' !in s
    ensures Cut(s) == s
  {
    if s != [] {
      assert s[0] in s && s == [s[0]] + s[1..];
      CutKeepsNulFree(s[1..]);
    }
  }

  /** Everything before the first NUL remains. */
  lemma CutFacts(s: string)
    ensures '\0' !in Cut(s) && Cut(s) <= s
    ensures Cut(s) == s || s[|Cut(s)|] == '\0'
    ensures Cut(s) == s <==> '\0' !in s
    ensures Cut(Cut(s)) == Cut(s)
  {
    CutIsPrefix(s);
    CutEndsAtNul(s);
    CutKeepsNulFree(Cut(s));
    if '\0' !in s {
      CutKeepsNulFree(s);
    }
  }

  const INT_LIMIT: nat := 0x8000_0000

  /** static_cast<int> of a size. */
  function ToInt(n: nat): int {
    var low := n % (2 * INT_LIMIT);
    if low < INT_LIMIT then low else low - 2 * INT_LIMIT
  }

  /** static_cast<uint16_t> of a size. */
  function ToUint16(n: nat): nat {
    n % 0x1_0000
  }

  /** The casts are those of a 32-bit int and of a 16-bit unsigned. */
  lemma CastsWrap(n: nat)
    ensures -0x8000_0000 <= ToInt(n) < 0x8000_0000 && exists k: int :: n == ToInt(n) + 0x1_0000_0000 * k
    ensures 0 <= ToUint16(n) < 0x1_0000 && exists k: int :: n == ToUint16(n) + 0x1_0000 * k
  {
    var q, r := n / 0x1_0000_0000, n / 0x1_0000;
    assert n == ToUint16(n) + 0x1_0000 * r;
    assert n == n % 0x1_0000_0000 + 0x1_0000_0000 * q;
    assert n == ToInt(n) + 0x1_0000_0000 * if ToInt(n) < 0 then q + 1 else q;
  }

  /** The part of a buffer that a pointer with a length cast to int describes; a negative length
      describes none of it. */
  function Span<T>(s: seq<T>): seq<T> {
    var len := ToInt(|s|);
    if 0 <= len <= |s| then s[..len] else []
  }

  function SpanText(s: string): string {
    Span(s)
  }

  /** It is everything up to 2^31 - 1 units, and from 2^32 on what wraps round. */
  lemma SpanFacts<T>(s: seq<T>)
    ensures Span(s) <= s
    ensures var wrapped := |s| % 0x1_0000_0000; |Span(s)| == if wrapped < 0x8000_0000 then wrapped else 0
    ensures |Span(s)| < INT_LIMIT && Span(Span(s)) == Span(s)
    ensures Span(s) == s <==> |s| < INT_LIMIT
  {
  }

  // ---- Decoding ----

  /** PahoClient::onMessageCb: the first value of a user key, the last value of everything else, and UTF8
      if any indicator says so. */
  function PahoRead(v: Values): Extras {
    Extras(InsertAll(v.users), Last(v.correlations, []), Last(v.responseTopics, ""),
           if 1 in v.formats then UTF8 else UNSPECIFIED, Last(v.contentTypes, ""))
  }

  /** MosquittoClient::onMessageCb: the first value of everything, the content type ending up in the
      response topic. */
  function MosquittoRead(v: Values): Extras {
    Extras(InsertAll(MapEntries(v.users, Cut)), First(v.correlations, []),
           if v.contentTypes != [] then Cut(v.contentTypes[0]) else Cut(First(v.responseTopics, "")),
           if First(v.formats, 0) == 1 then UTF8 else UNSPECIFIED, "")
  }

  /** What one more property changes for Paho. */
  function PahoStep(x: Extras, p: Property): Extras {
    match p
    case UserProperty(key, value) => if key in x.userProps then x else x.(userProps := x.userProps[key := value])
    case CorrelationData(data) => x.(correlationData := data)
    case ResponseTopic(topic) => x.(responseTopic := topic)
    case ContentType(contentType) => x.(contentType := contentType)
    case PayloadFormatIndicator(indicator) => if indicator == 1 then x.(formatIndicator := UTF8) else x
    case OtherProperty(_) => x
  }

  lemma PahoReadsOn(v: Values, p: Property)
    ensures PahoRead(v.Add(p)) == PahoStep(PahoRead(v), p)
  {
    if p.UserProperty? {
      InsertOne(v.users, (p.key, p.value));
    }
  }

  function PahoDecode(ps: seq<Property>): Extras {
    PahoRead(ValuesOf(ps))
  }

  function MosquittoDecode(ps: seq<Property>): Extras {
    MosquittoRead(ValuesOf(ps))
  }

  // ---- Encoding ----

  function FormatByte(f: FormatIndicator): byte {
    if f.UTF8? then 1 else 0
  }

  function UserProperties(es: seq<Entry>, f: string -> string): seq<Property> {
    seq(|es|, i requires 0 <= i < |es| => UserProperty(f(es[i].0), f(es[i].1)))
  }

  /** The list PahoClient::PublishAsync builds. */
  function PahoEncode(x: Extras): seq<Property> {
    UserProperties(Entries(x.userProps), SpanText) + [ResponseTopic(SpanText(x.responseTopic))] +
    [CorrelationData(Span(x.correlationData))] + [PayloadFormatIndicator(FormatByte(x.formatIndicator))] +
    [ContentType(SpanText(x.contentType))]
  }

  function Prefix16(data: seq<byte>): seq<byte> {
    data[..ToUint16(|data|)]
  }

  /** The list MosquittoClient::PublishAsync builds. */
  function MosquittoEncode(x: Extras): seq<Property> {
    UserProperties(Entries(x.userProps), Cut) + [CorrelationData(Prefix16(x.correlationData))] +
    [ResponseTopic(Cut(x.responseTopic))] + [ContentType(Cut(x.contentType))] +
    [PayloadFormatIndicator(FormatByte(x.formatIndicator))]
  }

  lemma Prefix16IsWrapped(data: seq<byte>)
    ensures Prefix16(data) <= data && |Prefix16(data)| == |data| % 0x1_0000
  {
  }

  lemma UserPropertiesGrow(es: seq<Entry>, i: nat, f: string -> string)
    requires i < |es|
    ensures UserProperties(es[..i + 1], f) == UserProperties(es[..i], f) + [UserProperty(f(es[i].0), f(es[i].1))]
  {
  }

  lemma {:induction false} UserPropertiesHold(es: seq<Entry>, f: string -> string)
    ensures ValuesOf(UserProperties(es, f)) == NO_VALUES.(users := MapEntries(es, f))
  {
    if es != [] {
      var n := |es| - 1;
      var last := UserProperty(f(es[n].0), f(es[n].1));
      UserPropertiesHold(es[..n], f);
      Extend(UserProperties(es[..n], f), last);
      assert UserProperties(es, f) == UserProperties(es[..n], f) + [last];
      assert MapEntries(es, f) == MapEntries(es[..n], f) + [(f(es[n].0), f(es[n].1))];
    }
  }

  lemma ExtendByFour(ps: seq<Property>, a: Property, b: Property, c: Property, d: Property)
    ensures ValuesOf(ps + [a] + [b] + [c] + [d]) == ValuesOf(ps).Add(a).Add(b).Add(c).Add(d)
  {
    Extend(ps, a);
    Extend(ps + [a], b);
    Extend(ps + [a] + [b], c);
    Extend(ps + [a] + [b] + [c], d);
  }

  /** What the list built by Paho's publish holds. */
  lemma PahoEncodeHolds(x: Extras)
    ensures ValuesOf(PahoEncode(x)) ==
            Values(MapEntries(Entries(x.userProps), SpanText), [Span(x.correlationData)], [SpanText(x.responseTopic)],
                   [SpanText(x.contentType)], [FormatByte(x.formatIndicator)])
  {
    UserPropertiesHold(Entries(x.userProps), SpanText);
    AddPaho(MapEntries(Entries(x.userProps), SpanText), SpanText(x.responseTopic), Span(x.correlationData),
            FormatByte(x.formatIndicator), SpanText(x.contentType));
    ExtendByFour(UserProperties(Entries(x.userProps), SpanText), ResponseTopic(SpanText(x.responseTopic)),
                 CorrelationData(Span(x.correlationData)), PayloadFormatIndicator(FormatByte(x.formatIndicator)),
                 ContentType(SpanText(x.contentType)));
  }

  lemma AddPaho(users: seq<Entry>, topic: string, data: seq<byte>, indicator: byte, contentType: string)
    ensures NO_VALUES.(users := users).Add(ResponseTopic(topic)).Add(CorrelationData(data))
              .Add(PayloadFormatIndicator(indicator)).Add(ContentType(contentType)) ==
            Values(users, [data], [topic], [contentType], [indicator])
  {
  }

  /** What the list built by Mosquitto's publish holds. */
  lemma MosquittoEncodeHolds(x: Extras)
    ensures ValuesOf(MosquittoEncode(x)) ==
            Values(MapEntries(Entries(x.userProps), Cut), [Prefix16(x.correlationData)], [Cut(x.responseTopic)],
                   [Cut(x.contentType)], [FormatByte(x.formatIndicator)])
  {
    UserPropertiesHold(Entries(x.userProps), Cut);
    AddMosquitto(MapEntries(Entries(x.userProps), Cut), Prefix16(x.correlationData), Cut(x.responseTopic),
                 Cut(x.contentType), FormatByte(x.formatIndicator));
    ExtendByFour(UserProperties(Entries(x.userProps), Cut), CorrelationData(Prefix16(x.correlationData)),
                 ResponseTopic(Cut(x.responseTopic)), ContentType(Cut(x.contentType)),
                 PayloadFormatIndicator(FormatByte(x.formatIndicator)));
  }

  lemma AddMosquitto(users: seq<Entry>, data: seq<byte>, topic: string, contentType: string, indicator: byte)
    ensures NO_VALUES.(users := users).Add(CorrelationData(data)).Add(ResponseTopic(topic))
              .Add(ContentType(contentType)).Add(PayloadFormatIndicator(indicator)) ==
            Values(users, [data], [topic], [contentType], [indicator])
  {
  }

  /** On the wire, the format indicator is 1 for UTF8 and 0 otherwise, the only values that section 3.3.2.3.2
      allows, and it is sent once. */
  lemma IndicatorSent(x: Extras)
    ensures ValuesOf(PahoEncode(x)).formats == ValuesOf(MosquittoEncode(x)).formats
    ensures ValuesOf(PahoEncode(x)).formats == if x.formatIndicator == UTF8 then [1] else [0]
  {
    PahoEncodeHolds(x);
    MosquittoEncodeHolds(x);
  }

  /** The user properties by key, then one property each for response topic, correlation data, format
      indicator and content type. */
  ghost predicate InPahoOrder(ps: seq<Property>, es: seq<Entry>) {
    var n := |es|;
    && |ps| == n + 4
    && (forall i :: 0 <= i < n ==> ps[i] == UserProperty(Span(es[i].0), Span(es[i].1)))
    && ps[n].ResponseTopic? && ps[n + 1].CorrelationData? && ps[n + 2].PayloadFormatIndicator?
    && ps[n + 3].ContentType?
  }

  /** The user properties by key, then one property each for correlation data, response topic, content type
      and format indicator. */
  ghost predicate InMosquittoOrder(ps: seq<Property>, es: seq<Entry>) {
    var n := |es|;
    && |ps| == n + 4
    && (forall i :: 0 <= i < n ==> ps[i] == UserProperty(Cut(es[i].0), Cut(es[i].1)))
    && ps[n].CorrelationData? && ps[n + 1].ResponseTopic? && ps[n + 2].ContentType?
    && ps[n + 3].PayloadFormatIndicator?
  }

  lemma FourAfter(ps: seq<Property>, a: Property, b: Property, c: Property, d: Property)
    ensures var all, n := ps + [a] + [b] + [c] + [d], |ps|;
            && |all| == n + 4 && all[n] == a && all[n + 1] == b && all[n + 2] == c && all[n + 3] == d
            && forall i :: 0 <= i < n ==> all[i] == ps[i]
  {
  }

  lemma PahoOrder(es: seq<Entry>, topic: string, data: seq<byte>, indicator: byte, contentType: string)
    ensures InPahoOrder(UserProperties(es, SpanText) + [ResponseTopic(topic)] + [CorrelationData(data)] +
                        [PayloadFormatIndicator(indicator)] + [ContentType(contentType)], es)
  {
    FourAfter(UserProperties(es, SpanText), ResponseTopic(topic), CorrelationData(data),
              PayloadFormatIndicator(indicator), ContentType(contentType));
  }

  lemma MosquittoOrder(es: seq<Entry>, data: seq<byte>, topic: string, contentType: string, indicator: byte)
    ensures InMosquittoOrder(UserProperties(es, Cut) + [CorrelationData(data)] + [ResponseTopic(topic)] +
                             [ContentType(contentType)] + [PayloadFormatIndicator(indicator)], es)
  {
    FourAfter(UserProperties(es, Cut), CorrelationData(data), ResponseTopic(topic), ContentType(contentType),
              PayloadFormatIndicator(indicator));
  }

  /** The order in which the properties are sent. */
  lemma SentInOrder(x: Extras)
    ensures InPahoOrder(PahoEncode(x), Entries(x.userProps))
    ensures InMosquittoOrder(MosquittoEncode(x), Entries(x.userProps))
  {
    PahoOrder(Entries(x.userProps), SpanText(x.responseTopic), Span(x.correlationData),
              FormatByte(x.formatIndicator), SpanText(x.contentType));
    MosquittoOrder(Entries(x.userProps), Prefix16(x.correlationData), Cut(x.responseTopic), Cut(x.contentType),
                   FormatByte(x.formatIndicator));
  }
}
