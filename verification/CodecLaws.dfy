/** Round trips between the two encoders and the two decoders, and how the decoders differ. */
module CodecLaws {
  import opened KeyOrder
  import opened Messages
  import opened PropertyCodec

  // ---- Conditions a publisher can check ----

  predicate FitsInt(x: Extras) {
    && (forall k :: k in x.userProps ==> |k| < INT_LIMIT && |x.userProps[k]| < INT_LIMIT)
    && |x.correlationData| < INT_LIMIT && |x.responseTopic| < INT_LIMIT && |x.contentType| < INT_LIMIT
  }

  predicate UserPropsNulFree(m: map<string, string>) {
    forall k :: k in m ==> '\0' !in k && '\0' !in m[k]
  }

  lemma CutRestoresIff(m: map<string, string>)
    ensures InsertAll(MapEntries(Entries(m), Cut)) == m <==> UserPropsNulFree(m)
  {
    forall s ensures Cut(Cut(s)) == Cut(s) && (Cut(s) == s <==> '\0' !in s) {
      CutFacts(s);
    }
    EntriesRoundTrip(m, Cut);
  }

  lemma SpanRestoresIff(m: map<string, string>)
    ensures InsertAll(MapEntries(Entries(m), SpanText)) == m <==>
            forall k :: k in m ==> |k| < INT_LIMIT && |m[k]| < INT_LIMIT
  {
    forall s: string ensures SpanText(SpanText(s)) == SpanText(s) && (SpanText(s) == s <==> |s| < INT_LIMIT) {
      SpanFacts(s);
    }
    EntriesRoundTrip(m, SpanText);
  }

  function CutSpan(s: string): string {
    Cut(SpanText(s))
  }

  lemma CutSpanFacts(s: string)
    ensures CutSpan(CutSpan(s)) == CutSpan(s)
    ensures CutSpan(s) == s <==> '\0' !in s && |s| < INT_LIMIT
  {
    SpanFacts(s);
    CutFacts(SpanText(s));
    CutFacts(s);
    SpanFacts(CutSpan(s));
    assert |CutSpan(s)| <= |SpanText(s)| < INT_LIMIT;
    assert SpanText(CutSpan(s)) == CutSpan(s);
    CutFacts(CutSpan(s));
  }

  lemma CutSpanRestoresIff(m: map<string, string>)
    ensures InsertAll(MapEntries(Entries(m), CutSpan)) == m <==>
            UserPropsNulFree(m) && forall k :: k in m ==> |k| < INT_LIMIT && |m[k]| < INT_LIMIT
  {
    forall s ensures CutSpan(CutSpan(s)) == CutSpan(s) && (CutSpan(s) == s <==> '\0' !in s && |s| < INT_LIMIT) {
      CutSpanFacts(s);
    }
    EntriesRoundTrip(m, CutSpan);
  }

  // ---- Round trips ----

  /** Paho to Paho: everything comes back, exactly when every size fits an int. */
  lemma PahoRoundTrip(x: Extras)
    ensures PahoDecode(PahoEncode(x)) == x <==> FitsInt(x)
  {
    PahoEncodeHolds(x);
    SpanRestoresIff(x.userProps);
    SpanFacts(x.correlationData);
    SpanFacts(x.responseTopic);
    SpanFacts(x.contentType);
  }

  /** What Mosquitto reads back of what it wrote: C strings cut at NUL, correlation data reduced to its
      length modulo 65536, the content type in the place of the response topic, and no content type. */
  lemma MosquittoReadsBack(x: Extras)
    ensures MosquittoDecode(MosquittoEncode(x)) ==
            Extras(InsertAll(MapEntries(Entries(x.userProps), Cut)), Prefix16(x.correlationData),
                   Cut(x.contentType), x.formatIndicator, "")
  {
    MosquittoEncodeHolds(x);
    var once := MapEntries(Entries(x.userProps), Cut);
    forall i | 0 <= i < |once| ensures MapEntries(once, Cut)[i] == once[i] {
      CutFacts(Entries(x.userProps)[i].0);
      CutFacts(Entries(x.userProps)[i].1);
    }
    assert MapEntries(once, Cut) == once;
    CutFacts(x.contentType);
  }

  /** Mosquitto to Mosquitto: everything comes back exactly when no user property holds a NUL, the
      correlation data is shorter than 65536 bytes, and response topic and content type are empty. */
  lemma MosquittoRoundTrip(x: Extras)
    ensures MosquittoDecode(MosquittoEncode(x)) == x <==>
            && UserPropsNulFree(x.userProps) && |x.correlationData| < 0x1_0000
            && x.responseTopic == "" && x.contentType == ""
  {
    MosquittoReadsBack(x);
    CutRestoresIff(x.userProps);
    Prefix16Facts(x.correlationData);
    assert Cut("") == "";
  }

  lemma Prefix16Facts(data: seq<byte>)
    ensures Prefix16(data) == data <==> |data| < 0x1_0000
  {
  }

  /** Mosquitto to Paho: everything comes back exactly when no string holds a NUL and the correlation
      data is shorter than 65536 bytes. */
  lemma MosquittoToPaho(x: Extras)
    ensures PahoDecode(MosquittoEncode(x)) == x <==>
            && UserPropsNulFree(x.userProps) && |x.correlationData| < 0x1_0000
            && '\0' !in x.responseTopic && '\0' !in x.contentType
  {
    MosquittoEncodeHolds(x);
    CutRestoresIff(x.userProps);
    Prefix16Facts(x.correlationData);
    CutFacts(x.responseTopic);
    CutFacts(x.contentType);
  }

  /** What Mosquitto reads of what Paho wrote. */
  lemma MosquittoReadsPaho(x: Extras)
    ensures MosquittoDecode(PahoEncode(x)) ==
            Extras(InsertAll(MapEntries(Entries(x.userProps), CutSpan)), Span(x.correlationData),
                   CutSpan(x.contentType), x.formatIndicator, "")
  {
    PahoEncodeHolds(x);
    var es := Entries(x.userProps);
    var twice, once := MapEntries(MapEntries(es, SpanText), Cut), MapEntries(es, CutSpan);
    forall i | 0 <= i < |es| ensures twice[i] == once[i] {
    }
    assert twice == once;
  }

  /** Paho to Mosquitto: everything comes back exactly when sizes fit an int, no user property holds a
      NUL, and response topic and content type are empty. */
  lemma PahoToMosquitto(x: Extras)
    ensures MosquittoDecode(PahoEncode(x)) == x <==>
            && UserPropsNulFree(x.userProps) && FitsInt(x)
            && x.responseTopic == "" && x.contentType == ""
  {
    MosquittoReadsPaho(x);
    CutSpanRestoresIff(x.userProps);
    SpanFacts(x.correlationData);
    assert CutSpan("") == "";
  }

  // ---- The two decoders on the same list ----

  /** On every list the decoders agree on user properties, correlation data and format exactly when the kept
      user properties hold no NUL, the first and the last correlation data are the same, and an indicator
      of 1 is not hidden behind another one. */
  lemma DecodersAgreeIff(ps: seq<Property>)
    ensures MosquittoDecode(ps).userProps == PahoDecode(ps).userProps <==> UserPropsNulFree(PahoDecode(ps).userProps)
    ensures MosquittoDecode(ps).correlationData == PahoDecode(ps).correlationData <==>
            First(ValuesOf(ps).correlations, []) == Last(ValuesOf(ps).correlations, [])
    ensures MosquittoDecode(ps).formatIndicator == PahoDecode(ps).formatIndicator <==>
            (1 in ValuesOf(ps).formats ==> ValuesOf(ps).formats[0] == 1)
  {
    CutHarmlessIff(ValuesOf(ps).users);
  }

  /** On the other two fields they agree exactly when the topic that Paho keeps, the last response topic, is
      the first content type up to its NUL, or the first response topic up to its NUL if there is no content
      type; and when the last content type, if any, is empty. */
  lemma TopicsAgreeIff(ps: seq<Property>)
    ensures MosquittoDecode(ps).responseTopic == PahoDecode(ps).responseTopic <==>
            var v := ValuesOf(ps);
            if v.contentTypes != [] then Cut(v.contentTypes[0]) == Last(v.responseTopics, "")
            else v.responseTopics != [] ==>
                   v.responseTopics[|v.responseTopics| - 1] == Cut(v.responseTopics[0])
    ensures MosquittoDecode(ps).contentType == PahoDecode(ps).contentType <==>
            var contentTypes := ValuesOf(ps).contentTypes;
            contentTypes != [] ==> contentTypes[|contentTypes| - 1] == ""
  {
    assert Cut("") == "";
  }

  /** The decoders make the same of a list exactly under all these conditions together. */
  lemma DecodersAgreeFullyIff(ps: seq<Property>)
    ensures var v := ValuesOf(ps);
            MosquittoDecode(ps) == PahoDecode(ps) <==>
            && UserPropsNulFree(PahoDecode(ps).userProps)
            && First(v.correlations, []) == Last(v.correlations, [])
            && (1 in v.formats ==> v.formats[0] == 1)
            && (v.contentTypes != [] ==> v.contentTypes[|v.contentTypes| - 1] == "")
            && Last(v.responseTopics, "") ==
               Cut(if v.contentTypes != [] then v.contentTypes[0] else First(v.responseTopics, ""))
  {
    DecodersAgreeIff(ps);
    TopicsAgreeIff(ps);
    assert Cut("") == "";
  }

  lemma CutHarmlessIff(es: seq<Entry>)
    ensures InsertAll(MapEntries(es, Cut)) == InsertAll(es) <==> UserPropsNulFree(InsertAll(es))
  {
    forall s ensures Cut(Cut(s)) == Cut(s) && (Cut(s) == s <==> '\0' !in s) {
      CutFacts(s);
    }
    MapEntriesHarmlessIff(es, Cut);
  }

  /** No identifier but the user property occurs twice, as section 3.3.2.3 demands. */
  predicate NoRepeats(v: Values) {
    |v.correlations| <= 1 && |v.responseTopics| <= 1 && |v.contentTypes| <= 1 && |v.formats| <= 1
  }

  predicate NulFree(x: Extras) {
    UserPropsNulFree(x.userProps) && '\0' !in x.responseTopic && '\0' !in x.contentType
  }

  /** On a list the standard allows, Mosquitto's decoder yields what Paho's does, except that a content
      type takes the place of the response topic and is itself dropped. */
  lemma DecodersOnValidLists(ps: seq<Property>)
    requires NoRepeats(ValuesOf(ps)) && NulFree(PahoDecode(ps))
    ensures MosquittoDecode(ps) ==
            (if ValuesOf(ps).contentTypes == [] then PahoDecode(ps)
             else PahoDecode(ps).(responseTopic := PahoDecode(ps).contentType, contentType := ""))
  {
    ReadersOnValidValues(ValuesOf(ps));
  }

  lemma OnlyValue<T>(xs: seq<T>, default: T)
    requires |xs| <= 1
    ensures First(xs, default) == Last(xs, default)
  {
  }

  lemma ReadersOnValidValues(v: Values)
    requires NoRepeats(v) && NulFree(PahoRead(v))
    ensures MosquittoRead(v) ==
            (if v.contentTypes == [] then PahoRead(v)
             else PahoRead(v).(responseTopic := PahoRead(v).contentType, contentType := ""))
  {
    CutHarmlessIff(v.users);
    CutFacts(Last(v.responseTopics, ""));
    CutFacts(Last(v.contentTypes, ""));
    OnlyValue(v.correlations, []);
    OnlyValue(v.responseTopics, "");
    OnlyValue(v.contentTypes, "");
    assert 1 in v.formats <==> First(v.formats, 0) == 1;
  }

  // ---- Order of the list ----

  /** The property identifiers of section 2.2.2.2. */
  function Identifier(p: Property): nat {
    match p
    case PayloadFormatIndicator(_) => 0x01
    case ContentType(_) => 0x03
    case ResponseTopic(_) => 0x08
    case CorrelationData(_) => 0x09
    case UserProperty(_, _) => 0x26
    case OtherProperty(id) => id
  }

  /** The properties of a list with one identifier, in list order. */
  function Having(ps: seq<Property>, id: nat): seq<Property> {
    if ps == [] then []
    else
      var before, last := Having(ps[..|ps| - 1], id), ps[|ps| - 1];
      if Identifier(last) == id then before + [last] else before
  }

  lemma HavingExtend(ps: seq<Property>, p: Property, id: nat)
    ensures Having(ps + [p], id) == if Identifier(p) == id then Having(ps, id) + [p] else Having(ps, id)
  {
    assert (ps + [p])[..|ps|] == ps;
  }

  /** Two collections hold the same values under an identifier. */
  predicate SameUnder(v: Values, w: Values, id: nat) {
    && (id == 0x26 ==> v.users == w.users)
    && (id == 0x09 ==> v.correlations == w.correlations)
    && (id == 0x08 ==> v.responseTopics == w.responseTopics)
    && (id == 0x03 ==> v.contentTypes == w.contentTypes)
    && (id == 0x01 ==> v.formats == w.formats)
  }

  lemma AddSameUnder(v: Values, w: Values, p: Property, id: nat)
    requires SameUnder(v, w, id)
    ensures SameUnder(v.Add(p), if Identifier(p) == id then w.Add(p) else w, id)
  {
  }

  /** The values under an identifier are those of the properties that have it. */
  lemma {:induction false} ValuesHaving(ps: seq<Property>, id: nat)
    ensures SameUnder(ValuesOf(ps), ValuesOf(Having(ps, id)), id)
  {
    if ps != [] {
      var before, last := ps[..|ps| - 1], ps[|ps| - 1];
      ValuesHaving(before, id);
      AddSameUnder(ValuesOf(before), ValuesOf(Having(before, id)), last, id);
      Extend(Having(before, id), last);
    }
  }

  lemma SameHavingSameValues(ps: seq<Property>, qs: seq<Property>, id: nat)
    requires Having(ps, id) == Having(qs, id)
    ensures SameUnder(ValuesOf(ps), ValuesOf(qs), id)
  {
    ValuesHaving(ps, id);
    ValuesHaving(qs, id);
  }

  /** Two lists that hold the same properties in the same order for each identifier, however the identifiers
      are interleaved, are read alike by each decoder. */
  lemma OnlyOrderWithinIdentifiersMatters(ps: seq<Property>, qs: seq<Property>)
    requires forall id: nat :: Having(ps, id) == Having(qs, id)
    ensures PahoDecode(ps) == PahoDecode(qs) && MosquittoDecode(ps) == MosquittoDecode(qs)
  {
    SameHavingSameValues(ps, qs, 0x26);
    SameHavingSameValues(ps, qs, 0x09);
    SameHavingSameValues(ps, qs, 0x08);
    SameHavingSameValues(ps, qs, 0x03);
    SameHavingSameValues(ps, qs, 0x01);
    assert ValuesOf(ps) == ValuesOf(qs);
  }

  lemma {:induction false} HavingAppend(ps: seq<Property>, rest: seq<Property>, id: nat)
    ensures Having(ps + rest, id) == Having(ps, id) + Having(rest, id)
  {
    if rest == [] {
      assert ps + rest == ps;
    } else {
      var n := |rest| - 1;
      var before := rest[..n];
      HavingAppend(ps, before, id);
      HavingExtend(ps + before, rest[n], id);
      HavingExtend(before, rest[n], id);
      assert rest == before + [rest[n]] && ps + rest == ps + before + [rest[n]];
      assert Having(ps, id) + (Having(before, id) + [rest[n]]) == Having(ps, id) + Having(before, id) + [rest[n]];
    }
  }

  /** Exchanging two neighbours with different identifiers changes neither decoder's result, so only the
      order among properties of one identifier matters. */
  lemma NeighboursCommute(before: seq<Property>, p: Property, q: Property, rest: seq<Property>)
    requires Identifier(p) != Identifier(q)
    ensures PahoDecode(before + [p] + [q] + rest) == PahoDecode(before + [q] + [p] + rest)
    ensures MosquittoDecode(before + [p] + [q] + rest) == MosquittoDecode(before + [q] + [p] + rest)
  {
    var ps, qs := before + [p] + [q], before + [q] + [p];
    forall id: nat ensures Having(ps + rest, id) == Having(qs + rest, id) {
      HavingExtend(before, p, id);
      HavingExtend(before + [p], q, id);
      HavingExtend(before, q, id);
      HavingExtend(before + [q], p, id);
      HavingAppend(ps, rest, id);
      HavingAppend(qs, rest, id);
    }
    OnlyOrderWithinIdentifiersMatters(ps + rest, qs + rest);
  }
}
