/** MQTT messages: the object whose optional fields are set after creation, and its value. */
module Messages {
  import opened KeyOrder

  newtype byte = x: int | 0 <= x < 256

  datatype FormatIndicator = UNSPECIFIED | UTF8

  /** The optional fields, those that travel as MQTT 5 PUBLISH properties. */
  datatype Extras = Extras(
    userProps: map<string, string>,
    correlationData: seq<byte>,
    responseTopic: string,
    formatIndicator: FormatIndicator,
    contentType: string)

  const NO_EXTRAS := Extras(map[], [], "", UNSPECIFIED, "")

  datatype Message = Message(
    topic: string, payload: seq<byte>, qos: int, retain: bool, messageId: int, extras: Extras)

  /** A std::string over raw bytes. */
  function CastToString(data: seq<byte>): string {
    seq(|data|, i requires 0 <= i < |data| => data[i] as char)
  }

  lemma CastIsInjective(a: seq<byte>, b: seq<byte>)
    requires CastToString(a) == CastToString(b)
    ensures a == b
  {
    assert |a| == |CastToString(a)| == |b|;
    forall i | 0 <= i < |a| ensures a[i] == b[i] {
      assert CastToString(a)[i] == CastToString(b)[i];
      assert (a[i] as char) as int == a[i] as int && (b[i] as char) as int == b[i] as int;
    }
  }

  lemma CastIsByValue(data: seq<byte>, s: string)
    requires |s| == |data| && forall i :: 0 <= i < |s| ==> s[i] as int == data[i] as int
    ensures s == CastToString(data)
  {
    forall i | 0 <= i < |s| ensures s[i] == CastToString(data)[i] {
      assert (data[i] as char) as int == data[i] as int;
    }
  }

  // ---- std::to_string ----

  const DIGITS := "0123456789"

  function Digits(n: nat): (s: string)
    ensures s != [] && forall c :: c in s ==> '0' <= c <= '9'
  {
    if n < 10 then [DIGITS[n]] else Digits(n / 10) + [DIGITS[n % 10]]
  }

  function ToDecimal(n: int): string {
    if n < 0 then "-" + Digits(-n) else Digits(n)
  }

  /** The number a string of decimal digits denotes. */
  function Denoted(s: string): int {
    if s == "" then 0 else 10 * Denoted(s[..|s| - 1]) + (s[|s| - 1] as int - '0' as int)
  }

  lemma {:induction false} DigitsDenote(n: nat)
    ensures Denoted(Digits(n)) == n
  {
    assert DIGITS[n % 10] as int == '0' as int + n % 10;
    if n < 10 {
      assert Digits(n)[..0] == "";
    } else {
      DigitsDenote(n / 10);
      assert Digits(n)[..|Digits(n)| - 1] == Digits(n / 10);
    }
  }

  // ---- What ToString prints ----

  const TILDES := "~~~"
  const TOPIC := "[topic]:\t"
  const QOS := "[qos]:\t\t"
  const RETAIN := "[retain]:\t"
  const MESSAGE_ID := "[messageId]:\t"
  const USER_PROPS := "[userProps]:\t"
  const CORREL_DATA := "[correlData]:\t"
  const FORMAT_UTF8 := "[formatInd]:\tUTF8"
  const CONTENT_TYPE := "[contentType]:\t"

  /** Each line followed by a newline. */
  function Joined(lines: seq<string>): string {
    if lines == [] then "" else Joined(lines[..|lines| - 1]) + lines[|lines| - 1] + "\n"
  }

  function UserLine(e: Entry): string {
    USER_PROPS + e.0 + ":" + e.1
  }

  function UserLines(es: seq<Entry>): seq<string> {
    seq(|es|, i requires 0 <= i < |es| => UserLine(es[i]))
  }

  function HeadLines(m: Message): seq<string> {
    [TILDES] + [TOPIC + m.topic] + [QOS + ToDecimal(m.qos)] + [RETAIN + (if m.retain then "1" else "0")]
  }

  function IdLines(m: Message): seq<string> {
    if m.messageId >= 0 then [MESSAGE_ID + ToDecimal(m.messageId)] else []
  }

  function CorrelationLines(m: Message): seq<string> {
    if m.extras.correlationData != [] then [CORREL_DATA + CastToString(m.extras.correlationData)] else []
  }

  function FormatLines(m: Message): seq<string> {
    if m.extras.formatIndicator.UTF8? then [FORMAT_UTF8] else []
  }

  function ContentTypeLines(m: Message): seq<string> {
    if m.extras.contentType != "" then [CONTENT_TYPE + m.extras.contentType] else []
  }

  function Lines(m: Message): seq<string> {
    HeadLines(m) + IdLines(m) + UserLines(Entries(m.extras.userProps)) +
    CorrelationLines(m) + FormatLines(m) + ContentTypeLines(m)
  }

  function Printed(m: Message): string {
    Joined(Lines(m)) + TILDES
  }

  class MqttMessage {
    const topic: string
    const payload: seq<byte>
    const qos: int
    const retain: bool
    var messageId: int
    var userProps: map<string, string>
    var correlationDataProps: seq<byte>
    var responseTopic: string
    var payloadFormatIndicator: FormatIndicator
    var payloadContentType: string

    function View(): Message
      reads this
    {
      Message(topic, payload, qos, retain, messageId,
              Extras(userProps, correlationDataProps, responseTopic, payloadFormatIndicator, payloadContentType))
    }

    constructor (topic: string, payload: seq<byte>, qos: int, retain: bool)
      ensures View() == Message(topic, payload, qos, retain, -1, NO_EXTRAS)
    {
      this.topic, this.payload, this.qos, this.retain := topic, payload, qos, retain;
      messageId := -1;
      userProps := map[];
      correlationDataProps := [];
      responseTopic := "";
      payloadFormatIndicator := UNSPECIFIED;
      payloadContentType := "";
    }

    /** One character for each byte, with the byte's value. */
    method GetCorrelationDataCastedToString() returns (str: string)
      ensures |str| == |correlationDataProps|
      ensures forall i :: 0 <= i < |str| ==> str[i] as int == correlationDataProps[i] as int
    {
      str := seq(|correlationDataProps|, i requires 0 <= i < |correlationDataProps| reads this =>
                 correlationDataProps[i] as char);
    }

    /** userProps.insert: whether the pair was added. */
    method InsertUserProp(key: string, value: string) returns (added: bool)
      modifies this`userProps
      ensures added == (key !in old(userProps))
      ensures userProps == if added then old(userProps)[key := value] else old(userProps)
    {
      added := key !in userProps;
      if added {
        userProps := userProps[key := value];
      }
    }

    /** The fixed first lines. */
    method PrintHead() returns (str: string)
      ensures str == Joined(HeadLines(View()))
    {
      str := "";
      FirstLines(topic);
      str := str + (TILDES + "\n" + TOPIC + topic + "\n");
      ghost var lines := [TILDES] + [TOPIC + topic];
      AddLines(lines, [QOS + ToDecimal(qos)]);
      str := str + (QOS + ToDecimal(qos) + "\n");
      lines := lines + [QOS + ToDecimal(qos)];
      var flag := if retain then "1" else "0";
      AddLines(lines, [RETAIN + flag]);
      str := str + (RETAIN + flag + "\n");
      assert HeadLines(View()) == lines + [RETAIN + flag];
    }

    /** One line per user property, in key order. */
    method PrintUserProps(before: string, ghost lines: seq<string>) returns (str: string)
      requires before == Joined(lines)
      ensures str == Joined(lines + UserLines(Entries(userProps)))
    {
      str := before;
      var entries := Entries(userProps);
      assert lines + UserLines(entries[..0]) == lines;
      for i := 0 to |entries|
        invariant str == Joined(lines + UserLines(entries[..i]))
      {
        AddLines(lines + UserLines(entries[..i]), [UserLine(entries[i])]);
        UserLinesGrow(lines, entries, i);
        str := str + (USER_PROPS + entries[i].0 + ":" + entries[i].1 + "\n");
      }
      assert entries[..|entries|] == entries;
    }

    /** The lines after the user properties. */
    method PrintTail(before: string, ghost lines: seq<string>) returns (str: string)
      requires before == Joined(lines)
      ensures str == Joined(lines + CorrelationLines(View()) + FormatLines(View()) + ContentTypeLines(View()))
    {
      str := before;
      ghost var done := lines;
      AddLines(done, CorrelationLines(View()));
      if correlationDataProps != [] {
        var data := GetCorrelationDataCastedToString();
        CastIsByValue(correlationDataProps, data);
        str := str + (CORREL_DATA + data + "\n");
      }
      done := done + CorrelationLines(View());
      AddLines(done, FormatLines(View()));
      if payloadFormatIndicator == UTF8 {
        str := str + (FORMAT_UTF8 + "\n");
      }
      done := done + FormatLines(View());
      AddLines(done, ContentTypeLines(View()));
      if payloadContentType != "" {
        str := str + (CONTENT_TYPE + payloadContentType + "\n");
      }
    }

    method ToString() returns (str: string)
      ensures str == Printed(View())
    {
      str := PrintHead();
      ghost var lines := HeadLines(View());
      AddLines(lines, IdLines(View()));
      if messageId >= 0 {
        str := str + (MESSAGE_ID + ToDecimal(messageId) + "\n");
      }
      lines := lines + IdLines(View());
      str := PrintUserProps(str, lines);
      lines := lines + UserLines(Entries(userProps));
      str := PrintTail(str, lines);
      str := str + TILDES;
    }
  }

  lemma FirstLines(topic: string)
    ensures Joined([TILDES] + [TOPIC + topic]) == "" + (TILDES + "\n" + TOPIC + topic + "\n")
  {
    AddLines([], [TILDES]);
    AddLines([TILDES], [TOPIC + topic]);
    assert [] + [TILDES] == [TILDES];
    Regroup(TILDES, "\n", TOPIC, topic);
  }

  lemma Regroup(a: string, b: string, c: string, d: string)
    ensures "" + (a + b) + (c + d + b) == "" + (a + b + c + d + b)
  {
  }

  lemma UserLinesGrow(lines: seq<string>, es: seq<Entry>, i: nat)
    requires i < |es|
    ensures lines + UserLines(es[..i + 1]) == lines + UserLines(es[..i]) + [UserLine(es[i])]
  {
    assert UserLines(es[..i + 1]) == UserLines(es[..i]) + [UserLine(es[i])];
  }

  lemma AddLines(lines: seq<string>, more: seq<string>)
    requires |more| <= 1
    ensures Joined(lines + more) == if more == [] then Joined(lines) else Joined(lines) + (more[0] + "\n")
  {
    if more == [] {
      assert lines + more == lines;
    } else {
      assert (lines + more)[..|lines|] == lines;
    }
  }
}
