/** What MqttMessage.ToString prints, said by a reader of the text, and what it tells apart. */
module MessagePrinting {
  import opened KeyOrder
  import opened Messages
  import opened Options

  // ---- A reader of the printed text ----

  /** What the lines after the fixed ones say; userTexts holds the text of each user property line. */
  datatype OptionalPart = OptionalPart(
    messageId: Option<int>, userTexts: seq<string>, correlationData: seq<byte>, formatIndicator: FormatIndicator,
    contentType: string)

  datatype Reading = Reading(topic: string, qos: int, retain: bool, optional: OptionalPart)

  /** The text between newlines. */
  function LinesOf(text: string): (lines: seq<string>)
    ensures lines != []
  {
    if text == "" then [""]
    else
      var rest := LinesOf(text[1..]);
      if text[0] == '\n' then [""] + rest else [[text[0]] + rest[0]] + rest[1..]
  }

  /** Decimal digits without superfluous zeros. */
  function ReadDigits(s: string): Option<int> {
    if s == "" || (exists i :: 0 <= i < |s| && !('0' <= s[i] <= '9')) || (s[0] == '0' && |s| > 1) then None
    else Some(Denoted(s))
  }

  function ReadNumber(s: string): Option<int> {
    if s != "" && s[0] == '-' then
      var magnitude := ReadDigits(s[1..]);
      if magnitude.Some? && magnitude.value > 0 then Some(-magnitude.value) else None
    else ReadDigits(s)
  }

  function ReadFlag(s: string): Option<bool> {
    if s == "1" then Some(true) else if s == "0" then Some(false) else None
  }

  function ReadBytes(s: string): seq<byte> {
    seq(|s|, i requires 0 <= i < |s| => if s[i] as int < 256 then (s[i] as int) as byte else 0)
  }

  /** Takes the next line if it has a tag: its text, and the lines that remain. */
  function Take(lines: seq<string>, tag: string): (Option<string>, seq<string>) {
    if lines != [] && tag <= lines[0] then (Some(lines[0][|tag|..]), lines[1..]) else (None, lines)
  }

  function TakeAll(lines: seq<string>, tag: string): (seq<string>, seq<string>) {
    if lines != [] && tag <= lines[0] then
      var more := TakeAll(lines[1..], tag);
      ([lines[0][|tag|..]] + more.0, more.1)
    else ([], lines)
  }

  /** The lines after the fixed ones: each kind at most once but for the user properties, in this order, none
      of them empty, and three tildes at the end. */
  function ReadOptional(lines: seq<string>): Option<OptionalPart> {
    var id := Take(lines, "[messageId]:\t");
    var users := TakeAll(id.1, "[userProps]:\t");
    var data := Take(users.1, "[correlData]:\t");
    var format := Take(data.1, "[formatInd]:\t");
    var contentType := Take(format.1, "[contentType]:\t");
    var number := if id.0.Some? then ReadNumber(id.0.value) else None;
    if || contentType.1 != ["~~~"]
       || (id.0.Some? && number.None?)
       || data.0 == Some("")
       || (format.0.Some? && format.0.value != "UTF8")
       || contentType.0 == Some("")
    then None
    else
      Some(OptionalPart(number, users.0, if data.0.Some? then ReadBytes(data.0.value) else [],
                        if format.0.Some? then UTF8 else UNSPECIFIED,
                        if contentType.0.Some? then contentType.0.value else ""))
  }

  /** Reads a text as a printed message, if it is one. */
  function ReadBack(text: string): Option<Reading> {
    var lines := LinesOf(text);
    var topic := Take(lines[1..], "[topic]:\t");
    var qos := Take(topic.1, "[qos]:\t\t");
    var retain := Take(qos.1, "[retain]:\t");
    if lines[0] != "~~~" || topic.0.None? || qos.0.None? || retain.0.None? then None
    else
      var number, flag, optional := ReadNumber(qos.0.value), ReadFlag(retain.0.value), ReadOptional(retain.1);
      if number.None? || flag.None? || optional.None? then None
      else Some(Reading(topic.0.value, number.value, flag.value, optional.value))
  }

  // ---- What a message shows ----

  /** Text fields without newline. */
  predicate NewlineFree(m: Message) {
    && '\n' !in m.topic
    && (forall k :: k in m.extras.userProps ==> '\n' !in k && '\n' !in m.extras.userProps[k])
    && 10 !in m.extras.correlationData
    && '\n' !in m.extras.contentType
  }

  predicate ColonFreeKeys(m: Message) {
    forall k :: k in m.extras.userProps ==> ':' !in k
  }

  /** Text fields without newline, keys without colon. */
  predicate Clean(m: Message) {
    NewlineFree(m) && ColonFreeKeys(m)
  }

  /** Each entry as key, colon and value. */
  function Texts(es: seq<Entry>): seq<string> {
    seq(|es|, i requires 0 <= i < |es| => es[i].0 + ":" + es[i].1)
  }

  /** What is to be read of a message: neither payload nor response topic, a message id only when it is not
      negative, and the user properties in key order. */
  function ReadingOf(m: Message): Reading {
    Reading(m.topic, m.qos, m.retain,
            OptionalPart(if m.messageId >= 0 then Some(m.messageId) else None, Texts(Entries(m.extras.userProps)),
                         m.extras.correlationData, m.extras.formatIndicator, m.extras.contentType))
  }

  // ---- Numbers and bytes are read back ----

  lemma {:induction false} DigitsHaveNoExtraZero(n: nat)
    ensures Digits(n)[0] == '0' ==> n == 0
    ensures |Digits(n)| > 1 ==> n >= 10
  {
    if n >= 10 {
      DigitsHaveNoExtraZero(n / 10);
      assert Digits(n)[0] == Digits(n / 10)[0];
    }
  }

  lemma DigitsReadBack(n: nat)
    ensures ReadDigits(Digits(n)) == Some(n)
  {
    DigitsDenote(n);
    DigitsHaveNoExtraZero(n);
    forall i | 0 <= i < |Digits(n)| ensures '0' <= Digits(n)[i] <= '9' {
      assert Digits(n)[i] in Digits(n);
    }
  }

  lemma NegativeReadBack(n: int)
    requires n < 0
    ensures ReadNumber("-" + Digits(-n)) == Some(n)
  {
    DigitsReadBack(-n);
    assert ("-" + Digits(-n))[1..] == Digits(-n);
  }

  lemma NumberReadBack(n: int)
    ensures ReadNumber(ToDecimal(n)) == Some(n)
  {
    if n < 0 {
      NegativeReadBack(n);
    } else {
      DigitsReadBack(n);
      assert Digits(n)[0] in Digits(n);
    }
  }

  lemma BytesReadBack(data: seq<byte>)
    ensures ReadBytes(CastToString(data)) == data
  {
    forall i | 0 <= i < |data| ensures ReadBytes(CastToString(data))[i] == data[i] {
      assert CastToString(data)[i] as int == data[i] as int;
    }
  }

  // ---- Lines are read back ----

  ghost predicate OneLiners(lines: seq<string>) {
    forall i :: 0 <= i < |lines| ==> '\n' !in lines[i]
  }

  lemma {:induction false} LineReadBack(line: string, rest: string)
    requires '\n' !in line
    ensures LinesOf(line + ("\n" + rest)) == [line] + LinesOf(rest)
  {
    var text := line + ("\n" + rest);
    if line == "" {
      assert text[0] == '\n' && text[1..] == rest;
    } else {
      assert line[0] in line;
      assert text[0] == line[0] && text[1..] == line[1..] + ("\n" + rest);
      LineReadBack(line[1..], rest);
      assert line == [line[0]] + line[1..];
    }
  }

  lemma {:induction false} JoinedReadBack(lines: seq<string>, rest: string)
    requires OneLiners(lines)
    ensures LinesOf(Joined(lines) + rest) == lines + LinesOf(rest)
    decreases |lines|
  {
    if lines == [] {
      assert Joined(lines) + rest == rest;
    } else {
      var n := |lines| - 1;
      JoinedReadBack(lines[..n], lines[n] + ("\n" + rest));
      LineReadBack(lines[n], rest);
      assert Joined(lines) + rest == Joined(lines[..n]) + (lines[n] + ("\n" + rest));
      assert lines == lines[..n] + [lines[n]];
    }
  }

  lemma {:induction false} LastLineReadBack(line: string)
    requires '\n' !in line
    ensures LinesOf(line) == [line]
  {
    if line != "" {
      assert line[0] in line;
      LastLineReadBack(line[1..]);
      assert line == [line[0]] + line[1..];
    }
  }

  lemma DecimalIsOneLine(n: int)
    ensures '\n' !in ToDecimal(n)
  {
  }

  lemma CastKeepsNewlines(data: seq<byte>)
    requires 10 !in data
    ensures '\n' !in CastToString(data)
  {
    forall i | 0 <= i < |data| ensures CastToString(data)[i] != '\n' {
      assert data[i] in data;
      assert '\n' as int == 10;
    }
  }

  lemma UserLineIsOneLine(e: Entry)
    requires '\n' !in e.0 && '\n' !in e.1
    ensures '\n' !in UserLine(e)
  {
  }

  lemma UserLinesAreOneLiners(m: map<string, string>)
    requires forall k :: k in m ==> '\n' !in k && '\n' !in m[k]
    ensures OneLiners(UserLines(Entries(m)))
  {
    var es := Entries(m);
    EntriesAscend(m);
    forall i | 0 <= i < |es| ensures '\n' !in UserLine(es[i]) {
      assert es[i] in es;
      UserLineIsOneLine(es[i]);
    }
  }

  lemma HeadIsOneLiners(m: Message)
    requires NewlineFree(m)
    ensures OneLiners(HeadLines(m))
  {
    DecimalIsOneLine(m.qos);
  }

  lemma TailIsOneLiners(m: Message)
    requires NewlineFree(m)
    ensures OneLiners(IdLines(m)) && OneLiners(CorrelationLines(m)) && OneLiners(FormatLines(m))
    ensures OneLiners(ContentTypeLines(m))
  {
    DecimalIsOneLine(m.messageId);
    CastKeepsNewlines(m.extras.correlationData);
  }

  lemma PrintedLines(m: Message)
    requires NewlineFree(m)
    ensures LinesOf(Printed(m)) == Lines(m) + ["~~~"]
  {
    HeadIsOneLiners(m);
    UserLinesAreOneLiners(m.extras.userProps);
    TailIsOneLiners(m);
    JoinedReadBack(Lines(m), "~~~");
    LastLineReadBack("~~~");
  }

  // ---- The kinds of lines are told apart ----

  /** The place of a line among the optional ones, read off its tag. */
  function Rank(line: string): nat {
    if |line| < 4 || line[0] != '[' then 6
    else match line[1]
         case 'm' => 1
         case 'u' => 2
         case 'c' => if line[3] == 'r' then 3 else 5
         case 'f' => 4
         case _ => 0
  }

  ghost predicate FromRank(lines: seq<string>, low: nat) {
    lines != [] && Rank(lines[0]) >= low
  }

  lemma TagsHaveRank(line: string)
    ensures "[messageId]:\t" <= line ==> Rank(line) == 1
    ensures "[userProps]:\t" <= line ==> Rank(line) == 2
    ensures "[correlData]:\t" <= line ==> Rank(line) == 3
    ensures "[formatInd]:\t" <= line ==> Rank(line) == 4
    ensures "[contentType]:\t" <= line ==> Rank(line) == 5
  {
    if "[messageId]:\t" <= line { assert line[1] == "[messageId]:\t"[1]; }
    if "[userProps]:\t" <= line { assert line[1] == "[userProps]:\t"[1]; }
    if "[correlData]:\t" <= line { assert line[1] == "[correlData]:\t"[1] && line[3] == "[correlData]:\t"[3]; }
    if "[formatInd]:\t" <= line { assert line[1] == "[formatInd]:\t"[1]; }
    if "[contentType]:\t" <= line { assert line[1] == "[contentType]:\t"[1] && line[3] == "[contentType]:\t"[3]; }
  }

  lemma TakeFirst(tag: string, text: string, more: seq<string>)
    ensures Take([tag + text] + more, tag) == (Some(text), more)
  {
    assert (tag + text)[|tag|..] == text;
    assert ([tag + text] + more)[1..] == more;
  }

  /** An optional line, present or not, and what follows it. */
  lemma TakeOptional(own: seq<string>, more: seq<string>, tag: string, text: string, rank: nat)
    requires own == [] || own == [tag + text]
    requires FromRank(more, rank + 1) && forall line :: tag <= line ==> Rank(line) == rank
    ensures Take(own + more, tag) == (if own == [] then None else Some(text), more)
    ensures FromRank(own + more, rank)
  {
    if own == [] {
      assert own + more == more;
    } else {
      TakeFirst(tag, text, more);
      assert tag <= tag + text;
    }
  }

  lemma {:induction false} TakeUsers(es: seq<Entry>, more: seq<string>)
    requires FromRank(more, 3)
    ensures TakeAll(UserLines(es) + more, "[userProps]:\t") == (Texts(es), more)
    ensures FromRank(UserLines(es) + more, 2)
  {
    TagsHaveRank(more[0]);
    if es == [] {
      assert UserLines(es) + more == more && Texts(es) == [];
    } else {
      var text := es[0].0 + ":" + es[0].1;
      assert UserLine(es[0]) == "[userProps]:\t" + text;
      TakeUsers(es[1..], more);
      assert UserLines(es) + more == ["[userProps]:\t" + text] + (UserLines(es[1..]) + more);
      TakeFirst("[userProps]:\t", text, UserLines(es[1..]) + more);
      assert Texts(es) == [text] + Texts(es[1..]);
      TagsHaveRank(UserLine(es[0]));
    }
  }

  // ---- Main results ----

  lemma TagRank(tag: string, rank: nat)
    requires (tag, rank) in
             {("[messageId]:\t", 1), ("[correlData]:\t", 3), ("[formatInd]:\t", 4), ("[contentType]:\t", 5)}
    ensures forall line :: tag <= line ==> Rank(line) == rank
  {
    forall line | tag <= line ensures Rank(line) == rank {
      TagsHaveRank(line);
    }
  }

  function FromContentType(m: Message): seq<string> { ContentTypeLines(m) + ["~~~"] }
  function FromFormat(m: Message): seq<string> { FormatLines(m) + FromContentType(m) }
  function FromCorrelation(m: Message): seq<string> { CorrelationLines(m) + FromFormat(m) }
  function FromUsers(m: Message): seq<string> { UserLines(Entries(m.extras.userProps)) + FromCorrelation(m) }
  function FromId(m: Message): seq<string> { IdLines(m) + FromUsers(m) }

  function TextIf(lines: seq<string>, text: string): Option<string> {
    if lines == [] then None else Some(text)
  }

  lemma ContentTypeTaken(m: Message)
    ensures Take(FromContentType(m), "[contentType]:\t") ==
            (TextIf(ContentTypeLines(m), m.extras.contentType), ["~~~"])
    ensures FromRank(FromContentType(m), 5)
  {
    TagRank("[contentType]:\t", 5);
    TakeOptional(ContentTypeLines(m), ["~~~"], "[contentType]:\t", m.extras.contentType, 5);
  }

  lemma FormatTaken(m: Message)
    ensures Take(FromFormat(m), "[formatInd]:\t") == (TextIf(FormatLines(m), "UTF8"), FromContentType(m))
    ensures FromRank(FromFormat(m), 4)
  {
    ContentTypeTaken(m);
    TagRank("[formatInd]:\t", 4);
    assert FORMAT_UTF8 == "[formatInd]:\t" + "UTF8";
    TakeOptional(FormatLines(m), FromContentType(m), "[formatInd]:\t", "UTF8", 4);
  }

  lemma CorrelationTaken(m: Message)
    ensures Take(FromCorrelation(m), "[correlData]:\t") ==
            (TextIf(CorrelationLines(m), CastToString(m.extras.correlationData)), FromFormat(m))
    ensures FromRank(FromCorrelation(m), 3)
  {
    FormatTaken(m);
    TagRank("[correlData]:\t", 3);
    TakeOptional(CorrelationLines(m), FromFormat(m), "[correlData]:\t", CastToString(m.extras.correlationData), 3);
  }

  lemma IdTaken(m: Message)
    ensures Take(FromId(m), "[messageId]:\t") == (TextIf(IdLines(m), ToDecimal(m.messageId)), FromUsers(m))
    ensures TakeAll(FromUsers(m), "[userProps]:\t") == (Texts(Entries(m.extras.userProps)), FromCorrelation(m))
  {
    CorrelationTaken(m);
    TakeUsers(Entries(m.extras.userProps), FromCorrelation(m));
    TagRank("[messageId]:\t", 1);
    TakeOptional(IdLines(m), FromUsers(m), "[messageId]:\t", ToDecimal(m.messageId), 1);
  }

  lemma OptionalReadBack(m: Message)
    ensures ReadOptional(FromId(m)) == Some(ReadingOf(m).optional)
  {
    IdTaken(m);
    CorrelationTaken(m);
    FormatTaken(m);
    ContentTypeTaken(m);
    NumberReadBack(m.messageId);
    BytesReadBack(m.extras.correlationData);
  }

  function FromRetain(m: Message): seq<string> { ["[retain]:\t" + if m.retain then "1" else "0"] + FromId(m) }
  function FromQos(m: Message): seq<string> { ["[qos]:\t\t" + ToDecimal(m.qos)] + FromRetain(m) }
  function FromTopic(m: Message): seq<string> { ["[topic]:\t" + m.topic] + FromQos(m) }

  lemma LinesFromTopic(m: Message)
    ensures Lines(m) + ["~~~"] == ["~~~"] + FromTopic(m)
  {
    assert HeadLines(m) + FromId(m) == ["~~~"] + FromTopic(m);
    Regroup(HeadLines(m), IdLines(m), UserLines(Entries(m.extras.userProps)), CorrelationLines(m), FormatLines(m),
            ContentTypeLines(m), ["~~~"]);
  }

  lemma Regroup(a: seq<string>, b: seq<string>, c: seq<string>, d: seq<string>, e: seq<string>, f: seq<string>,
                g: seq<string>)
    ensures a + b + c + d + e + f + g == a + (b + (c + (d + (e + (f + g)))))
  {
  }

  lemma HeadTaken(m: Message)
    ensures Take(FromTopic(m), "[topic]:\t") == (Some(m.topic), FromQos(m))
    ensures Take(FromQos(m), "[qos]:\t\t") == (Some(ToDecimal(m.qos)), FromRetain(m))
    ensures Take(FromRetain(m), "[retain]:\t") == (Some(if m.retain then "1" else "0"), FromId(m))
  {
    TakeFirst("[topic]:\t", m.topic, FromQos(m));
    TakeFirst("[qos]:\t\t", ToDecimal(m.qos), FromRetain(m));
    TakeFirst("[retain]:\t", if m.retain then "1" else "0", FromId(m));
  }

  /** Whoever reads the printed text line by line gets back what the message shows, field by field, for every
      message without newlines in its text fields. */
  lemma ReadBackPrinted(m: Message)
    requires NewlineFree(m)
    ensures ReadBack(Printed(m)) == Some(ReadingOf(m))
  {
    PrintedLines(m);
    LinesFromTopic(m);
    assert LinesOf(Printed(m))[1..] == FromTopic(m);
    HeadTaken(m);
    NumberReadBack(m.qos);
    OptionalReadBack(m);
  }

  /** Two messages without newlines print the same exactly when they agree on everything shown besides the
      user properties and on the texts of the user properties. */
  lemma PrintedSameIff(a: Message, b: Message)
    requires NewlineFree(a) && NewlineFree(b)
    ensures Printed(a) == Printed(b) <==> ReadingOf(a) == ReadingOf(b)
  {
    ReadBackPrinted(a);
    ReadBackPrinted(b);
    if ReadingOf(a) == ReadingOf(b) {
      SameReadingSamePrint(a, b);
    }
  }

  lemma SameTextsSameLines(es: seq<Entry>, fs: seq<Entry>)
    requires Texts(es) == Texts(fs)
    ensures UserLines(es) == UserLines(fs)
  {
    assert |es| == |Texts(es)| == |Texts(fs)| == |fs|;
    forall i | 0 <= i < |es| ensures UserLines(es)[i] == UserLines(fs)[i] {
      assert Texts(es)[i] == Texts(fs)[i];
      assert UserLine(es[i]) == USER_PROPS + Texts(es)[i] && UserLine(fs[i]) == USER_PROPS + Texts(fs)[i];
    }
  }

  lemma SameReadingSamePrint(a: Message, b: Message)
    requires ReadingOf(a) == ReadingOf(b)
    ensures Printed(a) == Printed(b)
  {
    SameTextsSameLines(Entries(a.extras.userProps), Entries(b.extras.userProps));
    assert a.messageId >= 0 <==> b.messageId >= 0;
    assert HeadLines(a) == HeadLines(b) && IdLines(a) == IdLines(b);
  }

  // ---- User properties ----

  /** The part of a message that ToString shows. */
  datatype Summary = Summary(
    topic: string, qos: int, retain: bool, messageId: Option<int>, userProps: map<string, string>,
    correlationData: seq<byte>, formatIndicator: FormatIndicator, contentType: string)

  function Summarize(m: Message): Summary {
    Summary(m.topic, m.qos, m.retain, if m.messageId >= 0 then Some(m.messageId) else None, m.extras.userProps,
            m.extras.correlationData, m.extras.formatIndicator, m.extras.contentType)
  }

  /** Key and value of a text: what is before its first colon and what is after. */
  function ReadEntry(text: string): Entry {
    if text == "" then ("", "")
    else if text[0] == ':' then ("", text[1..])
    else
      var e := ReadEntry(text[1..]);
      ([text[0]] + e.0, e.1)
  }

  function ReadEntries(texts: seq<string>): seq<Entry> {
    seq(|texts|, i requires 0 <= i < |texts| => ReadEntry(texts[i]))
  }

  /** Reads a text as a printed message with keys that hold no colon. */
  function ReadSummary(text: string): Option<Summary> {
    var r := ReadBack(text);
    if r.None? then None
    else
      var o := r.value.optional;
      Some(Summary(r.value.topic, r.value.qos, r.value.retain, o.messageId, InsertAll(ReadEntries(o.userTexts)),
                   o.correlationData, o.formatIndicator, o.contentType))
  }

  lemma {:induction false} EntryReadBack(key: string, value: string)
    requires ':' !in key
    ensures ReadEntry(key + ":" + value) == (key, value)
  {
    var text := key + ":" + value;
    if key == "" {
      assert text[0] == ':' && text[1..] == value;
    } else {
      assert key[0] in key;
      assert text[0] == key[0] && text[1..] == key[1..] + ":" + value;
      EntryReadBack(key[1..], value);
      assert key == [key[0]] + key[1..];
    }
  }

  lemma EntriesReadBack(m: map<string, string>)
    requires forall k :: k in m ==> ':' !in k
    ensures InsertAll(ReadEntries(Texts(Entries(m)))) == m
  {
    var es := Entries(m);
    EntriesAscend(m);
    forall i | 0 <= i < |es| ensures ReadEntries(Texts(es))[i] == es[i] {
      assert es[i] in es;
      EntryReadBack(es[i].0, es[i].1);
    }
    assert ReadEntries(Texts(es)) == es;
    EntriesRestore(m);
  }

  /** From the printed text of a clean message everything that is shown can be restored, the user properties
      included. */
  lemma CleanReadBack(m: Message)
    requires Clean(m)
    ensures ReadSummary(Printed(m)) == Some(Summarize(m))
  {
    ReadBackPrinted(m);
    EntriesReadBack(m.extras.userProps);
  }

  /** So two clean messages print the same exactly when they agree on everything that is shown. */
  lemma PrintedSameIffSummarySame(a: Message, b: Message)
    requires Clean(a) && Clean(b)
    ensures Printed(a) == Printed(b) <==> Summarize(a) == Summarize(b)
  {
    CleanReadBack(a);
    CleanReadBack(b);
    if Summarize(a) == Summarize(b) {
      SameReadingSamePrint(a, b);
    }
  }

  /** A message with one user property in place of all it has. */
  function OnlyUserProp(m: Message, key: string, value: string): Message {
    m.(extras := m.extras.(userProps := map[key := value]))
  }

  /** Without the restriction on keys different messages can print the same, newlines or not: a colon in the
      key of the only user property moves to the value unseen. */
  lemma ColonInKeyIsAmbiguous(m: Message, k: string, mid: string, v: string)
    ensures var a, b := OnlyUserProp(m, k + ":" + mid, v), OnlyUserProp(m, k, mid + ":" + v);
            && Summarize(a) != Summarize(b) && Printed(a) == Printed(b)
            && !ColonFreeKeys(a)
            && (NewlineFree(a) <==> NewlineFree(b))
  {
    var a, b := OnlyUserProp(m, k + ":" + mid, v), OnlyUserProp(m, k, mid + ":" + v);
    var x, y := (k + ":" + mid, v), (k, mid + ":" + v);
    SingleEntry(x.0, x.1);
    SingleEntry(y.0, y.1);
    assert x.0 + ":" + x.1 == y.0 + ":" + y.1;
    assert Texts([x]) == [x.0 + ":" + x.1] == [y.0 + ":" + y.1] == Texts([y]);
    assert |x.0| > |k| && x.0 in a.extras.userProps && x.0 !in b.extras.userProps;
    assert x.0[|k|] == ':';
    SameReadingSamePrint(a, b);
  }

  lemma SingleEntry(k: string, v: string)
    ensures Entries(map[k := v]) == [(k, v)]
  {
    var es := Entries(map[k := v]);
    EntriesAscend(map[k := v]);
    Trichotomy(k, k);
    assert (k, v) in es;
    assert forall i :: 0 <= i < |es| ==> es[i] in es && es[i] == (k, v);
    assert |es| > 1 ==> Less(es[0].0, es[1].0);
  }
}
