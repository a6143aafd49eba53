/** The escape code of the documentation search, and the filter built on it. */
module SearchIds {

  /** A UTF-16 code unit. */
  type CodeUnit = x: int | 0 <= x < 0x1_0000

  const UNDERSCORE: CodeUnit := 0x5F
  const SPACE: CodeUnit := 0x20
  const ZERO: CodeUnit := 0x30

  // ---- convertToId ----

  predicate IsDigit(c: CodeUnit) {
    0x30 <= c <= 0x39
  }

  /** Lower-case letters, digits and everything from 0x80 on stand for themselves. */
  predicate Keeps(c: CodeUnit) {
    0x61 <= c <= 0x7A || IsDigit(c) || 0x80 <= c
  }

  function HexDigit(d: nat): CodeUnit
    requires d < 16
  {
    if d < 10 then 0x30 + d else 0x61 + d - 10
  }

  /** Number.toString(16). */
  function Hex(n: nat): seq<CodeUnit> {
    if n < 16 then [HexDigit(n)] else Hex(n / 16) + [HexDigit(n % 16)]
  }

  function Code(c: CodeUnit): seq<CodeUnit> {
    if Keeps(c) then [c]
    else if c < 16 then [UNDERSCORE, ZERO] + Hex(c)
    else [UNDERSCORE] + Hex(c)
  }

  function IdOf(s: seq<CodeUnit>): seq<CodeUnit> {
    if s == [] then [] else Code(s[0]) + IdOf(s[1..])
  }

  lemma {:induction false} IdOfAppend(s: seq<CodeUnit>, c: CodeUnit)
    ensures IdOf(s + [c]) == IdOf(s) + Code(c)
  {
    if s == [] {
      assert [c][1..] == [] && s + [c] == [c];
    } else {
      assert (s + [c])[1..] == s[1..] + [c];
      IdOfAppend(s[1..], c);
    }
  }

  method ConvertToId(search: seq<CodeUnit>) returns (result: seq<CodeUnit>)
    ensures result == IdOf(search)
  {
    result := [];
    for i := 0 to |search|
      invariant result == IdOf(search[..i])
    {
      var cn := search[i];
      assert search[..i + 1] == search[..i] + [cn];
      IdOfAppend(search[..i], cn);
      if Keeps(cn) {
        result := result + [cn];
      } else if cn < 16 {
        result := result + ([UNDERSCORE, ZERO] + Hex(cn));
      } else {
        result := result + ([UNDERSCORE] + Hex(cn));
      }
    }
    assert search[..|search|] == search;
  }

  /** The value of a digit among 0-9 and a-f; 16 for any other unit, capital letters included. */
  function DigitValue(c: CodeUnit): nat {
    if 0x30 <= c <= 0x39 then c - 0x30 else if 0x61 <= c <= 0x66 then c - 0x61 + 10 else 16
  }

  lemma HexDigitDenotes(d: nat)
    requires d < 16
    ensures DigitValue(HexDigit(d)) == d
  {
  }

  /** A lower-case letter, a digit and anything from 0x80 on stands for itself; every other unit, the
      underscore among them, becomes an underscore and two digits among 0-9 and a-f that denote it. */
  lemma CodeShape(c: CodeUnit)
    ensures 0x61 <= c <= 0x7A || 0x30 <= c <= 0x39 || 0x80 <= c ==> Code(c) == [c]
    ensures !(0x61 <= c <= 0x7A || 0x30 <= c <= 0x39 || 0x80 <= c) ==>
              && |Code(c)| == 3 && Code(c)[0] == 0x5F
              && DigitValue(Code(c)[1]) < 16 && DigitValue(Code(c)[2]) < 16
              && c == 16 * DigitValue(Code(c)[1]) + DigitValue(Code(c)[2])
  {
    if !Keeps(c) {
      CodedAs(c);
      HexDigitDenotes(c / 16);
      HexDigitDenotes(c % 16);
    }
  }

  lemma CodedAs(c: CodeUnit)
    requires !Keeps(c)
    ensures Code(c) == [UNDERSCORE, HexDigit(c / 16), HexDigit(c % 16)]
  {
    if 16 <= c < 0x80 {
      assert Hex(c / 16) == [HexDigit(c / 16)];
      assert Hex(c) == [HexDigit(c / 16), HexDigit(c % 16)];
    }
  }

  lemma CodesArePrefixFree(a: CodeUnit, b: CodeUnit, x: seq<CodeUnit>, y: seq<CodeUnit>)
    requires Code(a) + x <= Code(b) + y
    ensures a == b && x <= y
  {
    CodeShape(a);
    CodeShape(b);
    var left, right := Code(a) + x, Code(b) + y;
    assert left[0] == right[0] && left[0] == Code(a)[0] && right[0] == Code(b)[0];
    assert |Code(a)| == |Code(b)|;
    assert forall k :: 0 <= k < |Code(a)| ==> Code(a)[k] == left[k] == right[k] == Code(b)[k];
    assert x == left[|Code(a)|..] && y == right[|Code(b)|..];
  }

  lemma CodesStep(a: CodeUnit, b: CodeUnit, x: seq<CodeUnit>, y: seq<CodeUnit>)
    ensures Code(a) + x <= Code(b) + y <==> a == b && x <= y
  {
    if Code(a) + x <= Code(b) + y {
      CodesArePrefixFree(a, b, x, y);
    }
    if a == b && x <= y {
      assert Code(b) + y == Code(a) + x + y[|x|..];
    }
  }

  lemma StartsStep(s: seq<CodeUnit>, t: seq<CodeUnit>)
    requires s != [] && t != []
    ensures s <= t <==> s[0] == t[0] && s[1..] <= t[1..]
  {
    assert s == [s[0]] + s[1..] && t == [t[0]] + t[1..];
  }

  /** One encoded text starts with another exactly when the texts themselves do. */
  lemma {:induction false} PrefixIff(s: seq<CodeUnit>, t: seq<CodeUnit>)
    ensures IdOf(s) <= IdOf(t) <==> s <= t
  {
    if s != [] && t != [] {
      PrefixIff(s[1..], t[1..]);
      CodesStep(s[0], t[0], IdOf(s[1..]), IdOf(t[1..]));
      StartsStep(s, t);
    } else if s != [] {
      CodeShape(s[0]);
      assert |IdOf(s)| > 0;
    }
  }

  // ---- Letter case ----

  /** toLowerCase, as far as the letters A to Z go. */
  function LowerLetters(s: seq<CodeUnit>): seq<CodeUnit> {
    seq(|s|, i requires 0 <= i < |s| => if 0x41 <= s[i] <= 0x5A then s[i] + 0x20 else s[i])
  }

  predicate NoCapitals(s: seq<CodeUnit>) {
    forall k :: 0 <= k < |s| ==> !(0x41 <= s[k] <= 0x5A)
  }

  lemma LowerLettersLeaves(s: seq<CodeUnit>)
    ensures NoCapitals(LowerLetters(s))
    ensures LowerLetters(s) == s <==> NoCapitals(s)
  {
    if LowerLetters(s) == s {
      assert forall k :: 0 <= k < |s| ==> s[k] == LowerLetters(s)[k];
    }
  }

  /** An encoded text has no capital letters, so lower-casing it, as is done with the ids of rows, changes
      nothing. */
  lemma {:induction false} IdHasNoCapitals(s: seq<CodeUnit>)
    ensures NoCapitals(IdOf(s)) && LowerLetters(IdOf(s)) == IdOf(s)
  {
    if s != [] {
      CodeShape(s[0]);
      IdHasNoCapitals(s[1..]);
    }
    LowerLettersLeaves(IdOf(s));
  }

  // ---- SearchResults.Search ----

  datatype Display = Block | None

  /** A DIV of the results page; style.display is updated in place. */
  class Row {
    const isResult: bool
    const id: seq<CodeUnit>
    var display: Display

    constructor (isResult: bool, id: seq<CodeUnit>, display: Display)
      ensures this.isResult == isResult && this.id == id && this.display == display
    {
      this.isResult, this.id, this.display := isResult, id, display;
    }
  }

  function TrimLeft(s: seq<CodeUnit>): seq<CodeUnit> {
    if s != [] && s[0] == SPACE then TrimLeft(s[1..]) else s
  }

  function TrimRight(s: seq<CodeUnit>): seq<CodeUnit> {
    if s != [] && s[|s| - 1] == SPACE then TrimRight(s[..|s| - 1]) else s
  }

  function SkipDigits(s: seq<CodeUnit>): seq<CodeUnit> {
    if s != [] && IsDigit(s[0]) then SkipDigits(s[1..]) else s
  }

  /** Strips a leading sr, digits and underscore. */
  function StripRowPrefix(id: seq<CodeUnit>): seq<CodeUnit> {
    if |id| >= 2 && id[0] == 0x73 && id[1] == 0x72 then
      var rest := SkipDigits(id[2..]);
      if rest != [] && rest[0] == UNDERSCORE then rest[1..] else id
    else id
  }

  ghost predicate AllSpaces(s: seq<CodeUnit>) {
    forall k :: 0 <= k < |s| ==> s[k] == SPACE
  }

  ghost predicate AllDigits(s: seq<CodeUnit>) {
    forall k :: 0 <= k < |s| ==> IsDigit(s[k])
  }

  lemma {:induction false} TrimLeftTakesSpaces(s: seq<CodeUnit>) returns (spaces: seq<CodeUnit>)
    ensures s == spaces + TrimLeft(s) && AllSpaces(spaces)
    ensures TrimLeft(s) == [] || TrimLeft(s)[0] != SPACE
  {
    spaces := [];
    if s != [] && s[0] == SPACE {
      spaces := TrimLeftTakesSpaces(s[1..]);
      spaces := [SPACE] + spaces;
    }
  }

  lemma {:induction false} TrimRightTakesSpaces(s: seq<CodeUnit>) returns (spaces: seq<CodeUnit>)
    ensures s == TrimRight(s) + spaces && AllSpaces(spaces)
    ensures TrimRight(s) == [] || TrimRight(s)[|TrimRight(s)| - 1] != SPACE
  {
    spaces := [];
    if s != [] && s[|s| - 1] == SPACE {
      spaces := TrimRightTakesSpaces(s[..|s| - 1]);
      spaces := spaces + [SPACE];
    }
  }

  lemma {:induction false} SkipDigitsTakesDigits(s: seq<CodeUnit>) returns (digits: seq<CodeUnit>)
    ensures s == digits + SkipDigits(s) && AllDigits(digits)
    ensures SkipDigits(s) == [] || !IsDigit(SkipDigits(s)[0])
  {
    digits := [];
    if s != [] && IsDigit(s[0]) {
      digits := SkipDigitsTakesDigits(s[1..]);
      digits := [s[0]] + digits;
    }
  }

  const ROW: seq<CodeUnit> := [0x73, 0x72]

  /** What is stripped from a row id is sr, digits and an underscore, and whatever begins like that is
      stripped of it. */
  lemma RowPrefixStripped(id: seq<CodeUnit>)
    ensures StripRowPrefix(id) == id ||
            exists digits :: AllDigits(digits) && id == ROW + digits + [UNDERSCORE] + StripRowPrefix(id)
    ensures forall digits, name :: AllDigits(digits) && id == ROW + digits + [UNDERSCORE] + name ==>
              StripRowPrefix(id) == name
  {
    if |id| >= 2 && id[0] == 0x73 && id[1] == 0x72 {
      var taken := SkipDigitsTakesDigits(id[2..]);
      var rest := SkipDigits(id[2..]);
      if rest != [] && rest[0] == UNDERSCORE {
        assert id == ROW + taken + [UNDERSCORE] + rest[1..];
      }
    }
    forall digits, name | AllDigits(digits) && id == ROW + digits + [UNDERSCORE] + name
      ensures StripRowPrefix(id) == name
    {
      assert id[0] == ROW[0] && id[1] == ROW[1];
      assert id[2..] == digits + ([UNDERSCORE] + name);
      SkipDigitsStops(digits, [UNDERSCORE] + name);
    }
  }

  lemma {:induction false} SkipDigitsStops(digits: seq<CodeUnit>, rest: seq<CodeUnit>)
    requires AllDigits(digits) && rest != [] && !IsDigit(rest[0])
    ensures SkipDigits(digits + rest) == rest
  {
    if digits == [] {
      assert digits + rest == rest;
    } else {
      assert (digits + rest)[1..] == digits[1..] + rest;
      SkipDigitsStops(digits[1..], rest);
    }
  }

  /** A text function of the browser: toLowerCase, unescape. */
  type TextFunction = seq<CodeUnit> -> seq<CodeUnit>

  /** The encoded search text; lower is the browser's toLowerCase. */
  function SearchWord(search: seq<CodeUnit>, lower: TextFunction): seq<CodeUnit> {
    IdOf(lower(TrimRight(TrimLeft(search))))
  }

  /** The name of a row starts with the word. */
  predicate Matches(word: seq<CodeUnit>, id: seq<CodeUnit>, lower: TextFunction) {
    word <= StripRowPrefix(lower(id))
  }

  predicate IsHit(row: Row, word: seq<CodeUnit>, lower: TextFunction) {
    row.isResult && Matches(word, row.id, lower)
  }

  /** Which rows are result rows whose name starts with the word. */
  ghost function Hits(rows: seq<Row>, word: seq<CodeUnit>, lower: TextFunction): seq<bool> {
    seq(|rows|, i requires 0 <= i < |rows| => IsHit(rows[i], word, lower))
  }

  /** The positions of true among the first n. */
  ghost function Positions(flags: seq<bool>, n: nat): set<nat>
    requires n <= |flags|
  {
    set k: nat | k < n && flags[k]
  }

  /** A result row is shown exactly when its name starts with the word; other rows are left alone. */
  twostate predicate Filtered(rows: seq<Row>, n: nat, word: seq<CodeUnit>, lower: TextFunction)
    requires n <= |rows|
    reads rows
  {
    forall k :: 0 <= k < n ==>
      if rows[k].isResult then rows[k].display.Block? <==> Matches(word, rows[k].id, lower)
      else rows[k].display == old(rows[k].display)
  }

  class SearchResults {
    var lastMatchCount: nat
    var noMatches: Display
    var searching: Display

    constructor ()
      ensures lastMatchCount == 0
    {
      lastMatchCount := 0;
      noMatches, searching := Display.None, Block;
    }

    method ShowRow(row: Row, word: seq<CodeUnit>, lower: TextFunction) returns (hit: bool)
      modifies row
      ensures hit <==> IsHit(row, word, lower)
      ensures if row.isResult then row.display.Block? <==> hit else row.display == old(row.display)
    {
      hit := false;
      if row.isResult {
        var rowMatchName := StripRowPrefix(lower(row.id));
        if |word| <= |rowMatchName| && rowMatchName[..|word|] == word {
          row.display := Block;
          hit := true;
        } else {
          row.display := Display.None;
        }
      }
    }

    method ShowRows(resultRows: seq<Row>, word: seq<CodeUnit>, lower: TextFunction) returns (matches: nat)
      requires forall i, j :: 0 <= i < j < |resultRows| ==> resultRows[i] != resultRows[j]
      modifies resultRows
      ensures matches == |Positions(Hits(resultRows, word, lower), |resultRows|)|
      ensures Filtered(resultRows, |resultRows|, word, lower)
    {
      matches := 0;
      ghost var hits := Hits(resultRows, word, lower);
      var i := 0;
      while i < |resultRows|
        invariant 0 <= i <= |resultRows|
        invariant matches == |Positions(hits, i)|
        invariant Filtered(resultRows, i, word, lower)
        invariant forall k :: i <= k < |resultRows| ==> resultRows[k].display == old(resultRows[k].display)
      {
        var hit := ShowRow(resultRows[i], word, lower);
        OneMorePosition(hits, i);
        if hit {
          matches := matches + 1;
        }
        i := i + 1;
      }
    }

    /** Shows exactly the result rows whose name starts with the encoded search, leaves all other rows
        alone, and counts the rows shown.  An empty search stands for the query of the page address after
        its question mark. */
    method Search(search: seq<CodeUnit>, query: seq<CodeUnit>, unescape: TextFunction, resultRows: seq<Row>,
                  lower: TextFunction)
      requires forall i, j :: 0 <= i < j < |resultRows| ==> resultRows[i] != resultRows[j]
      modifies this, resultRows
      ensures var sought := if search != [] then search else unescape(if query == [] then [] else query[1..]);
              var word := SearchWord(sought, lower);
              && lastMatchCount == |Positions(Hits(resultRows, word, lower), |resultRows|)|
              && Filtered(resultRows, |resultRows|, word, lower)
      ensures noMatches.Block? <==> lastMatchCount == 0
      ensures searching == Display.None
    {
      var sought := search;
      if |search| == 0 {
        sought := unescape(if query == [] then [] else query[1..]);
      }
      var word := ConvertToId(lower(TrimRight(TrimLeft(sought))));
      var matches := ShowRows(resultRows, word, lower);
      searching := Display.None;
      noMatches := if matches == 0 then Block else Display.None;
      lastMatchCount := matches;
    }
  }

  lemma OneMorePosition(flags: seq<bool>, n: nat)
    requires n < |flags|
    ensures |Positions(flags, n + 1)| == |Positions(flags, n)| + if flags[n] then 1 else 0
  {
    if flags[n] {
      assert Positions(flags, n + 1) == Positions(flags, n) + {n};
    } else {
      assert Positions(flags, n + 1) == Positions(flags, n);
    }
  }

  /** For a row whose id was made from a name by the same code, matching means that the name starts with
      the search text. */
  lemma RowMatchesIff(search: seq<CodeUnit>, id: seq<CodeUnit>, name: seq<CodeUnit>, lower: TextFunction)
    requires StripRowPrefix(lower(id)) == IdOf(name)
    ensures Matches(SearchWord(search, lower), id, lower) <==> lower(TrimRight(TrimLeft(search))) <= name
  {
    PrefixIff(lower(TrimRight(TrimLeft(search))), name);
  }

  // ---- The rows of the results page ----

  /** The id of the row for a name: SR_, the encoded name, an underscore and the number of the entry. */
  function RowId(name: seq<CodeUnit>, number: seq<CodeUnit>): seq<CodeUnit> {
    [0x53, 0x52, 0x5F] + (IdOf(name) + ([0x5F] + number))
  }

  lemma RowIdStripped(name: seq<CodeUnit>, number: seq<CodeUnit>)
    requires AllDigits(number)
    ensures StripRowPrefix(LowerLetters(RowId(name, number))) == IdOf(name) + ([0x5F] + number)
  {
    var rest := IdOf(name) + ([0x5F] + number);
    IdHasNoCapitals(name);
    LowerLettersLeaves(rest);
    assert LowerLetters(RowId(name, number)) == ROW + [] + [UNDERSCORE] + rest;
    RowPrefixStripped(LowerLetters(RowId(name, number)));
  }

  /** A row is found exactly when its name starts with the text sought, or the text goes on after the name
      with what is encoded like a beginning of the row's number. */
  lemma RowFoundIff(search: seq<CodeUnit>, name: seq<CodeUnit>, number: seq<CodeUnit>)
    requires AllDigits(number)
    ensures var text := LowerLetters(TrimRight(TrimLeft(search)));
            Matches(SearchWord(search, LowerLetters), RowId(name, number), LowerLetters) <==>
            || text <= name
            || (name <= text && IdOf(text[|name|..]) <= [0x5F] + number)
  {
    var text := LowerLetters(TrimRight(TrimLeft(search)));
    RowIdStripped(name, number);
    EncodedBeyond(text, name, [0x5F] + number);
  }

  /** When an encoded text is the beginning of an encoded name followed by something else. */
  lemma {:induction false} EncodedBeyond(text: seq<CodeUnit>, name: seq<CodeUnit>, tail: seq<CodeUnit>)
    ensures IdOf(text) <= IdOf(name) + tail <==>
            text <= name || (name <= text && IdOf(text[|name|..]) <= tail)
    decreases |text|
  {
    if name == [] {
      assert IdOf(name) + tail == tail && text[|name|..] == text;
    } else if text != [] {
      CodesStep(text[0], name[0], IdOf(text[1..]), IdOf(name[1..]) + tail);
      assert IdOf(name) + tail == Code(name[0]) + (IdOf(name[1..]) + tail);
      StartsStep(text, name);
      StartsStep(name, text);
      EncodedBeyond(text[1..], name[1..], tail);
      if name <= text {
        assert text[1..][|name[1..]|..] == text[|name|..];
      }
    }
  }

  /** Letters, digits, underscores and what lies beyond ASCII: what the names of a program are made of. */
  predicate IsWord(s: seq<CodeUnit>) {
    forall k :: 0 <= k < |s| ==> Keeps(s[k]) || s[k] == UNDERSCORE || 0x41 <= s[k] <= 0x5A
  }

  /** The code of a word character, of an underscore in particular, is not an underscore and a number. */
  lemma WordIsNoNumber(first: CodeUnit, more: seq<CodeUnit>, number: seq<CodeUnit>)
    requires (Keeps(first) || first == UNDERSCORE) && AllDigits(number)
    ensures !(Code(first) + more <= [0x5F] + number)
  {
    CodeShape(first);
    var code, tail := Code(first) + more, [0x5F] + number;
    assert tail[0] == 0x5F && code[0] == Code(first)[0];
    if first == UNDERSCORE && |tail| >= 3 {
      assert tail[2] == number[1] && code[2] == Code(first)[2];
    }
  }

  /** A text of word characters finds exactly the rows whose name starts with it. */
  lemma WordFindsExactly(search: seq<CodeUnit>, name: seq<CodeUnit>, number: seq<CodeUnit>)
    requires AllDigits(number) && IsWord(search)
    ensures Matches(SearchWord(search, LowerLetters), RowId(name, number), LowerLetters) <==>
            LowerLetters(search) <= name
  {
    NothingToTrim(search);
    RowFoundIff(search, name, number);
    var text := LowerLetters(search);
    if name <= text && |name| < |text| {
      var rest := text[|name|..];
      WordIsNoNumber(rest[0], IdOf(rest[1..]), number);
    }
  }

  lemma NothingToTrim(search: seq<CodeUnit>)
    requires forall k :: 0 <= k < |search| ==> search[k] != SPACE
    ensures TrimRight(TrimLeft(search)) == search
  {
  }

  /** Other texts can find a row by its number: seeking x! finds the entry x with number 21. */
  lemma NumberTakenForCode()
    ensures var search, name, number := [0x78, 0x21], [0x78], [0x32, 0x31];
            && Matches(SearchWord(search, LowerLetters), RowId(name, number), LowerLetters)
            && !(LowerLetters(TrimRight(TrimLeft(search))) <= name)
  {
    var search: seq<CodeUnit>, name: seq<CodeUnit>, number: seq<CodeUnit> := [0x78, 0x21], [0x78], [0x32, 0x31];
    RowFoundIff(search, name, number);
    NothingToTrim(search);
    LowerLettersLeaves(search);
    assert search[1..] == [0x21];
    ExclamationMark();
    assert [0x5F] + number == [0x5F, 0x32, 0x31];
  }

  lemma ExclamationMark()
    ensures IdOf([0x21]) == [0x5F, 0x32, 0x31]
  {
    CodedAs(0x21);
    assert [0x21][1..] == [];
  }
}
