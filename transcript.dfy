/**
  The popup's pure transcript helpers: `formatChatForAI`, which turns scraped
  messages into the prompt lines sent to the model, with its `formatDate` and
  `formatTime`, and `getChatPartner`, which names the other side of the chat.
 */
module Transcript {

  import opened Wrappers
  import opened JsString
  import opened ChatMessages

  const UnknownAuthor := "Unknown"
  const NoText := "[No text provided]"
  const GroupPrefix := "Group Chat: "
  /** How a template literal renders `undefined`. */
  const Undefined := "undefined"
  const MonthNames: seq<string> := [
    "January", "February", "March", "April", "May", "June",
    "July", "August", "September", "October", "November", "December"
  ]

  /** `s || fallback` for a string: the empty string is falsy. */
  function OrElse(s: string, fallback: string): string {
    if s == "" then fallback else s
  }

  // ---------------------------------------------------------------------------
  // formatDate and formatTime
  // ---------------------------------------------------------------------------

  /** `months[n - 1]` in a template literal: `undefined` for NaN and off the table. */
  function MonthName(n: Number): string {
    match n
    case NaN => Undefined
    case Int(v) => if 1 <= v <= 12 then MonthNames[v - 1] else Undefined
  }

  /**
    `formatDate`: splits on `/` and prints `parseInt(day)`, the month name and
    the year, validating nothing. A missing month is `parseInt(undefined)`,
    which reads the text "undefined" and gives NaN; a missing year prints as
    "undefined".
   */
  function FormatDate(dateStr: string): string {
    var parts := Split(dateStr, '/');
    var month := if |parts| > 1 then parts[1] else Undefined;
    var year := if |parts| > 2 then parts[2] else Undefined;
    DateWords(ParseInt(parts[0]), ParseInt(month), year)
  }

  /** The printed date: the day's number, the month's name and the year, separated by spaces. */
  function DateWords(day: Number, month: Number, year: string): string {
    NumberToString(day) + " " + MonthName(month) + " " + year
  }

  /** A date of three `/`-separated parts prints from those parts. */
  lemma FormatDateOfThree(dateStr: string, day: string, month: string, year: string)
    requires Split(dateStr, '/') == [day, month, year]
    ensures FormatDate(dateStr) == DateWords(ParseInt(day), ParseInt(month), year)
  {
  }

  /** `formatTime`: the time in upper case. */
  function FormatTime(timeStr: string): string {
    ToUpperCase(timeStr)
  }

  /** Two pieces free of the separator, joined by it, split back into those pieces. */
  lemma SplitTwo(b: string, c: string, sep: char)
    requires sep !in b && sep !in c
    ensures Split(b + [sep] + c, sep) == [b, c]
  {
    SplitCons(b, c, sep);
    SplitNone(c, sep);
  }

  /** Three pieces free of the separator, joined by it, split back into those pieces. */
  lemma SplitThree(a: string, b: string, c: string, sep: char)
    requires sep !in a && sep !in b && sep !in c
    ensures Split(a + [sep] + (b + [sep] + c), sep) == [a, b, c]
  {
    SplitCons(a, b + [sep] + c, sep);
    SplitTwo(b, c, sep);
  }

  lemma DigitsHaveNoSlash(s: string)
    requires AllDecimalDigits(s)
    ensures '/' !in s
  {
    forall i | 0 <= i < |s| ensures s[i] != '/' { assert IsDecimalDigit(s[i]); }
  }

  /** A `d/m/y` of digit strings and a year without `/` prints from the values of the digits. */
  lemma FormatDateNumeric(day: string, month: string, year: string)
    requires |day| >= 1 && AllDecimalDigits(day)
    requires |month| >= 1 && AllDecimalDigits(month)
    requires '/' !in year
    ensures FormatDate(day + "/" + month + "/" + year)
            == DateWords(Int(DigitsValue(day, false)), Int(DigitsValue(month, false)), year)
  {
    DigitsHaveNoSlash(day);
    DigitsHaveNoSlash(month);
    SplitThree(day, month, year, '/');
    assert day + "/" + month + "/" + year == day + "/" + (month + "/" + year);
    FormatDateOfThree(day + "/" + month + "/" + year, day, month, year);
    ParseIntDigits(day);
    ParseIntDigits(month);
  }

  /** A well-formed `d/m/y` prints the day's value, the month's name (or `undefined` off the table) and `y` as is. */
  lemma FormatDateDigits(day: string, month: string, year: string)
    requires |day| >= 1 && AllDecimalDigits(day)
    requires |month| >= 1 && AllDecimalDigits(month)
    requires '/' !in year
    ensures var m := DigitsValue(month, false);
            FormatDate(day + "/" + month + "/" + year)
            == NatToString(DigitsValue(day, false)) + " "
               + (if 1 <= m <= 12 then MonthNames[m - 1] else Undefined) + " " + year
  {
    FormatDateNumeric(day, month, year);
    var d, m := DigitsValue(day, false), DigitsValue(month, false);
    assert NumberToString(Int(d)) == NatToString(d);
    assert MonthName(Int(m)) == if 1 <= m <= 12 then MonthNames[m - 1] else Undefined;
  }

  lemma TwoDigitsValue(s: string)
    requires |s| == 2
    ensures DigitsValue(s, false) == DigitValue(s[0]) * 10 + DigitValue(s[1])
  {
    assert s[..1][..0] == [];
    assert DigitsValue(s[..1], false) == DigitValue(s[0]);
  }

  lemma ExampleWords(day: string, month: string, year: string)
    requires year == "2024"
    ensures day == "15" && month == "June" ==> day + " " + month + " " + year == "15 June 2024"
    ensures day == "99" && month == Undefined ==> day + " " + month + " " + year == "99 undefined 2024"
  {
  }

  lemma DateWordsJune(d: nat, m: nat, year: string)
    requires d == 15 && m == 6 && year == "2024"
    ensures DateWords(Int(d), Int(m), year) == "15 June 2024"
  {
    assert NatToString(15) == "15";
    ExampleWords(NatToString(d), MonthNames[5], year);
  }

  lemma DateWordsOffTable(d: nat, m: nat, year: string)
    requires d == 99 && m == 13 && year == "2024"
    ensures DateWords(Int(d), Int(m), year) == "99 undefined 2024"
  {
    assert NatToString(99) == "99";
    ExampleWords(NatToString(d), Undefined, year);
  }

  /**
    The worked example of the date format: `15/06/2024` prints as `15 June 2024`.
    The parts are parameters so that the verifier reasons about the pieces
    instead of evaluating the whole literal.
   */
  lemma FormatDateExample(day: string, month: string, year: string)
    requires day == "15" && month == "06" && year == "2024"
    ensures FormatDate(day + "/" + month + "/" + year) == "15 June 2024"
  {
    assert AllDecimalDigits(day) && AllDecimalDigits(month);
    TwoDigitsValue(day);
    TwoDigitsValue(month);
    FormatDateNumeric(day, month, year);
    DateWordsJune(DigitsValue(day, false), DigitsValue(month, false), year);
  }

  /** No validation: `99/13/2024` prints as `99 undefined 2024`. */
  lemma FormatDateMonthOffTable(day: string, month: string, year: string)
    requires day == "99" && month == "13" && year == "2024"
    ensures FormatDate(day + "/" + month + "/" + year) == "99 undefined 2024"
  {
    assert AllDecimalDigits(day) && AllDecimalDigits(month);
    TwoDigitsValue(day);
    TwoDigitsValue(month);
    FormatDateNumeric(day, month, year);
    DateWordsOffTable(DigitsValue(day, false), DigitsValue(month, false), year);
  }

  /** `formatTime` upper-cases every letter and changes nothing else; doing it twice changes nothing more. */
  lemma FormatTimeUpper(s: string)
    ensures |FormatTime(s)| == |s|
    ensures forall i :: 0 <= i < |s| ==> !('a' <= FormatTime(s)[i] <= 'z')
    ensures forall i :: 0 <= i < |s| && !('a' <= s[i] <= 'z') ==> FormatTime(s)[i] == s[i]
    ensures FormatTime(FormatTime(s)) == FormatTime(s)
  {
  }

  // ---------------------------------------------------------------------------
  // formatChatForAI
  // ---------------------------------------------------------------------------

  /** The prompt line for one message. */
  function FormatLine(m: ChatMessage): string {
    var author := OrElse(m.author, UnknownAuthor);
    var text := OrElse(m.text, NoText);
    if m.timestamp.None? || ',' !in m.timestamp.value then
      author + ": " + text
    else
      var parts := Split(m.timestamp.value, ',');
      author + " [" + FormatDate(Trim(parts[1])) + ", " + FormatTime(Trim(parts[0])) + "]: " + text
  }

  /** The prompt lines for a chat, one per message, in order. */
  function Lines(chat: seq<ChatMessage>): seq<string> {
    seq(|chat|, k requires 0 <= k < |chat| => FormatLine(chat[k]))
  }

  /** `formatChatForAI`: the prompt lines joined with newlines. */
  function FormatChatForAI(chat: seq<ChatMessage>): string {
    Join(Lines(chat), "\n")
  }

  /** A message without a usable timestamp gets the short line `author: text`. */
  lemma FormatLineFallback(m: ChatMessage)
    requires m.timestamp.None? || ',' !in m.timestamp.value
    ensures FormatLine(m) == OrElse(m.author, UnknownAuthor) + ": " + OrElse(m.text, NoText)
  {
  }

  /**
    With the first comma of the timestamp at `i` and the next one (or the end)
    at `j`, the line is `author [date, TIME]: text`, the time being the text
    before the first comma and the date the text between the two, both trimmed.
   */
  lemma FormatLineStamped(m: ChatMessage, i: nat, j: nat)
    requires m.timestamp.Some?
    requires var ts := m.timestamp.value;
             && i < j <= |ts| && ts[i] == ',' && ',' !in ts[..i] && ',' !in ts[i + 1..j]
             && (j == |ts| || ts[j] == ',')
    ensures var ts := m.timestamp.value;
            FormatLine(m)
            == OrElse(m.author, UnknownAuthor) + " [" + FormatDate(Trim(ts[i + 1..j])) + ", "
               + FormatTime(Trim(ts[..i])) + "]: " + OrElse(m.text, NoText)
  {
    TimestampPieces(m.timestamp.value, i, j);
  }

  /** The first two comma-separated pieces of a timestamp, with the first comma at `i` and the next one (or the end) at `j`. */
  lemma TimestampPieces(ts: string, i: nat, j: nat)
    requires i < j <= |ts| && ts[i] == ',' && ',' !in ts[..i] && ',' !in ts[i + 1..j]
    requires j == |ts| || ts[j] == ','
    ensures var parts := Split(ts, ',');
            |parts| >= 2 && parts[0] == ts[..i] && parts[1] == ts[i + 1..j]
  {
    SplitFirst(ts, ',', i);
    var rest := ts[i + 1..];
    SliceOfSuffix(ts, i + 1, j);
    SplitHead(rest, ',', j - i - 1);
  }

  /** A message whose fields hold no newline. */
  predicate SingleLine(m: ChatMessage) {
    && '\n' !in m.author
    && '\n' !in m.text
    && (m.timestamp.Some? ==> '\n' !in m.timestamp.value)
  }

  lemma NumberToStringSingleLine(n: Number)
    ensures '\n' !in NumberToString(n)
  {
    match n
    case NaN =>
    case Int(v) =>
      var digits := NatToString(if v < 0 then -v else v);
      assert '\n' !in digits by {
        forall i | 0 <= i < |digits| ensures digits[i] != '\n' { assert IsDecimalDigit(digits[i]); }
      }
  }

  lemma MonthNameSingleLine(n: Number)
    ensures '\n' !in MonthName(n)
  {
    assert forall k :: 0 <= k < |MonthNames| ==> '\n' !in MonthNames[k];
  }

  lemma DateWordsSingleLine(day: Number, month: Number, year: string)
    requires '\n' !in year
    ensures '\n' !in DateWords(day, month, year)
  {
    NumberToStringSingleLine(day);
    MonthNameSingleLine(month);
  }

  lemma FormatDateSingleLine(d: string)
    requires '\n' !in d
    ensures '\n' !in FormatDate(d)
  {
    var parts := Split(d, '/');
    var month := if |parts| > 1 then parts[1] else Undefined;
    var year := if |parts| > 2 then parts[2] else Undefined;
    assert '\n' !in year by {
      if |parts| > 2 {
        if '\n' in parts[2] {
          SplitPiecesChars(d, '/', 2, '\n');
        }
      } else {
        UndefinedSingleLine();
      }
    }
    DateWordsSingleLine(ParseInt(parts[0]), ParseInt(month), year);
  }

  lemma UndefinedSingleLine()
    ensures '\n' !in Undefined
  {
  }

  lemma TrimmedPieceSingleLine(ts: string, k: nat)
    requires '\n' !in ts && k < |Split(ts, ',')|
    ensures '\n' !in Trim(Split(ts, ',')[k])
  {
    var piece := Split(ts, ',')[k];
    if '\n' in Trim(piece) {
      TrimChars(piece, '\n');
      SplitPiecesChars(ts, ',', k, '\n');
    }
  }

  lemma FormatTimeSingleLine(t: string)
    requires '\n' !in t
    ensures '\n' !in FormatTime(t)
  {
    forall i | 0 <= i < |t| ensures FormatTime(t)[i] != '\n' { assert t[i] != '\n'; }
  }

  lemma FieldsSingleLine(author: string, date: string, time: string, text: string)
    requires '\n' !in author && '\n' !in date && '\n' !in time && '\n' !in text
    ensures '\n' !in author + ": " + text
    ensures '\n' !in author + " [" + date + ", " + time + "]: " + text
  {
  }

  lemma FormatLineSingleLine(m: ChatMessage)
    requires SingleLine(m)
    ensures '\n' !in FormatLine(m)
  {
    var author := OrElse(m.author, UnknownAuthor);
    var text := OrElse(m.text, NoText);
    assert '\n' !in author && '\n' !in text;
    if m.timestamp.Some? && ',' in m.timestamp.value {
      var ts := m.timestamp.value;
      var parts := Split(ts, ',');
      TrimmedPieceSingleLine(ts, 0);
      TrimmedPieceSingleLine(ts, 1);
      var date := FormatDate(Trim(parts[1]));
      var time := FormatTime(Trim(parts[0]));
      FormatDateSingleLine(Trim(parts[1]));
      FormatTimeSingleLine(Trim(parts[0]));
      FieldsSingleLine(author, date, time, text);
    } else {
      FieldsSingleLine(author, "", "", text);
    }
  }

  /** The empty chat gives the empty transcript. */
  lemma FormatChatForAIEmpty()
    ensures FormatChatForAI([]) == ""
  {
  }

  /**
    One line per message, in message order: when no field holds a newline,
    splitting the transcript at its newlines gives back exactly the lines of
    the messages.
   */
  lemma FormatChatForAILines(chat: seq<ChatMessage>)
    requires |chat| >= 1
    requires forall k :: 0 <= k < |chat| ==> SingleLine(chat[k])
    ensures var lines := Split(FormatChatForAI(chat), '\n');
            |lines| == |chat| && forall k :: 0 <= k < |chat| ==> lines[k] == FormatLine(chat[k])
  {
    var lines := Lines(chat);
    forall k | 0 <= k < |lines|
      ensures '\n' !in lines[k]
    {
      FormatLineSingleLine(chat[k]);
    }
    SplitJoin(lines, '\n');
  }

  // ---------------------------------------------------------------------------
  // getChatPartner
  // ---------------------------------------------------------------------------

  /** An incoming message with a non-empty author. */
  predicate NamedIncoming(m: ChatMessage) {
    m.direction == Incoming && m.author != ""
  }

  /** The authors of the named incoming messages, in message order, repeats kept. */
  function IncomingAuthors(chat: seq<ChatMessage>): (r: seq<string>)
    ensures forall a :: a in r <==> exists i :: 0 <= i < |chat| && NamedIncoming(chat[i]) && chat[i].author == a
  {
    if chat == [] then []
    else
      var prefix := chat[..|chat| - 1];
      var m := chat[|chat| - 1];
      var r := IncomingAuthors(prefix) + (if NamedIncoming(m) then [m.author] else []);
      assert forall i :: 0 <= i < |prefix| ==> chat[i] == prefix[i];
      r
  }

  /** The first index of `x` in `s`. */
  function FirstIndex<T(==)>(s: seq<T>, x: T): (k: nat)
    requires x in s
    ensures k < |s| && s[k] == x
    ensures forall i :: 0 <= i < k ==> s[i] != x
  {
    if s[0] == x then 0 else 1 + FirstIndex(s[1..], x)
  }

  /** `Array.from(new Set(names))`: the distinct names, each where it first appears. */
  function Distinct(names: seq<string>): (r: seq<string>)
    ensures forall x :: x in r <==> x in names
    ensures forall i, j :: 0 <= i < j < |r| ==> r[i] != r[j]
  {
    if names == [] then []
    else
      var prefix := names[..|names| - 1];
      var x := names[|names| - 1];
      assert names == prefix + [x];
      var d := Distinct(prefix);
      if x in d then d else d + [x]
  }

  lemma FirstIndexExtend<T>(s: seq<T>, x: T, y: T)
    requires y in s
    ensures FirstIndex(s + [x], y) == FirstIndex(s, y)
  {
    var k := FirstIndex(s, y);
    assert (s + [x])[k] == y;
    assert forall i :: 0 <= i < k ==> (s + [x])[i] == s[i];
    assert FirstIndex(s + [x], y) <= k;
  }

  /** Every element of `r` occurs in `names`, and they come in the order of their first occurrence there. */
  predicate FirstSeenOrder(r: seq<string>, names: seq<string>) {
    && (forall x :: x in r ==> x in names)
    && (forall i, j :: 0 <= i < j < |r| ==> FirstIndex(names, r[i]) < FirstIndex(names, r[j]))
  }

  /** The distinct names are in the order of their first appearance. */
  lemma {:induction false} DistinctFirstSeenOrder(names: seq<string>)
    ensures FirstSeenOrder(Distinct(names), names)
  {
    if names != [] {
      var prefix := names[..|names| - 1];
      var x := names[|names| - 1];
      assert names == prefix + [x];
      DistinctFirstSeenOrder(prefix);
      var d := Distinct(prefix);
      var r := Distinct(names);
      forall i | 0 <= i < |d|
        ensures FirstIndex(names, d[i]) == FirstIndex(prefix, d[i])
      {
        FirstIndexExtend(prefix, x, d[i]);
      }
      if x in d {
        assert r == d;
        forall i, j | 0 <= i < j < |r|
          ensures FirstIndex(names, r[i]) < FirstIndex(names, r[j])
        {
          assert FirstIndex(prefix, d[i]) < FirstIndex(prefix, d[j]);
        }
      } else {
        assert x !in prefix;
        assert FirstIndex(names, x) == |prefix|;
        assert r == d + [x];
        forall i, j | 0 <= i < j < |r|
          ensures FirstIndex(names, r[i]) < FirstIndex(names, r[j])
        {
          if j == |d| {
            assert r[i] == d[i] && r[j] == x;
            assert FirstIndex(prefix, d[i]) < |prefix|;
          } else {
            assert r[i] == d[i] && r[j] == d[j];
            assert FirstIndex(prefix, d[i]) < FirstIndex(prefix, d[j]);
          }
        }
      }
    }
  }

  /** The participants: each named incoming author once, in order of first message. */
  function Participants(chat: seq<ChatMessage>): seq<string> {
    Distinct(IncomingAuthors(chat))
  }

  /** `getChatPartner`: no participant, one participant, or a group. */
  function GetChatPartner(chat: seq<ChatMessage>): string {
    var names := Participants(chat);
    if |names| == 0 then UnknownAuthor
    else if |names| == 1 then names[0]
    else GroupPrefix + Join(names, ", ")
  }

  /**
    The participants are exactly the authors of named incoming messages, none
    repeated, in order of first appearance.
   */
  lemma ParticipantsCorrect(chat: seq<ChatMessage>)
    ensures forall a :: a in Participants(chat) <==>
              exists i :: 0 <= i < |chat| && NamedIncoming(chat[i]) && chat[i].author == a
    ensures forall i, j :: 0 <= i < j < |Participants(chat)| ==> Participants(chat)[i] != Participants(chat)[j]
    ensures FirstSeenOrder(Participants(chat), IncomingAuthors(chat))
  {
    DistinctFirstSeenOrder(IncomingAuthors(chat));
  }

  /** Outgoing messages and messages without an author never change the partner. */
  lemma GetChatPartnerIgnores(chat: seq<ChatMessage>, m: ChatMessage)
    requires !NamedIncoming(m)
    ensures GetChatPartner(chat + [m]) == GetChatPartner(chat)
  {
    assert (chat + [m])[..|chat|] == chat;
    assert IncomingAuthors(chat + [m]) == IncomingAuthors(chat) + [];
    assert IncomingAuthors(chat) + [] == IncomingAuthors(chat);
    assert Participants(chat + [m]) == Participants(chat);
  }

  /** A further message from someone already seen does not change the partner. */
  lemma GetChatPartnerRepeat(chat: seq<ChatMessage>, m: ChatMessage)
    requires NamedIncoming(m) && m.author in Participants(chat)
    ensures GetChatPartner(chat + [m]) == GetChatPartner(chat)
  {
    var authors := IncomingAuthors(chat);
    assert (chat + [m])[..|chat|] == chat;
    assert IncomingAuthors(chat + [m]) == authors + [m.author];
    assert (authors + [m.author])[..|authors|] == authors;
  }

  /** A sequence with an element has a member. */
  lemma HasMember<T>(r: seq<T>)
    ensures |r| > 0 ==> r[0] in r
  {
  }

  /** A sequence without repeats whose members all equal `a` has at most one element. */
  lemma AllSame<T>(r: seq<T>, a: T)
    ensures (forall i, j :: 0 <= i < j < |r| ==> r[i] != r[j]) && (forall x :: x in r ==> x == a) ==> |r| <= 1
  {
    if |r| >= 2 {
      assert r[0] in r && r[1] in r;
    }
  }

  /** A sequence holding two different values has at least two elements. */
  lemma TwoMembers<T>(r: seq<T>, a: T, b: T)
    ensures a in r && b in r && a != b ==> |r| >= 2
  {
    if |r| == 1 {
      assert r == [r[0]];
    }
  }

  /** Nobody named on the incoming side gives "Unknown". */
  lemma GetChatPartnerNobody(chat: seq<ChatMessage>)
    requires forall i :: 0 <= i < |chat| ==> !NamedIncoming(chat[i])
    ensures GetChatPartner(chat) == UnknownAuthor
  {
    ParticipantsCorrect(chat);
    HasMember(Participants(chat));
  }

  /** When every named incoming message comes from `a`, and one does, the partner is `a`. */
  lemma GetChatPartnerOne(chat: seq<ChatMessage>, a: string, k: nat)
    requires k < |chat| && NamedIncoming(chat[k]) && chat[k].author == a
    requires forall i :: 0 <= i < |chat| && NamedIncoming(chat[i]) ==> chat[i].author == a
    ensures GetChatPartner(chat) == a
  {
    ParticipantsCorrect(chat);
    var names := Participants(chat);
    assert a in names;
    AllSame(names, a);
    HasMember(names);
  }

  /** Two different named incoming authors make a group, listed by first appearance. */
  lemma GetChatPartnerGroup(chat: seq<ChatMessage>, k: nat, l: nat)
    requires k < |chat| && l < |chat| && NamedIncoming(chat[k]) && NamedIncoming(chat[l])
    requires chat[k].author != chat[l].author
    ensures GetChatPartner(chat) == GroupPrefix + Join(Participants(chat), ", ")
    ensures |Participants(chat)| >= 2
  {
    ParticipantsCorrect(chat);
    TwoMembers(Participants(chat), chat[k].author, chat[l].author);
  }
}
