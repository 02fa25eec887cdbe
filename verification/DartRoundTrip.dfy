/** Reading a printed Dart literal returns the value that was printed. */
module DartRoundTrip {
  import opened Wrappers
  import opened DartLiteral
  import opened DartReader

  // ----- chained replaces are one pass

  function EscapeOf(c: char, rules: seq<Rule>): string {
    if rules == [] then [c] else if c == rules[0].from then rules[0].to else EscapeOf(c, rules[1..])
  }

  function EscapeEach(s: string, rules: seq<Rule>): string {
    if s == "" then "" else EscapeOf(s[0], rules) + EscapeEach(s[1..], rules)
  }

  /** No replacement text contains a character a later rule replaces. */
  ghost predicate Independent(rules: seq<Rule>) {
    forall i, j :: 0 <= i < j < |rules| ==> rules[j].from !in rules[i].to
  }

  lemma {:induction false} EscapeConcat(a: string, b: string, rules: seq<Rule>)
    ensures EscapeEach(a + b, rules) == EscapeEach(a, rules) + EscapeEach(b, rules)
  {
    hide EscapeOf;
    if a == "" {
      assert a + b == b;
    } else {
      EscapeConcat(a[1..], b, rules);
      assert (a + b)[1..] == a[1..] + b;
    }
  }

  lemma {:induction false} Untouched(c: char, rules: seq<Rule>)
    requires forall j :: 0 <= j < |rules| ==> rules[j].from != c
    ensures EscapeOf(c, rules) == [c]
  {
    if rules != [] {
      Untouched(c, rules[1..]);
    }
  }

  lemma {:induction false} TextUntouched(text: string, rules: seq<Rule>)
    requires forall j :: 0 <= j < |rules| ==> rules[j].from !in text
    ensures EscapeEach(text, rules) == text
  {
    if text != "" {
      assert text[0] in text;
      forall j | 0 <= j < |rules| ensures rules[j].from !in text[1..] && rules[j].from != text[0] {
        assert rules[j].from !in text;
      }
      Untouched(text[0], rules);
      TextUntouched(text[1..], rules);
    }
  }

  lemma {:induction false} ReplaceThenRest(s: string, rules: seq<Rule>)
    requires rules != [] && Independent(rules)
    ensures EscapeEach(Replace(s, rules[0].from, rules[0].to), rules[1..]) == EscapeEach(s, rules)
  {
    if s != "" {
      var first := rules[0];
      var head := if s[0] == first.from then first.to else [s[0]];
      ReplaceThenRest(s[1..], rules);
      EscapeConcat(head, Replace(s[1..], first.from, first.to), rules[1..]);
      if s[0] == first.from {
        forall j | 0 <= j < |rules[1..]| ensures rules[1..][j].from !in first.to {
          assert rules[j + 1].from !in rules[0].to;
        }
        TextUntouched(first.to, rules[1..]);
      } else {
        assert EscapeEach([s[0]], rules[1..]) == EscapeOf(s[0], rules[1..]) + EscapeEach("", rules[1..]);
      }
    }
  }

  lemma {:induction false} NoRules(s: string)
    ensures EscapeEach(s, []) == s
  {
    if s != "" {
      NoRules(s[1..]);
    }
  }

  /** A chain of replaces whose texts do not meet later patterns escapes each character once. */
  lemma {:induction false} ChainIsOnePass(s: string, rules: seq<Rule>)
    requires Independent(rules)
    ensures Chain(s, rules) == EscapeEach(s, rules)
    decreases |rules|
  {
    if rules == [] {
      NoRules(s);
    } else {
      ReplaceThenRest(s, rules);
      forall i, j | 0 <= i < j < |rules[1..]| ensures rules[1..][j].from !in rules[1..][i].to {
        assert rules[j + 1].from !in rules[i + 1].to;
      }
      ChainIsOnePass(Replace(s, rules[0].from, rules[0].to), rules[1..]);
    }
  }

  /** What an escape is written with, besides its backslash and its own character. */
  predicate EscapeLetter(c: char) {
    c == 'n' || c == 'r' || c == 't' || c == 'u' || c == '0' || c == '2' || c == '8' || c == '9'
  }

  predicate OwnText(rule: Rule) {
    forall i :: 0 <= i < |rule.to| ==> rule.to[i] == '\\' || rule.to[i] == rule.from || EscapeLetter(rule.to[i])
  }

  /** Rules that write only backslashes, escape letters and their own character, the backslash rule first. */
  lemma OwnTextsAreIndependent(rules: seq<Rule>)
    requires forall i :: 0 <= i < |rules| ==> OwnText(rules[i])
    requires forall i :: 0 < i < |rules| ==> rules[i].from != '\\' && !EscapeLetter(rules[i].from)
    requires forall i, j :: 0 <= i < j < |rules| ==> rules[i].from != rules[j].from
    ensures Independent(rules)
  {
    hide EscapeLetter;
    forall i, j | 0 <= i < j < |rules| ensures rules[j].from !in rules[i].to {
      assert OwnText(rules[i]);
    }
  }

  lemma BothIndependent()
    ensures Independent(LITERAL_RULES) && Independent(BODY_RULES)
  {
    assert forall i :: 0 <= i < |LITERAL_RULES| ==> OwnText(LITERAL_RULES[i]);
    assert forall i :: 0 <= i < |BODY_RULES| ==> OwnText(BODY_RULES[i]);
    hide OwnText;
    OwnTextsAreIndependent(LITERAL_RULES);
    OwnTextsAreIndependent(BODY_RULES);
  }

  // ----- reading the escapes back

  /** What the escape of one character is: the character itself, harmless in a literal, or a backslash
      and an escape that reads back as the character. */
  ghost predicate ReadsBack(c: char, text: string) {
    || (text == [c] && c != '\'' && c != '$' && c != '\\' && c != '\n' && c != '\r')
    || (|text| >= 2 && text[0] == '\\' && forall x :: ReadEscape(text[1..] + x) == Some((c, |text| - 1)))
  }

  lemma HexStep(s: string, c: char, high: nat)
    requires HexValue(s) == Some(high) && HexDigit(c).Some?
    ensures HexValue(s + [c]) == Some(16 * high + HexDigit(c).value)
  {
    assert (s + [c])[..|s|] == s;
  }

  lemma LineSeparators(x: string)
    ensures ReadEscape("u2028" + x) == Some(('\U{2028}', 5)) && ReadEscape("u2029" + x) == Some(('\U{2029}', 5))
  {
    assert HexValue("") == Some(0);
    hide HexValue, FindBrace;
    assert "" + ['2'] == "2" && "2" + ['0'] == "20" && "20" + ['2'] == "202";
    assert "202" + ['8'] == "2028" && "202" + ['9'] == "2029";
    HexStep("", '2', 0);
    HexStep("2", '0', 2);
    HexStep("20", '2', 32);
    HexStep("202", '8', 514);
    HexStep("202", '9', 514);
    assert ("u2028" + x)[1..5] == "2028" && ("u2029" + x)[1..5] == "2029";
  }

  lemma ShortEscape(e: char, c: char)
    requires forall x :: ReadEscape([e] + x) == Some((c, 1))
    ensures ReadsBack(c, ['\\', e])
  {
    assert ['\\', e][1..] == [e];
  }

  /** The escape of `c` under both rule lists. */
  function PlainEscape(c: char, tab: bool): string {
    if c == '\\' then "\\\\"
    else if c == '\'' then "\\'"
    else if c == '$' then "\\$"
    else if c == '\n' then "\\n"
    else if c == '\r' then "\\r"
    else if c == '\t' && tab then "\\t"
    else if c == '\U{2028}' then "\\u2028"
    else if c == '\U{2029}' then "\\u2029"
    else [c]
  }

  /** The first rule for a character decides. */
  lemma {:induction false} LookUp(rules: seq<Rule>, i: nat, c: char)
    requires i < |rules| && rules[i].from == c && forall j :: 0 <= j < i ==> rules[j].from != c
    ensures EscapeOf(c, rules) == rules[i].to
  {
    if i > 0 {
      LookUp(rules[1..], i - 1, c);
    }
  }

  lemma LiteralEscape(c: char)
    ensures EscapeOf(c, LITERAL_RULES) == PlainEscape(c, true)
  {
    hide EscapeOf;
    var r := LITERAL_RULES;
    assert r[0].from == '\\' && r[1].from == '\'' && r[2].from == '$' && r[3].from == '\n' && r[4].from == '\r';
    assert r[5].from == '\t' && r[6].from == '\U{2028}' && r[7].from == '\U{2029}';
    if i :| 0 <= i < |LITERAL_RULES| && LITERAL_RULES[i].from == c {
      LookUp(LITERAL_RULES, i, c);
    } else {
      Untouched(c, LITERAL_RULES);
    }
  }

  lemma BodyEscape(c: char)
    ensures EscapeOf(c, BODY_RULES) == PlainEscape(c, false)
  {
    hide EscapeOf;
    var r := BODY_RULES;
    assert r[0].from == '\\' && r[1].from == '\'' && r[2].from == '$' && r[3].from == '\r' && r[4].from == '\n';
    assert r[5].from == '\U{2028}' && r[6].from == '\U{2029}';
    if i :| 0 <= i < |BODY_RULES| && BODY_RULES[i].from == c {
      LookUp(BODY_RULES, i, c);
    } else {
      Untouched(c, BODY_RULES);
    }
  }

  lemma EscapeReadsBack(c: char, tab: bool)
    ensures ReadsBack(c, PlainEscape(c, tab))
  {
    var text := PlainEscape(c, tab);
    if c == '\U{2028}' || c == '\U{2029}' {
      assert text[1..] == if c == '\U{2028}' then "u2028" else "u2029";
      forall x ensures ReadEscape(text[1..] + x) == Some((c, |text| - 1)) {
        LineSeparators(x);
      }
    } else if text != [c] {
      var e := text[1];
      assert text == ['\\', e];
      ShortEscape(e, c);
    }
  }

  lemma ReadOne(c: char, text: string, after: string)
    requires ReadsBack(c, text)
    ensures ReadBody(text + after) ==
            match ReadBody(after)
            case None => None
            case Some((s, rest)) => Some(([c] + s, rest))
  {
    var s := text + after;
    if text == [c] && c != '\'' && c != '$' && c != '\\' && c != '\n' && c != '\r' {
      assert s[1..] == after;
    } else {
      assert s[1..] == text[1..] + after;
      assert s[1 + (|text| - 1)..] == after;
    }
  }

  /** Reading an escaped text up to its closing quote returns the text. */
  lemma {:induction false} ReadEscaped(s: string, rules: seq<Rule>, tail: string)
    requires forall c :: ReadsBack(c, EscapeOf(c, rules))
    ensures ReadBody(EscapeEach(s, rules) + "'" + tail) == Some((s, tail))
  {
    if s == "" {
      assert ("" + "'" + tail)[1..] == tail;
    } else {
      hide EscapeOf, ReadBody, ReadsBack;
      ReadEscaped(s[1..], rules, tail);
      var after := EscapeEach(s[1..], rules) + "'" + tail;
      assert EscapeEach(s, rules) + "'" + tail == EscapeOf(s[0], rules) + after;
      ReadOne(s[0], EscapeOf(s[0], rules), after);
      assert [s[0]] + s[1..] == s;
    }
  }

  /** The body `dart_string` puts between its quotes reads back up to the closing quote. */
  lemma LiteralBodyRoundTrip(s: string, tail: string)
    ensures ReadBody(Chain(s, LITERAL_RULES) + "'" + tail) == Some((s, tail))
  {
    BothIndependent();
    ChainIsOnePass(s, LITERAL_RULES);
    forall c ensures ReadsBack(c, EscapeOf(c, LITERAL_RULES)) {
      LiteralEscape(c);
      EscapeReadsBack(c, true);
    }
    ReadEscaped(s, LITERAL_RULES, tail);
  }

  /** So does the body `dart_single_quoted_string` returns. */
  lemma BodyRoundTrip(s: string, tail: string)
    ensures ReadBody(DartBody(s) + "'" + tail) == Some((s, tail))
  {
    BothIndependent();
    ChainIsOnePass(s, BODY_RULES);
    forall c ensures ReadsBack(c, EscapeOf(c, BODY_RULES)) {
      BodyEscape(c);
      EscapeReadsBack(c, false);
    }
    ReadEscaped(s, BODY_RULES, tail);
  }

  predicate BreaksLine(c: char) {
    c == '\n' || c == '\r' || c == '\U{2028}' || c == '\U{2029}'
  }

  lemma {:induction false} EscapedHasNoBreaks(s: string, rules: seq<Rule>)
    requires forall c, d :: d in EscapeOf(c, rules) ==> !BreaksLine(d)
    ensures forall d :: d in EscapeEach(s, rules) ==> !BreaksLine(d)
  {
    if s != "" {
      EscapedHasNoBreaks(s[1..], rules);
    }
  }

  /** A printed string stays on one line. */
  lemma StringIsOneLine(s: string)
    ensures forall d :: d in DartString(s) ==> !BreaksLine(d)
  {
    hide EscapeOf, EscapeEach, Chain;
    BothIndependent();
    ChainIsOnePass(s, LITERAL_RULES);
    forall c, d | d in EscapeOf(c, LITERAL_RULES) ensures !BreaksLine(d) {
      LiteralEscape(c);
    }
    EscapedHasNoBreaks(s, LITERAL_RULES);
  }

  // ----- numbers

  lemma {:induction false} ReadNatText(n: nat, tail: string)
    ensures ReadNat(NatText(n) + tail, 0) == ReadNat(tail, n)
    ensures NatText(n) != "" && IsDigit(NatText(n)[0])
  {
    if n < 10 {
      assert ([Digit(n)] + tail)[1..] == tail;
    } else {
      var next := [Digit(n % 10)] + tail;
      ReadNatText(n / 10, next);
      assert NatText(n) + tail == NatText(n / 10) + next;
      assert next[1..] == tail;
      assert ReadNat(next, n / 10) == ReadNat(tail, 10 * (n / 10) + n % 10);
    }
  }

  lemma NaturalRoundTrip(n: nat, tail: string)
    requires EndsLiteral(tail)
    ensures ReadToken(NatText(n) + tail) == Some((JInt(n), tail))
  {
    ReadNatText(n, tail);
    hide NatText;
    var s := NatText(n) + tail;
    NotKeyword(s);
    assert ReadNat(s, 0) == ReadNat(s[1..], DigitValue(s[0]));
  }

  lemma NegativeRoundTrip(n: nat, tail: string)
    requires EndsLiteral(tail)
    ensures ReadToken("-" + NatText(n) + tail) == Some((JInt(0 - n), tail))
  {
    ReadNatText(n, tail);
    hide NatText;
    var s := "-" + NatText(n) + tail;
    assert s[1..] == NatText(n) + tail;
    NotKeyword(s);
  }

  lemma IntRoundTrip(n: int, tail: string)
    requires EndsLiteral(tail)
    ensures ReadToken(IntText(n) + tail) == Some((JInt(n), tail))
  {
    hide NatText, ReadToken, EndsLiteral;
    if n < 0 {
      NegativeRoundTrip(-n, tail);
    } else {
      NaturalRoundTrip(n, tail);
    }
  }

  lemma NotKeyword(s: string)
    requires s != "" && s[0] != 'n' && s[0] != 't' && s[0] != 'f'
    ensures !("null" <= s) && !("true" <= s) && !("false" <= s)
  {
  }

  // ----- layout

  lemma {:induction false} PadSkipped(indent: nat, s: string)
    requires s != "" && s[0] != ' ' && s[0] != '\t' && s[0] != '\n' && s[0] != '\r'
    ensures SkipSpace(Pad(indent) + s) == s
  {
    if indent > 0 {
      PadSkipped(indent - 1, s);
      var t := Pad(indent) + s;
      assert t[1..][1..] == Pad(indent - 1) + s;
    } else {
      assert Pad(0) + s == s;
    }
  }

  lemma LineThenPad(indent: nat, s: string)
    requires s != "" && s[0] != ' ' && s[0] != '\t' && s[0] != '\n' && s[0] != '\r'
    ensures SkipSpace("\n" + Pad(indent) + s) == s
  {
    PadSkipped(indent, s);
    assert ("\n" + Pad(indent) + s)[1..] == Pad(indent) + s;
  }

  lemma PrintStarts(v: Json, indent: nat)
    ensures var p := Print(v, indent);
            p != "" && p[0] != ' ' && p[0] != '\t' && p[0] != '\n' && p[0] != '\r' && p[0] != ']' && p[0] != '}' &&
                p[0] != ','
  {
    hide Chain, NatText, PrintItems, PrintEntries, Pad, ReadNat;
    if v.JInt? {
      ReadNatText(if v.n < 0 then -v.n else v.n, "");
    }
  }

  // ----- the round trip

  lemma KeywordRoundTrip(tail: string)
    ensures ReadToken("null" + tail) == Some((JNull, tail))
    ensures ReadToken("true" + tail) == Some((JBool(true), tail))
    ensures ReadToken("false" + tail) == Some((JBool(false), tail))
  {
    var n, t, f := "null" + tail, "true" + tail, "false" + tail;
    assert n[4..] == tail && t[4..] == tail && f[5..] == tail;
    assert n[..4] == "null" && t[..4] == "true" && f[..5] == "false";
    assert t[0] == 't' && f[0] == 'f';
  }

  lemma StringValue(text: string, tail: string)
    ensures ReadToken(DartString(text) + tail) == Some((JString(text), tail))
  {
    hide Chain, ReadBody;
    var s := DartString(text) + tail;
    LiteralBodyRoundTrip(text, tail);
    NotKeyword(s);
    assert s[1..] == Chain(text, LITERAL_RULES) + "'" + tail;
  }

  /** A printed string reads back before any delimiter. */
  lemma StringRoundTrip(text: string, tail: string)
    requires EndsLiteral(tail)
    ensures ReadValue(DartString(text) + tail) == Some((JString(text), tail))
  {
    hide DartString, ReadToken;
    StringValue(text, tail);
  }

  /** Reading back a printed value, at any indentation and before any delimiter, returns the value and
      leaves what follows. */
  lemma {:induction false} LiteralRoundTrip(v: Json, indent: nat, tail: string)
    requires EndsLiteral(tail)
    ensures ReadValue(Print(v, indent) + tail) == Some((v, tail))
    decreases v, 1
  {
    match v
    case JNull =>
      KeywordRoundTrip(tail);
    case JBool(b) =>
      KeywordRoundTrip(tail);
    case JInt(n) =>
      IntRoundTrip(n, tail);
    case JString(text) =>
      StringValue(text, tail);
    case JList(items) =>
      ListValue(items, indent, tail);
    case JMap(entries) =>
      MapValue(entries, indent, tail);
  }

  lemma {:induction false} ListValue(items: seq<Json>, indent: nat, tail: string)
    ensures ReadToken(Print(JList(items), indent) + tail) == Some((JList(items), tail))
    decreases items, 3
  {
    hide ReadItems, Print;
    var s := Print(JList(items), indent) + tail;
    ListRoundTrip(items, indent, tail);
    assert s[0] == LIST_OPEN[0];
    NotKeyword(s);
  }

  lemma {:induction false} MapValue(entries: seq<Entry>, indent: nat, tail: string)
    ensures ReadToken(Print(JMap(entries), indent) + tail) == Some((JMap(entries), tail))
    decreases entries, 3
  {
    hide ReadEntries, Print;
    var s := Print(JMap(entries), indent) + tail;
    MapRoundTrip(entries, indent, tail);
    assert s[0] == MAP_OPEN[0];
    NotKeyword(s);
  }

  lemma {:induction false} ListRoundTrip(items: seq<Json>, indent: nat, tail: string)
    ensures var s := Print(JList(items), indent) + tail;
            LIST_OPEN <= s && ReadItems(s[|LIST_OPEN|..]) == Some((items, tail))
    decreases items, 2
  {
    hide ReadItems, ReadEntries, PrintItems, Pad;
    var s := Print(JList(items), indent) + tail;
    if items == [] {
      assert s[|LIST_OPEN|..] == "]" + tail;
      EndNow(tail);
    } else {
      ItemsRoundTrip(items, indent + 1, Pad(indent) + "]" + tail);
      EmptyEnd(indent, tail);
      assert items + [] == items;
      assert s[|LIST_OPEN|..] == "\n" + (PrintItems(items, indent + 1) + (",\n" + (Pad(indent) + "]" + tail)));
    }
  }

  lemma EndNow(tail: string)
    ensures ReadItems("]" + tail) == Some(([], tail)) && ReadEntries("}" + tail) == Some(([], tail))
  {
    hide ReadValue, ReadToken, ReadBody;
    assert ("]" + tail)[1..] == tail && ("}" + tail)[1..] == tail;
  }

  /** The closing bracket after a final comma. */
  lemma EmptyEnd(indent: nat, tail: string)
    ensures ReadItems("\n" + (Pad(indent) + "]" + tail)) == Some(([], tail))
    ensures ReadEntries("\n" + (Pad(indent) + "}" + tail)) == Some(([], tail))
  {
    LineThenPad(indent, "]" + tail);
    LineThenPad(indent, "}" + tail);
    assert "\n" + Pad(indent) + ("]" + tail) == "\n" + (Pad(indent) + "]" + tail);
    assert "\n" + Pad(indent) + ("}" + tail) == "\n" + (Pad(indent) + "}" + tail);
    assert ("]" + tail)[1..] == tail && ("}" + tail)[1..] == tail;
  }

  lemma ItemsText(items: seq<Json>, indent: nat, end: string)
    requires items != []
    ensures var others := if |items| == 1 then end else PrintItems(items[1..], indent) + (",\n" + end);
            "\n" + (PrintItems(items, indent) + (",\n" + end))
            == "\n" + Pad(indent) + (Print(items[0], indent) + (",\n" + others))
  {
    hide Print;
  }

  /** Reading the items after a line break gives the items and then whatever the end reads as. */
  lemma {:induction false} ItemsRoundTrip(items: seq<Json>, indent: nat, end: string)
    requires items != []
    ensures ReadItems("\n" + (PrintItems(items, indent) + (",\n" + end))) ==
            match ReadItems("\n" + end)
            case None => None
            case Some((more, rest)) => Some((items + more, rest))
    decreases items, 1
  {
    hide ReadValue, ReadToken, ReadBody, Print, PrintItems, Pad;
    var p := Print(items[0], indent);
    var others := if |items| == 1 then end else PrintItems(items[1..], indent) + (",\n" + end);
    var after := ",\n" + others;
    var s := "\n" + (PrintItems(items, indent) + (",\n" + end));
    ItemsText(items, indent, end);
    PrintStarts(items[0], indent);
    LineThenPad(indent, p + after);
    LiteralRoundTrip(items[0], indent, after);
    assert SkipSpace(after) == after && after[1..] == "\n" + others;
    if |items| > 1 {
      ItemsRoundTrip(items[1..], indent, end);
      assert [items[0]] + items[1..] == items;
      var m := ReadItems("\n" + end);
      if m.Some? {
        assert [items[0]] + (items[1..] + m.value.0) == items + m.value.0;
      }
    } else {
      assert [items[0]] == items;
    }
  }

  lemma {:induction false} MapRoundTrip(entries: seq<Entry>, indent: nat, tail: string)
    ensures var s := Print(JMap(entries), indent) + tail;
            !(LIST_OPEN <= s) && MAP_OPEN <= s && ReadEntries(s[|MAP_OPEN|..]) == Some((entries, tail))
    decreases entries, 2
  {
    hide ReadItems, ReadEntries, PrintEntries, Pad;
    var s := Print(JMap(entries), indent) + tail;
    assert s[1] == 'S';
    if entries == [] {
      assert s[|MAP_OPEN|..] == "}" + tail;
      EndNow(tail);
    } else {
      EntriesRoundTrip(entries, indent + 1, Pad(indent) + "}" + tail);
      EmptyEnd(indent, tail);
      assert entries + [] == entries;
      assert s[|MAP_OPEN|..] == "\n" + (PrintEntries(entries, indent + 1) + (",\n" + (Pad(indent) + "}" + tail)));
    }
  }

  /** The key of an entry, its colon and the space after it. */
  lemma KeyRead(key: string, p: string, after: string)
    requires p != "" && p[0] != ' ' && p[0] != '\t' && p[0] != '\n' && p[0] != '\r'
    ensures var quoted := DartString(key) + (": " + (p + after));
            && quoted[0] == '\'' && ReadBody(quoted[1..]) == Some((key, ": " + (p + after)))
            && SkipSpace(": " + (p + after)) == ": " + (p + after)
            && SkipSpace((": " + (p + after))[1..]) == p + after
  {
    hide ReadBody, Chain;
    var afterKey := ": " + (p + after);
    var quoted := DartString(key) + afterKey;
    assert quoted[1..] == Chain(key, LITERAL_RULES) + "'" + afterKey;
    LiteralBodyRoundTrip(key, afterKey);
    assert afterKey[1..] == " " + (p + after);
    assert (" " + (p + after))[1..] == p + after;
  }

  lemma EntriesText(entries: seq<Entry>, indent: nat, end: string)
    requires entries != []
    ensures var others := if |entries| == 1 then end else PrintEntries(entries[1..], indent) + (",\n" + end);
            "\n" + (PrintEntries(entries, indent) + (",\n" + end))
            == "\n" + Pad(indent) + 
               (DartString(entries[0].key) + (": " + (Print(entries[0].value, indent) + (",\n" + others))))
  {
    hide DartString, Print;
  }

  lemma {:induction false} EntriesRoundTrip(entries: seq<Entry>, indent: nat, end: string)
    requires entries != []
    ensures ReadEntries("\n" + (PrintEntries(entries, indent) + (",\n" + end))) ==
            match ReadEntries("\n" + end)
            case None => None
            case Some((more, rest)) => Some((entries + more, rest))
    decreases entries, 1
  {
    hide ReadValue, ReadToken, ReadBody, Print, DartString, PrintEntries;
    var e := entries[0];
    var p := Print(e.value, indent);
    var others := if |entries| == 1 then end else PrintEntries(entries[1..], indent) + (",\n" + end);
    var after := ",\n" + others;
    var quoted := DartString(e.key) + (": " + (p + after));
    EntriesText(entries, indent, end);
    PrintStarts(e.value, indent);
    KeyRead(e.key, p, after);
    LineThenPad(indent, quoted);
    LiteralRoundTrip(e.value, indent, after);
    assert SkipSpace(after) == after && after[1..] == "\n" + others;
    if |entries| > 1 {
      EntriesRoundTrip(entries[1..], indent, end);
      PrependEntry(e, entries, end);
    } else {
      assert [e] == entries;
    }
  }

  lemma PrependEntry(e: Entry, entries: seq<Entry>, end: string)
    requires entries != [] && e == entries[0]
    ensures ReadEntries("\n" + end).Some? ==>
              var more := ReadEntries("\n" + end).value.0; [e] + (entries[1..] + more) == entries + more
  {
  }

  /** The whole printed text reads back as the value and nothing else; hence the printer is injective. */
  lemma WholeLiteral(v: Json, indent: nat)
    ensures ReadValue(Print(v, indent)) == Some((v, ""))
  {
    LiteralRoundTrip(v, indent, "");
    assert Print(v, indent) + "" == Print(v, indent);
  }

  lemma PrintInjective(v: Json, w: Json, indent: nat, indent': nat)
    requires Print(v, indent) == Print(w, indent')
    ensures v == w
  {
    WholeLiteral(v, indent);
    WholeLiteral(w, indent');
  }
}
