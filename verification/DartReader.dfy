/** A reader for the literals the printer emits, with the single-quoted strings of section 16.5 of
    ECMA-408. It reads no more than Dart does: a value counts only when a delimiter or the end follows, so
    that no identifier, longer number, adjacent string or multi-line string is taken for it. */
module DartReader {
  import opened Wrappers
  import opened DartLiteral

  // ----- single-quoted strings

  function HexDigit(c: char): Option<nat> {
    if '0' <= c <= '9' then Some(c as int - '0' as int)
    else if 'a' <= c <= 'f' then Some(c as int - 'a' as int + 10)
    else if 'A' <= c <= 'F' then Some(c as int - 'A' as int + 10)
    else None
  }

  function HexValue(s: string): Option<nat> {
    if s == "" then Some(0)
    else
      match (HexValue(s[..|s| - 1]), HexDigit(s[|s| - 1]))
      case (Some(high), Some(low)) => Some(16 * high + low)
      case _ => None
  }

  predicate IsScalar(n: nat) {
    n < 0xD800 || 0xE000 <= n < 0x11_0000
  }

  function CharOf(n: Option<nat>): Option<char> {
    match n
    case Some(v) => if IsScalar(v) then Some(v as char) else None
    case None => None
  }

  function FindBrace(s: string): (r: Option<nat>)
    ensures r.Some? ==> r.value < |s|
  {
    if s == "" then None
    else if s[0] == '}' then Some(0)
    else
      var rest := FindBrace(s[1..]);
      if rest.Some? then Some(rest.value + 1) else None
  }

  /** The character an escape stands for and how long the escape is after its backslash. A backslash
      before a line break is no escape; an unknown escape stands for its own character. */
  function ReadEscape(s: string): (r: Option<(char, nat)>)
    requires s != ""
    ensures r.Some? ==> 1 <= r.value.1 <= |s|
  {
    var c := s[0];
    if c == '\n' || c == '\r' then None
    else if c == 'n' then Some(('\n', 1))
    else if c == 'r' then Some(('\r', 1))
    else if c == 'f' then Some(('\U{C}', 1))
    else if c == 'b' then Some(('\U{8}', 1))
    else if c == 't' then Some(('\t', 1))
    else if c == 'v' then Some(('\U{B}', 1))
    else if c == 'x' then
      if |s| < 3 then None
      else match CharOf(HexValue(s[1..3]))
        case Some(d) => Some((d, 3))
        case None => None
    else if c == 'u' then
      if |s| > 1 && s[1] == '{' then
        match FindBrace(s[2..])
        case Some(k) =>
          (match CharOf(if 1 <= k <= 6 then HexValue(s[2..2 + k]) else None)
           case Some(d) => Some((d, k + 3))
           case None => None)
        case None => None
      else if |s| < 5 then None
      else match CharOf(HexValue(s[1..5]))
        case Some(d) => Some((d, 5))
        case None => None
    else Some((c, 1))
  }

  /** The text up to the closing quote and what follows it. A raw dollar would start an interpolation
      and a raw line break would end the line: neither belongs to a plain literal. */
  function ReadBody(s: string): (r: Option<(string, string)>)
    ensures r.Some? ==> |r.value.1| < |s|
    decreases |s|
  {
    if s == "" then None
    else if s[0] == '\'' then Some(("", s[1..]))
    else if s[0] == '$' || s[0] == '\n' || s[0] == '\r' then None
    else if s[0] == '\\' then
      if |s| == 1 then None
      else match ReadEscape(s[1..])
        case None => None
        case Some((c, n)) =>
          (match ReadBody(s[1 + n..])
           case None => None
           case Some((text, rest)) => Some(([c] + text, rest)))
    else match ReadBody(s[1..])
      case None => None
      case Some((text, rest)) => Some(([s[0]] + text, rest))
  }

  // ----- values

  predicate IsDigit(c: char) {
    '0' <= c <= '9'
  }

  function DigitValue(c: char): nat
    requires IsDigit(c)
  {
    c as int - '0' as int
  }

  function ReadNat(s: string, acc: nat): (r: (nat, string))
    ensures |r.1| <= |s|
  {
    if s != "" && IsDigit(s[0]) then ReadNat(s[1..], 10 * acc + DigitValue(s[0])) else (acc, s)
  }

  function SkipSpace(s: string): (r: string)
    ensures |r| <= |s|
  {
    if s != "" && (s[0] == ' ' || s[0] == '\t' || s[0] == '\n' || s[0] == '\r') then SkipSpace(s[1..]) else s
  }

  const LIST_OPEN := "<Object?>["
  const MAP_OPEN := "<String, dynamic>{"

  /** What may follow a value directly. */
  predicate EndsLiteral(tail: string) {
    tail == "" || tail[0] == ',' || tail[0] == ':' || tail[0] == ';' || tail[0] == ')' || tail[0] == ']' ||
        tail[0] == '}'
  }

  function ReadValue(s: string): (r: Option<(Json, string)>)
    ensures r.Some? ==> |r.value.1| < |s|
    decreases |s|, 1
  {
    match ReadToken(s)
    case None => None
    case Some((v, rest)) => if EndsLiteral(rest) then Some((v, rest)) else None
  }

  function ReadToken(s: string): (r: Option<(Json, string)>)
    ensures r.Some? ==> |r.value.1| < |s|
    decreases |s|, 0
  {
    if s == "" then None
    else if "null" <= s then Some((JNull, s[4..]))
    else if "true" <= s then Some((JBool(true), s[4..]))
    else if "false" <= s then Some((JBool(false), s[5..]))
    else if IsDigit(s[0]) then
      var (n, rest) := ReadNat(s[1..], DigitValue(s[0]));
      Some((JInt(n), rest))
    else if s[0] == '-' then
      if |s| > 1 && IsDigit(s[1]) then
        var (n, rest) := ReadNat(s[1..], 0);
        Some((JInt(0 - n), rest))
      else None
    else if s[0] == '\'' then
      match ReadBody(s[1..])
      case None => None
      case Some((text, rest)) => Some((JString(text), rest))
    else if LIST_OPEN <= s then
      match ReadItems(s[|LIST_OPEN|..])
      case None => None
      case Some((items, rest)) => Some((JList(items), rest))
    else if MAP_OPEN <= s then
      match ReadEntries(s[|MAP_OPEN|..])
      case None => None
      case Some((entries, rest)) => Some((JMap(entries), rest))
    else None
  }

  /** Items up to the closing bracket, each followed by a comma except perhaps the last. */
  function ReadItems(s: string): (r: Option<(seq<Json>, string)>)
    ensures r.Some? ==> |r.value.1| < |s|
    decreases |s|, 2
  {
    var t := SkipSpace(s);
    if t == "" then None
    else if t[0] == ']' then Some(([], t[1..]))
    else match ReadValue(t)
      case None => None
      case Some((v, after)) =>
        var u := SkipSpace(after);
        if u == "" then None
        else if u[0] == ']' then Some(([v], u[1..]))
        else if u[0] == ',' then
          match ReadItems(u[1..])
          case None => None
          case Some((items, rest)) => Some(([v] + items, rest))
        else None
  }

  function ReadEntries(s: string): (r: Option<(seq<Entry>, string)>)
    ensures r.Some? ==> |r.value.1| < |s|
    decreases |s|, 2
  {
    var t := SkipSpace(s);
    if t == "" then None
    else if t[0] == '}' then Some(([], t[1..]))
    else if t[0] != '\'' then None
    else match ReadBody(t[1..])
      case None => None
      case Some((key, afterKey)) =>
        var colon := SkipSpace(afterKey);
        if colon == "" || colon[0] != ':' then None
        else match ReadValue(SkipSpace(colon[1..]))
          case None => None
          case Some((v, after)) =>
            var u := SkipSpace(after);
            if u == "" then None
            else if u[0] == '}' then Some(([Entry(key, v)], u[1..]))
            else if u[0] == ',' then
              match ReadEntries(u[1..])
              case None => None
              case Some((entries, rest)) => Some(([Entry(key, v)] + entries, rest))
            else None
  }
}
