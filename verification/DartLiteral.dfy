/** Printing JSON values as Dart literals: chained replaces for strings and a recursive printer. */
module DartLiteral {

  /** Decoded JSON without fractional numbers. */
  datatype Json =
    | JNull
    | JBool(b: bool)
    | JInt(n: int)
    | JString(s: string)
    | JList(items: seq<Json>)
    | JMap(entries: seq<Entry>)

  datatype Entry = Entry(key: string, value: Json)

  // ----- string escaping

  /** `s.replace(c, text)` for a one-character pattern. */
  function Replace(s: string, c: char, text: string): string {
    if s == "" then "" else (if s[0] == c then text else [s[0]]) + Replace(s[1..], c, text)
  }

  datatype Rule = Rule(from: char, to: string)

  /** A chain of replaces, first rule first. */
  function Chain(s: string, rules: seq<Rule>): string
    decreases |rules|
  {
    if rules == [] then s else Chain(Replace(s, rules[0].from, rules[0].to), rules[1..])
  }

  const LITERAL_RULES: seq<Rule> := [
    Rule('\\', "\\\\"), Rule('\'', "\\'"), Rule('$', "\\$"), Rule('\n', "\\n"), Rule('\r', "\\r"), Rule('\t', "\\t"),
    Rule('\U{2028}', "\\u2028"), Rule('\U{2029}', "\\u2029")]

  /** The rules of `dart_single_quoted_string`: no tab, and carriage return before line feed. */
  const BODY_RULES: seq<Rule> := [
    Rule('\\', "\\\\"), Rule('\'', "\\'"), Rule('$', "\\$"), Rule('\r', "\\r"), Rule('\n', "\\n"),
    Rule('\U{2028}', "\\u2028"), Rule('\U{2029}', "\\u2029")]

  /** `dart_string`. */
  function DartString(s: string): string {
    "'" + Chain(s, LITERAL_RULES) + "'"
  }

  /** `dart_single_quoted_string`. */
  function DartBody(s: string): string {
    Chain(s, BODY_RULES)
  }

  // ----- numbers

  function Digit(d: nat): char
    requires d < 10
  {
    ('0' as int + d) as char
  }

  function NatText(n: nat): string {
    if n < 10 then [Digit(n)] else NatText(n / 10) + [Digit(n % 10)]
  }

  /** `repr` of an integer. */
  function IntText(n: int): string {
    if n < 0 then "-" + NatText(-n) else NatText(n)
  }

  // ----- the printer

  function Pad(indent: nat): string {
    if indent == 0 then "" else "  " + Pad(indent - 1)
  }

  /** `dart_literal`. */
  function Print(v: Json, indent: nat): string
    decreases v
  {
    match v
    case JNull => "null"
    case JBool(b) => if b then "true" else "false"
    case JInt(n) => IntText(n)
    case JString(s) => DartString(s)
    case JList(items) =>
      if items == [] then "<Object?>[]" else "<Object?>[\n" + PrintItems(items, indent + 1) + ",\n" + Pad(indent) + "]"
    case JMap(entries) =>
      if entries == [] then "<String, dynamic>{}"
      else "<String, dynamic>{\n" + PrintEntries(entries, indent + 1) + ",\n" + Pad(indent) + "}"
  }

  /** The printed items joined by a comma and a line feed. */
  function PrintItems(items: seq<Json>, indent: nat): string
    requires items != []
    decreases items
  {
    Pad(indent) + Print(items[0], indent) + (if |items| == 1 then "" else ",\n" + PrintItems(items[1..], indent))
  }

  function PrintEntries(entries: seq<Entry>, indent: nat): string
    requires entries != []
    decreases entries
  {
    Pad(indent) + DartString(entries[0].key) + ": " + Print(entries[0].value, indent)
    + (if |entries| == 1 then "" else ",\n" + PrintEntries(entries[1..], indent))
  }
}
