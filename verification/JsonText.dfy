/** JSON documents as text: every way a document may be written (whitespace, escape choices), and
    the value each one denotes. The grammar is that of RFC 8259. */
module JsonText {
  import opened Common

  /** One character of a string as written: itself, a two-character escape, a `\u` escape, or a
      pair of `\u` escapes holding a UTF-16 surrogate pair (section 7 of RFC 8259). */
  datatype Part = Plain(c: char) | Short(c: char) | Unicode(hex: string) | Surrogates(high: string, low: string)

  /** A document as written. Numbers and literal names are opaque tokens. */
  datatype Doc =
    | Token(text: string)
    | Text(parts: seq<Part>)
    | Array(pad: string, items: Items)
    | Object(pad: string, members: Members)

  datatype Items = NoItems | Item(before: string, value: Doc, after: string, rest: Items)

  datatype Members =
    | NoMembers
    | Member(before: string, key: seq<Part>, beforeColon: string, afterColon: string, value: Doc, after: string,
             rest: Members)

  /** What a document denotes. */
  datatype Json = JToken(text: string) | JString(text: string) | JArray(items: seq<Json>) | JObject(members: seq<(string, Json)>)

  // ---- Well-formed writing ----

  function HexDigit(c: char): Option<int> {
    if '0' <= c <= '9' then Some(c as int - '0' as int)
    else if 'a' <= c <= 'f' then Some(c as int - 'a' as int + 10)
    else if 'A' <= c <= 'F' then Some(c as int - 'A' as int + 10)
    else None
  }

  predicate AllHex(s: string) { forall c | c in s :: HexDigit(c).Some? }

  function Power16(n: nat): nat { if n == 0 then 1 else 16 * Power16(n - 1) }

  function HexValue(s: string): (n: nat)
    requires AllHex(s)
    ensures n < Power16(|s|)
  {
    if s == [] then 0
    else
      var last := s[|s| - 1];
      assert HexDigit(last).Some?;
      16 * HexValue(s[..|s| - 1]) + HexDigit(last).value
  }

  predicate FourHex(s: string) { |s| == 4 && AllHex(s) }

  predicate WellFormedPart(p: Part) {
    match p
    case Plain(c) => ' ' <= c && c != '"' && c != '\\'
    case Short(c) => c in ['"', '\\', '/', 'b', 'f', 'n', 'r', 't']
    case Unicode(hex) => FourHex(hex) && !(0xD800 <= HexValue(hex) <= 0xDFFF)
    case Surrogates(high, low) =>
      FourHex(high) && FourHex(low) && 0xD800 <= HexValue(high) <= 0xDBFF && 0xDC00 <= HexValue(low) <= 0xDFFF
  }

  predicate WellFormedParts(parts: seq<Part>) { forall p | p in parts :: WellFormedPart(p) }

  predicate IsWhitespace(c: char) { c == ' ' || c == '\t' || c == '\n' || c == '\r' }

  predicate AllWhitespace(s: string) { forall c | c in s :: IsWhitespace(c) }

  /** The characters of numbers, `true`, `false` and `null`. */
  predicate TokenChar(c: char) {
    '0' <= c <= '9' || 'a' <= c <= 'z' || 'A' <= c <= 'Z' || c == '-' || c == '+' || c == '.'
  }

  predicate WellFormed(d: Doc) {
    match d
    case Token(text) => text != [] && forall c | c in text :: TokenChar(c)
    case Text(parts) => WellFormedParts(parts)
    case Array(pad, items) => AllWhitespace(pad) && WellFormedItems(items)
    case Object(pad, members) => AllWhitespace(pad) && WellFormedMembers(members)
  }

  predicate WellFormedItems(items: Items) {
    match items
    case NoItems => true
    case Item(before, value, after, rest) =>
      AllWhitespace(before) && WellFormed(value) && AllWhitespace(after) && WellFormedItems(rest)
  }

  predicate WellFormedMembers(members: Members) {
    match members
    case NoMembers => true
    case Member(before, key, beforeColon, afterColon, value, after, rest) =>
      AllWhitespace(before) && WellFormedParts(key) && AllWhitespace(beforeColon) && AllWhitespace(afterColon)
      && WellFormed(value) && AllWhitespace(after) && WellFormedMembers(rest)
  }

  // ---- The text of a document ----

  function PartText(p: Part): string {
    match p
    case Plain(c) => [c]
    case Short(c) => ['\\', c]
    case Unicode(hex) => ['\\', 'u'] + hex
    case Surrogates(high, low) => (['\\', 'u'] + high) + (['\\', 'u'] + low)
  }

  function PartsText(parts: seq<Part>): string {
    if parts == [] then [] else PartText(parts[0]) + PartsText(parts[1..])
  }

  function StringText(parts: seq<Part>): string {
    ['"'] + (PartsText(parts) + ['"'])
  }

  function DocText(d: Doc): string {
    match d
    case Token(text) => text
    case Text(parts) => StringText(parts)
    case Array(pad, items) => ['['] + (pad + (ItemsText(items, true) + [']']))
    case Object(pad, members) => ['{'] + (pad + (MembersText(members, true) + ['}']))
  }

  function Separator(first: bool): string { if first then [] else [','] }

  function ItemsText(items: Items, first: bool): string {
    match items
    case NoItems => []
    case Item(before, value, after, rest) =>
      Separator(first) + (before + (DocText(value) + (after + ItemsText(rest, false))))
  }

  function MembersText(members: Members, first: bool): string {
    match members
    case NoMembers => []
    case Member(before, key, beforeColon, afterColon, value, after, rest) =>
      Separator(first) + (before + (StringText(key) + (beforeColon + ([':'] + (afterColon + (DocText(value) + (after
      + MembersText(rest, false))))))))
  }

  // ---- The value of a document ----

  function CharOf(unit: int): char
    requires 0 <= unit < 0xD800 || 0xE000 <= unit < 0x11_0000
  {
    unit as char
  }

  function Short2Char(c: char): char {
    if c == 'n' then '\n' else if c == 't' then '\t' else if c == 'r' then '\r'
    else if c == 'b' then 8 as char else if c == 'f' then 12 as char else c
  }

  function Decoded(p: Part): char
    requires WellFormedPart(p)
  {
    match p
    case Plain(c) => c
    case Short(c) => Short2Char(c)
    case Unicode(hex) =>
      assert Power16(4) == 65_536;
      CharOf(HexValue(hex))
    case Surrogates(high, low) => CharOf(0x1_0000 + (HexValue(high) - 0xD800) * 0x400 + (HexValue(low) - 0xDC00))
  }

  /** The code points of the two-character escapes, by the character after the backslash (section 7 of RFC 8259). */
  const ESCAPES: map<char, int> :=
    map['"' := 0x22, '\\' := 0x5C, '/' := 0x2F, 'b' := 0x08, 'f' := 0x0C, 'n' := 0x0A, 'r' := 0x0D, 't' := 0x09]

  /** The two-character escapes are those eight, and each denotes its code point. */
  lemma ShortDenotes(c: char)
    ensures WellFormedPart(Short(c)) <==> c in ESCAPES
    ensures c in ESCAPES ==> WellFormedPart(Short(c)) && Decoded(Short(c)) as int == ESCAPES[c]
  {
  }

  /** Whitespace is space, tab, line feed and carriage return (section 2 of RFC 8259). */
  lemma WhitespaceIs(c: char)
    ensures IsWhitespace(c) <==> c as int == 0x20 || c as int == 0x09 || c as int == 0x0A || c as int == 0x0D
  {
  }

  /** What numbers and the literal names are written with (sections 3 and 6 of RFC 8259). */
  const TOKEN_CHARS: string := "-+.eE0123456789" + "true" + "false" + "null"

  /** All of it may stand in a token, and nothing a token must end before. */
  lemma TokenCharsAre(c: char)
    ensures c in TOKEN_CHARS ==> TokenChar(c)
    ensures TokenChar(c) ==> !IsWhitespace(c) && c !in "{}[]:,\""
  {
  }

  const LOWER_HEX := "0123456789abcdef"
  const UPPER_HEX := "0123456789ABCDEF"

  lemma HexDigitDenotes(c: char, n: nat)
    requires n < 16
    ensures HexDigit(c) == Some(n) <==> c == LOWER_HEX[n] || c == UPPER_HEX[n]
  {
  }

  /** The most significant digit comes first. */
  lemma FourHexValue(s: string, a: nat, b: nat, c: nat, d: nat)
    requires FourHex(s) && HexDigit(s[0]) == Some(a) && HexDigit(s[1]) == Some(b) && HexDigit(s[2]) == Some(c) && HexDigit(s[3]) == Some(d)
    ensures HexValue(s) == ((a * 16 + b) * 16 + c) * 16 + d
  {
    assert s[..3][..2] == s[..2] && s[..2][..1] == s[..1] && s[..1][..0] == [];
    assert HexValue([]) == 0;
    assert HexValue(s[..1]) == a && HexValue(s[..2]) == a * 16 + b && HexValue(s[..3]) == (a * 16 + b) * 16 + c;
  }

  /** A pair of `\u` escapes denotes the character that UTF-16 encodes as those two units (section 2.1 of RFC 2781). */
  lemma SurrogatesDenote(high: string, low: string)
    requires WellFormedPart(Surrogates(high, low))
    ensures var above := Decoded(Surrogates(high, low)) as int - 0x1_0000;
      0 <= above < 0x10_0000 && HexValue(high) == 0xD800 + above / 0x400 && HexValue(low) == 0xDC00 + above % 0x400
  {
  }

  function DecodedParts(parts: seq<Part>): string
    requires WellFormedParts(parts)
  {
    if parts == [] then [] else [Decoded(parts[0])] + DecodedParts(parts[1..])
  }

  function Value(d: Doc): Json
    requires WellFormed(d)
  {
    match d
    case Token(text) => JToken(text)
    case Text(parts) => JString(DecodedParts(parts))
    case Array(_, items) => JArray(ItemValues(items))
    case Object(_, members) => JObject(MemberValues(members))
  }

  function ItemValues(items: Items): seq<Json>
    requires WellFormedItems(items)
  {
    match items
    case NoItems => []
    case Item(_, value, _, rest) => [Value(value)] + ItemValues(rest)
  }

  function MemberValues(members: Members): seq<(string, Json)>
    requires WellFormedMembers(members)
  {
    match members
    case NoMembers => []
    case Member(_, key, _, _, value, _, rest) => [(DecodedParts(key), Value(value))] + MemberValues(rest)
  }

  // ---- Lookup by key ----

  predicate DistinctKeys(members: seq<(string, Json)>) {
    forall i, j | 0 <= i < j < |members| :: members[i].0 != members[j].0
  }

  function Lookup(members: seq<(string, Json)>, key: string): Option<Json> {
    if members == [] then None
    else if members[0].0 == key then Some(members[0].1)
    else Lookup(members[1..], key)
  }
}
