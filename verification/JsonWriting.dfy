/** Every JSON value can be written: the documents of `JsonText` leave no value out. */
module JsonWriting {
  import opened Common
  import opened JsonText

  /** Values whose tokens are tokens; strings may hold any characters. */
  predicate Writable(v: Json) {
    match v
    case JToken(text) => text != [] && forall c | c in text :: TokenChar(c)
    case JString(_) => true
    case JArray(items) => forall i | 0 <= i < |items| :: Writable(items[i])
    case JObject(members) => forall i | 0 <= i < |members| :: Writable(members[i].1)
  }

  function HexChar(n: nat): (c: char)
    requires n < 16
    ensures HexDigit(c) == Some(n)
  {
    if n < 10 then n as char + '0' else (n - 10) as char + 'a'
  }

  /** A control character as `\u00XX`. */
  function ControlHex(c: char): (hex: string)
    requires c < ' '
    ensures FourHex(hex) && HexValue(hex) == c as int
  {
    var n := c as int;
    var hex := ['0', '0', HexChar(n / 16), HexChar(n % 16)];
    assert HexValue([]) == 0 && hex[..1] == ['0'] && hex[..1][..0] == [];
    assert hex[..2][..1] == hex[..1] && hex[..3][..2] == hex[..2];
    assert HexValue(hex[..1]) == 0 && HexValue(hex[..2]) == 0 && HexValue(hex[..3]) == n / 16;
    hex
  }

  function PartOf(c: char): (p: Part)
    ensures WellFormedPart(p) && Decoded(p) == c
  {
    if c == '"' || c == '\\' then Short(c)
    else if c < ' ' then Unicode(ControlHex(c))
    else Plain(c)
  }

  function PartsOf(s: string): (parts: seq<Part>)
    ensures WellFormedParts(parts) && DecodedParts(parts) == s
  {
    if s == [] then [] else [PartOf(s[0])] + PartsOf(s[1..])
  }

  function DocOf(v: Json): (d: Doc)
    requires Writable(v)
    ensures WellFormed(d) && Value(d) == v
    decreases v
  {
    match v
    case JToken(text) => Token(text)
    case JString(text) => Text(PartsOf(text))
    case JArray(items) => Array([], ItemsOf(items))
    case JObject(_) => Object([], MembersFrom(v, 0))
  }

  function ItemsOf(items: seq<Json>): (d: Items)
    requires forall i | 0 <= i < |items| :: Writable(items[i])
    ensures WellFormedItems(d) && ItemValues(d) == items
  {
    if items == [] then NoItems else Item([], DocOf(items[0]), [], ItemsOf(items[1..]))
  }

  /** The members of an object from the `i`-th on. */
  function MembersFrom(v: Json, i: nat): (d: Members)
    requires v.JObject? && Writable(v) && i <= |v.members|
    ensures WellFormedMembers(d) && MemberValues(d) == v.members[i..]
    decreases v, |v.members| - i
  {
    if i == |v.members| then NoMembers
    else Member([], PartsOf(v.members[i].0), [], [], DocOf(v.members[i].1), [], MembersFrom(v, i + 1))
  }
}
