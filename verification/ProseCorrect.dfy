/** The extractor against the value of the document: whatever way a document is written, and
    whatever surrounds it, exactly the decoded `presentation.prose` comes out. */
module ProseCorrect {
  import opened Common
  import opened Prose
  import J = JsonText

  // ---- What should come out, from the document's value alone ----

  /** Every string at `key` among `members`, in order. */
  function StringsAt(members: seq<(string, J.Json)>, key: string): string {
    if members == [] then []
    else (if members[0].0 == key && members[0].1.JString? then members[0].1.text else []) + StringsAt(members[1..], key)
  }

  /** Every string at `presentation.prose`, in order (keys may repeat). */
  function ProsesOf(members: seq<(string, J.Json)>): string {
    if members == [] then []
    else (if members[0].0 == "presentation" && members[0].1.JObject? then StringsAt(members[0].1.members, "prose") else [])
         + ProsesOf(members[1..])
  }

  /** The string at `presentation.prose` of a root object, or nothing. */
  function ProseOf(root: J.Json): string {
    if !root.JObject? then []
    else match J.Lookup(root.members, "presentation")
      case Some(JObject(members)) =>
        (match J.Lookup(members, "prose") case Some(JString(text)) => text case _ => [])
      case _ => []
  }

  // ---- Composing runs ----

  predicate Goes(s: State, text: string, s': State, out: string) {
    Run(s, text) == (s', out)
  }

  lemma Then(s: State, a: string, s1: State, out1: string, b: string, s2: State, out2: string)
    requires Goes(s, a, s1, out1) && Goes(s1, b, s2, out2)
    ensures Goes(s, a + b, s2, out1 + out2)
  {
    RunConcat(s, a, b);
  }

  /** `Then` when the first part emits nothing. */
  lemma ThenQuietly(s: State, a: string, s1: State, b: string, s2: State, out: string)
    requires Goes(s, a, s1, []) && Goes(s1, b, s2, out)
    ensures Goes(s, a + b, s2, out)
  {
    Then(s, a, s1, [], b, s2, out);
    assert [] + out == out;
  }

  function Between(stack: seq<Frame>): State {
    State(true, false, false, stack, None, None)
  }

  function Inside(stack: seq<Frame>, key: Option<string>, emit: bool, escape: Escape, high: Option<High>): State {
    State(true, false, false, stack, Some(Reading(key, emit, escape)), high)
  }

  // ---- Strings ----

  predicate IsAscii(s: string) { forall i | 0 <= i < |s| :: s[i] as int < 0x80 }

  lemma AsciiSize(s: string)
    requires IsAscii(s)
    ensures Utf8Size(s) == |s|
  {
    if s != [] {
      AsciiSize(s[..|s| - 1]);
    }
  }

  lemma HexIsAscii(hex: string)
    requires J.AllHex(hex)
    ensures IsAscii(hex) && forall i | 0 <= i < |hex| :: hex[i] != '+'
  {
    forall i | 0 <= i < |hex| ensures hex[i] as int < 0x80 && hex[i] != '+' {
      assert hex[i] in hex;
      assert J.HexDigit(hex[i]).Some?;
    }
  }

  function Escaping(s: State, escape: Escape): State
    requires s.reading.Some?
  {
    s.(reading := Some(s.reading.value.(escape := escape)))
  }

  lemma {:induction false} HexDigitsCollect(s: State, hex: string, n: nat)
    requires s.reading.Some? && s.reading.value.escape == Unicode([])
    requires J.AllHex(hex) && n <= 3 && n <= |hex|
    ensures Goes(s, hex[..n], Escaping(s, Unicode(hex[..n])), [])
  {
    if n > 0 {
      HexDigitsCollect(s, hex, n - 1);
      var s1 := Escaping(s, Unicode(hex[..n - 1]));
      assert hex[..n] == hex[..n - 1] + [hex[n - 1]];
      HexIsAscii(hex);
      AsciiSize(hex[..n]);
      RunOne(s1, hex[n - 1]);
      ThenQuietly(s, hex[..n - 1], s1, [hex[n - 1]], Step(s1, hex[n - 1]).0, []);
    }
  }

  lemma ParseUnitOfHex(hex: string)
    requires J.FourHex(hex)
    ensures Utf8Size(hex) == 4 && ParseUnit(hex) == J.HexValue(hex) <= 0xFFFF
  {
    HexIsAscii(hex);
    AsciiSize(hex);
    assert J.Power16(4) == 65_536;
  }

  /** What a `\u` escape does: one UTF-16 code unit. */
  function AfterUnit(s: State, unit: Unit): (State, string)
    requires s.reading.Some?
  {
    var (high, decoded) := DecodeUnit(s.high, unit);
    if decoded.Some? then Accept(s.(high := high), decoded.value) else (s.(high := high), [])
  }

  lemma LastHexDigit(s: State, hex: string)
    requires s.reading.Some? && s.reading.value.escape == NoEscape && J.FourHex(hex)
    ensures J.HexValue(hex) <= 0xFFFF
    ensures Step(Escaping(s, Unicode(hex[..3])), hex[3]) == AfterUnit(s, J.HexValue(hex))
  {
    ParseUnitOfHex(hex);
    assert hex[..3] + [hex[3]] == hex;
    assert Escaping(Escaping(s, Unicode(hex[..3])), NoEscape) == s;
  }

  lemma EscapeU(s: State)
    requires s.reading.Some? && s.reading.value.escape == NoEscape
    ensures Goes(s, ['\\', 'u'], Escaping(s, Unicode([])), [])
  {
    RunOne(s, '\\');
    RunOne(Escaping(s, Backslash), 'u');
    ThenQuietly(s, ['\\'], Escaping(s, Backslash), ['u'], Escaping(s, Unicode([])), []);
    assert ['\\'] + ['u'] == ['\\', 'u'];
  }

  lemma UnicodeEscape(s: State, hex: string)
    requires s.reading.Some? && s.reading.value.escape == NoEscape
    requires J.FourHex(hex)
    ensures J.HexValue(hex) <= 0xFFFF
    ensures Run(s, ['\\', 'u'] + hex) == AfterUnit(s, J.HexValue(hex))
  {
    var s2, s3 := Escaping(s, Unicode([])), Escaping(s, Unicode(hex[..3]));
    LastHexDigit(s, hex);
    var (s4, out) := AfterUnit(s, J.HexValue(hex));
    EscapeU(s);
    HexDigitsCollect(s2, hex, 3);
    RunOne(s3, hex[3]);
    ThenQuietly(s2, hex[..3], s3, [hex[3]], s4, out);
    assert hex[..3] + [hex[3]] == hex;
    ThenQuietly(s, ['\\', 'u'], s2, hex, s4, out);
  }

  lemma ShortEscape(s: State, c: char)
    requires s.reading.Some? && s.reading.value.escape == NoEscape && c != 'u'
    ensures Run(s, ['\\', c]) == Accept(s, J.Short2Char(c))
  {
    var s1 := s.(reading := Some(s.reading.value.(escape := Backslash)));
    RunOne(s, '\\');
    RunOne(s1, c);
    var (s2, out) := Accept(s, J.Short2Char(c));
    ThenQuietly(s, ['\\'], s1, [c], s2, out);
    assert ['\\'] + [c] == ['\\', c];
  }

  /** So each of the eight short escapes adds the character it stands for. */
  lemma ShortEscapeDenotes(s: State, c: char)
    requires s.reading.Some? && s.reading.value.escape == NoEscape && c in J.ESCAPES
    ensures 0 <= J.ESCAPES[c] < 0x80 && Run(s, ['\\', c]) == Accept(s, J.ESCAPES[c] as char)
  {
    J.ShortDenotes(c);
    ShortEscape(s, c);
  }

  lemma PairOfUnits(s: State, high: High, low: Unit)
    requires s.reading.Some? && s.high == None && 0xDC00 <= low <= 0xDFFF
    ensures AfterUnit(s, high) == (s.(high := Some(high)), [])
    ensures AfterUnit(s.(high := Some(high)), low) == Accept(s, PairChar(high, low))
  {
    assert s.(high := Some(high)).(high := None) == s;
  }

  lemma SurrogateEscapes(s: State, high: string, low: string)
    requires s.reading.Some? && s.reading.value.escape == NoEscape && s.high == None
    requires J.WellFormedPart(J.Surrogates(high, low))
    ensures Run(s, (['\\', 'u'] + high) + (['\\', 'u'] + low)) == Accept(s, PairChar(J.HexValue(high), J.HexValue(low)))
  {
    var s1 := s.(high := Some(J.HexValue(high)));
    UnicodeEscape(s, high);
    UnicodeEscape(s1, low);
    PairOfUnits(s, J.HexValue(high), J.HexValue(low));
    var (s2, out) := Accept(s, PairChar(J.HexValue(high), J.HexValue(low)));
    ThenQuietly(s, ['\\', 'u'] + high, s1, ['\\', 'u'] + low, s2, out);
  }

  lemma RunPart(s: State, p: J.Part)
    requires s.reading.Some? && s.reading.value.escape == NoEscape && s.high == None
    requires J.WellFormedPart(p)
    ensures Run(s, J.PartText(p)) == Accept(s, J.Decoded(p))
  {
    match p
    case Plain(c) => RunOne(s, c);
    case Short(c) => ShortEscape(s, c);
    case Unicode(hex) => UnicodeEscape(s, hex);
    case Surrogates(high, low) => SurrogateEscapes(s, high, low);
  }

  lemma RunKeyPart(stack: seq<Frame>, key: string, p: J.Part)
    requires J.WellFormedPart(p)
    ensures Goes(Inside(stack, Some(key), false, NoEscape, None), J.PartText(p),
                 Inside(stack, Some(key + [J.Decoded(p)]), false, NoEscape, None), [])
  {
    RunPart(Inside(stack, Some(key), false, NoEscape, None), p);
  }

  lemma KeyGrows(key: string, c: char, rest: string)
    ensures (key + [c]) + rest == key + ([c] + rest)
  {
  }

  lemma {:induction false} RunKeyParts(stack: seq<Frame>, key: string, parts: seq<J.Part>)
    requires J.WellFormedParts(parts)
    ensures Goes(Inside(stack, Some(key), false, NoEscape, None), J.PartsText(parts),
                 Inside(stack, Some(key + J.DecodedParts(parts)), false, NoEscape, None), [])
    decreases |parts|
  {
    if parts == [] {
      assert key + [] == key;
    } else {
      assert parts[0] in parts;
      var s := Inside(stack, Some(key), false, NoEscape, None);
      var c, rest := J.Decoded(parts[0]), J.DecodedParts(parts[1..]);
      RunKeyPart(stack, key, parts[0]);
      RunKeyParts(stack, key + [c], parts[1..]);
      KeyGrows(key, c, rest);
      ThenQuietly(s, J.PartText(parts[0]), Inside(stack, Some(key + [c]), false, NoEscape, None),
                  J.PartsText(parts[1..]), Inside(stack, Some(key + ([c] + rest)), false, NoEscape, None), []);
    }
  }

  lemma {:induction false} RunValueParts(stack: seq<Frame>, emit: bool, parts: seq<J.Part>)
    requires J.WellFormedParts(parts)
    ensures var s := Inside(stack, None, emit, NoEscape, None);
      Goes(s, J.PartsText(parts), s, if emit then J.DecodedParts(parts) else [])
    decreases |parts|
  {
    if parts != [] {
      assert parts[0] in parts;
      var s := Inside(stack, None, emit, NoEscape, None);
      var c, rest := J.Decoded(parts[0]), J.DecodedParts(parts[1..]);
      RunPart(s, parts[0]);
      RunValueParts(stack, emit, parts[1..]);
      Then(s, J.PartText(parts[0]), s, if emit then [c] else [], J.PartsText(parts[1..]), s, if emit then rest else []);
    }
  }

  /** A string in key position becomes the object's current key. */
  lemma RunKey(stack: seq<Frame>, parts: seq<J.Part>)
    requires J.WellFormedParts(parts) && ExpectsKey(stack)
    ensures Goes(Between(stack), J.StringText(parts), Between(WithTop(stack, Object(Some(J.DecodedParts(parts)), false))), [])
  {
    var s1 := Inside(stack, Some(""), false, NoEscape, None);
    var s2 := Inside(stack, Some(J.DecodedParts(parts)), false, NoEscape, None);
    RunOne(Between(stack), '"');
    RunKeyParts(stack, "", parts);
    assert "" + J.DecodedParts(parts) == J.DecodedParts(parts);
    RunOne(s2, '"');
    ThenQuietly(s1, J.PartsText(parts), s2, ['"'], Step(s2, '"').0, []);
    ThenQuietly(Between(stack), ['"'], s1, J.PartsText(parts) + ['"'], Step(s2, '"').0, []);
  }

  /** A string in value position is emitted, decoded, exactly when it is the prose. */
  lemma RunString(stack: seq<Frame>, parts: seq<J.Part>)
    requires J.WellFormedParts(parts) && !ExpectsKey(stack)
    ensures Goes(Between(stack), J.StringText(parts), Between(stack), if AtProse(stack) then J.DecodedParts(parts) else [])
  {
    var emit := AtProse(stack);
    var out := if emit then J.DecodedParts(parts) else [];
    var s1 := Inside(stack, None, emit, NoEscape, None);
    RunOne(Between(stack), '"');
    RunValueParts(stack, emit, parts);
    RunOne(s1, '"');
    Then(s1, J.PartsText(parts), s1, out, ['"'], Between(stack), []);
    assert out + [] == out;
    ThenQuietly(Between(stack), ['"'], s1, J.PartsText(parts) + ['"'], Between(stack), out);
  }

  // ---- Values ----

  /** Characters without structural meaning between strings. */
  predicate Inert(c: char) { c !in ['"', '{', '}', '[', ']', ','] }

  lemma {:induction false} RunInert(stack: seq<Frame>, text: string)
    requires forall c | c in text :: Inert(c)
    ensures Goes(Between(stack), text, Between(stack), [])
    decreases |text|
  {
    if text != [] {
      assert text[0] in text;
      RunInert(stack, text[1..]);
      RunOne(Between(stack), text[0]);
      ThenQuietly(Between(stack), [text[0]], Between(stack), text[1..], Between(stack), []);
      assert [text[0]] + text[1..] == text;
    }
  }

  predicate InValuePosition(stack: seq<Frame>) { stack != [] && !ExpectsKey(stack) }

  function Push(stack: seq<Frame>, frame: Frame): seq<Frame> { stack + [frame] }

  /** What a document emits, by the frames it stands in. */
  function Emits(stack: seq<Frame>, d: J.Doc): string
    requires J.WellFormed(d)
    decreases d
  {
    match d
    case Token(_) => []
    case Text(parts) => if AtProse(stack) then J.DecodedParts(parts) else []
    case Array(_, items) => ItemsEmit(Push(stack, Array), items)
    case Object(_, members) => MembersEmit(stack, members)
  }

  function ItemsEmit(stack: seq<Frame>, items: J.Items): string
    requires J.WellFormedItems(items)
    decreases items
  {
    match items
    case NoItems => []
    case Item(_, value, _, rest) => Emits(stack, value) + ItemsEmit(stack, rest)
  }

  function MembersEmit(stack: seq<Frame>, members: J.Members): string
    requires J.WellFormedMembers(members)
    decreases members
  {
    match members
    case NoMembers => []
    case Member(_, key, _, _, value, _, rest) =>
      Emits(Push(stack, Object(Some(J.DecodedParts(key)), false)), value) + MembersEmit(stack, rest)
  }

  /** The frame of an object once `members` have been read after frame `frame`. */
  function LastFrame(members: J.Members, frame: Frame): Frame
    requires J.WellFormedMembers(members)
  {
    match members
    case NoMembers => frame
    case Member(_, key, _, _, _, _, rest) => LastFrame(rest, Object(Some(J.DecodedParts(key)), false))
  }

  lemma {:induction false} RunDoc(stack: seq<Frame>, d: J.Doc)
    requires J.WellFormed(d) && InValuePosition(stack)
    ensures Goes(Between(stack), J.DocText(d), Between(stack), Emits(stack, d))
    decreases d, 1
  {
    match d
    case Token(text) =>
      assert forall c | c in text :: J.TokenChar(c);
      RunInert(stack, text);
    case Text(parts) =>
      RunString(stack, parts);
    case Array(pad, items) =>
      RunItems(Push(stack, Array), items, true);
      RunInert(Push(stack, Array), pad);
      ThenQuietly(Between(Push(stack, Array)), pad, Between(Push(stack, Array)), J.ItemsText(items, true),
                  Between(Push(stack, Array)), ItemsEmit(Push(stack, Array), items));
      Bracketed(stack, '[', Array, pad, J.ItemsText(items, true), Array, ItemsEmit(Push(stack, Array), items), ']');
    case Object(pad, members) =>
      RunBody(stack, pad, members);
      Bracketed(stack, '{', Object(None, true), pad, J.MembersText(members, true), LastFrame(members, Object(None, true)),
                MembersEmit(stack, members), '}');
  }

  /** A bracketed body that keeps to its own frame leaves the stack as it was. */
  lemma Bracketed(stack: seq<Frame>, open: char, first: Frame, pad: string, body: string, last: Frame, out: string, close: char)
    requires stack != []
    requires (open == '{' && first == Object(None, true)) || (open == '[' && first == Array)
    requires close == '}' || close == ']'
    requires Goes(Between(Push(stack, first)), pad + body, Between(Push(stack, last)), out)
    ensures Goes(Between(stack), [open] + (pad + (body + [close])), Between(stack), out)
  {
    var s, inner := Between(stack), Between(Push(stack, first));
    RunOne(s, open);
    RunOne(Between(Push(stack, last)), close);
    assert Push(stack, last)[..|stack|] == stack;
    Then(inner, pad + body, Between(Push(stack, last)), out, [close], s, []);
    assert (pad + body) + [close] == pad + (body + [close]);
    assert out + [] == out;
    ThenQuietly(s, [open], inner, pad + (body + [close]), s, out);
  }

  /** The padding and members of an object whose `{` has just been read. */
  lemma {:induction false} RunBody(stack: seq<Frame>, pad: string, members: J.Members)
    requires J.AllWhitespace(pad) && J.WellFormedMembers(members)
    ensures Goes(Between(Push(stack, Object(None, true))), pad + J.MembersText(members, true),
                 Between(Push(stack, LastFrame(members, Object(None, true)))), MembersEmit(stack, members))
    decreases members, 1
  {
    var first := Between(Push(stack, Object(None, true)));
    RunInert(Push(stack, Object(None, true)), pad);
    RunMembers(stack, members, Object(None, true), true);
    ThenQuietly(first, pad, first, J.MembersText(members, true),
                Between(Push(stack, LastFrame(members, Object(None, true)))), MembersEmit(stack, members));
  }

  lemma {:induction false} RunItems(stack: seq<Frame>, items: J.Items, first: bool)
    requires J.WellFormedItems(items) && stack != [] && stack[|stack| - 1] == Array
    ensures Goes(Between(stack), J.ItemsText(items, first), Between(stack), ItemsEmit(stack, items))
    decreases items, 0
  {
    var s := Between(stack);
    match items
    case NoItems =>
    case Item(before, value, after, rest) =>
      var tail := J.ItemsText(rest, false);
      var (out, outRest) := (Emits(stack, value), ItemsEmit(stack, rest));
      RunDoc(stack, value);
      RunItems(stack, rest, false);
      RunInert(stack, before);
      RunInert(stack, after);
      ThenQuietly(s, after, s, tail, s, outRest);
      Then(s, J.DocText(value), s, out, after + tail, s, outRest);
      ThenQuietly(s, before, s, J.DocText(value) + (after + tail), s, out + outRest);
      if !first {
        RunOne(s, ',');
      }
      ThenQuietly(s, J.Separator(first), s, before + (J.DocText(value) + (after + tail)), s, out + outRest);
  }

  /** A member from the end of its key on, given how its value and the rest of the object run. */
  lemma AfterKey(stack: seq<Frame>, beforeColon: string, afterColon: string, value: string, out: string, after: string,
                 rest: string, end: State, outRest: string)
    requires J.AllWhitespace(beforeColon) && J.AllWhitespace(afterColon) && J.AllWhitespace(after)
    requires Goes(Between(stack), value, Between(stack), out) && Goes(Between(stack), rest, end, outRest)
    ensures Goes(Between(stack), beforeColon + ([':'] + (afterColon + (value + (after + rest)))), end, out + outRest)
  {
    var s := Between(stack);
    RunInert(stack, after);
    ThenQuietly(s, after, s, rest, end, outRest);
    Then(s, value, s, out, after + rest, end, outRest);
    var text := value + (after + rest);
    RunInert(stack, afterColon);
    ThenQuietly(s, afterColon, s, text, end, out + outRest);
    RunInert(stack, [':']);
    ThenQuietly(s, [':'], s, afterColon + text, end, out + outRest);
    RunInert(stack, beforeColon);
    ThenQuietly(s, beforeColon, s, [':'] + (afterColon + text), end, out + outRest);
  }

  /** A member up to the end of its key. */
  lemma UpToKey(stack: seq<Frame>, frame: Frame, first: bool, before: string, key: seq<J.Part>, rest: string, end: State,
                out: string)
    requires frame.Object? && (first ==> frame == Object(None, true))
    requires J.AllWhitespace(before) && J.WellFormedParts(key)
    requires Goes(Between(Push(stack, Object(Some(J.DecodedParts(key)), false))), rest, end, out)
    ensures Goes(Between(Push(stack, frame)), J.Separator(first) + (before + (J.StringText(key) + rest)), end, out)
  {
    var open, inner := Push(stack, Object(None, true)), Push(stack, Object(Some(J.DecodedParts(key)), false));
    var s0, s1 := Between(Push(stack, frame)), Between(open);
    RunKey(open, key);
    assert WithTop(open, Object(Some(J.DecodedParts(key)), false)) == inner;
    ThenQuietly(s1, J.StringText(key), Between(inner), rest, end, out);
    RunInert(open, before);
    ThenQuietly(s1, before, s1, J.StringText(key) + rest, end, out);
    if !first {
      RunOne(s0, ',');
      assert WithTop(Push(stack, frame), Object(None, true)) == open;
    }
    ThenQuietly(s0, J.Separator(first), s1, before + (J.StringText(key) + rest), end, out);
  }

  lemma {:induction false} RunMembers(stack: seq<Frame>, members: J.Members, frame: Frame, first: bool)
    requires J.WellFormedMembers(members) && frame.Object?
    requires first ==> frame == Object(None, true)
    ensures Goes(Between(Push(stack, frame)), J.MembersText(members, first),
                 Between(Push(stack, LastFrame(members, frame))), MembersEmit(stack, members))
    decreases members, 0
  {
    match members
    case NoMembers =>
    case Member(before, key, beforeColon, afterColon, value, after, rest) =>
      var frame' := Object(Some(J.DecodedParts(key)), false);
      var inner, end := Push(stack, frame'), Between(Push(stack, LastFrame(members, frame)));
      var tail := J.MembersText(rest, false);
      RunDoc(inner, value);
      RunMembers(stack, rest, frame', false);
      AfterKey(inner, beforeColon, afterColon, J.DocText(value), Emits(inner, value), after, tail, end, MembersEmit(stack, rest));
      UpToKey(stack, frame, first, before, key,
              beforeColon + ([':'] + (afterColon + (J.DocText(value) + (after + tail)))), end, MembersEmit(stack, members));
  }

  // ---- From frames to paths ----

  /** Frames below which no string can be the root's `presentation.prose`. */
  predicate Dead(stack: seq<Frame>) {
    |stack| >= 3 || (|stack| == 2 && !AtProse(stack)) || (|stack| == 1 && stack[0] == Array)
    || (|stack| == 1 && stack[0].Object? && stack[0].key != Some("presentation"))
  }

  lemma {:induction false} DeadEmitsNothing(stack: seq<Frame>, d: J.Doc)
    requires J.WellFormed(d)
    requires Dead(stack) || (|stack| == 2 && !d.Text?)
    ensures Emits(stack, d) == []
    decreases d, 1
  {
    match d
    case Array(_, items) => DeadItems(Push(stack, Array), items);
    case Object(_, members) => DeadMembers(stack, members);
    case _ =>
  }

  lemma {:induction false} DeadItems(stack: seq<Frame>, items: J.Items)
    requires J.WellFormedItems(items) && Dead(stack)
    ensures ItemsEmit(stack, items) == []
    decreases items, 0
  {
    match items
    case NoItems =>
    case Item(_, value, _, rest) =>
      DeadEmitsNothing(stack, value);
      DeadItems(stack, rest);
  }

  lemma {:induction false} DeadMembers(stack: seq<Frame>, members: J.Members)
    requires J.WellFormedMembers(members) && (Dead(stack) || |stack| == 2) && stack != []
    ensures MembersEmit(stack, members) == []
    decreases members, 0
  {
    match members
    case NoMembers =>
    case Member(_, key, _, _, value, _, rest) =>
      var inner := Push(stack, Object(Some(J.DecodedParts(key)), false));
      assert |inner| == 2 ==> inner[0] == stack[0];
      DeadEmitsNothing(inner, value);
      DeadMembers(stack, rest);
  }

  lemma {:induction false} PresentationEmits(stack: seq<Frame>, members: J.Members)
    requires J.WellFormedMembers(members)
    requires |stack| == 1 && stack[0].Object? && stack[0].key == Some("presentation")
    ensures MembersEmit(stack, members) == StringsAt(J.MemberValues(members), "prose")
  {
    match members
    case NoMembers =>
    case Member(_, key, _, _, value, _, rest) =>
      var values := J.MemberValues(members);
      assert values[1..] == J.MemberValues(rest);
      var inner := Push(stack, Object(Some(J.DecodedParts(key)), false));
      if !value.Text? || J.DecodedParts(key) != "prose" {
        DeadEmitsNothing(inner, value);
      }
      PresentationEmits(stack, rest);
  }

  lemma {:induction false} RootEmits(members: J.Members)
    requires J.WellFormedMembers(members)
    ensures MembersEmit([], members) == ProsesOf(J.MemberValues(members))
  {
    match members
    case NoMembers =>
    case Member(_, key, _, _, value, _, rest) =>
      var values := J.MemberValues(members);
      assert values[1..] == J.MemberValues(rest);
      var inner := Push([], Object(Some(J.DecodedParts(key)), false));
      match value {
        case Object(_, inside) =>
          if J.DecodedParts(key) == "presentation" {
            PresentationEmits(inner, inside);
          } else {
            DeadMembers(inner, inside);
          }
        case Array(_, items) => DeadItems(Push(inner, Array), items);
        case _ =>
      }
      RootEmits(rest);
  }

  // ---- Around the document ----

  /** Whether only whitespace follows the last newline of `text`. */
  predicate AtLineStart(text: string) {
    text == [] || text[|text| - 1] == '\n' || (IsSpace(text[|text| - 1]) && AtLineStart(text[..|text| - 1]))
  }

  /** Whether the character at `i` is a `{` that begins its line. */
  predicate OpensLine(text: string, i: nat)
    requires i < |text|
  {
    text[i] == '{' && AtLineStart(text[..i])
  }

  predicate NoOpening(text: string) { forall i: nat | i < |text| :: !OpensLine(text, i) }

  function Before(midLine: bool): State { State(false, midLine, false, [], None, None) }

  lemma {:induction false} RunPreamble(text: string)
    requires NoOpening(text)
    ensures Goes(INITIAL, text, Before(!AtLineStart(text)), [])
    decreases |text|
  {
    if text != [] {
      var init, c := text[..|text| - 1], text[|text| - 1];
      forall i: nat | i < |init| ensures !OpensLine(init, i) {
        assert !OpensLine(text, i) && text[..i] == init[..i];
      }
      RunPreamble(init);
      assert !OpensLine(text, |text| - 1);
      RunOne(Before(!AtLineStart(init)), c);
      ThenQuietly(INITIAL, init, Before(!AtLineStart(init)), [c], Before(!AtLineStart(text)), []);
      assert init + [c] == text;
    }
  }

  lemma {:induction false} RunFinished(s: State, text: string)
    requires s.finished && s.reading.None?
    ensures Goes(s, text, s, [])
    decreases |text|
  {
    if text != [] {
      RunFinished(s, text[1..]);
      RunOne(s, text[0]);
      ThenQuietly(s, [text[0]], s, text[1..], s, []);
      assert [text[0]] + text[1..] == text;
    }
  }

  lemma RunRootBody(pad: string, members: J.Members)
    requires J.WellFormed(J.Object(pad, members))
    ensures Goes(Between(Push([], Object(None, true))), pad + (J.MembersText(members, true) + ['}']),
                 State(true, false, true, [], None, None), ProsesOf(J.MemberValues(members)))
  {
    var out := ProsesOf(J.MemberValues(members));
    var first := Push([], Object(None, true));
    var last := Push([], LastFrame(members, Object(None, true)));
    var end := State(true, false, true, [], None, None);
    RunBody([], pad, members);
    RootEmits(members);
    RunOne(Between(last), '}');
    Then(Between(first), pad + J.MembersText(members, true), Between(last), out, ['}'], end, []);
    assert (pad + J.MembersText(members, true)) + ['}'] == pad + (J.MembersText(members, true) + ['}']);
    assert out + [] == out;
  }

  lemma RunRoot(pad: string, members: J.Members)
    requires J.WellFormed(J.Object(pad, members))
    ensures Goes(INITIAL, J.DocText(J.Object(pad, members)), State(true, false, true, [], None, None),
                 ProsesOf(J.MemberValues(members)))
  {
    var out := ProsesOf(J.MemberValues(members));
    var first := Push([], Object(None, true));
    var end := State(true, false, true, [], None, None);
    RunOne(INITIAL, '{');
    RunRootBody(pad, members);
    ThenQuietly(INITIAL, ['{'], Between(first), pad + (J.MembersText(members, true) + ['}']), end, out);
  }

  // ---- Main results ----

  /** However the document is written, whatever precedes it without opening a line with `{`, and
      whatever follows it: what comes out is every string at `presentation.prose`, decoded. */
  lemma ExtractsEveryProse(preamble: string, pad: string, members: J.Members, trailing: string)
    requires NoOpening(preamble) && AtLineStart(preamble)
    requires J.WellFormed(J.Object(pad, members))
    ensures Extracted(preamble + (J.DocText(J.Object(pad, members)) + trailing)) == ProsesOf(J.MemberValues(members))
  {
    var out := ProsesOf(J.MemberValues(members));
    var end := State(true, false, true, [], None, None);
    RunPreamble(preamble);
    RunRoot(pad, members);
    RunFinished(end, trailing);
    Then(INITIAL, J.DocText(J.Object(pad, members)), end, out, trailing, end, []);
    assert out + [] == out;
    ThenQuietly(INITIAL, preamble, INITIAL, J.DocText(J.Object(pad, members)) + trailing, end, out);
  }

  lemma {:induction false} DistinctStringsAt(members: seq<(string, J.Json)>, key: string)
    requires J.DistinctKeys(members)
    ensures StringsAt(members, key) == match J.Lookup(members, key) case Some(JString(text)) => text case _ => []
    ensures (forall m | m in members :: m.0 != key) ==> J.Lookup(members, key) == None
    decreases |members|
  {
    if members != [] {
      DistinctStringsAt(members[1..], key);
      if members[0].0 == key {
        assert forall m | m in members[1..] :: m.0 != key;
      }
    }
  }

  lemma {:induction false} DistinctProsesOf(members: seq<(string, J.Json)>)
    requires J.DistinctKeys(members)
    requires forall m | m in members && m.0 == "presentation" && m.1.JObject? :: J.DistinctKeys(m.1.members)
    ensures ProsesOf(members) == ProseOf(J.JObject(members))
    ensures (forall m | m in members :: m.0 != "presentation") ==> ProsesOf(members) == []
    decreases |members|
  {
    if members != [] {
      DistinctProsesOf(members[1..]);
      if members[0].0 == "presentation" {
        assert forall m | m in members[1..] :: m.0 != "presentation";
        assert members[0] in members;
        if members[0].1.JObject? {
          DistinctStringsAt(members[0].1.members, "prose");
        }
      }
    }
  }

  /** With distinct keys that is the one string at `presentation.prose`, or nothing. */
  lemma ExtractsTheProse(preamble: string, pad: string, members: J.Members, trailing: string)
    requires NoOpening(preamble) && AtLineStart(preamble)
    requires J.WellFormed(J.Object(pad, members))
    requires J.DistinctKeys(J.MemberValues(members))
    requires forall m | m in J.MemberValues(members) && m.0 == "presentation" && m.1.JObject? :: J.DistinctKeys(m.1.members)
    ensures Extracted(preamble + (J.DocText(J.Object(pad, members)) + trailing)) == ProseOf(J.Value(J.Object(pad, members)))
  {
    ExtractsEveryProse(preamble, pad, members, trailing);
    DistinctProsesOf(J.MemberValues(members));
  }
}
