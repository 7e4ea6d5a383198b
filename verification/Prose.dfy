/** Picking the reply's prose out of a response document that arrives piece by piece.

    The extractor is a character machine over JSON structure. `Step` is what it does with one
    character; the class below is the extractor itself, proved to do exactly that. */
module Prose {
  import opened Common
  import J = JsonText
  import Machine

  datatype Frame = Object(key: Option<string>, expectingKey: bool) | Array

  datatype Escape = NoEscape | Backslash | Unicode(hex: string)

  /** The string being read: `key` is the text so far of an object key, `None` for a value. */
  datatype Reading = Reading(key: Option<string>, emit: bool, escape: Escape)

  /** A 16-bit code unit, and one that opens a surrogate pair. */
  type Unit = u: int | 0 <= u <= 0xFFFF
  type High = u: int | 0xD800 <= u <= 0xDBFF witness 0xD800

  datatype State = State(
    started: bool, midLine: bool, finished: bool, stack: seq<Frame>, reading: Option<Reading>, high: Option<High>)

  const INITIAL: State := State(false, false, false, [], None, None)

  // ---- Characters ----

  /** Unicode `White_Space`. */
  predicate IsSpace(c: char) {
    var n := c as int;
    9 <= n <= 13 || n == 32 || n == 0x85 || n == 0xA0 || n == 0x1680 || 0x2000 <= n <= 0x200A
    || n == 0x2028 || n == 0x2029 || n == 0x202F || n == 0x205F || n == 0x3000
  }

  /** The code points Unicode gives the property `White_Space`, in order. */
  const WHITE_SPACE: seq<int> :=
    [0x09, 0x0A, 0x0B, 0x0C, 0x0D, 0x20, 0x85, 0xA0, 0x1680, 0x2000, 0x2001, 0x2002, 0x2003, 0x2004, 0x2005, 0x2006, 0x2007,
     0x2008, 0x2009, 0x200A, 0x2028, 0x2029, 0x202F, 0x205F, 0x3000]

  lemma SpacesAre(c: char)
    ensures IsSpace(c) <==> exists i :: 0 <= i < 25 && WHITE_SPACE[i] == c as int
  {
    var n, w := c as int, WHITE_SPACE;
    assert w[0] == 9 && w[1] == 10 && w[2] == 11 && w[3] == 12 && w[4] == 13 && w[5] == 32 && w[6] == 0x85 && w[7] == 0xA0 && w[8] == 0x1680;
    assert w[20] == 0x2028 && w[21] == 0x2029 && w[22] == 0x202F && w[23] == 0x205F && w[24] == 0x3000;
    assert 0x2000 <= n <= 0x200A ==> w[n - 0x2000 + 9] == n;
  }

  /** A text's size in bytes, the unit in which escape digits are counted. */
  function Utf8Size(s: string): nat {
    if s == [] then 0 else Utf8Size(s[..|s| - 1]) + Utf8Length(s[|s| - 1])
  }

  /** A 16-bit number in hexadecimal, an optional sign first; anything else is U+FFFD. */
  function ParseUnit(hex: string): Unit {
    var digits := if hex != [] && hex[0] == '+' then hex[1..] else hex;
    if digits != [] && J.AllHex(digits) && J.HexValue(digits) <= 0xFFFF then J.HexValue(digits) else 0xFFFD
  }

  function Top(stack: seq<Frame>): Option<Frame> {
    if stack == [] then None else Some(stack[|stack| - 1])
  }

  function WithTop(stack: seq<Frame>, frame: Frame): seq<Frame>
    requires stack != []
  {
    stack[..|stack| - 1] + [frame]
  }

  predicate ExpectsKey(stack: seq<Frame>) {
    Top(stack).Some? && Top(stack).value.Object? && Top(stack).value.expectingKey
  }

  /** Below the root's `presentation`, at its `prose`: a string value that comes now is the reply's prose. */
  predicate AtProse(stack: seq<Frame>) {
    |stack| == 2 && stack[0].Object? && stack[0].key == Some("presentation")
    && stack[1] == Object(Some("prose"), false)
  }

  // ---- One character ----

  function Structural(s: State, c: char): State {
    if s.finished then s
    else if !s.started then
      if c == '{' && !s.midLine then s.(started := true, stack := s.stack + [Object(None, true)])
      else if c == '\n' then s.(midLine := false)
      else if IsSpace(c) then s
      else s.(midLine := true)
    else if c == '"' then
      var isKey := ExpectsKey(s.stack);
      s.(reading := Some(Reading(if isKey then Some("") else None, !isKey && AtProse(s.stack), NoEscape)))
    else if c == '{' then s.(stack := s.stack + [Object(None, true)])
    else if c == '[' then s.(stack := s.stack + [Array])
    else if c == '}' || c == ']' then
      var stack := if s.stack == [] then [] else s.stack[..|s.stack| - 1];
      s.(stack := stack, finished := stack == [])
    else if c == ',' && Top(s.stack).Some? && Top(s.stack).value.Object? then
      s.(stack := WithTop(s.stack, Object(None, true)))
    else s
  }

  /** The state after a UTF-16 code unit, and the character it completes. */
  function DecodeUnit(high: Option<High>, unit: Unit): (Option<High>, Option<char>) {
    if 0xD800 <= unit <= 0xDBFF then (Some(unit), None)
    else if 0xDC00 <= unit <= 0xDFFF then
      (None, if high.Some? then Some(PairChar(high.value, unit)) else None)
    else (None, Some(J.CharOf(unit)))
  }

  function PairChar(high: High, low: Unit): char
    requires 0xDC00 <= low <= 0xDFFF
  {
    J.CharOf(0x1_0000 + (high - 0xD800) * 0x400 + (low - 0xDC00))
  }

  function EndString(s: State): State
    requires s.reading.Some?
  {
    var key := s.reading.value.key;
    var s' := s.(reading := None);
    if key.Some? && Top(s.stack).Some? && Top(s.stack).value.Object?
    then s'.(stack := WithTop(s.stack, Object(key, false))) else s'
  }

  /** Adds a decoded character to the key being read, or to the output if the string is the prose. */
  function Accept(s: State, c: char): (State, string)
    requires s.reading.Some?
  {
    var r := s.reading.value;
    if r.key.Some? then (s.(reading := Some(r.(key := Some(r.key.value + [c])))), [])
    else (s, if r.emit then [c] else [])
  }

  function InString(s: State, c: char): (State, string)
    requires s.reading.Some?
  {
    var r := s.reading.value;
    var plain := s.(reading := Some(r.(escape := NoEscape)));
    match r.escape
    case Backslash =>
      if c == 'u' then (s.(reading := Some(r.(escape := Unicode([])))), [])
      else Accept(plain, J.Short2Char(c))
    case Unicode(hex) =>
      var hex' := hex + [c];
      if Utf8Size(hex') < 4 then (s.(reading := Some(r.(escape := Unicode(hex')))), [])
      else
        var (high, decoded) := DecodeUnit(s.high, ParseUnit(hex'));
        if decoded.Some? then Accept(plain.(high := high), decoded.value) else (plain.(high := high), [])
    case NoEscape =>
      if c == '\\' then (s.(reading := Some(r.(escape := Backslash))), [])
      else if c == '"' then (EndString(s), [])
      else Accept(plain, c)
  }

  function Step(s: State, c: char): (State, string) {
    if s.reading.Some? then InString(s, c) else (Structural(s, c), [])
  }

  /** The state after `text`, and everything emitted on the way. */
  function Run(s: State, text: string): (State, string) { Machine.Run(Step, s, text) }

  function Extracted(text: string): string { Run(INITIAL, text).1 }

  lemma RunConcat(s: State, a: string, b: string)
    ensures var (s1, out1) := Run(s, a); var (s2, out2) := Run(s1, b);
      Run(s, a + b) == (s2, out1 + out2)
  {
    Machine.RunConcat(Step, s, a, b);
  }

  lemma RunOne(s: State, c: char)
    ensures Run(s, [c]) == Step(s, c)
  {
    Machine.RunOne(Step, s, c);
  }

  function Joined(chunks: seq<string>): string {
    if chunks == [] then [] else Joined(chunks[..|chunks| - 1]) + chunks[|chunks| - 1]
  }

  // ---- The extractor ----

  class ProseExtractor {
    var started: bool
    var midLine: bool
    var finished: bool
    var stack: seq<Frame>
    var reading: Option<Reading>
    var high: Option<High>

    function Current(): State
      reads this
    {
      State(started, midLine, finished, stack, reading, high)
    }

    constructor ()
      ensures Current() == INITIAL
    {
      started, midLine, finished := false, false, false;
      stack, reading, high := [], None, None;
    }

    method Push(chunk: string) returns (prose: string)
      modifies this
      ensures (Current(), prose) == Run(old(Current()), chunk)
    {
      prose := [];
      for i := 0 to |chunk|
        invariant (Current(), prose) == Run(old(Current()), chunk[..i])
      {
        ghost var before, soFar := Current(), prose;
        if reading.Some? {
          var piece := StringChar(chunk[i]);
          prose := prose + piece;
        } else {
          StructuralChar(chunk[i]);
        }
        RunConcat(old(Current()), chunk[..i], [chunk[i]]);
        assert chunk[..i + 1] == chunk[..i] + [chunk[i]];
        RunOne(before, chunk[i]);
        assert prose == soFar + Step(before, chunk[i]).1;
      }
      assert chunk[..|chunk|] == chunk;
    }

    method StructuralChar(c: char)
      modifies this
      ensures Current() == Structural(old(Current()), c)
    {
      if finished { return; }
      if !started {
        if c == '{' && !midLine {
          started := true;
          stack := stack + [Object(None, true)];
        } else if c == '\n' {
          midLine := false;
        } else if !IsSpace(c) {
          midLine := true;
        }
        return;
      }
      if c == '"' {
        var isKey := ExpectsKey(stack);
        var emit := !isKey && AtProse(stack);
        reading := Some(Reading(if isKey then Some("") else None, emit, NoEscape));
      } else if c == '{' {
        stack := stack + [Object(None, true)];
      } else if c == '[' {
        stack := stack + [Array];
      } else if c == '}' || c == ']' {
        stack := if stack == [] then [] else stack[..|stack| - 1];
        finished := stack == [];
      } else if c == ',' {
        if Top(stack).Some? && Top(stack).value.Object? {
          stack := WithTop(stack, Object(None, true));
        }
      }
    }

    method StringChar(c: char) returns (prose: string)
      requires reading.Some?
      modifies this
      ensures (Current(), prose) == InString(old(Current()), c)
    {
      prose := [];
      var escape := reading.value.escape;
      reading := Some(reading.value.(escape := NoEscape));
      match escape {
        case Backslash =>
          if c == 'u' {
            reading := Some(reading.value.(escape := Unicode([])));
          } else {
            prose := AcceptChar(J.Short2Char(c));
          }
        case Unicode(hex) =>
          if Utf8Size(hex + [c]) < 4 {
            reading := Some(reading.value.(escape := Unicode(hex + [c])));
          } else {
            var decoded := DecodeUtf16(ParseUnit(hex + [c]));
            if decoded.Some? {
              prose := AcceptChar(decoded.value);
            }
          }
        case NoEscape =>
          if c == '\\' {
            reading := Some(reading.value.(escape := Backslash));
          } else if c == '"' {
            CloseString();
          } else {
            prose := AcceptChar(c);
          }
      }
    }

    method AcceptChar(c: char) returns (prose: string)
      requires reading.Some?
      modifies this
      ensures (Current(), prose) == Accept(old(Current()), c)
    {
      prose := [];
      if reading.value.key.Some? {
        reading := Some(reading.value.(key := Some(reading.value.key.value + [c])));
      } else if reading.value.emit {
        prose := [c];
      }
    }

    method DecodeUtf16(unit: Unit) returns (decoded: Option<char>)
      modifies this`high
      ensures (high, decoded) == DecodeUnit(old(high), unit)
    {
      if 0xD800 <= unit <= 0xDBFF {
        high := Some(unit);
        return None;
      } else if 0xDC00 <= unit <= 0xDFFF {
        var first := high;
        high := None;
        return if first.Some? then Some(PairChar(first.value, unit)) else None;
      } else {
        high := None;
        return Some(J.CharOf(unit));
      }
    }

    method CloseString()
      requires reading.Some?
      modifies this
      ensures Current() == EndString(old(Current()))
    {
      var key := reading.value.key;
      reading := None;
      if key.Some? && Top(stack).Some? && Top(stack).value.Object? {
        stack := WithTop(stack, Object(key, false));
      }
    }
  }

  /** However a text is split into chunks, the pieces returned add up to the same prose. */
  method ExtractInChunks(chunks: seq<string>) returns (prose: string)
    ensures prose == Extracted(Joined(chunks))
  {
    var extractor := new ProseExtractor();
    prose := [];
    for i := 0 to |chunks|
      invariant (extractor.Current(), prose) == Run(INITIAL, Joined(chunks[..i]))
      invariant fresh(extractor)
    {
      ghost var before := extractor.Current();
      var piece := extractor.Push(chunks[i]);
      prose := prose + piece;
      assert chunks[..i + 1][..i] == chunks[..i];
      RunConcat(INITIAL, Joined(chunks[..i]), chunks[i]);
    }
    assert chunks[..|chunks|] == chunks;
  }
}
