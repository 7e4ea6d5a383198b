/** Streaming what a model with native tools writes: a note passes through as it is, and from the first
    line that starts with a brace on, what is written is read as a document and its prose picked out. */
module NativeNotes {
  import opened Common
  import opened Prose
  import opened ProseCorrect
  import Machine

  datatype NativeState = NativeState(json: Option<State>, decided: bool, atLineStart: bool)

  const NATIVE_INITIAL := NativeState(None, false, false)

  function NativeStep(s: NativeState, c: char): (NativeState, string) {
    if s.json.Some? then
      var (json, out) := Step(s.json.value, c);
      (s.(json := Some(json)), out)
    else if c == '{' && (!s.decided || s.atLineStart) then
      var (json, out) := Step(INITIAL, c);
      (s.(json := Some(json)), out)
    else
      var decided := s.decided || !IsSpace(c);
      (NativeState(None, decided, if c == '\n' then true else if !IsSpace(c) then false else s.atLineStart),
       if decided then [c] else [])
  }

  function NativeRun(s: NativeState, text: string): (NativeState, string) { Machine.Run(NativeStep, s, text) }

  // ---- The streamer ----

  class NativeProse {
    var json: ProseExtractor?
    var decided: bool
    var atLineStart: bool

    function Current(): NativeState
      reads this, json
    {
      NativeState(if json == null then None else Some(json.Current()), decided, atLineStart)
    }

    constructor ()
      ensures Current() == NATIVE_INITIAL && json == null
    {
      json, decided, atLineStart := null, false, false;
    }

    method Push(chunk: string) returns (out: string)
      modifies this, json
      ensures (Current(), out) == NativeRun(old(Current()), chunk)
      ensures json == old(json) || fresh(json)
    {
      out := [];
      for i := 0 to |chunk|
        invariant (Current(), out) == NativeRun(old(Current()), chunk[..i])
        invariant json == old(json) || fresh(json)
      {
        var piece := PushChar(chunk[i]);
        out := out + piece;
        Machine.RunAppend(NativeStep, old(Current()), chunk[..i], chunk[i]);
        assert chunk[..i + 1] == chunk[..i] + [chunk[i]];
      }
      assert chunk[..|chunk|] == chunk;
    }

    method PushChar(c: char) returns (out: string)
      modifies this, json
      ensures (Current(), out) == NativeStep(old(Current()), c)
      ensures json == old(json) || fresh(json)
    {
      RunOne(if json == null then INITIAL else json.Current(), c);
      if json != null {
        out := json.Push([c]);
        return;
      }
      var startsLine := !decided || atLineStart;
      if c == '{' && startsLine {
        var extractor := new ProseExtractor();
        out := extractor.Push(['{']);
        json := extractor;
        return;
      }
      if !IsSpace(c) {
        decided := true;
      }
      out := if decided then [c] else [];
      if c == '\n' {
        atLineStart := true;
      } else if !IsSpace(c) {
        atLineStart := false;
      }
    }
  }

  // ---- What should come out ----

  predicate AllSpace(text: string) { forall i | 0 <= i < |text| :: IsSpace(text[i]) }

  function TrimStart(text: string): string {
    if text != [] && IsSpace(text[0]) then TrimStart(text[1..]) else text
  }

  /** The position of the first `{` that begins a line, or the end. */
  function FirstOpening(text: string, from: nat): (k: nat)
    requires from <= |text|
    requires forall i: nat | i < from :: !OpensLine(text, i)
    ensures from <= k <= |text|
    ensures forall i: nat | i < k :: !OpensLine(text, i)
    ensures k < |text| ==> OpensLine(text, k)
    decreases |text| - from
  {
    if from == |text| || OpensLine(text, from) then from else FirstOpening(text, from + 1)
  }

  lemma {:induction false} TrimStartAppend(text: string, c: char)
    ensures TrimStart(text + [c]) ==
      if AllSpace(text) then (if IsSpace(c) then [] else [c]) else TrimStart(text) + [c]
    decreases |text|
  {
    if text != [] {
      TrimStartAppend(text[1..], c);
      assert (text + [c])[1..] == text[1..] + [c];
      assert AllSpace(text) <==> IsSpace(text[0]) && AllSpace(text[1..]) by {
        assert text == [text[0]] + text[1..];
      }
    } else {
      assert [c][1..] == [];
      assert text + [c] == [c];
    }
  }

  lemma {:induction false} AllSpaceAtLineStart(text: string)
    requires AllSpace(text)
    ensures AtLineStart(text)
    decreases |text|
  {
    if text != [] {
      AllSpaceAtLineStart(text[..|text| - 1]);
    }
  }

  lemma {:induction false} AllSpaceTrimsAway(text: string)
    requires AllSpace(text)
    ensures TrimStart(text) == []
    decreases |text|
  {
    if text != [] {
      AllSpaceTrimsAway(text[1..]);
    }
  }

  /** What a note without an opening leaves: it has passed through, trimmed at the start. */
  predicate PassedThrough(text: string, s: NativeState, out: string) {
    s.json.None? && out == TrimStart(text) && s.decided == !AllSpace(text) && (s.decided ==> s.atLineStart == AtLineStart(text))
  }

  lemma AllSpaceAppend(text: string, c: char)
    ensures AllSpace(text + [c]) <==> AllSpace(text) && IsSpace(c)
  {
    forall i | 0 <= i < |text| ensures (text + [c])[i] == text[i] {}
    assert (text + [c])[|text|] == c;
  }

  lemma PassesOne(text: string, s: NativeState, out: string, c: char)
    requires PassedThrough(text, s, out) && !OpensLine(text + [c], |text|)
    ensures PassedThrough(text + [c], NativeStep(s, c).0, out + NativeStep(s, c).1)
  {
    assert (text + [c])[..|text|] == text;
    AllSpaceAppend(text, c);
    TrimStartAppend(text, c);
    if AllSpace(text) {
      AllSpaceAtLineStart(text);
      AllSpaceTrimsAway(text);
    }
  }

  lemma {:induction false} NotePassesThrough(text: string)
    requires NoOpening(text)
    ensures var (s, out) := NativeRun(NATIVE_INITIAL, text); PassedThrough(text, s, out)
    decreases |text|
  {
    if text != [] {
      var init, c := text[..|text| - 1], text[|text| - 1];
      assert init + [c] == text;
      forall i: nat | i < |init| ensures !OpensLine(init, i) {
        assert !OpensLine(text, i) && text[..i] == init[..i];
      }
      NotePassesThrough(init);
      var (s, out) := NativeRun(NATIVE_INITIAL, init);
      PassesOne(init, s, out, c);
      Machine.RunAppend(NativeStep, NATIVE_INITIAL, init, c);
    }
  }

  lemma {:induction false} ExtractionContinues(s: NativeState, text: string)
    requires s.json.Some?
    ensures var (s1, out) := NativeRun(s, text);
      s1.json.Some? && (s1.json.value, out) == Run(s.json.value, text)
    decreases |text|
  {
    if text != [] {
      var init, c := text[..|text| - 1], text[|text| - 1];
      ExtractionContinues(s, init);
      Machine.RunAppend(Step, s.json.value, init, c);
      Machine.RunAppend(NativeStep, s, init, c);
      assert init + [c] == text;
    }
  }

  /** What streams out is the note, without leading whitespace, and then exactly what the extractor
      makes of the whole text. */
  lemma NativeRefinesTrimAndExtract(text: string)
    ensures NativeRun(NATIVE_INITIAL, text).1 == TrimStart(text[..FirstOpening(text, 0)]) + Extracted(text)
  {
    var k := FirstOpening(text, 0);
    var note := text[..k];
    forall i: nat | i < |note| ensures !OpensLine(note, i) {
      assert !OpensLine(text, i) && note[..i] == text[..i];
    }
    NotePassesThrough(note);
    RunPreamble(note);
    if k == |text| {
      assert note == text;
      assert TrimStart(note) + [] == TrimStart(note);
    } else {
      var rest := text[k..];
      assert note + rest == text && OpensLine(text, k);
      var (s, out) := NativeRun(NATIVE_INITIAL, note);
      Machine.RunConcat(NativeStep, NATIVE_INITIAL, note, rest);
      RunConcat(INITIAL, note, rest);
      assert [] + Run(INITIAL, rest).1 == Run(INITIAL, rest).1;
      OpeningBrace(s, rest);
    }
  }

  lemma OpeningBrace(s: NativeState, rest: string)
    requires rest != [] && rest[0] == '{' && s.json.None? && (!s.decided || s.atLineStart)
    ensures NativeRun(s, rest).1 == Run(INITIAL, rest).1
  {
    var (s1, out) := NativeStep(s, '{');
    assert ['{'] + rest[1..] == rest;
    Machine.RunConcat(NativeStep, s, ['{'], rest[1..]);
    Machine.RunOne(NativeStep, s, '{');
    RunConcat(INITIAL, ['{'], rest[1..]);
    RunOne(INITIAL, '{');
    ExtractionContinues(s1, rest[1..]);
  }

  /** The same for any split of the text into chunks. */
  method StreamChunks(chunks: seq<string>) returns (out: string)
    ensures var text := Joined(chunks); out == TrimStart(text[..FirstOpening(text, 0)]) + Extracted(text)
  {
    var native := new NativeProse();
    out := [];
    for i := 0 to |chunks|
      invariant (native.Current(), out) == NativeRun(NATIVE_INITIAL, Joined(chunks[..i]))
      invariant fresh(native) && (native.json == null || fresh(native.json))
    {
      var piece := native.Push(chunks[i]);
      out := out + piece;
      assert chunks[..i + 1][..i] == chunks[..i];
      Machine.RunConcat(NativeStep, NATIVE_INITIAL, Joined(chunks[..i]), chunks[i]);
    }
    assert chunks[..|chunks|] == chunks;
    NativeRefinesTrimAndExtract(Joined(chunks));
  }
}
