/** Masking source code: strings and comments become spaces, byte for byte, so that every offset of
    the masked text is an offset of the source. */
module Masking {
  import opened Common

  datatype Language = Rust | JavaScript | TypeScript | Python

  type Text = seq<char>

  // ---- Bytes ----

  /** One byte of a text: the `k`-th of its character. */
  datatype Byte = Byte(c: char, k: nat)

  function Encoded(c: char): (b: seq<Byte>)
    ensures |b| == Utf8Length(c)
  {
    seq(Utf8Length(c), k requires 0 <= k < Utf8Length(c) => Byte(c, k))
  }

  function Bytes(s: Text): seq<Byte> {
    if s == [] then [] else Bytes(s[..|s| - 1]) + Encoded(s[|s| - 1])
  }

  const SPACE := Byte(' ', 0)
  const NEWLINE := Byte('\n', 0)

  lemma BytesConcat(a: Text, b: Text)
    ensures Bytes(a + b) == Bytes(a) + Bytes(b)
    decreases |b|
  {
    if b == [] {
      assert a + b == a;
    } else {
      assert (a + b)[..|a + b| - 1] == a + b[..|b| - 1];
      BytesConcat(a, b[..|b| - 1]);
    }
  }

  // ---- Where regions end ----

  predicate At(s: Text, i: nat, c: char) { i < |s| && s[i] == c }

  predicate IsIdent(c: char, alphanumeric: char -> bool) { alphanumeric(c) || c == '_' }

  /** The first `target` at or after `from`. */
  method FindFrom(s: Text, from: nat, target: char) returns (r: Option<nat>)
    ensures r.Some? ==> from <= r.value < |s| && s[r.value] == target && forall k | from <= k < r.value :: s[k] != target
    ensures r.None? ==> forall k | from <= k < |s| :: s[k] != target
    ensures r == First(s, from, target)
  {
    var i := from;
    while i < |s|
      invariant from <= i && forall k | from <= k < i && k < |s| :: s[k] != target
      invariant First(s, from, target) == First(s, i, target)
    {
      if s[i] == target { return Some(i); }
      i := i + 1;
    }
    return None;
  }

  function First(s: Text, from: nat, target: char): (r: Option<nat>)
    ensures r.Some? ==> from <= r.value < |s|
    decreases |s| - from
  {
    if from >= |s| then None else if s[from] == target then Some(from) else First(s, from + 1, target)
  }

  predicate StartsWith(s: Text, at: nat, t: Text) { at + |t| <= |s| && s[at..at + |t|] == t }

  function FirstSeq(s: Text, from: nat, t: Text): (r: Option<nat>)
    ensures r.Some? ==> from <= r.value < |s| && StartsWith(s, r.value, t)
    decreases |s| - from
  {
    if from >= |s| then None else if StartsWith(s, from, t) then Some(from) else FirstSeq(s, from + 1, t)
  }

  predicate Without(s: Text, from: nat, to: nat, t: Text) { forall k: nat | from <= k < to :: !StartsWith(s, k, t) }

  lemma {:induction false} FirstSeqIsFirst(s: Text, from: nat, t: Text)
    ensures FirstSeq(s, from, t).Some? ==> Without(s, from, FirstSeq(s, from, t).value, t)
    ensures FirstSeq(s, from, t).None? ==> Without(s, from, |s|, t)
    decreases |s| - from
  {
    if from < |s| && !StartsWith(s, from, t) {
      FirstSeqIsFirst(s, from + 1, t);
    }
  }

  method FindSeq(s: Text, from: nat, t: Text) returns (r: Option<nat>)
    ensures r == FirstSeq(s, from, t)
    ensures r.Some? ==> forall k | from <= k < r.value :: !StartsWith(s, k, t)
    ensures r.None? ==> forall k | from <= k < |s| :: !StartsWith(s, k, t)
  {
    var i := from;
    while i < |s|
      invariant from <= i && forall k | from <= k < i && k < |s| :: !StartsWith(s, k, t)
      invariant FirstSeq(s, from, t) == FirstSeq(s, i, t)
    {
      if StartsWith(s, i, t) { return Some(i); }
      i := i + 1;
    }
    return None;
  }

  /** How many backslashes stand right before `i`, counting back no further than `from`. */
  function Backslashes(s: Text, from: nat, i: nat): (n: nat)
    requires i <= |s|
    ensures n <= i
  {
    if i <= from || s[i - 1] != '\\' then 0 else 1 + Backslashes(s, from, i - 1)
  }

  /** A character after an odd number of backslashes is escaped. */
  predicate Escaped(s: Text, from: nat, i: nat)
    requires i <= |s|
  {
    Backslashes(s, from, i) % 2 == 1
  }

  /** What ends a string whose contents start at `from`: its quote, or, for a single quote, the line's
      end; neither if it is escaped. */
  predicate Closes(s: Text, from: nat, quote: char, i: nat)
    requires i < |s|
  {
    !Escaped(s, from, i) && (s[i] == quote || (s[i] == '\n' && quote != '`' && quote != '"'))
  }

  predicate NoneCloses(s: Text, from: nat, quote: char, to: nat)
    requires to <= |s|
  {
    forall k: nat | from <= k < to :: !Closes(s, from, quote, k)
  }

  /** `end` is just after the first unescaped quote or just before the line's end, whichever comes
      first, or else the end of the text. */
  predicate EndsString(s: Text, from: nat, quote: char, end: nat) {
    (end == |s| && NoneCloses(s, from, quote, |s|))
    || exists i: nat | from <= i < |s| :: Closes(s, from, quote, i) && NoneCloses(s, from, quote, i) && end == if s[i] == quote then i + 1 else i
  }

  /** The scan for it, from `index` on. */
  function QuotedEnd(s: Text, index: nat, quote: char): (end: nat)
    ensures index <= |s| ==> index <= end <= |s|
    ensures index > |s| ==> end == |s|
    decreases |s| - index
  {
    if index >= |s| then |s|
    else if s[index] == '\\' then QuotedEnd(s, index + 2, quote)
    else if s[index] == quote then index + 1
    else if s[index] == '\n' && quote != '`' && quote != '"' then index
    else QuotedEnd(s, index + 1, quote)
  }

  lemma BackslashesStep(s: Text, from: nat, i: nat)
    requires from <= i < |s|
    ensures Backslashes(s, from, i + 1) == if s[i] == '\\' then 1 + Backslashes(s, from, i) else 0
  {
  }

  lemma NoneClosesStep(s: Text, from: nat, quote: char, i: nat)
    requires i < |s| && NoneCloses(s, from, quote, i) && !Closes(s, from, quote, i)
    ensures NoneCloses(s, from, quote, i + 1)
  {
  }

  /** The scan skips a backslash and what it escapes: it stands on unescaped characters only, and has
      passed nothing that closes the string. */
  lemma {:induction false} QuotedEndsAt(s: Text, from: nat, index: nat, quote: char)
    requires from <= index <= |s| && quote != '\\' && !Escaped(s, from, index) && NoneCloses(s, from, quote, index)
    ensures EndsString(s, from, quote, QuotedEnd(s, index, quote))
    decreases |s| - index
  {
    if index < |s| && !Closes(s, from, quote, index) {
      BackslashesStep(s, from, index);
      NoneClosesStep(s, from, quote, index);
      if s[index] != '\\' {
        QuotedEndsAt(s, from, index + 1, quote);
      } else if index + 1 < |s| {
        BackslashesStep(s, from, index + 1);
        NoneClosesStep(s, from, quote, index + 1);
        QuotedEndsAt(s, from, index + 2, quote);
      }
    }
  }

  method StringEnd(s: Text, start: nat, quote: char) returns (end: nat)
    requires start < |s| && quote != '\\'
    ensures end == QuotedEnd(s, start + 1, quote)
    ensures EndsString(s, start + 1, quote, end)
  {
    QuotedEndsAt(s, start + 1, start + 1, quote);
    var index := start + 1;
    while index < |s|
      invariant start < index && QuotedEnd(s, start + 1, quote) == QuotedEnd(s, index, quote)
      decreases |s| - index
    {
      if s[index] == '\\' {
        index := index + 2;
      } else if s[index] == quote {
        return index + 1;
      } else if s[index] == '\n' && quote != '`' && quote != '"' {
        return index;
      } else {
        index := index + 1;
      }
    }
    return |s|;
  }

  function HashMarks(n: nat): Text { seq(n, _ => '#') }

  function Hashes(s: Text, from: nat): (n: nat)
    ensures from <= |s| ==> from + n <= |s|
    decreases |s| - from
  {
    if from < |s| && s[from] == '#' then 1 + Hashes(s, from + 1) else 0
  }

  /** Where a raw string of Rust ends whose `r` comes right before `from`; `None` if it is no raw string. */
  function RawEnd(s: Text, from: nat): (r: Option<nat>)
    requires from <= |s|
    ensures r.Some? ==> from < r.value <= |s|
  {
    var n := Hashes(s, from);
    if from + n >= |s| || s[from + n] != '"' then None
    else
      var closing := FirstSeq(s, from + n + 1, ['"'] + HashMarks(n));
      if closing.Some? then Some(closing.value + 1 + n) else Some(|s|)
  }

  /** A run of exactly `n` hashes. */
  predicate HashRun(s: Text, from: nat, n: nat) {
    from + n <= |s| && (forall k | from <= k < from + n :: s[k] == '#') && !At(s, from + n, '#')
  }

  /** A quote with `n` hashes after it. */
  predicate ClosesRaw(s: Text, i: nat, n: nat) {
    i + n < |s| && s[i] == '"' && forall k | i < k <= i + n :: s[k] == '#'
  }

  predicate NoneClosesRaw(s: Text, body: nat, n: nat, to: nat) {
    forall k: nat | body <= k < to :: !ClosesRaw(s, k, n)
  }

  /** `end` is just after the first quote with `n` hashes, or the end of the text. */
  predicate EndsRaw(s: Text, body: nat, n: nat, end: nat) {
    (end == |s| && NoneClosesRaw(s, body, n, |s|))
    || (body + n < end <= |s| && ClosesRaw(s, end - 1 - n, n) && NoneClosesRaw(s, body, n, end - 1 - n))
  }

  lemma ClosingIs(s: Text, i: nat, n: nat)
    ensures StartsWith(s, i, ['"'] + HashMarks(n)) <==> ClosesRaw(s, i, n)
  {
    var closing := ['"'] + HashMarks(n);
    if ClosesRaw(s, i, n) {
      assert s[i..i + |closing|] == closing;
    }
    if StartsWith(s, i, closing) {
      forall k | 0 <= k <= n ensures s[i + k] == closing[k] {
        assert s[i..i + |closing|][k] == closing[k];
      }
    }
  }

  lemma NoneClosesBefore(s: Text, body: nat, n: nat, to: nat)
    requires Without(s, body, to, ['"'] + HashMarks(n))
    ensures NoneClosesRaw(s, body, n, to)
  {
    forall k: nat | body <= k < to ensures !ClosesRaw(s, k, n) {
      ClosingIs(s, k, n);
    }
  }

  lemma RawEndsAt(s: Text, body: nat, n: nat)
    ensures var closing := FirstSeq(s, body, ['"'] + HashMarks(n));
      EndsRaw(s, body, n, if closing.Some? then closing.value + 1 + n else |s|)
  {
    var t := ['"'] + HashMarks(n);
    var closing := FirstSeq(s, body, t);
    FirstSeqIsFirst(s, body, t);
    if closing.Some? {
      ClosingIs(s, closing.value, n);
      NoneClosesBefore(s, body, n, closing.value);
    } else {
      NoneClosesBefore(s, body, n, |s|);
    }
  }

  /** A raw string is one exactly when a quote follows its `n` hashes, and ends at the first quote
      followed by as many. */
  predicate IsRawEnd(s: Text, from: nat, n: nat, r: Option<nat>) {
    HashRun(s, from, n) && (r.Some? <==> At(s, from + n, '"')) && (r.Some? ==> EndsRaw(s, from + n + 1, n, r.value))
  }

  lemma {:induction false} HashesRun(s: Text, from: nat)
    requires from <= |s|
    ensures HashRun(s, from, Hashes(s, from))
    decreases |s| - from
  {
    if At(s, from, '#') {
      HashesRun(s, from + 1);
    }
  }

  lemma RawEndIs(s: Text, from: nat)
    requires from <= |s|
    ensures IsRawEnd(s, from, Hashes(s, from), RawEnd(s, from))
  {
    HashesRun(s, from);
    RawEndsAt(s, from + Hashes(s, from) + 1, Hashes(s, from));
  }

  method CountHashes(s: Text, from: nat) returns (n: nat)
    requires from <= |s|
    ensures n == Hashes(s, from)
  {
    n := 0;
    while from + n < |s| && s[from + n] == '#'
      invariant from + n <= |s| && Hashes(s, from) == n + Hashes(s, from + n)
    {
      n := n + 1;
    }
  }

  method RawStringEnd(s: Text, from: nat) returns (r: Option<nat>)
    requires from <= |s|
    ensures r == RawEnd(s, from)
  {
    var n := CountHashes(s, from);
    if from + n >= |s| || s[from + n] != '"' { return None; }
    var closing := FindSeq(s, from + n + 1, ['"'] + HashMarks(n));
    return if closing.Some? then Some(closing.value + 1 + n) else Some(|s|);
  }

  /** Where the character literal that a Rust quote at `start` opens ends; a lifetime has no end. */
  function CharEnd(s: Text, start: nat): (r: Option<nat>)
    requires start < |s|
    ensures r.Some? ==> start < r.value <= |s|
  {
    if start + 1 < |s| && s[start + 1] == '\\' then
      var closing := First(s, start + 2, '\'');
      if closing.Some? then Some(closing.value + 1) else None
    else if start + 2 < |s| && s[start + 2] == '\'' then Some(start + 3)
    else None
  }

  function OrEnd(r: Option<nat>, skip: nat, length: nat): nat {
    if r.Some? then r.value + skip else length
  }

  /** If a string or comment starts at `i`, where it ends. */
  function RegionEnd(language: Language, s: Text, i: nat, alphanumeric: char -> bool): (r: Option<nat>)
    requires i < |s|
    ensures r.Some? ==> i < r.value <= |s|
  {
    var c := s[i];
    if (language != Python && c == '/' && At(s, i + 1, '/')) || (language == Python && c == '#') then
      Some(OrEnd(First(s, i, '\n'), 0, |s|))
    else if language != Python && c == '/' && At(s, i + 1, '*') then
      Some(OrEnd(FirstSeq(s, i + 2, "*/"), 2, |s|))
    else if language == Python && (c == '"' || c == '\'') && At(s, i + 1, c) && At(s, i + 2, c) then
      Some(OrEnd(FirstSeq(s, i + 3, [c, c, c]), 3, |s|))
    else if language == Rust && c == 'r' && (At(s, i + 1, '"') || At(s, i + 1, '#')) && (i == 0 || !IsIdent(s[i - 1], alphanumeric)) then
      RawEnd(s, i + 1)
    else if c == '"' || (c == '`' && language != Rust && language != Python) then
      Some(QuotedEnd(s, i + 1, c))
    else if c == '\'' then
      if language == Rust then CharEnd(s, i) else Some(QuotedEnd(s, i + 1, c))
    else None
  }

  // ---- Masking ----

  function Spaces(n: nat): Text { seq(n, _ => ' ') }

  function Blank(c: char): Text { if c == '\n' then "\n" else Spaces(Utf8Length(c)) }

  function Blanked(s: Text): Text {
    if s == [] then [] else Blanked(s[..|s| - 1]) + Blank(s[|s| - 1])
  }

  /** The masked text from `i` on: regions blanked, the rest kept. */
  function MaskedFrom(language: Language, s: Text, i: nat, alphanumeric: char -> bool): Text
    requires i <= |s|
    decreases |s| - i
  {
    if i == |s| then []
    else
      var end := RegionEnd(language, s, i, alphanumeric);
      if end.None? then [s[i]] + MaskedFrom(language, s, i + 1, alphanumeric)
      else Blanked(s[i..end.value]) + MaskedFrom(language, s, end.value, alphanumeric)
  }

  lemma MasksRegion(language: Language, s: Text, i: nat, end: nat, alphanumeric: char -> bool)
    requires i < |s| && RegionEnd(language, s, i, alphanumeric) == Some(end)
    ensures MaskedFrom(language, s, i, alphanumeric) == Blanked(s[i..end]) + MaskedFrom(language, s, end, alphanumeric)
  {
  }

  lemma MasksChar(language: Language, s: Text, i: nat, alphanumeric: char -> bool)
    requires i < |s| && RegionEnd(language, s, i, alphanumeric) == None
    ensures MaskedFrom(language, s, i, alphanumeric) == [s[i]] + MaskedFrom(language, s, i + 1, alphanumeric)
  {
  }

  method PushBlank(out: Text, s: Text) returns (more: Text)
    ensures more == out + Blanked(s)
  {
    more := out;
    for i := 0 to |s|
      invariant more == out + Blanked(s[..i])
    {
      assert s[..i + 1][..i] == s[..i];
      ghost var before := more;
      var mark := if s[i] == '\n' then '\n' else ' ';
      for n := 0 to Utf8Length(s[i])
        invariant more == before + seq(n, _ => mark)
      {
        more := more + [mark];
      }
      assert seq(Utf8Length(s[i]), _ => mark) == Blank(s[i]);
    }
    assert s[..|s|] == s;
  }

  /** The region at `index`, found by scanning. */
  method FindRegion(language: Language, s: Text, index: nat, alphanumeric: char -> bool) returns (r: Option<nat>)
    requires index < |s|
    ensures r == RegionEnd(language, s, index, alphanumeric)
  {
    var c := s[index];
    if (language != Python && c == '/' && At(s, index + 1, '/')) || (language == Python && c == '#') {
      var end := FindFrom(s, index, '\n');
      return Some(OrEnd(end, 0, |s|));
    } else if language != Python && c == '/' && At(s, index + 1, '*') {
      var end := FindSeq(s, index + 2, "*/");
      return Some(OrEnd(end, 2, |s|));
    } else if language == Python && (c == '"' || c == '\'') && At(s, index + 1, c) && At(s, index + 2, c) {
      var end := FindSeq(s, index + 3, [c, c, c]);
      return Some(OrEnd(end, 3, |s|));
    } else if language == Rust && c == 'r' && (At(s, index + 1, '"') || At(s, index + 1, '#'))
              && (index == 0 || !IsIdent(s[index - 1], alphanumeric)) {
      r := RawStringEnd(s, index + 1);
    } else if c == '"' || (c == '`' && language != Rust && language != Python) {
      var end := StringEnd(s, index, c);
      return Some(end);
    } else if c == '\'' {
      if language == Rust { return CharEnd(s, index); }
      var end := StringEnd(s, index, c);
      return Some(end);
    } else {
      return None;
    }
  }

  lemma Regroup(a: Text, b: Text, c: Text)
    ensures a + (b + c) == (a + b) + c
  {
  }

  /** Masks a source in one pass. It always ends. */
  method Mask(language: Language, s: Text, alphanumeric: char -> bool) returns (out: Text)
    ensures out == MaskedFrom(language, s, 0, alphanumeric)
  {
    out := [];
    var index := 0;
    while index < |s|
      invariant index <= |s| && out + MaskedFrom(language, s, index, alphanumeric) == MaskedFrom(language, s, 0, alphanumeric)
      decreases |s| - index
    {
      var end := FindRegion(language, s, index, alphanumeric);
      if end.None? {
        MasksChar(language, s, index, alphanumeric);
        Regroup(out, [s[index]], MaskedFrom(language, s, index + 1, alphanumeric));
        out := out + [s[index]];
        index := index + 1;
      } else {
        MasksRegion(language, s, index, end.value, alphanumeric);
        Regroup(out, Blanked(s[index..end.value]), MaskedFrom(language, s, end.value, alphanumeric));
        out := PushBlank(out, s[index..end.value]);
        index := end.value;
      }
    }
  }

  // ---- What masking keeps ----

  /** Same length, byte for byte the same or turned into a space, and newlines exactly where they
      were. */
  predicate Covers(source: seq<Byte>, masked: seq<Byte>) {
    |masked| == |source|
    && forall i | 0 <= i < |source| :: (masked[i] == source[i] || masked[i] == SPACE) && (masked[i] == NEWLINE <==> source[i] == NEWLINE)
  }

  lemma CoversConcat(a: seq<Byte>, b: seq<Byte>, c: seq<Byte>, d: seq<Byte>)
    requires Covers(a, c) && Covers(b, d)
    ensures Covers(a + b, c + d)
  {
  }

  lemma {:induction false} BytesOfSpaces(n: nat)
    ensures |Bytes(Spaces(n))| == n && forall b | b in Bytes(Spaces(n)) :: b == SPACE
  {
    if n > 0 {
      BytesOfSpaces(n - 1);
      assert Spaces(n)[..n - 1] == Spaces(n - 1);
    }
  }

  lemma BlankCovers(c: char)
    ensures Covers(Encoded(c), Bytes(Blank(c)))
  {
    if c == '\n' {
      assert "\n"[..0] == [];
      assert Bytes("\n") == Bytes([]) + Encoded('\n');
    } else {
      BytesOfSpaces(Utf8Length(c));
      forall i | 0 <= i < Utf8Length(c) ensures Bytes(Blank(c))[i] == SPACE {
        assert Bytes(Blank(c))[i] in Bytes(Blank(c));
      }
    }
  }

  lemma {:induction false} BlankedCovers(s: Text)
    ensures Covers(Bytes(s), Bytes(Blanked(s)))
  {
    if s != [] {
      BlankedCovers(s[..|s| - 1]);
      BlankCovers(s[|s| - 1]);
      BytesConcat(Blanked(s[..|s| - 1]), Blank(s[|s| - 1]));
      CoversConcat(Bytes(s[..|s| - 1]), Encoded(s[|s| - 1]), Bytes(Blanked(s[..|s| - 1])), Bytes(Blank(s[|s| - 1])));
    }
  }

  lemma CoversSelf(b: seq<Byte>)
    ensures Covers(b, b)
  {
  }

  lemma Cut(s: Text, i: nat, j: nat)
    requires i <= j <= |s|
    ensures s[i..] == s[i..j] + s[j..] && (j == i + 1 ==> s[i..j] == [s[i]])
  {
  }

  lemma JoinCovers(a: Text, b: Text, c: Text, d: Text)
    requires Covers(Bytes(a), Bytes(c)) && Covers(Bytes(b), Bytes(d))
    ensures Covers(Bytes(a + b), Bytes(c + d))
  {
    BytesConcat(a, b);
    BytesConcat(c, d);
    CoversConcat(Bytes(a), Bytes(b), Bytes(c), Bytes(d));
  }

  /** A stretch of the source that is covered, and the rest. */
  lemma CoversStep(s: Text, i: nat, j: nat, c: Text, d: Text)
    requires i <= j <= |s| && Covers(Bytes(s[i..j]), Bytes(c)) && Covers(Bytes(s[j..]), Bytes(d))
    ensures Covers(Bytes(s[i..]), Bytes(c + d))
  {
    Cut(s, i, j);
    JoinCovers(s[i..j], s[j..], c, d);
  }

  /** For every source and language, masking keeps the byte length and every newline, and leaves each
      other byte as it is or turns it into a space. */
  lemma {:induction false} MaskCovers(language: Language, s: Text, i: nat, alphanumeric: char -> bool)
    requires i <= |s|
    ensures Covers(Bytes(s[i..]), Bytes(MaskedFrom(language, s, i, alphanumeric)))
    decreases |s| - i
  {
    if i < |s| {
      var end := RegionEnd(language, s, i, alphanumeric);
      if end.None? {
        MasksChar(language, s, i, alphanumeric);
        MaskCovers(language, s, i + 1, alphanumeric);
        Cut(s, i, i + 1);
        CoversSelf(Bytes([s[i]]));
        CoversStep(s, i, i + 1, [s[i]], MaskedFrom(language, s, i + 1, alphanumeric));
      } else {
        MasksRegion(language, s, i, end.value, alphanumeric);
        MaskCovers(language, s, end.value, alphanumeric);
        BlankedCovers(s[i..end.value]);
        CoversStep(s, i, end.value, Blanked(s[i..end.value]), MaskedFrom(language, s, end.value, alphanumeric));
      }
    }
  }

  // ---- Where a literal or comment ends otherwise than it is scanned ----

  /** Where a Rust character literal that starts with a backslash escape really ends: after the first
      quote that follows the escaped character. */
  function EscapedEnd(s: Text, start: nat): Option<nat> {
    var closing := First(s, start + 3, '\'');
    if closing.Some? then Some(closing.value + 1) else None
  }

  /** The scan finds that end exactly when the escaped character is not itself a quote; an escaped
      quote is taken for the closing one. */
  lemma EscapedCharEnds(s: Text, start: nat)
    requires start + 2 < |s| && s[start + 1] == '\\'
    ensures CharEnd(s, start) == EscapedEnd(s, start) <==> s[start + 2] != '\''
  {
    assert First(s, start + 2, '\'') == if s[start + 2] == '\'' then Some(start + 2) else First(s, start + 3, '\'');
  }

  /** So a brace inside a character literal after an escaped quote is left in the masked text. */
  lemma EscapedQuoteLeaks(alphanumeric: char -> bool)
    ensures '{' in MaskedFrom(Rust, "'\\'','{'", 0, alphanumeric)
  {
    var s := "'\\'','{'";
    assert First(s, 2, '\'') == Some(2) && RegionEnd(Rust, s, 0, alphanumeric) == Some(3);
    assert RegionEnd(Rust, s, 3, alphanumeric) == Some(6);
    assert RegionEnd(Rust, s, 6, alphanumeric) == None;
    var rest := MaskedFrom(Rust, s, 6, alphanumeric);
    assert rest[0] == '{' && rest[0] in rest;
    assert MaskedFrom(Rust, s, 3, alphanumeric) == Blanked(s[3..6]) + rest;
    assert MaskedFrom(Rust, s, 0, alphanumeric) == Blanked(s[0..3]) + MaskedFrom(Rust, s, 3, alphanumeric);
  }

  /** Where a Rust block comment really ends: comments nest. `None` if it never does. */
  function NestedEnd(s: Text, index: nat, depth: nat): (r: Option<nat>)
    requires depth > 0
    decreases |s| - index
  {
    if index >= |s| then None
    else if StartsWith(s, index, "/*") then NestedEnd(s, index + 2, depth + 1)
    else if StartsWith(s, index, "*/") then if depth == 1 then Some(index + 2) else NestedEnd(s, index + 2, depth - 1)
    else NestedEnd(s, index + 1, depth)
  }

  /** Where the scan ends one whose contents start at `index`. */
  function CommentEnd(s: Text, index: nat): Option<nat> {
    var closing := FirstSeq(s, index, "*/");
    if closing.Some? then Some(closing.value + 2) else None
  }

  lemma StartsWithPair(s: Text, i: nat, c: char, d: char)
    ensures StartsWith(s, i, [c, d]) <==> At(s, i, c) && At(s, i + 1, d)
  {
    if i + 2 <= |s| {
      assert s[i..i + 2] == [s[i], s[i + 1]];
    }
  }

  lemma NotBoth(s: Text, k: nat)
    ensures !(StartsWith(s, k, "/*") && StartsWith(s, k, "*/"))
  {
    if StartsWith(s, k, "/*") {
      assert s[k] == s[k..k + 2][0];
    }
  }

  /** Leaving `depth` comments takes `depth` closings. */
  lemma {:induction false} NestedNeeds(s: Text, index: nat, depth: nat, j: nat)
    requires depth > 0 && Without(s, index, j, "*/") && NestedEnd(s, index, depth).Some?
    ensures NestedEnd(s, index, depth).value >= j + 2 * depth
    ensures NestedEnd(s, index, depth).value >= index + 2 * depth
    decreases |s| - index
  {
    if StartsWith(s, index, "/*") {
      NestedNeeds(s, index + 2, depth + 1, j);
    } else if StartsWith(s, index, "*/") {
      if depth > 1 {
        NestedNeeds(s, index + 2, depth - 1, 0);
      }
    } else {
      NestedNeeds(s, index + 1, depth, j);
    }
  }

  lemma {:induction false} PlainEnds(s: Text, index: nat, j: nat)
    requires index <= j && StartsWith(s, j, "*/") && Without(s, index, j, "*/") && Without(s, index, j, "/*")
    ensures NestedEnd(s, index, 1) == Some(j + 2)
    decreases j - index
  {
    NotBoth(s, index);
    if index < j {
      PlainEnds(s, index + 1, j);
    }
  }

  lemma {:induction false} NestedOpens(s: Text, index: nat, k: nat, j: nat)
    requires index <= k < j && StartsWith(s, k, "/*") && Without(s, index, j, "*/") && NestedEnd(s, index, 1).Some?
    ensures NestedEnd(s, index, 1).value > j + 2
    decreases k - index
  {
    if StartsWith(s, index, "/*") {
      NestedNeeds(s, index + 2, 2, j);
    } else {
      NestedOpens(s, index + 1, k, j);
    }
  }

  lemma {:induction false} NeverCloses(s: Text, index: nat, depth: nat)
    requires depth > 0 && Without(s, index, |s|, "*/")
    ensures NestedEnd(s, index, depth).None?
    decreases |s| - index
  {
    if index < |s| {
      if StartsWith(s, index, "/*") { NeverCloses(s, index + 2, depth + 1); } else { NeverCloses(s, index + 1, depth); }
    }
  }

  /** The scan finds the end of a Rust block comment exactly when no comment opens inside it before the
      first closing. */
  lemma NestedCommentEnds(s: Text, index: nat)
    ensures CommentEnd(s, index) == NestedEnd(s, index, 1)
      <==> FirstSeq(s, index, "*/").None? || Without(s, index, FirstSeq(s, index, "*/").value, "/*")
  {
    FirstSeqIsFirst(s, index, "*/");
    var closing := FirstSeq(s, index, "*/");
    if closing.None? {
      NeverCloses(s, index, 1);
    } else if Without(s, index, closing.value, "/*") {
      PlainEnds(s, index, closing.value);
    } else {
      var k: nat :| index <= k < closing.value && StartsWith(s, k, "/*");
      if NestedEnd(s, index, 1).Some? {
        NestedOpens(s, index, k, closing.value);
      }
    }
  }

  /** So a brace after a nested comment, still inside the outer one, is left in the masked text. */
  lemma NestedCommentLeaks(alphanumeric: char -> bool)
    ensures '{' in MaskedFrom(Rust, "/*/**/{*/", 0, alphanumeric)
  {
    var s := "/*/**/{*/";
    assert FirstSeq(s, 2, "*/") == Some(4) by {
      StartsWithPair(s, 2, '*', '/');
      StartsWithPair(s, 3, '*', '/');
      StartsWithPair(s, 4, '*', '/');
    }
    assert RegionEnd(Rust, s, 0, alphanumeric) == Some(6);
    assert RegionEnd(Rust, s, 6, alphanumeric) == None;
    var rest := MaskedFrom(Rust, s, 6, alphanumeric);
    assert rest[0] == '{' && rest[0] in rest;
    assert MaskedFrom(Rust, s, 0, alphanumeric) == Blanked(s[0..6]) + rest;
  }

  /** Wherever a literal's closing quote really is, the scan ends there exactly when no quote before it is
      unescaped and neither is it escaped, or nothing follows it. */
  lemma FoundAtQuote(s: Text, body: nat, quote: char, closing: nat)
    requires (quote == '"' || quote == '`') && body <= closing < |s| && s[closing] == quote
    ensures QuotedEnd(s, body, quote) == closing + 1
      <==> NoneCloses(s, body, quote, closing) && (!Escaped(s, body, closing) || closing + 1 == |s|)
  {
    QuotedEndsAt(s, body, body, quote);
    if !Escaped(s, body, closing) {
      assert Closes(s, body, quote, closing);
    }
  }

  /** An `r` after a letter, as in byte and C raw strings, starts no raw string: it and its hashes are read as
      code, and what follows as an ordinary string. */
  lemma ByteRawScanned(s: Text, i: nat, n: nat, alphanumeric: char -> bool)
    requires 0 < i && At(s, i, 'r') && IsIdent(s[i - 1], alphanumeric) && HashRun(s, i + 1, n) && At(s, i + 1 + n, '"')
    ensures forall k | i <= k <= i + n :: RegionEnd(Rust, s, k, alphanumeric) == None
    ensures RegionEnd(Rust, s, i + 1 + n, alphanumeric) == Some(QuotedEnd(s, i + 2 + n, '"'))
  {
  }

  /** Just after the quote that closes a raw string with `n` hashes, or the end of the text. */
  function RawClosed(s: Text, body: nat, n: nat): (end: nat)
    requires body <= |s|
    ensures body <= end <= |s|
  {
    var closing := FirstSeq(s, body, ['"'] + HashMarks(n));
    if closing.Some? then closing.value + 1 else |s|
  }

  /** A byte or C raw string, with any number of hashes, is found to end at its closing quote exactly when no
      quote before that one is unescaped, and neither is that one escaped unless nothing follows. */
  lemma ByteRawEnds(s: Text, body: nat, n: nat)
    requires 0 < body <= |s|
    ensures var end := RawClosed(s, body, n);
      QuotedEnd(s, body, '"') == end <==> NoneCloses(s, body, '"', end - 1) && (!Escaped(s, body, end - 1) || end == |s|)
  {
    var closing := FirstSeq(s, body, ['"'] + HashMarks(n));
    if closing.Some? {
      ClosingIs(s, closing.value, n);
      FoundAtQuote(s, body, '"', closing.value);
    } else {
      QuotedEndsAt(s, body, body, '"');
    }
  }

  /** So a byte raw string that ends in a backslash hides the code after it. */
  lemma ByteRawHides(alphanumeric: char -> bool)
    requires alphanumeric('b')
    ensures '{' !in MaskedFrom(Rust, "br\"\\\"{", 0, alphanumeric)
  {
    var s := "br\"\\\"{";
    assert RegionEnd(Rust, s, 0, alphanumeric) == None && RegionEnd(Rust, s, 1, alphanumeric) == None;
    assert RegionEnd(Rust, s, 2, alphanumeric) == Some(6);
    var last := MaskedFrom(Rust, s, 2, alphanumeric);
    assert MaskedFrom(Rust, s, 6, alphanumeric) == [];
    BlankedHolds(s[2..6]);
    assert last == Blanked(s[2..6]);
    assert MaskedFrom(Rust, s, 1, alphanumeric) == ['r'] + last;
    assert MaskedFrom(Rust, s, 0, alphanumeric) == ['b'] + MaskedFrom(Rust, s, 1, alphanumeric);
  }

  /** And one that holds a quote, as hashes allow, leaves what follows it inside the string. */
  lemma ByteRawLeaks(alphanumeric: char -> bool)
    requires alphanumeric('b')
    ensures '{' in MaskedFrom(Rust, "br#\"a\"{\"#", 0, alphanumeric)
  {
    var s := "br#\"a\"{\"#";
    assert HashRun(s, 2, 1);
    ByteRawScanned(s, 1, 1, alphanumeric);
    assert QuotedEnd(s, 4, '"') == QuotedEnd(s, 5, '"') == 6;
    var rest := MaskedFrom(Rust, s, 6, alphanumeric);
    assert RegionEnd(Rust, s, 6, alphanumeric) == None && rest[0] == '{' && rest[0] in rest;
    MasksRegion(Rust, s, 3, 6, alphanumeric);
    MasksChar(Rust, s, 2, alphanumeric);
    MasksChar(Rust, s, 1, alphanumeric);
    assert RegionEnd(Rust, s, 0, alphanumeric) == None;
    MasksChar(Rust, s, 0, alphanumeric);
  }

  lemma {:induction false} BlankedHolds(s: Text)
    ensures forall c | c in Blanked(s) :: c == ' ' || c == '\n'
  {
    if s != [] {
      BlankedHolds(s[..|s| - 1]);
    }
  }

  // ---- Python's triple quotes ----

  /** The first `t` at or after `from` that is not escaped. */
  function FirstUnescaped(s: Text, body: nat, from: nat, t: Text): Option<nat>
    decreases |s| - from
  {
    if from >= |s| then None
    else if StartsWith(s, from, t) && !Escaped(s, body, from) then Some(from)
    else FirstUnescaped(s, body, from + 1, t)
  }

  lemma {:induction false} UnescapedIs(s: Text, body: nat, from: nat, t: Text)
    ensures var first := FirstUnescaped(s, body, from, t);
      first.Some? ==> from <= first.value < |s| && StartsWith(s, first.value, t) && !Escaped(s, body, first.value)
    ensures FirstSeq(s, from, t).None? ==> FirstUnescaped(s, body, from, t).None?
    ensures FirstSeq(s, from, t).Some? && !Escaped(s, body, FirstSeq(s, from, t).value) ==>
      FirstUnescaped(s, body, from, t) == FirstSeq(s, from, t)
    decreases |s| - from
  {
    if from < |s| {
      UnescapedIs(s, body, from + 1, t);
    }
  }

  /** The text between triple quotes is found to end where Python ends it exactly when the first three quotes
      in a row, if there are any, stand at a quote that is not escaped. */
  lemma TripleEnds(s: Text, body: nat, q: char)
    ensures var found := FirstSeq(s, body, [q, q, q]);
      found == FirstUnescaped(s, body, body, [q, q, q]) <==> found.None? || !Escaped(s, body, found.value)
  {
    UnescapedIs(s, body, body, [q, q, q]);
  }

  lemma StartsWithThree(s: Text, i: nat, c: char)
    ensures StartsWith(s, i, [c, c, c]) <==> At(s, i, c) && At(s, i + 1, c) && At(s, i + 2, c)
  {
    if i + 3 <= |s| {
      assert s[i..i + 3] == [s[i], s[i + 1], s[i + 2]];
    }
  }

  /** So an escaped quote right before the end hides the code after it. */
  lemma TripleHides(alphanumeric: char -> bool)
    ensures 'x' !in MaskedFrom(Python, "\"\"\"\\\"\"\"\"x", 0, alphanumeric)
  {
    var s := "\"\"\"\\\"\"\"\"x";
    StartsWithThree(s, 3, '"');
    StartsWithThree(s, 4, '"');
    assert FirstSeq(s, 3, ['"', '"', '"']) == FirstSeq(s, 4, ['"', '"', '"']) == Some(4);
    assert RegionEnd(Python, s, 0, alphanumeric) == Some(7);
    assert QuotedEnd(s, 8, '"') == 9 && RegionEnd(Python, s, 7, alphanumeric) == Some(9);
    MasksRegion(Python, s, 0, 7, alphanumeric);
    MasksRegion(Python, s, 7, 9, alphanumeric);
    BlankedHolds(s[0..7]);
    BlankedHolds(s[7..9]);
  }

  // ---- JavaScript's templates and regular expressions ----

  /** A template is found to end at its closing backtick exactly when no backtick before it, in its
      expressions for example, is unescaped, and neither is that one escaped unless nothing follows. */
  lemma TemplateEnds(s: Text, body: nat, closing: nat)
    requires body <= closing < |s| && s[closing] == '`'
    ensures QuotedEnd(s, body, '`') == closing + 1
      <==> (forall k: nat | body <= k < closing && s[k] == '`' :: Escaped(s, body, k)) && (!Escaped(s, body, closing) || closing + 1 == |s|)
  {
    FoundAtQuote(s, body, '`', closing);
    assert forall k: nat | body <= k < closing && s[k] == '`' :: Closes(s, body, '`', k) <==> !Escaped(s, body, k);
  }

  /** So what a template inside a template holds is left in the masked text. */
  lemma TemplateLeaks(alphanumeric: char -> bool)
    ensures '{' in MaskedFrom(JavaScript, "`${`{`}`", 0, alphanumeric)
  {
    var s := "`${`{`}`";
    assert QuotedEnd(s, 1, '`') == QuotedEnd(s, 2, '`') == QuotedEnd(s, 3, '`') == 4;
    var rest := MaskedFrom(JavaScript, s, 4, alphanumeric);
    assert RegionEnd(JavaScript, s, 4, alphanumeric) == None && rest[0] == '{' && rest[0] in rest;
    MasksRegion(JavaScript, s, 0, 4, alphanumeric);
  }

  /** A quote in a regular expression is taken to open a string, which hides the code after it. */
  lemma RegexHides(alphanumeric: char -> bool)
    ensures '{' !in MaskedFrom(JavaScript, "/\"/{", 0, alphanumeric)
  {
    var s := "/\"/{";
    assert QuotedEnd(s, 2, '"') == QuotedEnd(s, 3, '"') == 4;
    assert RegionEnd(JavaScript, s, 0, alphanumeric) == None && RegionEnd(JavaScript, s, 1, alphanumeric) == Some(4);
    MasksChar(JavaScript, s, 0, alphanumeric);
    MasksRegion(JavaScript, s, 1, 4, alphanumeric);
    BlankedHolds(s[1..4]);
  }
}
