/** Finding functions in masked source: brace-delimited bodies and Python's indented ones. Where
    headers match is given; what follows from it is proved. */
module Scanning {
  import opened Common

  /** A masked text, byte by byte. */
  type Source = seq<char>

  datatype Span = Span(name: string, start: nat, end: nat)

  predicate LineStart(b: Source, at: nat) { at <= |b| && (at == 0 || b[at - 1] == '\n') }

  /** Spans in order, none reaching into the next, all inside the text and not before `from`. */
  predicate InOrder(spans: seq<Span>, from: nat, length: nat) {
    (forall i | 0 <= i < |spans| :: from <= spans[i].start < spans[i].end <= length)
    && forall i, j | 0 <= i < j < |spans| :: spans[i].end <= spans[j].start
  }

  lemma InOrderCons(span: Span, rest: seq<Span>, from: nat, length: nat)
    requires from <= span.start < span.end <= length && InOrder(rest, span.end, length)
    ensures InOrder([span] + rest, from, length)
  {
  }

  // ---- Nesting ----

  function Step(c: char): int { if c == '{' then 1 else if c == '}' then -1 else 0 }

  /** Braces open at `to`, counting from `from`. */
  function Depth(b: Source, from: nat, to: nat): int
    requires from <= to <= |b|
  {
    if from == to then 0 else Depth(b, from, to - 1) + Step(b[to - 1])
  }

  /** A body: a brace that stays open up to the one, at the end, that closes it. */
  predicate Body(b: Source, open: nat, end: nat) {
    open + 1 < end <= |b| && b[open] == '{' && b[end - 1] == '}' && Depth(b, open, end) == 0
    && forall k | open < k < end :: Depth(b, open, k) > 0
  }

  /** The brace that closes the one at `open`, if there is one. */
  method MatchingBrace(b: Source, open: nat) returns (r: Option<nat>)
    requires open < |b| && b[open] == '{'
    ensures r.Some? ==> Body(b, open, r.value + 1)
    ensures r.None? ==> forall k | open < k <= |b| :: Depth(b, open, k) > 0
    ensures r == CloseFrom(b, open, open, 0)
  {
    var depth := 0;
    for index := open to |b|
      invariant depth == Depth(b, open, index) && (index > open ==> depth > 0)
      invariant forall k | open < k <= index :: Depth(b, open, k) > 0
      invariant CloseFrom(b, open, open, 0) == CloseFrom(b, open, index, depth)
    {
      if b[index] == '{' {
        depth := depth + 1;
      } else if b[index] == '}' {
        depth := depth - 1;
        if depth == 0 { return Some(index); }
      }
    }
    return None;
  }

  function CloseFrom(b: Source, open: nat, index: nat, depth: int): (r: Option<nat>)
    requires index <= |b|
    ensures r.Some? ==> index <= r.value < |b|
    decreases |b| - index
  {
    if index == |b| then None
    else if b[index] == '}' && depth == 1 then Some(index)
    else CloseFrom(b, open, index + 1, depth + Step(b[index]))
  }

  /** Parentheses and brackets. */
  function Pair(c: char): int { if c == '(' || c == '[' then 1 else if c == ')' || c == ']' then -1 else 0 }

  function Nesting(b: Source, from: nat, to: nat): int
    requires from <= to <= |b|
  {
    if from == to then 0 else Nesting(b, from, to - 1) + Pair(b[to - 1])
  }

  predicate IsSpace(c: char) { c == ' ' || c == '\t' || c == '\n' || c == '\r' || c as int == 11 || c as int == 12 }

  predicate Arrow(b: Source, k: nat) { k + 1 < |b| && b[k] == '=' && b[k + 1] == '>' }

  predicate Opens(b: Source, from: nat, k: nat)
    requires from <= k < |b|
  {
    Nesting(b, from, k) <= 0 && b[k] == '{'
  }

  function BodyFrom(b: Source, index: nat, depth: int, afterArrow: bool): (r: Option<nat>)
    ensures r.Some? ==> index <= r.value < |b| && b[r.value] == '{'
    decreases |b| - index
  {
    if index >= |b| then None
    else
      var c := b[index];
      if c == '(' || c == '[' then BodyFrom(b, index + 1, depth + 1, afterArrow)
      else if c == ')' || c == ']' then BodyFrom(b, index + 1, depth - 1, afterArrow)
      else if c == '{' && depth <= 0 then Some(index)
      else if c == ';' && depth <= 0 then None
      else if depth <= 0 && Arrow(b, index) then BodyFrom(b, index + 2, depth, true)
      else if c == '\n' && afterArrow && depth <= 0 then None
      else if afterArrow && !IsSpace(c) && depth <= 0 then None
      else BodyFrom(b, index + 1, depth, afterArrow)
  }

  /** The second character of an arrow outside parentheses. */
  predicate InArrow(b: Source, from: nat, k: nat)
    requires from <= k <= |b|
  {
    k > from && Arrow(b, k - 1) && Nesting(b, from, k - 1) <= 0
  }

  /** Such an arrow ends before `k`. */
  predicate AfterArrow(b: Source, from: nat, k: nat)
    requires from <= k <= |b|
  {
    exists a :: from <= a < k - 1 && ArrowAt(b, from, a)
  }

  predicate ArrowAt(b: Source, from: nat, a: nat)
    requires from <= a <= |b|
  {
    Arrow(b, a) && Nesting(b, from, a) <= 0
  }

  /** What ends a header without a body, outside parentheses: a semicolon, or, after an arrow, the line's end or anything that
      is written but a brace, a parenthesis or another arrow. */
  predicate Halts(b: Source, from: nat, k: nat)
    requires from <= k < |b|
  {
    Nesting(b, from, k) <= 0 && Pair(b[k]) == 0 && b[k] != '{' && !InArrow(b, from, k)
    && (b[k] == ';' || (AfterArrow(b, from, k) && !Arrow(b, k) && (b[k] == '\n' || !IsSpace(b[k]))))
  }

  /** The brace that opens the body after a header that ends at `from`: the first outside parentheses, with nothing before
      it that ends the header. */
  predicate OpensBody(b: Source, from: nat, open: nat) {
    from <= open < |b| && Opens(b, from, open) && forall k | from <= k < open :: !Opens(b, from, k) && !Halts(b, from, k)
  }

  /** A scan that stands at `index` has passed no such brace and nothing that ends the header. */
  predicate Scanned(b: Source, from: nat, index: nat, depth: int, afterArrow: bool) {
    from <= index <= |b| && depth == Nesting(b, from, index) && (afterArrow <==> AfterArrow(b, from, index)) && !InArrow(b, from, index)
    && forall k | from <= k < index :: !Opens(b, from, k) && !Halts(b, from, k)
  }

  /** Where the scan ends is the body's brace, or there is none. */
  ghost predicate IsBodyStart(b: Source, from: nat, r: Option<nat>) {
    match r
    case Some(open) => OpensBody(b, from, open)
    case None => forall open :: !OpensBody(b, from, open)
  }

  lemma NestingStep(b: Source, from: nat, k: nat)
    requires from <= k < |b|
    ensures Nesting(b, from, k + 1) == Nesting(b, from, k) + Pair(b[k])
  {
  }

  lemma NotAfterArrow(b: Source, from: nat, index: nat)
    requires from <= index < |b| && !InArrow(b, from, index)
    ensures AfterArrow(b, from, index + 1) <==> AfterArrow(b, from, index)
  {
  }

  lemma PassesChar(b: Source, from: nat, index: nat, depth: int, afterArrow: bool)
    requires Scanned(b, from, index, depth, afterArrow) && index < |b|
    requires !Opens(b, from, index) && !Halts(b, from, index) && !(depth <= 0 && Arrow(b, index))
    ensures Scanned(b, from, index + 1, depth + Pair(b[index]), afterArrow)
  {
    NestingStep(b, from, index);
    NotAfterArrow(b, from, index);
  }

  lemma PassesArrow(b: Source, from: nat, index: nat, depth: int, afterArrow: bool)
    requires Scanned(b, from, index, depth, afterArrow) && depth <= 0 && Arrow(b, index)
    ensures Scanned(b, from, index + 2, depth, true)
  {
    NestingStep(b, from, index);
    NestingStep(b, from, index + 1);
    assert ArrowAt(b, from, index);
    assert InArrow(b, from, index + 1);
    forall k | from <= k < index + 2 ensures !Opens(b, from, k) && !Halts(b, from, k) {}
  }

  lemma HaltsThere(b: Source, from: nat, index: nat, depth: int, afterArrow: bool)
    requires Scanned(b, from, index, depth, afterArrow) && index < |b| && Halts(b, from, index)
    ensures IsBodyStart(b, from, None)
  {
  }

  lemma {:induction false} BodyFromIs(b: Source, from: nat, index: nat, depth: int, afterArrow: bool)
    requires Scanned(b, from, index, depth, afterArrow)
    ensures IsBodyStart(b, from, BodyFrom(b, index, depth, afterArrow))
    decreases |b| - index
  {
    if index < |b| && !Opens(b, from, index) {
      if Halts(b, from, index) {
        HaltsThere(b, from, index, depth, afterArrow);
      } else if depth <= 0 && Arrow(b, index) {
        PassesArrow(b, from, index, depth, afterArrow);
        BodyFromIs(b, from, index + 2, depth, true);
      } else {
        PassesChar(b, from, index, depth, afterArrow);
        BodyFromIs(b, from, index + 1, depth + Pair(b[index]), afterArrow);
      }
    }
  }

  lemma ScanStarts(b: Source, from: nat)
    requires from <= |b|
    ensures Scanned(b, from, from, 0, false)
  {
  }

  /** The `{` that opens the body after a header that ends at `from`, if there is one. */
  method BodyStart(b: Source, from: nat) returns (r: Option<nat>)
    requires from <= |b|
    ensures r == BodyFrom(b, from, 0, false) && IsBodyStart(b, from, r)
  {
    ScanStarts(b, from);
    BodyFromIs(b, from, from, 0, false);
    var depth, index, afterArrow := 0, from, false;
    while index < |b|
      invariant from <= index <= |b|
      invariant BodyFrom(b, from, 0, false) == BodyFrom(b, index, depth, afterArrow)
      decreases |b| - index
    {
      var c := b[index];
      if c == '(' || c == '[' {
        depth := depth + 1;
      } else if c == ')' || c == ']' {
        depth := depth - 1;
      } else if c == '{' && depth <= 0 {
        return Some(index);
      } else if c == ';' && depth <= 0 {
        return None;
      } else if depth <= 0 && Arrow(b, index) {
        afterArrow := true;
        index := index + 1;
      } else if c == '\n' && afterArrow && depth <= 0 {
        return None;
      } else if afterArrow && !IsSpace(c) && depth <= 0 {
        return None;
      }
      index := index + 1;
    }
    return None;
  }

  // ---- Functions with braces ----

  /** A header match: where it starts, where its name ends, and the name, if it captured one. */
  datatype Header = Header(start: nat, nameEnd: nat, name: Option<string>)

  /** Matches in order, each at the start of a line. */
  predicate Headers(b: Source, headers: seq<Header>) {
    (forall i | 0 <= i < |headers| :: LineStart(b, headers[i].start) && headers[i].start < headers[i].nameEnd <= |b|)
    && forall i, j | 0 <= i < j < |headers| :: headers[i].start <= headers[j].start
  }

  const NOT_FUNCTIONS: seq<string> :=
    ["if", "for", "while", "switch", "catch", "return", "with", "function", "else", "do", "await"]

  /** The function a header starts, if it is one: its body's braces matched. */
  function FunctionAt(b: Source, h: Header): (r: Option<Span>)
    requires h.start < h.nameEnd <= |b|
    ensures r.Some? ==> r.value.start == h.start < r.value.end <= |b|
  {
    if h.name.None? || h.name.value in NOT_FUNCTIONS then None
    else
      var open := BodyFrom(b, h.nameEnd, 0, false);
      if open.None? then None
      else
        var close := CloseFrom(b, open.value, open.value, 0);
        if close.None? then None else Some(Span(h.name.value, h.start, close.value + 1))
  }

  /** The functions that start at or after `resume`, each skipping the headers inside the one before. */
  function Functions(b: Source, headers: seq<Header>, resume: nat): seq<Span>
    requires Headers(b, headers)
    decreases |headers|
  {
    if headers == [] then []
    else
      var rest := headers[1..];
      assert forall i | 0 <= i < |rest| :: rest[i] == headers[i + 1];
      var found := if headers[0].start < resume then None else FunctionAt(b, headers[0]);
      if found.None? then Functions(b, rest, resume) else [found.value] + Functions(b, rest, found.value.end)
  }

  /** The start of the line `at` is on. */
  method LineStartOf(b: Source, at: nat) returns (start: nat)
    requires at <= |b|
    ensures start <= at && LineStart(b, start) && forall k | start <= k < at :: b[k] != '\n'
  {
    start := at;
    while start > 0 && b[start - 1] != '\n'
      invariant start <= at && forall k | start <= k < at :: b[k] != '\n'
    {
      start := start - 1;
    }
  }

  lemma HeadersTail(b: Source, headers: seq<Header>, i: nat)
    requires Headers(b, headers) && i <= |headers|
    ensures Headers(b, headers[i..])
  {
  }

  /** The function at one header, found by scanning for its body. */
  method ScanHeader(b: Source, h: Header) returns (r: Option<Span>)
    requires LineStart(b, h.start) && h.start < h.nameEnd <= |b|
    ensures r == FunctionAt(b, h)
  {
    if h.name.None? || h.name.value in NOT_FUNCTIONS { return None; }
    var open := BodyStart(b, h.nameEnd);
    if open.None? { return None; }
    var close := MatchingBrace(b, open.value);
    if close.None? { return None; }
    var start := LineStartOf(b, h.start);
    return Some(Span(h.name.value, start, close.value + 1));
  }

  lemma FunctionsStep(b: Source, headers: seq<Header>, i: nat, resume: nat)
    requires Headers(b, headers) && i < |headers|
    ensures Headers(b, headers[i..]) && Headers(b, headers[i + 1..])
    ensures var found := if headers[i].start < resume then None else FunctionAt(b, headers[i]);
      Functions(b, headers[i..], resume) ==
        match found { case None => Functions(b, headers[i + 1..], resume)
                      case Some(span) => [span] + Functions(b, headers[i + 1..], span.end) }
  {
    HeadersTail(b, headers, i);
    HeadersTail(b, headers, i + 1);
    assert headers[i..][0] == headers[i] && headers[i..][1..] == headers[i + 1..];
  }

  lemma Regroup(a: seq<Span>, x: Span, c: seq<Span>)
    ensures a + ([x] + c) == (a + [x]) + c
  {
  }

  method BraceFunctions(b: Source, headers: seq<Header>) returns (spans: seq<Span>)
    requires Headers(b, headers)
    ensures spans == Functions(b, headers, 0)
  {
    spans := [];
    var resume := 0;
    assert headers[0..] == headers;
    for i := 0 to |headers|
      invariant Headers(b, headers[i..]) && spans + Functions(b, headers[i..], resume) == Functions(b, headers, 0)
    {
      FunctionsStep(b, headers, i, resume);
      if headers[i].start >= resume {
        var found := ScanHeader(b, headers[i]);
        if found.Some? {
          Regroup(spans, found.value, Functions(b, headers[i + 1..], found.value.end));
          spans := spans + [found.value];
          resume := found.value.end;
        }
      }
    }
    assert headers[|headers|..] == [];
  }

  // ---- What the spans are ----

  lemma {:induction false} CloseIsMatching(b: Source, open: nat, index: nat, depth: int)
    requires open < |b| && b[open] == '{' && open <= index <= |b| && depth == Depth(b, open, index)
    requires forall k | open < k <= index :: Depth(b, open, k) > 0
    requires CloseFrom(b, open, index, depth).Some?
    ensures Body(b, open, CloseFrom(b, open, index, depth).value + 1)
    decreases |b| - index
  {
    if index < |b| && !(b[index] == '}' && depth == 1) {
      CloseIsMatching(b, open, index + 1, depth + Step(b[index]));
    }
  }

  lemma {:induction false} NoCloseNoBody(b: Source, open: nat, index: nat, depth: int, end: nat)
    requires open < |b| && b[open] == '{' && open <= index <= |b| && depth == Depth(b, open, index)
    requires forall k | open < k <= index :: Depth(b, open, k) > 0
    requires CloseFrom(b, open, index, depth).None?
    ensures !Body(b, open, end)
    decreases |b| - index
  {
    if index < |b| {
      NoCloseNoBody(b, open, index + 1, depth + Step(b[index]), end);
    }
  }

  /** A header starts a function that ends at `end`: its name is none of the keywords, and its body's braces match. */
  ghost predicate IsFunction(b: Source, h: Header, end: nat) {
    h.name.Some? && h.name.value !in NOT_FUNCTIONS && exists open :: OpensBody(b, h.nameEnd, open) && Body(b, open, end)
  }

  lemma OneBody(b: Source, from: nat, p: nat, q: nat)
    requires OpensBody(b, from, p) && OpensBody(b, from, q)
    ensures p == q
  {
  }

  lemma FunctionAtIs(b: Source, h: Header)
    requires h.start < h.nameEnd <= |b|
    ensures match FunctionAt(b, h)
      case Some(s) => h.name == Some(s.name) && s.start == h.start && IsFunction(b, h, s.end)
      case None => forall end :: !IsFunction(b, h, end)
  {
    ScanStarts(b, h.nameEnd);
    BodyFromIs(b, h.nameEnd, h.nameEnd, 0, false);
    var open := BodyFrom(b, h.nameEnd, 0, false);
    if open.Some? {
      if CloseFrom(b, open.value, open.value, 0).Some? {
        CloseIsMatching(b, open.value, open.value, 0);
      } else {
        forall p, end | OpensBody(b, h.nameEnd, p) ensures !Body(b, p, end) {
          OneBody(b, h.nameEnd, p, open.value);
          NoCloseNoBody(b, open.value, open.value, 0, end);
        }
      }
    }
  }

  /** A span is the function its header starts. */
  ghost predicate SpanOf(b: Source, h: Header, s: Span) { h.name == Some(s.name) && s.start == h.start && IsFunction(b, h, s.end) }

  lemma {:induction false} SpansComeFrom(b: Source, headers: seq<Header>, resume: nat, s: Span)
    requires Headers(b, headers) && s in Functions(b, headers, resume)
    ensures exists i :: 0 <= i < |headers| && SpanOf(b, headers[i], s)
    decreases |headers|
  {
    var rest := headers[1..];
    HeadersTail(b, headers, 1);
    var found := if headers[0].start < resume then None else FunctionAt(b, headers[0]);
    FunctionAtIs(b, headers[0]);
    if found.Some? && s == found.value {
      assert SpanOf(b, headers[0], s);
    } else {
      SpansComeFrom(b, rest, if found.None? then resume else found.value.end, s);
      var i :| 0 <= i < |rest| && SpanOf(b, rest[i], s);
      assert SpanOf(b, headers[i + 1], s);
    }
  }

  /** Some span starts no later than `at` and reaches past it. */
  predicate Covered(spans: seq<Span>, at: nat) { exists i :: 0 <= i < |spans| && spans[i].start <= at < spans[i].end }

  lemma CoveredMore(s: Span, rest: seq<Span>, at: nat)
    requires Covered(rest, at)
    ensures Covered([s] + rest, at)
  {
    var i :| 0 <= i < |rest| && rest[i].start <= at < rest[i].end;
    assert ([s] + rest)[i + 1] == rest[i];
  }

  lemma {:induction false} NoneMissedFrom(b: Source, headers: seq<Header>, resume: nat, i: nat, end: nat)
    requires Headers(b, headers) && i < |headers| && resume <= headers[i].start && IsFunction(b, headers[i], end)
    ensures Covered(Functions(b, headers, resume), headers[i].start)
    decreases |headers|
  {
    var rest := headers[1..];
    HeadersTail(b, headers, 1);
    var found := if headers[0].start < resume then None else FunctionAt(b, headers[0]);
    FunctionAtIs(b, headers[0]);
    if i == 0 {
      assert Functions(b, headers, resume)[0] == found.value;
    } else if found.None? {
      NoneMissedFrom(b, rest, resume, i - 1, end);
    } else if found.value.end <= headers[i].start {
      NoneMissedFrom(b, rest, found.value.end, i - 1, end);
      CoveredMore(found.value, Functions(b, rest, found.value.end), headers[i].start);
    } else {
      assert Functions(b, headers, resume)[0] == found.value;
    }
  }

  /** Every span found is a function that a header starts, under the header's name; and no function is missed: wherever a header
      starts one, the span found there is it, or one found before reaches past it. */
  lemma FindsFunctions(b: Source, headers: seq<Header>)
    requires Headers(b, headers)
    ensures forall s | s in Functions(b, headers, 0) :: exists i :: 0 <= i < |headers| && SpanOf(b, headers[i], s)
    ensures forall i, end | 0 <= i < |headers| && IsFunction(b, headers[i], end) :: Covered(Functions(b, headers, 0), headers[i].start)
  {
    forall s | s in Functions(b, headers, 0) ensures exists i :: 0 <= i < |headers| && SpanOf(b, headers[i], s) {
      SpansComeFrom(b, headers, 0, s);
    }
    forall i, end | 0 <= i < |headers| && IsFunction(b, headers[i], end) ensures Covered(Functions(b, headers, 0), headers[i].start) {
      NoneMissedFrom(b, headers, 0, i, end);
    }
  }

  /** A span holds a body that ends it. */
  predicate HoldsBody(b: Source, s: Span) { exists open :: s.start < open < s.end && Body(b, open, s.end) }

  lemma FunctionHoldsBody(b: Source, h: Header)
    requires h.start < h.nameEnd <= |b| && FunctionAt(b, h).Some?
    ensures HoldsBody(b, FunctionAt(b, h).value)
  {
    var open := BodyFrom(b, h.nameEnd, 0, false).value;
    CloseIsMatching(b, open, open, 0);
  }

  /** For any matches at line starts, in order, the spans found are in order, disjoint and in bounds,
      and each ends with the balanced body it holds. */
  lemma {:induction false} FunctionsInOrder(b: Source, headers: seq<Header>, resume: nat)
    requires Headers(b, headers)
    ensures InOrder(Functions(b, headers, resume), resume, |b|)
    ensures forall i | 0 <= i < |Functions(b, headers, resume)| :: HoldsBody(b, Functions(b, headers, resume)[i])
    decreases |headers|
  {
    if headers != [] {
      var rest := headers[1..];
      assert headers == [headers[0]] + rest;
      HeadersTail(b, headers, 1);
      var found := if headers[0].start < resume then None else FunctionAt(b, headers[0]);
      if found.None? {
        FunctionsInOrder(b, rest, resume);
      } else {
        FunctionHoldsBody(b, headers[0]);
        FunctionsInOrder(b, rest, found.value.end);
        InOrderCons(found.value, Functions(b, rest, found.value.end), resume, |b|);
      }
    }
  }

  // ---- Python ----

  /** A Python header match: its start, the parenthesis that ends it, its indentation and its name. */
  datatype PyHeader = PyHeader(start: nat, paren: nat, indent: nat, name: string)

  predicate PyHeaders(b: Source, headers: seq<PyHeader>) {
    (forall i | 0 <= i < |headers| :: LineStart(b, headers[i].start) && headers[i].start < headers[i].paren < |b|)
    && forall i, j | 0 <= i < j < |headers| :: headers[i].start <= headers[j].start
  }

  function Bracket(c: char): int {
    if c == '(' || c == '[' || c == '{' then 1 else if c == ')' || c == ']' || c == '}' then -1 else 0
  }

  /** The colon that ends a header: the first outside every bracket since `index`, or the text's end. */
  function ColonFrom(b: Source, index: nat, depth: int): (r: nat)
    requires index <= |b|
    ensures index <= r <= |b|
    decreases |b| - index
  {
    if index == |b| || (b[index] == ':' && depth == 0) then index
    else ColonFrom(b, index + 1, depth + Bracket(b[index]))
  }

  /** Brackets open at `to`, counting from `from`. */
  function Brackets(b: Source, from: nat, to: nat): int
    requires from <= to <= |b|
  {
    if from == to then 0 else Brackets(b, from, to - 1) + Bracket(b[to - 1])
  }

  predicate ColonOutside(b: Source, from: nat, k: nat)
    requires from <= k < |b|
  {
    b[k] == ':' && Brackets(b, from, k) == 0
  }

  lemma {:induction false} ColonIs(b: Source, from: nat, index: nat, depth: int)
    requires from <= index <= |b| && depth == Brackets(b, from, index) && forall k | from <= k < index :: !ColonOutside(b, from, k)
    ensures var colon := ColonFrom(b, index, depth);
      (colon < |b| ==> ColonOutside(b, from, colon)) && forall k | from <= k < colon :: !ColonOutside(b, from, k)
    decreases |b| - index
  {
    if index < |b| && !ColonOutside(b, from, index) {
      assert Brackets(b, from, index + 1) == depth + Bracket(b[index]);
      ColonIs(b, from, index + 1, depth + Bracket(b[index]));
    }
  }

  function LineEnd(b: Source, from: nat): (r: nat)
    requires from <= |b|
    ensures from <= r <= |b| && (r < |b| ==> b[r] == '\n') && forall k | from <= k < r :: b[k] != '\n'
    decreases |b| - from
  {
    if from == |b| || b[from] == '\n' then from else LineEnd(b, from + 1)
  }

  predicate BlankLine(b: Source, from: nat, to: nat)
    requires from <= to <= |b|
  {
    forall k | from <= k < to :: IsSpace(b[k])
  }

  function Indent(b: Source, from: nat, to: nat): (n: nat)
    requires from <= to <= |b|
    ensures from + n <= to
    decreases |b| - from
  {
    if from < to && IsSpace(b[from]) then 1 + Indent(b, from + 1, to) else 0
  }

  /** It is all the line starts with. */
  lemma {:induction false} IndentIs(b: Source, from: nat, to: nat)
    requires from <= to <= |b|
    ensures var n := Indent(b, from, to);
      (from + n < to ==> !IsSpace(b[from + n])) && forall k | from <= k < from + n :: IsSpace(b[k])
    decreases |b| - from
  {
    if from < to && IsSpace(b[from]) {
      IndentIs(b, from + 1, to);
    }
  }

  /** Whether the line at `ls` belongs to no body of a header with this indentation. */
  predicate Outdents(b: Source, ls: nat, indent: nat)
    requires ls <= |b|
  {
    !BlankLine(b, ls, LineEnd(b, ls)) && Indent(b, ls, LineEnd(b, ls)) <= indent
  }

  /** The end of a body whose lines go on at `ls`, having last ended at `end`. */
  function PyEnd(b: Source, ls: nat, end: nat, indent: nat): (r: nat)
    requires end <= |b|
    ensures end <= ls ==> end <= r <= |b|
    ensures r <= |b|
    decreases |b| - ls
  {
    if ls >= |b| then end
    else if BlankLine(b, ls, LineEnd(b, ls)) then PyEnd(b, LineEnd(b, ls) + 1, end, indent)
    else if Indent(b, ls, LineEnd(b, ls)) <= indent then end
    else PyEnd(b, LineEnd(b, ls) + 1, LineEnd(b, ls), indent)
  }

  function PyHead(b: Source, h: PyHeader): nat
    requires h.paren < |b|
  {
    LineEnd(b, ColonFrom(b, h.paren, 0))
  }

  function PyFunctionAt(b: Source, h: PyHeader): (s: Span)
    requires h.start < h.paren < |b|
    ensures s.start == h.start < s.end <= |b|
  {
    Span(h.name, h.start, PyEnd(b, PyHead(b, h) + 1, PyHead(b, h), h.indent))
  }

  function PyFunctions(b: Source, headers: seq<PyHeader>, resume: nat): seq<Span>
    requires PyHeaders(b, headers)
    decreases |headers|
  {
    if headers == [] then []
    else
      var rest := headers[1..];
      assert forall i | 0 <= i < |rest| :: rest[i] == headers[i + 1];
      if headers[0].start < resume then PyFunctions(b, rest, resume)
      else [PyFunctionAt(b, headers[0])] + PyFunctions(b, rest, PyFunctionAt(b, headers[0]).end)
  }

  method FindNewline(b: Source, from: nat) returns (r: nat)
    requires from <= |b|
    ensures r == LineEnd(b, from)
  {
    r := from;
    while r < |b| && b[r] != '\n'
      invariant from <= r <= |b| && LineEnd(b, from) == LineEnd(b, r)
    {
      r := r + 1;
    }
  }

  method LeadingSpace(b: Source, from: nat, to: nat) returns (n: nat)
    requires from <= to <= |b|
    ensures n == Indent(b, from, to) && (BlankLine(b, from, to) <==> n == to - from)
  {
    n := 0;
    while from + n < to && IsSpace(b[from + n])
      invariant from + n <= to && BlankLine(b, from, from + n) && Indent(b, from, to) == n + Indent(b, from + n, to)
    {
      n := n + 1;
    }
    assert from + n < to ==> !IsSpace(b[from + n]);
  }

  method FindColon(b: Source, from: nat) returns (index: nat)
    requires from <= |b|
    ensures index == ColonFrom(b, from, 0)
  {
    var depth := 0;
    index := from;
    while index < |b| && !(b[index] == ':' && depth == 0)
      invariant from <= index <= |b| && ColonFrom(b, from, 0) == ColonFrom(b, index, depth)
    {
      depth := depth + Bracket(b[index]);
      index := index + 1;
    }
  }

  method ScanPyHeader(b: Source, h: PyHeader) returns (s: Span)
    requires h.start < h.paren < |b|
    ensures s == PyFunctionAt(b, h)
  {
    var colon := FindColon(b, h.paren);
    var end: nat := FindNewline(b, colon);
    var lineStart: nat := end + 1;
    while lineStart < |b|
      invariant end <= |b| && end < lineStart && PyFunctionAt(b, h).end == PyEnd(b, lineStart, end, h.indent)
      decreases |b| - lineStart
    {
      var lineEnd := FindNewline(b, lineStart);
      var indent := LeadingSpace(b, lineStart, lineEnd);
      if indent != lineEnd - lineStart {
        if indent <= h.indent { break; }
        end := lineEnd;
      }
      lineStart := lineEnd + 1;
    }
    return Span(h.name, h.start, end);
  }

  lemma PyHeadersTail(b: Source, headers: seq<PyHeader>, i: nat)
    requires PyHeaders(b, headers) && i <= |headers|
    ensures PyHeaders(b, headers[i..])
  {
  }

  lemma PyFunctionsStep(b: Source, headers: seq<PyHeader>, i: nat, resume: nat)
    requires PyHeaders(b, headers) && i < |headers|
    ensures PyHeaders(b, headers[i..]) && PyHeaders(b, headers[i + 1..])
    ensures PyFunctions(b, headers[i..], resume) ==
      if headers[i].start < resume then PyFunctions(b, headers[i + 1..], resume)
      else [PyFunctionAt(b, headers[i])] + PyFunctions(b, headers[i + 1..], PyFunctionAt(b, headers[i]).end)
  {
    PyHeadersTail(b, headers, i);
    PyHeadersTail(b, headers, i + 1);
    assert headers[i..][0] == headers[i] && headers[i..][1..] == headers[i + 1..];
  }

  method PythonFunctions(b: Source, headers: seq<PyHeader>) returns (spans: seq<Span>)
    requires PyHeaders(b, headers)
    ensures spans == PyFunctions(b, headers, 0)
  {
    spans := [];
    var resume := 0;
    assert headers[0..] == headers;
    for i := 0 to |headers|
      invariant PyHeaders(b, headers[i..]) && spans + PyFunctions(b, headers[i..], resume) == PyFunctions(b, headers, 0)
    {
      PyFunctionsStep(b, headers, i, resume);
      if headers[i].start >= resume {
        var found := ScanPyHeader(b, headers[i]);
        Regroup(spans, found, PyFunctions(b, headers[i + 1..], found.end));
        spans := spans + [found];
        resume := found.end;
      }
    }
    assert headers[|headers|..] == [];
  }

  /** Every Python span is in order, disjoint from the next and in bounds. */
  lemma {:induction false} PyFunctionsInOrder(b: Source, headers: seq<PyHeader>, resume: nat)
    requires PyHeaders(b, headers)
    ensures InOrder(PyFunctions(b, headers, resume), resume, |b|)
    decreases |headers|
  {
    if headers != [] {
      var rest := headers[1..];
      PyHeadersTail(b, headers, 1);
      if headers[0].start < resume {
        PyFunctionsInOrder(b, rest, resume);
      } else {
        var span := PyFunctionAt(b, headers[0]);
        PyFunctionsInOrder(b, rest, span.end);
        InOrderCons(span, PyFunctions(b, rest, span.end), resume, |b|);
      }
    }
  }

  predicate EndsLine(b: Source, end: nat) { end == |b| || (end < |b| && b[end] == '\n') }

  /** No line that starts between `from` and `end` outdents. */
  predicate AllInside(b: Source, from: nat, end: nat, indent: nat) {
    forall ls | from <= ls <= end && ls < |b| && LineStart(b, ls) :: !Outdents(b, ls, indent)
  }

  /** A line starts at `ls` and is not blank. */
  predicate Written(b: Source, ls: nat) { ls < |b| && LineStart(b, ls) && !BlankLine(b, ls, LineEnd(b, ls)) }

  /** An outdented line starts after `end` and no later than `ls`. */
  predicate OutdentedBy(b: Source, end: nat, ls: nat, indent: nat) {
    exists out :: end < out <= ls && out < |b| && LineStart(b, out) && Outdents(b, out, indent)
  }

  /** After `end`, a line that is not blank comes only once a line has outdented. */
  predicate NoneAfter(b: Source, from: nat, end: nat, indent: nat) {
    forall ls | end < ls < |b| && from <= ls && Written(b, ls) :: OutdentedBy(b, end, ls, indent)
  }

  /** The body of a header whose first line ends before `from` ends at `end`: no more and no less. */
  predicate ExactBody(b: Source, from: nat, end: nat, indent: nat) {
    EndsLine(b, end) && AllInside(b, from, end, indent) && NoneAfter(b, from, end, indent)
  }

  lemma OneLine(b: Source, ls: nat)
    requires ls < |b|
    ensures forall k | ls < k <= LineEnd(b, ls) :: !LineStart(b, k)
    ensures LineEnd(b, ls) < |b| ==> LineStart(b, LineEnd(b, ls) + 1)
  {
  }

  predicate BlankBetween(b: Source, end: nat, ls: nat) {
    forall k | end < k < ls && k < |b| && LineStart(b, k) :: BlankLine(b, k, LineEnd(b, k))
  }

  lemma {:induction false} PyEndInside(b: Source, ls: nat, end: nat, indent: nat)
    requires end < ls && EndsLine(b, end) && (ls <= |b| ==> LineStart(b, ls)) && BlankBetween(b, end, ls)
    ensures EndsLine(b, PyEnd(b, ls, end, indent)) && AllInside(b, ls, PyEnd(b, ls, end, indent), indent)
    decreases |b| - ls
  {
    if ls < |b| {
      var lineEnd := LineEnd(b, ls);
      OneLine(b, ls);
      if BlankLine(b, ls, lineEnd) {
        PyEndInside(b, lineEnd + 1, end, indent);
      } else if Indent(b, ls, lineEnd) > indent {
        PyEndInside(b, lineEnd + 1, lineEnd, indent);
      }
    }
  }

  lemma BlankOneMore(b: Source, end: nat, ls: nat)
    requires end < ls < |b| && BlankBetween(b, end, ls) && BlankLine(b, ls, LineEnd(b, ls))
    ensures BlankBetween(b, end, LineEnd(b, ls) + 1)
  {
    OneLine(b, ls);
  }

  lemma BlankNone(b: Source, ls: nat)
    requires ls < |b|
    ensures BlankBetween(b, LineEnd(b, ls), LineEnd(b, ls) + 1)
  {
  }

  lemma OutdentsFirst(b: Source, ls: nat, end: nat, indent: nat)
    requires end < ls < |b| && LineStart(b, ls) && Outdents(b, ls, indent) && BlankBetween(b, end, ls)
    ensures NoneAfter(b, ls, end, indent)
  {
  }

  /** The next written line after `ls` starts past the end of its own line. */
  lemma NextLine(b: Source, ls: nat, k: nat)
    requires ls < |b| && ls <= k && Written(b, k)
    ensures k == ls || k > LineEnd(b, ls)
  {
    OneLine(b, ls);
  }

  lemma NoneAfterEarlier(b: Source, ls: nat, from: nat, end: nat, indent: nat)
    requires ls < |b| && from == LineEnd(b, ls) + 1 && NoneAfter(b, from, end, indent)
    requires LineEnd(b, ls) <= end || BlankLine(b, ls, LineEnd(b, ls))
    ensures NoneAfter(b, ls, end, indent)
  {
    forall k | end < k < |b| && ls <= k && Written(b, k) ensures OutdentedBy(b, end, k, indent) {
      NextLine(b, ls, k);
    }
  }

  lemma {:induction false} PyEndOutside(b: Source, ls: nat, end: nat, indent: nat)
    requires end < ls && end <= |b| && (ls <= |b| ==> LineStart(b, ls)) && BlankBetween(b, end, ls)
    ensures NoneAfter(b, ls, PyEnd(b, ls, end, indent), indent)
    decreases |b| - ls
  {
    if ls < |b| {
      var lineEnd := LineEnd(b, ls);
      OneLine(b, ls);
      if BlankLine(b, ls, lineEnd) {
        BlankOneMore(b, end, ls);
        PyEndOutside(b, lineEnd + 1, end, indent);
        NoneAfterEarlier(b, ls, lineEnd + 1, PyEnd(b, ls, end, indent), indent);
      } else if Indent(b, ls, lineEnd) > indent {
        BlankNone(b, ls);
        PyEndOutside(b, lineEnd + 1, lineEnd, indent);
        NoneAfterEarlier(b, ls, lineEnd + 1, PyEnd(b, ls, end, indent), indent);
      } else {
        OutdentsFirst(b, ls, end, indent);
      }
    }
  }

  /** The first line of a header ends after the first colon outside brackets. */
  predicate HeadEnds(b: Source, paren: nat, end: nat) {
    exists colon :: paren <= colon <= end && end <= |b| && IsFirstColon(b, paren, colon) && EndsLine(b, end) && forall k | colon <= k < end :: b[k] != '\n'
  }

  predicate IsFirstColon(b: Source, paren: nat, colon: nat) {
    paren <= colon <= |b| && (colon < |b| ==> ColonOutside(b, paren, colon)) && forall k | paren <= k < colon :: !ColonOutside(b, paren, k)
  }

  /** A Python span is exactly the header and the lines indented deeper, with the blank ones between
      them, under the header's name. */
  lemma PyBodyIsExact(b: Source, h: PyHeader)
    requires h.start < h.paren < |b|
    ensures PyFunctionAt(b, h).name == h.name && PyFunctionAt(b, h).start == h.start
    ensures HeadEnds(b, h.paren, PyHead(b, h)) && ExactBody(b, PyHead(b, h) + 1, PyFunctionAt(b, h).end, h.indent)
  {
    ColonIs(b, h.paren, h.paren, 0);
    assert IsFirstColon(b, h.paren, ColonFrom(b, h.paren, 0));
    PyEndInside(b, PyHead(b, h) + 1, PyHead(b, h), h.indent);
    PyEndOutside(b, PyHead(b, h) + 1, PyHead(b, h), h.indent);
  }

  lemma {:induction false} PySpansComeFrom(b: Source, headers: seq<PyHeader>, resume: nat, s: Span)
    requires PyHeaders(b, headers) && s in PyFunctions(b, headers, resume)
    ensures exists i :: 0 <= i < |headers| && s == PyFunctionAt(b, headers[i])
    decreases |headers|
  {
    var rest := headers[1..];
    PyHeadersTail(b, headers, 1);
    if headers[0].start < resume || s != PyFunctionAt(b, headers[0]) {
      PySpansComeFrom(b, rest, if headers[0].start < resume then resume else PyFunctionAt(b, headers[0]).end, s);
      var i :| 0 <= i < |rest| && s == PyFunctionAt(b, rest[i]);
      assert s == PyFunctionAt(b, headers[i + 1]);
    }
  }

  lemma {:induction false} PyNoneMissed(b: Source, headers: seq<PyHeader>, resume: nat, i: nat)
    requires PyHeaders(b, headers) && i < |headers| && resume <= headers[i].start
    ensures Covered(PyFunctions(b, headers, resume), headers[i].start)
    decreases |headers|
  {
    var rest := headers[1..];
    PyHeadersTail(b, headers, 1);
    if headers[0].start < resume {
      PyNoneMissed(b, rest, resume, i - 1);
    } else {
      var first := PyFunctionAt(b, headers[0]);
      assert PyFunctions(b, headers, resume)[0] == first;
      if first.end <= headers[i].start {
        PyNoneMissed(b, rest, first.end, i - 1);
        CoveredMore(first, PyFunctions(b, rest, first.end), headers[i].start);
      }
    }
  }

  /** Every Python span is the function of some header, whose body `PyBodyIsExact` says, and every header lies in one. */
  lemma FindsPyFunctions(b: Source, headers: seq<PyHeader>)
    requires PyHeaders(b, headers)
    ensures forall s | s in PyFunctions(b, headers, 0) :: exists i :: 0 <= i < |headers| && s == PyFunctionAt(b, headers[i])
    ensures forall i | 0 <= i < |headers| :: Covered(PyFunctions(b, headers, 0), headers[i].start)
  {
    forall s | s in PyFunctions(b, headers, 0) ensures exists i :: 0 <= i < |headers| && s == PyFunctionAt(b, headers[i]) {
      PySpansComeFrom(b, headers, 0, s);
    }
    forall i | 0 <= i < |headers| ensures Covered(PyFunctions(b, headers, 0), headers[i].start) {
      PyNoneMissed(b, headers, 0, i);
    }
  }
}
