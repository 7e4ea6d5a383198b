/** Sources written as pieces: code, comments and literals. Masking blanks exactly the comments and the
    literals. */
module Sources {
  import opened Common
  import opened Masking

  /** One character of a quoted string: itself, or escaped by a backslash. */
  datatype Item = Plain(c: char) | Escape(c: char)

  datatype Piece =
    | Code(c: char)
    | LineComment(text: Text)
    | BlockComment(text: Text)
    | Quoted(quote: char, items: seq<Item>)
    | Triple(quote: char, text: Text)
    | Raw(hashes: nat, text: Text)
    | CharLiteral(c: char)
    | EscapedChar(text: Text)

  // ---- How a piece is written ----

  function PrintItem(item: Item): Text { match item case Plain(c) => [c] case Escape(c) => ['\\', c] }

  function PrintItems(items: seq<Item>): Text {
    if items == [] then [] else PrintItem(items[0]) + PrintItems(items[1..])
  }

  function Opener(language: Language): Text { if language == Python then "#" else "//" }

  function Print(language: Language, p: Piece): Text {
    match p
    case Code(c) => [c]
    case LineComment(text) => Opener(language) + text
    case BlockComment(text) => "/*" + (text + "*/")
    case Quoted(quote, items) => [quote] + (PrintItems(items) + [quote])
    case Triple(quote, text) => [quote, quote, quote] + (text + [quote, quote, quote])
    case Raw(hashes, text) => ("r" + HashMarks(hashes) + "\"") + (text + (['"'] + HashMarks(hashes)))
    case CharLiteral(c) => ['\'', c, '\'']
    case EscapedChar(text) => ['\'', '\\'] + (text + ['\''])
  }

  function PrintAll(language: Language, pieces: seq<Piece>): Text {
    if pieces == [] then [] else Print(language, pieces[0]) + PrintAll(language, pieces[1..])
  }

  // ---- What a language allows ----

  /** `text` runs up to the first `close`. */
  predicate EndsFirst(text: Text, close: Text) { Without(text + close, 0, |text|, close) }

  predicate QuoteOf(language: Language, quote: char) {
    quote == '"' || (quote == '`' && language != Rust && language != Python) || (quote == '\'' && language != Rust)
  }

  predicate ItemOk(quote: char, item: Item) {
    item.Plain? ==> item.c != quote && item.c != '\\' && (item.c == '\n' ==> quote != '\'')
  }

  /** A quote that starts a lifetime. */
  predicate Lifetime(rest: Text) { !At(rest, 0, '\\') && !At(rest, 1, '\'') }

  /** An `r` that starts no raw string: the end of a name, a raw identifier's, or followed by neither. */
  predicate PlainR(before: Text, rest: Text, alphanumeric: char -> bool) {
    (before != [] && IsIdent(before[|before| - 1], alphanumeric))
    || (!At(rest, 0, '"') && !At(rest, 0, '#'))
    || (At(rest, 0, '#') && !At(rest, 1, '#') && !At(rest, 1, '"'))
  }

  /** A character of code between `before` and `rest`. */
  predicate CodeOk(language: Language, before: Text, c: char, rest: Text, alphanumeric: char -> bool) {
    c != '"' && (language == Python ==> c != '#') && (language != Rust ==> c != '\'')
    && (language != Rust && language != Python ==> c != '`')
    && (language != Python && c == '/' ==> !At(rest, 0, '/') && !At(rest, 0, '*'))
    && (language == Rust && c == '\'' ==> Lifetime(rest))
    && (language == Rust && c == 'r' ==> PlainR(before, rest, alphanumeric))
  }

  /** Whether `p` may stand between `before` and `rest`. This asks only what tells pieces apart, and so admits
      some that are none of the language's. Rust's comments hold no comment, its escaped character is no
      quote, and its byte raw strings are not written as pieces; nor are JavaScript's regular expressions
      and the templates inside its templates. */
  predicate PieceOk(language: Language, before: Text, p: Piece, rest: Text, alphanumeric: char -> bool) {
    match p
    case Code(c) => CodeOk(language, before, c, rest, alphanumeric)
    case LineComment(text) => '\n' !in text && (rest == [] || rest[0] == '\n')
    case BlockComment(text) => language != Python && EndsFirst(text, "*/")
    case Quoted(quote, items) =>
      QuoteOf(language, quote) && (forall i | 0 <= i < |items| :: ItemOk(quote, items[i]))
      && (language == Python && items == [] ==> !At(rest, 0, quote))
    case Triple(quote, text) => language == Python && (quote == '"' || quote == '\'') && EndsFirst(text, [quote, quote, quote])
    case Raw(hashes, text) =>
      language == Rust && (before == [] || !IsIdent(before[|before| - 1], alphanumeric)) && EndsFirst(text, ['"'] + HashMarks(hashes))
    case CharLiteral(c) => language == Rust && c != '\\'
    case EscapedChar(text) => language == Rust && '\'' !in text
  }

  predicate SourceOk(language: Language, before: Text, pieces: seq<Piece>, alphanumeric: char -> bool)
    decreases |pieces|
  {
    pieces == []
    || (PieceOk(language, before, pieces[0], PrintAll(language, pieces[1..]), alphanumeric)
        && SourceOk(language, before + Print(language, pieces[0]), pieces[1..], alphanumeric))
  }

  /** What masking is to make of a piece: code stays, comments and literals are blanked. */
  function Shown(language: Language, p: Piece): Text { if p.Code? then [p.c] else Blanked(Print(language, p)) }

  /** And of a source. */
  function Intended(language: Language, pieces: seq<Piece>): Text {
    if pieces == [] then []
    else Shown(language, pieces[0]) + Intended(language, pieces[1..])
  }

  // ---- Each piece is found as a region ----

  /** `s` reads `t` at `i`. */
  predicate Reads(s: Text, i: nat, t: Text) { i + |t| <= |s| && s[i..i + |t|] == t }

  lemma ReadsAt(s: Text, i: nat, t: Text, k: nat)
    requires Reads(s, i, t) && k < |t|
    ensures i + k < |s| && s[i + k] == t[k]
  {
    assert s[i..i + |t|][k] == s[i + k];
  }

  lemma ReadsPart(s: Text, i: nat, a: Text, b: Text)
    requires Reads(s, i, a + b)
    ensures Reads(s, i, a) && Reads(s, i + |a|, b)
  {
    assert s[i..i + |a|] == (a + b)[..|a|] == a;
    assert s[i + |a|..i + |a| + |b|] == (a + b)[|a|..] == b;
  }

  lemma {:induction false} FirstIs(s: Text, from: nat, target: char, j: nat)
    requires from <= j <= |s| && (forall k | from <= k < j :: s[k] != target) && (j < |s| ==> s[j] == target)
    ensures First(s, from, target) == if j < |s| then Some(j) else None
    decreases j - from
  {
    if from < j {
      FirstIs(s, from + 1, target, j);
    }
  }

  lemma {:induction false} FirstSeqIs(s: Text, from: nat, t: Text, j: nat)
    requires from <= j < |s| && StartsWith(s, j, t) && Without(s, from, j, t)
    ensures FirstSeq(s, from, t) == Some(j)
    decreases j - from
  {
    if from < j {
      FirstSeqIs(s, from + 1, t, j);
    }
  }

  lemma SliceInside(s: Text, a: nat, b: nat, k: nat, n: nat)
    requires a <= b <= |s| && k + n <= b - a
    ensures s[a..b][k..k + n] == s[a + k..a + k + n]
  {
    var x, y := s[a..b][k..k + n], s[a + k..a + k + n];
    forall j | 0 <= j < n ensures x[j] == y[j] {
      assert x[j] == s[a..b][k + j];
    }
  }

  /** Inside a text that is read at `i`, what starts with `close` is the same there. */
  lemma StartsInside(s: Text, i: nat, u: Text, k: nat, close: Text)
    requires Reads(s, i, u) && k + |close| <= |u|
    ensures StartsWith(s, i + k, close) <==> StartsWith(u, k, close)
  {
    SliceInside(s, i, i + |u|, k, |close|);
  }

  /** A text that ends first with `close` does so wherever it is read. */
  lemma CloseFound(s: Text, i: nat, text: Text, close: Text)
    requires Reads(s, i, text + close) && close != [] && EndsFirst(text, close)
    ensures FirstSeq(s, i, close) == Some(i + |text|)
  {
    ReadsPart(s, i, text, close);
    forall k: nat | i <= k < i + |text| ensures !StartsWith(s, k, close) {
      StartsInside(s, i, text + close, k - i, close);
    }
    FirstSeqIs(s, i, close, i + |text|);
  }

  lemma ItemScanned(s: Text, i: nat, item: Item, quote: char)
    requires quote == '"' || quote == '`' || quote == '\''
    requires Reads(s, i, PrintItem(item)) && ItemOk(quote, item)
    ensures QuotedEnd(s, i, quote) == QuotedEnd(s, i + |PrintItem(item)|, quote)
  {
    ReadsAt(s, i, PrintItem(item), 0);
  }

  lemma FirstItem(items: seq<Item>, quote: char)
    requires items != []
    ensures PrintItems(items) + [quote] == PrintItem(items[0]) + (PrintItems(items[1..]) + [quote])
  {
  }

  lemma {:induction false} ItemsScanned(s: Text, i: nat, items: seq<Item>, quote: char)
    requires quote == '"' || quote == '`' || quote == '\''
    requires Reads(s, i, PrintItems(items) + [quote]) && forall k | 0 <= k < |items| :: ItemOk(quote, items[k])
    ensures QuotedEnd(s, i, quote) == i + |PrintItems(items)| + 1
    decreases |items|
  {
    if items == [] {
      ReadsAt(s, i, PrintItems(items) + [quote], 0);
    } else {
      FirstItem(items, quote);
      ReadsPart(s, i, PrintItem(items[0]), PrintItems(items[1..]) + [quote]);
      ItemScanned(s, i, items[0], quote);
      ItemsScanned(s, i + |PrintItem(items[0])|, items[1..], quote);
    }
  }

  /** `s` is `before`, the piece, and `rest`. */
  predicate Stands(s: Text, language: Language, before: Text, p: Piece, rest: Text) {
    s == before + (Print(language, p) + rest)
  }

  lemma StandsReads(s: Text, language: Language, before: Text, p: Piece, rest: Text)
    requires Stands(s, language, before, p, rest)
    ensures Print(language, p) != [] && |before| + |Print(language, p)| <= |s| && |before| < |s|
    ensures Reads(s, |before|, Print(language, p))
    ensures s[|before|] == Print(language, p)[0]
  {
    var text := Print(language, p);
    assert s[|before|..|before| + |text|] == text;
  }

  lemma RestAt(s: Text, a: Text, rest: Text, k: nat, c: char)
    requires s == a + rest
    ensures At(rest, k, c) <==> At(s, |a| + k, c)
  {
  }

  /** The region found where a piece stands: the whole piece, or none if it is code. */
  predicate Found(language: Language, s: Text, i: nat, p: Piece, alphanumeric: char -> bool) {
    i < |s| && RegionEnd(language, s, i, alphanumeric) == if p.Code? then None else Some(i + |Print(language, p)|)
  }

  lemma CodeContext(s: Text, before: Text, c: char, rest: Text)
    requires s == before + ([c] + rest)
    ensures var i := |before|;
      i < |s| && s[i] == c && (i > 0 ==> s[i - 1] == before[i - 1])
      && forall k: nat, d: char :: At(rest, k, d) <==> At(s, i + 1 + k, d)
  {
    forall k: nat, d: char ensures At(rest, k, d) <==> At(s, |before| + 1 + k, d) {
      assert s == (before + [c]) + rest;
      RestAt(s, before + [c], rest, k, d);
    }
  }

  /** In Python, JavaScript and TypeScript a character of code, a regular expression's included, is left alone
      exactly when it is none of the language's quotes and starts none of its comments. */
  lemma CodeLeftExactly(language: Language, s: Text, before: Text, c: char, rest: Text, alphanumeric: char -> bool)
    requires language != Rust && s == before + ([c] + rest)
    ensures |before| < |s| && (RegionEnd(language, s, |before|, alphanumeric) == None <==> CodeOk(language, before, c, rest, alphanumeric))
  {
    CodeContext(s, before, c, rest);
    assert At(rest, 0, '/') <==> At(s, |before| + 1, '/');
    assert At(rest, 0, '*') <==> At(s, |before| + 1, '*');
  }

  lemma FindsRustCode(s: Text, before: Text, c: char, rest: Text, alphanumeric: char -> bool)
    requires s == before + ([c] + rest) && CodeOk(Rust, before, c, rest, alphanumeric)
    ensures |before| < |s| && RegionEnd(Rust, s, |before|, alphanumeric) == None
  {
    var i := |before|;
    CodeContext(s, before, c, rest);
    assert At(rest, 0, '/') <==> At(s, i + 1, '/');
    assert At(rest, 0, '*') <==> At(s, i + 1, '*');
    if c == '\'' {
      assert At(rest, 0, '\\') <==> At(s, i + 1, '\\');
      assert At(rest, 1, '\'') <==> At(s, i + 2, '\'');
    } else if c == 'r' {
      assert At(rest, 0, '"') <==> At(s, i + 1, '"');
      assert At(rest, 0, '#') <==> At(s, i + 1, '#');
      assert At(rest, 1, '"') <==> At(s, i + 2, '"');
      assert At(rest, 1, '#') <==> At(s, i + 2, '#');
      if At(s, i + 1, '#') && !At(s, i + 2, '#') {
        assert Hashes(s, i + 2) == 0 && Hashes(s, i + 1) == 1;
      }
    }
  }

  lemma FindsCode(language: Language, s: Text, before: Text, p: Piece, rest: Text, alphanumeric: char -> bool)
    requires p.Code? && Stands(s, language, before, p, rest) && PieceOk(language, before, p, rest, alphanumeric)
    ensures Found(language, s, |before|, p, alphanumeric)
  {
    if language == Rust {
      FindsRustCode(s, before, p.c, rest, alphanumeric);
    } else {
      CodeLeftExactly(language, s, before, p.c, rest, alphanumeric);
    }
  }

  lemma FindsLineComment(language: Language, s: Text, before: Text, p: Piece, rest: Text, alphanumeric: char -> bool)
    requires p.LineComment? && Stands(s, language, before, p, rest) && PieceOk(language, before, p, rest, alphanumeric)
    ensures Found(language, s, |before|, p, alphanumeric)
  {
    var i, text := |before|, Print(language, p);
    StandsReads(s, language, before, p, rest);
    assert s == (before + text) + rest;
    forall k | i <= k < i + |text| ensures s[k] != '\n' {
      ReadsAt(s, i, text, k - i);
    }
    FirstIs(s, i, '\n', i + |text|);
    ReadsAt(s, i, text, 0);
    if language != Python {
      ReadsAt(s, i, text, 1);
    }
  }

  lemma FindsBlockComment(language: Language, s: Text, before: Text, p: Piece, rest: Text, alphanumeric: char -> bool)
    requires p.BlockComment? && Stands(s, language, before, p, rest) && PieceOk(language, before, p, rest, alphanumeric)
    ensures Found(language, s, |before|, p, alphanumeric)
  {
    var i := |before|;
    StandsReads(s, language, before, p, rest);
    ReadsPart(s, i, "/*", p.text + "*/");
    ReadsAt(s, i, "/*", 0);
    ReadsAt(s, i, "/*", 1);
    CloseFound(s, i + 2, p.text, "*/");
  }

  lemma FindsTriple(language: Language, s: Text, before: Text, p: Piece, rest: Text, alphanumeric: char -> bool)
    requires p.Triple? && Stands(s, language, before, p, rest) && PieceOk(language, before, p, rest, alphanumeric)
    ensures Found(language, s, |before|, p, alphanumeric)
  {
    var i, three := |before|, [p.quote, p.quote, p.quote];
    StandsReads(s, language, before, p, rest);
    ReadsPart(s, i, three, p.text + three);
    ReadsAt(s, i, three, 0);
    ReadsAt(s, i, three, 1);
    ReadsAt(s, i, three, 2);
    CloseFound(s, i + 3, p.text, three);
  }

  lemma FindsChar(language: Language, s: Text, before: Text, p: Piece, rest: Text, alphanumeric: char -> bool)
    requires (p.CharLiteral? || p.EscapedChar?) && Stands(s, language, before, p, rest) && PieceOk(language, before, p, rest, alphanumeric)
    ensures Found(language, s, |before|, p, alphanumeric)
  {
    var i, text := |before|, Print(language, p);
    StandsReads(s, language, before, p, rest);
    ReadsAt(s, i, text, 0);
    ReadsAt(s, i, text, 1);
    ReadsAt(s, i, text, 2);
    if p.EscapedChar? {
      forall k | i + 2 <= k < i + 2 + |p.text| ensures s[k] != '\'' {
        ReadsAt(s, i, text, k - i);
        assert text[k - i] == p.text[k - i - 2];
      }
      ReadsAt(s, i, text, |text| - 1);
      FirstIs(s, i + 2, '\'', i + 2 + |p.text|);
    }
  }

  lemma {:induction false} HashesCounted(s: Text, from: nat, n: nat)
    requires Reads(s, from, HashMarks(n)) && !At(s, from + n, '#')
    ensures Hashes(s, from) == n
    decreases n
  {
    if n > 0 {
      ReadsAt(s, from, HashMarks(n), 0);
      assert HashMarks(n) == ['#'] + HashMarks(n - 1);
      ReadsPart(s, from, ['#'], HashMarks(n - 1));
      HashesCounted(s, from + 1, n - 1);
    }
  }

  /** A raw string's `r`, its hashes, the quote, and the rest, where each is read. */
  lemma ReadsRaw(s: Text, i: nat, n: nat, inside: Text)
    requires Reads(s, i, ("r" + HashMarks(n) + "\"") + inside)
    ensures At(s, i, 'r') && Reads(s, i + 1, HashMarks(n)) && At(s, i + 1 + n, '"') && Reads(s, i + n + 2, inside)
    ensures n > 0 ==> At(s, i + 1, '#')
  {
    ReadsPart(s, i, "r" + HashMarks(n) + "\"", inside);
    ReadsPart(s, i, "r" + HashMarks(n), "\"");
    ReadsPart(s, i, "r", HashMarks(n));
    ReadsAt(s, i, "r", 0);
    ReadsAt(s, i + 1 + n, "\"", 0);
    if n > 0 {
      ReadsAt(s, i + 1, HashMarks(n), 0);
    }
  }

  lemma RawEndsOnce(s: Text, from: nat, n: nat, closing: nat)
    requires from + n < |s| && Hashes(s, from) == n && s[from + n] == '"'
    requires FirstSeq(s, from + n + 1, ['"'] + HashMarks(n)) == Some(closing)
    ensures RawEnd(s, from) == Some(closing + 1 + n)
  {
  }

  lemma RawEnds(s: Text, i: nat, n: nat, text: Text)
    requires Reads(s, i + 1, HashMarks(n)) && At(s, i + 1 + n, '"') && Reads(s, i + n + 2, text + (['"'] + HashMarks(n)))
    requires EndsFirst(text, ['"'] + HashMarks(n))
    ensures RawEnd(s, i + 1) == Some(i + 2 * n + |text| + 3)
  {
    HashesCounted(s, i + 1, n);
    CloseFound(s, i + n + 2, text, ['"'] + HashMarks(n));
    RawEndsOnce(s, i + 1, n, i + n + 2 + |text|);
  }

  lemma RawRegion(s: Text, i: nat, alphanumeric: char -> bool)
    requires At(s, i, 'r') && (At(s, i + 1, '"') || At(s, i + 1, '#')) && (i == 0 || !IsIdent(s[i - 1], alphanumeric))
    ensures RegionEnd(Rust, s, i, alphanumeric) == RawEnd(s, i + 1)
  {
  }

  lemma PrintRaw(p: Piece)
    requires p.Raw?
    ensures |Print(Rust, p)| == 2 * p.hashes + |p.text| + 3
    ensures Print(Rust, p) == ("r" + HashMarks(p.hashes) + "\"") + (p.text + (['"'] + HashMarks(p.hashes)))
  {
  }

  lemma FindsRaw(language: Language, s: Text, before: Text, p: Piece, rest: Text, alphanumeric: char -> bool)
    requires p.Raw? && Stands(s, language, before, p, rest) && PieceOk(language, before, p, rest, alphanumeric)
    ensures Found(language, s, |before|, p, alphanumeric)
  {
    var i, n := |before|, p.hashes;
    StandsReads(s, language, before, p, rest);
    PrintRaw(p);
    ReadsRaw(s, i, n, p.text + (['"'] + HashMarks(n)));
    RawEnds(s, i, n, p.text);
    assert i > 0 ==> s[i - 1] == before[i - 1];
    RawRegion(s, i, alphanumeric);
  }

  lemma FindsQuoted(language: Language, s: Text, before: Text, p: Piece, rest: Text, alphanumeric: char -> bool)
    requires p.Quoted? && Stands(s, language, before, p, rest) && PieceOk(language, before, p, rest, alphanumeric)
    ensures Found(language, s, |before|, p, alphanumeric)
  {
    var i, text := |before|, PrintItems(p.items);
    StandsReads(s, language, before, p, rest);
    ReadsPart(s, i, [p.quote], text + [p.quote]);
    ReadsAt(s, i, [p.quote], 0);
    ItemsScanned(s, i + 1, p.items, p.quote);
    if language == Python {
      NotTriple(s, before, p, rest);
    }
  }

  lemma StartsOtherwise(items: seq<Item>, quote: char)
    requires items != [] && quote != '\\' && ItemOk(quote, items[0])
    ensures PrintItems(items) != [] && PrintItems(items)[0] != quote
  {
  }

  /** A Python string is not taken for one in triple quotes. */
  lemma NotTriple(s: Text, before: Text, p: Piece, rest: Text)
    requires p.Quoted? && Stands(s, Python, before, p, rest) && (forall i | 0 <= i < |p.items| :: ItemOk(p.quote, p.items[i]))
    requires p.items == [] ==> !At(rest, 0, p.quote)
    requires p.quote != '\\'
    ensures !(At(s, |before| + 1, p.quote) && At(s, |before| + 2, p.quote))
  {
    StandsReads(s, Python, before, p, rest);
    if p.items == [] {
      RestAt(s, before + [p.quote, p.quote], rest, 0, p.quote);
    } else {
      StartsOtherwise(p.items, p.quote);
      ReadsPart(s, |before|, [p.quote], PrintItems(p.items) + [p.quote]);
      ReadsAt(s, |before| + 1, PrintItems(p.items) + [p.quote], 0);
    }
  }

  /** Where a piece of a well-formed source stands, the region found is the whole piece, or none if it is
      code. */
  lemma FindsPiece(language: Language, s: Text, before: Text, p: Piece, rest: Text, alphanumeric: char -> bool)
    requires Stands(s, language, before, p, rest) && PieceOk(language, before, p, rest, alphanumeric)
    ensures Found(language, s, |before|, p, alphanumeric)
  {
    match p {
      case Code(_) => FindsCode(language, s, before, p, rest, alphanumeric);
      case LineComment(_) => FindsLineComment(language, s, before, p, rest, alphanumeric);
      case BlockComment(_) => FindsBlockComment(language, s, before, p, rest, alphanumeric);
      case Quoted(_, _) => FindsQuoted(language, s, before, p, rest, alphanumeric);
      case Triple(_, _) => FindsTriple(language, s, before, p, rest, alphanumeric);
      case Raw(_, _) => FindsRaw(language, s, before, p, rest, alphanumeric);
      case _ => FindsChar(language, s, before, p, rest, alphanumeric);
    }
  }

  // ---- Masking a whole source ----

  lemma ReadsChar(s: Text, i: nat, t: Text)
    requires Reads(s, i, t) && |t| == 1
    ensures i < |s| && [s[i]] == t
  {
    ReadsAt(s, i, t, 0);
  }

  /** Masking a text where it is read: kept if it is one character of code, blanked if it is a region. */
  lemma MasksText(language: Language, s: Text, i: nat, t: Text, code: bool, alphanumeric: char -> bool)
    requires t != [] && Reads(s, i, t) && (code ==> |t| == 1)
    requires RegionEnd(language, s, i, alphanumeric) == if code then None else Some(i + |t|)
    ensures MaskedFrom(language, s, i, alphanumeric) == (if code then t else Blanked(t)) + MaskedFrom(language, s, i + |t|, alphanumeric)
  {
    if code {
      ReadsChar(s, i, t);
      MasksChar(language, s, i, alphanumeric);
    } else {
      MasksRegion(language, s, i, i + |t|, alphanumeric);
    }
  }

  lemma ShownIs(language: Language, p: Piece)
    ensures Print(language, p) != [] && (p.Code? ==> |Print(language, p)| == 1)
    ensures Shown(language, p) == if p.Code? then Print(language, p) else Blanked(Print(language, p))
  {
  }

  lemma Apart(s: Text, before: Text, text: Text, rest: Text)
    requires s == before + (text + rest)
    ensures s == before + text + rest && |before + text| == |before| + |text| && Reads(s, |before|, text)
  {
    assert s[|before|..|before| + |text|] == text;
  }

  lemma MasksApart(language: Language, s: Text, before: Text, t: Text, rest: Text, code: bool, alphanumeric: char -> bool)
    requires s == before + (t + rest) && t != [] && (code ==> |t| == 1)
    requires |before| < |s| && RegionEnd(language, s, |before|, alphanumeric) == if code then None else Some(|before| + |t|)
    ensures s == before + t + rest
    ensures MaskedFrom(language, s, |before|, alphanumeric)
      == (if code then t else Blanked(t)) + MaskedFrom(language, s, |before + t|, alphanumeric)
  {
    Apart(s, before, t, rest);
    MasksText(language, s, |before|, t, code, alphanumeric);
  }

  /** Masking from a piece on: the piece, and what follows it. */
  lemma MasksNext(language: Language, s: Text, before: Text, p: Piece, rest: Text, alphanumeric: char -> bool)
    requires Stands(s, language, before, p, rest) && PieceOk(language, before, p, rest, alphanumeric)
    ensures s == before + Print(language, p) + rest
    ensures MaskedFrom(language, s, |before|, alphanumeric)
      == Shown(language, p) + MaskedFrom(language, s, |before + Print(language, p)|, alphanumeric)
  {
    FindsPiece(language, s, before, p, rest, alphanumeric);
    ShownIs(language, p);
    MasksApart(language, s, before, Print(language, p), rest, p.Code?, alphanumeric);
  }

  /** The masked text of what is written as `pieces` after `before`. */
  function MaskedRest(language: Language, before: Text, pieces: seq<Piece>, alphanumeric: char -> bool): Text {
    MaskedFrom(language, before + PrintAll(language, pieces), |before|, alphanumeric)
  }

  lemma MasksFirst(language: Language, before: Text, pieces: seq<Piece>, alphanumeric: char -> bool)
    requires pieces != [] && PieceOk(language, before, pieces[0], PrintAll(language, pieces[1..]), alphanumeric)
    ensures MaskedRest(language, before, pieces, alphanumeric)
      == Shown(language, pieces[0]) + MaskedRest(language, before + Print(language, pieces[0]), pieces[1..], alphanumeric)
  {
    MasksNext(language, before + PrintAll(language, pieces), before, pieces[0], PrintAll(language, pieces[1..]), alphanumeric);
  }

  lemma MasksNone(language: Language, before: Text, alphanumeric: char -> bool)
    ensures MaskedRest(language, before, [], alphanumeric) == []
  {
    assert before + PrintAll(language, []) == before;
  }

  lemma {:induction false} MasksRest(language: Language, before: Text, pieces: seq<Piece>, alphanumeric: char -> bool)
    requires SourceOk(language, before, pieces, alphanumeric)
    ensures MaskedRest(language, before, pieces, alphanumeric) == Intended(language, pieces)
    decreases |pieces|
  {
    if pieces == [] {
      MasksNone(language, before, alphanumeric);
    } else {
      MasksFirst(language, before, pieces, alphanumeric);
      MasksRest(language, before + Print(language, pieces[0]), pieces[1..], alphanumeric);
    }
  }

  /** Masking a well-formed source of any of the languages blanks every comment and literal and leaves
      every character of code. */
  lemma MasksExactly(language: Language, pieces: seq<Piece>, alphanumeric: char -> bool)
    requires SourceOk(language, [], pieces, alphanumeric)
    ensures MaskedFrom(language, PrintAll(language, pieces), 0, alphanumeric) == Intended(language, pieces)
  {
    assert [] + PrintAll(language, pieces) == PrintAll(language, pieces);
    MasksRest(language, [], pieces, alphanumeric);
  }
}
